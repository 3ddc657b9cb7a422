/** A sweep against an upstream that does not change and serves full pages
    (live402/catalog.py, live402/shadow.py): every listing is stamped before the sweep completes,
    and completing retires exactly the listings that are gone. Failed fetches, crashes between
    pages and the work of other sources may come in between. */
module CatalogSweep {
  import opened Collections
  import opened TextOrder
  import opened CatalogStore
  import opened CatalogRuns

  // ---- stamps -------------------------------------------------------------------------------

  function Urls(items: seq<Listing>): set<string> {
    set x | x in items && x.url != "" :: x.url
  }

  predicate Stamp(db: Db, url: string, source: Source, generation: nat) {
    Key(url, source) in db.seen && db.seen[Key(url, source)].generation == Some(generation)
  }

  /** Upserting leaves the other sources' rows, and every row of an URL that is not upserted. */
  ghost predicate Upserted(a: Db, b: Db, urls: set<string>, source: Source, generation: Option<nat>) {
    && b.states == a.states
    && (forall u :: u in b.resources <==> u in a.resources || u in urls)
    && (forall u :: u in urls ==> b.resources[u].active && Key(u, source) in b.seen)
    && (forall u :: u in a.resources && u !in urls ==> b.resources[u] == a.resources[u])
    && (forall k :: k in b.seen <==> k in a.seen || (k.source == source && k.url in urls))
    && (forall k :: k in a.seen && !(k.source == source && k.url in urls) ==> b.seen[k] == a.seen[k])
    && (generation.Some? ==> forall u :: u in urls ==> b.seen[Key(u, source)].generation == generation)
    && (generation.None? ==> forall u :: u in urls ==>
          b.seen[Key(u, source)].generation
          == if Key(u, source) in a.seen then a.seen[Key(u, source)].generation else None)
  }

  lemma UrlsOne(item: Listing)
    ensures Urls([item]) == if item.url == "" then {} else {item.url}
  {
    assert item in [item];
  }

  lemma ReplaceTables(rules: Rules, db: Db, key: Key, now: seq<Claim>)
    ensures var b := ReplaceClaims(rules, db, key, now);
            b.resources == db.resources && b.seen == db.seen && b.states == db.states
  {
  }

  /** The tables after one upsert: one resource and one sighting are set. */
  lemma UpsertTables(rules: Rules, db: Db, item: Listing, source: Source, generation: Option<nat>, ts: int)
    requires item.url != ""
    ensures var b := Upsert(rules, db, item, source, generation, ts);
            var key := Key(item.url, source);
            && b.states == db.states && item.url in b.resources && b.resources[item.url].active
            && b.resources == db.resources[item.url := b.resources[item.url]]
            && b.seen == db.seen[key := Sighting(if generation.Some? then generation
                                                 else if key in db.seen then db.seen[key].generation else None, ts)]
  {
    hide ReplaceClaims;
    var key := Key(item.url, source);
    ReplaceTables(rules, UpsertResource(db, item, key, ts), key, item.claims);
  }

  lemma UpsertDoes(rules: Rules, db: Db, item: Listing, source: Source, generation: Option<nat>, ts: int)
    ensures Upserted(db, Upsert(rules, db, item, source, generation, ts), Urls([item]), source, generation)
  {
    hide Urls, ReplaceClaims, UpsertResource, See;
    UrlsOne(item);
    if item.url != "" { UpsertTables(rules, db, item, source, generation, ts); }
  }

  lemma UpsertedTwice(a: Db, b: Db, c: Db, us: set<string>, vs: set<string>, source: Source, generation: Option<nat>)
    requires Upserted(a, b, us, source, generation) && Upserted(b, c, vs, source, generation)
    ensures Upserted(a, c, us + vs, source, generation)
  {
  }

  lemma UrlsConcat(a: seq<Listing>, b: seq<Listing>)
    ensures Urls(a + b) == Urls(a) + Urls(b)
  {
    assert forall x :: x in a + b <==> x in a || x in b;
  }

  lemma UpsertedNothing(db: Db, source: Source, generation: Option<nat>)
    ensures Upserted(db, db, Urls([]), source, generation)
  {
  }

  lemma {:induction false} UpsertAllDoes(rules: Rules, db: Db, items: seq<Listing>, source: Source,
                                         generation: Option<nat>, ts: int)
    ensures Upserted(db, UpsertAll(rules, db, items, source, generation, ts), Urls(items), source, generation)
    decreases |items|
  {
    hide Upserted, Upsert, Urls;
    if items == [] {
      UpsertedNothing(db, source, generation);
    } else {
      var older, x := items[..|items| - 1], items[|items| - 1];
      var mid := UpsertAll(rules, db, older, source, generation, ts);
      UpsertAllDoes(rules, db, older, source, generation, ts);
      UpsertDoes(rules, mid, x, source, generation, ts);
      UpsertedTwice(db, mid, UpsertAll(rules, db, items, source, generation, ts), Urls(older), Urls([x]), source,
                    generation);
      UrlsConcat(older, [x]);
      assert items == older + [x];
    }
  }

  // ---- retirement ---------------------------------------------------------------------------

  /** Retiring takes the active ones among `urls` that no other source has recently seen. */
  ghost predicate RetiredFrom(rules: Rules, a: Db, b: Db, urls: set<string>, source: Source, ts: int) {
    && b.seen == a.seen && b.states == a.states && b.claims == a.claims && b.resources.Keys == a.resources.Keys
    && forall u :: u in a.resources ==>
         b.resources[u] == if u in urls && a.resources[u].active && !Exempt(a, u, source, ts - rules.horizon)
                           then a.resources[u].(active := false, retiredAt := Some(ts)) else a.resources[u]
  }

  lemma SameSeenExempt(a: Db, b: Db, url: string, source: Source, since: int)
    requires a.seen == b.seen
    ensures Exempt(a, url, source, since) <==> Exempt(b, url, source, since)
  {
  }

  lemma RetireStep(rules: Rules, a: Db, b: Db, urls: set<string>, url: string, source: Source, ts: int)
    requires RetiredFrom(rules, a, b, urls, source, ts)
    ensures RetiredFrom(rules, a, RetireOne(rules, b, url, source, ts), urls + {url}, source, ts)
  {
    hide Exempt;
    var since := ts - rules.horizon;
    forall u ensures Exempt(b, u, source, since) == Exempt(a, u, source, since) {
      SameSeenExempt(a, b, u, source, since);
    }
  }

  lemma {:induction false} RetireAllDoes(rules: Rules, db: Db, urls: seq<string>, source: Source, ts: int)
    ensures RetiredFrom(rules, db, RetireAll(rules, db, urls, source, ts), Members(urls), source, ts)
    decreases |urls|
  {
    hide RetireOne, Exempt;
    if urls != [] {
      var older := urls[..|urls| - 1];
      RetireAllDoes(rules, db, older, source, ts);
      RetireStep(rules, db, RetireAll(rules, db, older, source, ts), Members(older), urls[|urls| - 1], source, ts);
      assert Members(urls) == Members(older) + {urls[|urls| - 1]};
    }
  }

  lemma FinishDoes(rules: Rules, db: Db, source: Source, ts: int)
    ensures var b := Finish(rules, db, source, ts);
            && RetiredFrom(rules, db, b.(states := db.states), Candidates(db, source, StateOf(db, source).generation),
                           source, ts)
            && b.states
               == db.states[source := StateOf(db, source).(completed := Some(ts), cursor := 0, started := None)]
  {
    hide RetireAll, Sorted, Candidates, Exempt;
    var urls := Candidates(db, source, StateOf(db, source).generation);
    RetireAllDoes(rules, db, Sorted(urls), source, ts);
    SortedMembers(urls);
  }

  // ---- a static upstream --------------------------------------------------------------------

  function Min(a: nat, b: nat): nat {
    if a < b then a else b
  }

  function PageAt(upstream: seq<Listing>, limit: nat, offset: nat): seq<Listing> {
    upstream[Min(offset, |upstream|)..Min(offset + limit, |upstream|)]
  }

  /** What an upstream with its own limit answers to a request at an offset. */
  function Serve(upstream: seq<Listing>, limit: nat, offset: nat): Fetch {
    Page(PageAt(upstream, limit, offset), Some(Pagination(Some(limit), Some(offset), Some(|upstream|))))
  }

  /** How a dropped page arrives. */
  const DROPPED := Page([], None)

  /** How many listings of a full page are stored. */
  function Width(limit: nat): nat {
    Min(limit, 100)
  }

  /** Is the listing at this position stored by a sweep that moves by `limit`? */
  predicate Stores(limit: nat, p: nat)
    requires limit >= 1
  {
    p % limit < 100
  }

  /** The stored ones among the first n listings. */
  function Stored(upstream: seq<Listing>, limit: nat, n: nat): seq<Listing>
    requires limit >= 1
  {
    if n == 0 then []
    else Stored(upstream, limit, n - 1)
         + if n - 1 < |upstream| && Stores(limit, n - 1) then [upstream[n - 1]] else []
  }

  lemma {:induction false} Times(a: nat, b: nat, limit: nat)
    requires a < b
    ensures limit * b >= limit * a + limit
  {
    assert limit * b == limit * (b - 1) + limit;
    if a < b - 1 { Times(a, b - 1, limit); }
  }

  /** Inside a page the remainder is the position in it. */
  lemma InPage(c: nat, k: nat, limit: nat)
    requires k < limit && c % limit == 0
    ensures (c + k) % limit == k
  {
    var q, r := (c + k) / limit, (c + k) % limit;
    assert c == limit * (c / limit) && c + k == limit * q + r;
    if q < c / limit { Times(q, c / limit, limit); }
    if q > c / limit { Times(c / limit, q, limit); }
  }

  lemma NextPage(c: nat, limit: nat)
    requires limit >= 1 && c % limit == 0
    ensures (c + limit) % limit == 0
  {
    var q := c / limit;
    assert c + limit == limit * (q + 1);
    Multiple(q + 1, limit);
  }

  lemma Multiple(q: nat, limit: nat)
    requires limit >= 1
    ensures (limit * q) % limit == 0
  {
    var x := limit * q;
    var d, r := x / limit, x % limit;
    assert x == limit * d + r;
    if d < q { Times(d, q, limit); }
    if d > q { Times(q, d, limit); }
  }

  lemma {:induction false} StoredPart(upstream: seq<Listing>, limit: nat, c: nat, k: nat)
    requires limit >= 1 && c % limit == 0 && k <= limit
    ensures Stored(upstream, limit, c + k) == Stored(upstream, limit, c) + PageAt(upstream, Width(k), c)
  {
    if k == 0 {
    } else {
      StoredPart(upstream, limit, c, k - 1);
      InPage(c, k - 1, limit);
    }
  }

  /** A page adds the listings that are stored from it. */
  lemma StoredPage(upstream: seq<Listing>, limit: nat, c: nat)
    requires limit >= 1 && c % limit == 0
    ensures Stored(upstream, limit, c + limit) == Stored(upstream, limit, c) + PageAt(upstream, Width(limit), c)
  {
    StoredPart(upstream, limit, c, limit);
  }

  lemma {:induction false} StoredAll(upstream: seq<Listing>, limit: nat, n: nat)
    requires limit >= 1 && n >= |upstream|
    ensures Stored(upstream, limit, n) == Stored(upstream, limit, |upstream|)
  {
    if n > |upstream| { StoredAll(upstream, limit, n - 1); }
  }

  /** Exactly these listings carry the generation's stamp. */
  ghost predicate Stamped(db: Db, source: Source, generation: nat, urls: set<string>) {
    forall u :: Stamp(db, u, source, generation) <==> u in urls
  }

  /** Sweep `generation` is under way: the stamped listings are the stored ones before the cursor. */
  ghost predicate Sweeping(db: Db, source: Source, generation: nat, upstream: seq<Listing>, limit: nat)
    requires limit >= 1
  {
    var st := StateOf(db, source);
    && st.generation == generation && st.started.Some?
    && (st.cursor == 0 || st.cursor < |upstream|) && st.cursor % limit == 0
    && Stamped(db, source, generation, Urls(Stored(upstream, limit, st.cursor)))
  }

  /** Active in a, of this source, not stamped, and not recently seen by another source. */
  predicate Gone(a: Db, url: string, source: Source, stamped: set<string>, since: int)
    requires url in a.resources
  {
    a.resources[url].active && Key(url, source) in a.seen && url !in stamped && !Exempt(a, url, source, since)
  }

  /** Exactly the gone ones are retired; the listings of the last page are active. */
  ghost predicate RetiresGone(a: Db, b: Db, source: Source, last: set<string>, stamped: set<string>,
                              since: int, ts: int) {
    && (forall u :: u in b.resources <==> u in a.resources || u in last)
    && (forall u :: u in last ==> b.resources[u].active)
    && forall u :: u in a.resources && u !in last ==>
         b.resources[u] == if Gone(a, u, source, stamped, since)
                           then a.resources[u].(active := false, retiredAt := Some(ts)) else a.resources[u]
  }

  /** The sweep that just completed, from the state before its last page: exactly these listings
      carry the generation, and the retired ones are those of this source that were active and are
      not among them, unless another source has stamped and recently seen them. */
  ghost predicate Swept(rules: Rules, a: Db, b: Db, source: Source, generation: nat, stamped: set<string>,
                        last: set<string>, ts: int) {
    && StateOf(b, source).generation == generation && StateOf(b, source).started == None
    && Stamped(b, source, generation, stamped) && last <= stamped
    && RetiresGone(a, b, source, last, stamped, ts - rules.horizon, ts)
  }

  /** Beginning a sweep: nothing carries its generation yet. */
  lemma BeginSweeps(db: Db, source: Source, ts: int, upstream: seq<Listing>, limit: nat)
    requires NoFuture(db) && limit >= 1
    ensures Sweeping(Begin(db, source, ts), source, StateOf(db, source).generation + 1, upstream, limit)
  {
    var b := Begin(db, source, ts);
    var g := StateOf(db, source).generation + 1;
    assert Stored(upstream, limit, 0) == [] && Urls([]) == {};
    forall u ensures !Stamp(b, u, source, g) {
      assert Key(u, source) in b.seen ==> Key(u, source) in db.seen;
    }
  }

  // ---- one page -----------------------------------------------------------------------------

  lemma UpsertedStamps(a: Db, b: Db, source: Source, generation: nat, was: set<string>, urls: set<string>)
    requires Upserted(a, b, urls, source, Some(generation)) && Stamped(a, source, generation, was)
    ensures Stamped(b, source, generation, was + urls)
  {
    forall u ensures Stamp(b, u, source, generation) <==> u in was + urls {
      assert Stamp(a, u, source, generation) <==> u in was;
    }
  }

  lemma SetStateKeeps(db: Db, source: Source, st: SourceState)
    ensures StateOf(SetState(db, source, st), source) == st
    ensures forall generation, urls :: Stamped(db, source, generation, urls)
              ==> Stamped(SetState(db, source, st), source, generation, urls)
  {
    var b := SetState(db, source, st);
    forall generation, urls | Stamped(db, source, generation, urls) ensures Stamped(b, source, generation, urls) {
      forall u ensures Stamp(b, u, source, generation) == Stamp(db, u, source, generation) {}
    }
  }

  /** The state after a served page is stored. */
  function Kept(rules: Rules, db: Db, source: Source, upstream: seq<Listing>, limit: nat, ts: int): Db {
    var st := StateOf(db, source);
    UpsertAll(rules, db, PageAt(upstream, Width(limit), st.cursor), source, Some(st.generation), ts)
  }

  /** ... and the cursor moved. */
  function Moved(rules: Rules, db: Db, source: Source, upstream: seq<Listing>, limit: nat, ts: int): Db {
    var st := StateOf(db, source);
    SetState(Kept(rules, db, source, upstream, limit, ts), source,
             st.(cursor := st.cursor + limit, total := Some(|upstream|)))
  }

  lemma Prefix<T>(s: seq<T>, i: nat, j: nat, n: nat)
    requires i + n <= j <= |s|
    ensures s[i..j][..n] == s[i..i + n]
  {
  }

  lemma StoredFromPage(upstream: seq<Listing>, limit: nat, offset: nat)
    requires limit >= 1
    ensures var page := PageAt(upstream, limit, offset);
            && FirstPage(page) == PageAt(upstream, Width(limit), offset)
            && (page == [] <==> offset >= |upstream|) && (FirstPage(page) == [] <==> offset >= |upstream|)
            && |page| <= limit && |FirstPage(page)| <= limit
            && (offset + |page| >= |upstream| <==> offset + limit >= |upstream|)
  {
    var page := PageAt(upstream, limit, offset);
    if |page| > PAGE_SIZE {
      assert offset + PAGE_SIZE <= |upstream|;
      Prefix(upstream, offset, Min(offset + limit, |upstream|), PAGE_SIZE);
    } else {
      assert page == PageAt(upstream, Width(limit), offset);
    }
  }

  /** A trickle step on a served page stores its first 100 listings, moves the cursor by the
      upstream's limit, and completes exactly when the cursor reaches the end. */
  lemma TrickleIs(rules: Rules, db: Db, source: Source, upstream: seq<Listing>, limit: nat, ts: int)
    requires StateOf(db, source).started.Some? && StateOf(db, source).generation >= 1 && limit >= 1
    ensures var st := StateOf(db, source);
            var moved := Moved(rules, db, source, upstream, limit, ts);
            Trickle(rules, db, source, Serve(upstream, limit, st.cursor), ts)
            == if st.cursor + limit >= |upstream| then Finish(rules, moved, source, ts) else moved
  {
    hide UpsertAll, Finish, FirstPage, PageAt, Width, SetState;
    StoredFromPage(upstream, limit, StateOf(db, source).cursor);
  }

  /** The stored page: its listings carry the generation. */
  lemma PageStamps(rules: Rules, db: Db, source: Source, generation: nat, upstream: seq<Listing>, limit: nat, ts: int)
    requires limit >= 1 && Sweeping(db, source, generation, upstream, limit)
    ensures var cursor := StateOf(db, source).cursor;
            var k := Kept(rules, db, source, upstream, limit, ts);
            var page := Urls(PageAt(upstream, Width(limit), cursor));
            var stored := Urls(Stored(upstream, limit, cursor + limit));
            && Upserted(db, k, page, source, Some(generation)) && page <= stored
            && Stamped(k, source, generation, stored)
            && Stamped(Moved(rules, db, source, upstream, limit, ts), source, generation, stored)
  {
    hide UpsertAll, Urls, PageAt, Stored, Stamped, Upserted, SetState, Width;
    var cursor := StateOf(db, source).cursor;
    var items := PageAt(upstream, Width(limit), cursor);
    var k := Kept(rules, db, source, upstream, limit, ts);
    UpsertAllDoes(rules, db, items, source, Some(generation), ts);
    StoredPage(upstream, limit, cursor);
    UrlsConcat(Stored(upstream, limit, cursor), items);
    UpsertedStamps(db, k, source, generation, Urls(Stored(upstream, limit, cursor)), Urls(items));
    SetStateKeeps(k, source, StateOf(db, source).(cursor := cursor + limit, total := Some(|upstream|)));
  }

  lemma MovedSweeps(rules: Rules, db: Db, source: Source, generation: nat, upstream: seq<Listing>, limit: nat, ts: int)
    requires limit >= 1 && Sweeping(db, source, generation, upstream, limit)
    requires StateOf(db, source).cursor + limit < |upstream|
    ensures Sweeping(Moved(rules, db, source, upstream, limit, ts), source, generation, upstream, limit)
  {
    hide UpsertAll, Urls, PageAt, Stored, Stamped, Upserted;
    PageStamps(rules, db, source, generation, upstream, limit, ts);
    NextPage(StateOf(db, source).cursor, limit);
  }

  lemma SameExempt(a: Db, b: Db, urls: set<string>, source: Source, generation: Option<nat>, since: int)
    requires Upserted(a, b, urls, source, generation)
    ensures forall u :: Exempt(a, u, source, since) <==> Exempt(b, u, source, since)
  {
    forall u ensures Exempt(a, u, source, since) <==> Exempt(b, u, source, since) {
      forall other: Source | other != source
        ensures Key(u, other) in a.seen <==> Key(u, other) in b.seen
        ensures Key(u, other) in a.seen ==> a.seen[Key(u, other)] == b.seen[Key(u, other)]
      {
      }
    }
  }

  lemma NotStamped(m: Db, source: Source, generation: nat, stamped: set<string>, url: string)
    requires Stamped(m, source, generation, stamped)
    ensures url in Candidates(m, source, generation)
            <==> url in m.resources && m.resources[url].active && Key(url, source) in m.seen && url !in stamped
  {
    assert Stamp(m, url, source, generation) <==> url in stamped;
  }

  /** From the stored last page and the retirement to the whole step. */
  lemma RetirementIsExact(rules: Rules, a: Db, k: Db, m: Db, b: Db, source: Source, generation: nat,
                          last: set<string>, stamped: set<string>, ts: int)
    requires Upserted(a, k, last, source, Some(generation)) && last <= stamped
    requires m == k.(states := m.states) && Stamped(m, source, generation, stamped)
    requires RetiredFrom(rules, m, b, Candidates(m, source, generation), source, ts)
    ensures RetiresGone(a, b, source, last, stamped, ts - rules.horizon, ts)
  {
    var since := ts - rules.horizon;
    SameExempt(a, k, last, source, Some(generation), since);
    hide Stamped, Candidates;
    forall u ensures Exempt(a, u, source, since) <==> Exempt(m, u, source, since) {
      assert Exempt(a, u, source, since) <==> Exempt(k, u, source, since);
    }
    hide Exempt;
    forall u ensures u in Candidates(m, source, generation)
                     <==> u in m.resources && m.resources[u].active && Key(u, source) in m.seen && u !in stamped {
      NotStamped(m, source, generation, stamped, u);
    }
  }

  lemma SameSeen(rules: Rules, m: Db, r: Db, b: Db, source: Source, generation: nat, stamped: set<string>, ts: int)
    requires RetiredFrom(rules, m, r, Candidates(m, source, generation), source, ts) && b.seen == r.seen
    requires Stamped(m, source, generation, stamped)
    ensures Stamped(b, source, generation, stamped)
  {
    hide Candidates, Exempt;
    forall u ensures Stamp(b, u, source, generation) == Stamp(m, u, source, generation) {}
  }

  lemma SameResources(a: Db, r: Db, b: Db, source: Source, last: set<string>, stamped: set<string>, since: int, ts: int)
    requires RetiresGone(a, r, source, last, stamped, since, ts) && b.resources == r.resources
    ensures RetiresGone(a, b, source, last, stamped, since, ts)
  {
    hide Gone;
  }

  /** Finishing after the last page k was stored and its state set. */
  lemma FinishSweeps(rules: Rules, a: Db, k: Db, m: Db, source: Source, generation: nat,
                     last: set<string>, stamped: set<string>, ts: int)
    requires Upserted(a, k, last, source, Some(generation)) && last <= stamped
    requires m == k.(states := m.states) && Stamped(m, source, generation, stamped)
    requires StateOf(m, source).generation == generation
    ensures Swept(rules, a, Finish(rules, m, source, ts), source, generation, stamped, last, ts)
  {
    hide Finish, Stamped, Upserted, Candidates, RetiresGone, RetiredFrom;
    var b := Finish(rules, m, source, ts);
    var r := b.(states := m.states);
    FinishDoes(rules, m, source, ts);
    RetirementIsExact(rules, a, k, m, r, source, generation, last, stamped, ts);
    SameSeen(rules, m, r, b, source, generation, stamped, ts);
    SameResources(a, r, b, source, last, stamped, ts - rules.horizon, ts);
  }

  // ---- the end of a sweep -------------------------------------------------------------------

  /** How far the sweep came that this fetch completes. */
  function End(a: Db, source: Source, upstream: seq<Listing>, fetched: Fetch): nat {
    if fetched == DROPPED then StateOf(a, source).cursor else |upstream|
  }

  function LastPage(a: Db, source: Source, upstream: seq<Listing>, limit: nat, fetched: Fetch): set<string> {
    if fetched == DROPPED then {} else Urls(PageAt(upstream, Width(limit), StateOf(a, source).cursor))
  }

  /** What this fetch completes: the stored listings up to the end are stamped and the rest retired. */
  ghost predicate Completes(rules: Rules, a: Db, b: Db, source: Source, generation: nat, upstream: seq<Listing>,
                            limit: nat, fetched: Fetch, ts: int)
    requires limit >= 1
  {
    Swept(rules, a, b, source, generation, Urls(Stored(upstream, limit, End(a, source, upstream, fetched))),
          LastPage(a, source, upstream, limit, fetched), ts)
  }

  lemma ServedCompletes(rules: Rules, db: Db, source: Source, generation: nat, upstream: seq<Listing>, limit: nat,
                        ts: int)
    requires limit >= 1 && Sweeping(db, source, generation, upstream, limit)
    requires StateOf(db, source).cursor + limit >= |upstream|
    ensures Completes(rules, db, Finish(rules, Moved(rules, db, source, upstream, limit, ts), source, ts), source,
                      generation, upstream, limit, Serve(upstream, limit, StateOf(db, source).cursor), ts)
  {
    hide UpsertAll, Urls, PageAt, Stored, Finish, Stamped, Upserted, RetiresGone, Width;
    var cursor := StateOf(db, source).cursor;
    PageStamps(rules, db, source, generation, upstream, limit, ts);
    StoredAll(upstream, limit, cursor + limit);
    FinishSweeps(rules, db, Kept(rules, db, source, upstream, limit, ts), Moved(rules, db, source, upstream, limit, ts),
                 source, generation, Urls(PageAt(upstream, Width(limit), cursor)),
                 Urls(Stored(upstream, limit, |upstream|)), ts);
  }

  lemma DroppedIs(rules: Rules, db: Db, source: Source, ts: int)
    requires StateOf(db, source).started.Some? && StateOf(db, source).generation >= 1
    ensures Trickle(rules, db, source, DROPPED, ts)
            == Finish(rules, SetState(db, source, StateOf(db, source)), source, ts)
  {
    hide Finish;
    assert FirstPage([]) == [];
  }

  /** A dropped page arrives as an empty one without pagination and is taken for the last. */
  lemma EmptyPageEndsTheSweep(rules: Rules, db: Db, source: Source, generation: nat, upstream: seq<Listing>,
                              limit: nat, ts: int)
    requires limit >= 1 && Sweeping(db, source, generation, upstream, limit) && generation >= 1
    ensures Swept(rules, db, Trickle(rules, db, source, DROPPED, ts), source, generation,
                  Urls(Stored(upstream, limit, StateOf(db, source).cursor)), {}, ts)
  {
    hide Trickle, Finish, Urls, Stored, Stamped, RetiresGone, Upserted;
    DroppedIs(rules, db, source, ts);
    var st := StateOf(db, source);
    SetStateKeeps(db, source, st);
    NoPage(db, source, generation);
    FinishSweeps(rules, db, db, SetState(db, source, st), source, generation, {},
                 Urls(Stored(upstream, limit, st.cursor)), ts);
  }

  lemma NoPage(db: Db, source: Source, generation: nat)
    ensures Upserted(db, db, {}, source, Some(generation))
  {
  }

  // ---- whole sweeps -------------------------------------------------------------------------

  /** The source's fetches return the true page, fail or are dropped; nobody else begins, completes
      or feeds this source's sweep. Anything may happen to the other sources. */
  predicate Faithful(db: Db, act: Act, source: Source, upstream: seq<Listing>, limit: nat) {
    match act
    case DoUpsert(_, _, _) => true
    case DoBegin(s, _) => s != source
    case DoComplete(s, _) => s != source
    case DoPage(s, _, _, _, _, _, _) => s != source
    case DoTrickle(s, fetched, _) =>
      || s != source || fetched.Failed? || fetched == DROPPED
      || fetched == Serve(upstream, limit, NextOffset(db, source))
  }

  /** Steps that leave the source's stamps and state alone. */
  ghost predicate Untouched(a: Db, b: Db, source: Source) {
    StateOf(b, source) == StateOf(a, source)
    && forall u, g :: Stamp(b, u, source, g) <==> Stamp(a, u, source, g)
  }

  lemma UntouchedSweeps(a: Db, b: Db, source: Source, generation: nat, upstream: seq<Listing>, limit: nat)
    requires limit >= 1 && Untouched(a, b, source) && Sweeping(a, source, generation, upstream, limit)
    ensures Sweeping(b, source, generation, upstream, limit)
  {
    hide Urls, Stored;
    var urls := Urls(Stored(upstream, limit, StateOf(a, source).cursor));
    forall u ensures Stamp(b, u, source, generation) <==> u in urls {
      assert Stamp(a, u, source, generation) <==> u in urls;
    }
  }

  lemma UpsertUntouched(rules: Rules, db: Db, item: Listing, s: Source, ts: int, source: Source)
    ensures Untouched(db, Upsert(rules, db, item, s, None, ts), source)
  {
    UpsertDoes(rules, db, item, s, None, ts);
    hide Upsert, Urls;
    var b := Upsert(rules, db, item, s, None, ts);
    forall u, g ensures Stamp(b, u, source, g) <==> Stamp(db, u, source, g) {
      assert Key(u, source) in b.seen ==> Key(u, source) in db.seen || (s == source && u in Urls([item]));
    }
  }

  lemma UpsertAllUntouched(rules: Rules, db: Db, items: seq<Listing>, s: Source, generation: Option<nat>, ts: int,
                           source: Source)
    requires s != source
    ensures Untouched(db, UpsertAll(rules, db, items, s, generation, ts), source)
  {
    UpsertAllDoes(rules, db, items, s, generation, ts);
    hide UpsertAll, Urls;
    var b := UpsertAll(rules, db, items, s, generation, ts);
    forall u, g ensures Stamp(b, u, source, g) <==> Stamp(db, u, source, g) {
      assert Key(u, source) in b.seen <==> Key(u, source) in db.seen;
    }
  }

  lemma SetStateUntouched(db: Db, s: Source, st: SourceState, source: Source)
    requires s != source
    ensures Untouched(db, SetState(db, s, st), source)
  {
  }

  lemma FinishUntouched(rules: Rules, db: Db, s: Source, ts: int, source: Source)
    requires s != source
    ensures Untouched(db, Finish(rules, db, s, ts), source)
  {
    FinishDoes(rules, db, s, ts);
    hide Finish, Candidates, Exempt;
  }

  lemma UntouchedTwice(a: Db, b: Db, c: Db, source: Source)
    requires Untouched(a, b, source) && Untouched(b, c, source)
    ensures Untouched(a, c, source)
  {
  }

  lemma PageUntouched(rules: Rules, db: Db, s: Source, items: seq<Listing>, offset: int, last: bool,
                      total: Option<nat>, step: int, ts: int, source: Source)
    requires s != source
    ensures Untouched(db, IngestPage(rules, db, s, items, offset, last, total, step, ts), source)
  {
    hide Untouched, UpsertAll, Finish, SetState;
    var begun := Started(db, s, ts);
    var st := StateOf(begun, s);
    var stored := UpsertAll(rules, begun, items, s, Some(st.generation), ts);
    var cursor := Max(offset, 0) + if step < 1 then |items| else step;
    var moved := SetState(stored, s, st.(cursor := cursor, total := if total.Some? then total else st.total));
    StartedUntouched(db, s, ts, source);
    UpsertAllUntouched(rules, begun, items, s, Some(st.generation), ts, source);
    SetStateUntouched(stored, s, st.(cursor := cursor, total := if total.Some? then total else st.total), source);
    FinishUntouched(rules, moved, s, ts, source);
    UntouchedTwice(db, begun, stored, source);
    UntouchedTwice(db, stored, moved, source);
    UntouchedTwice(db, moved, Finish(rules, moved, s, ts), source);
  }

  lemma StartedUntouched(db: Db, s: Source, ts: int, source: Source)
    requires s != source
    ensures Untouched(db, Started(db, s, ts), source)
  {
  }

  /** What the other sources do leaves a sweep alone. */
  lemma OthersUntouched(rules: Rules, db: Db, act: Act, source: Source)
    requires act.DoUpsert? || act.source != source
    ensures Untouched(db, Step(rules, db, act), source)
  {
    hide Untouched, Upsert, Finish, IngestPage, IsLast, Started, SetState;
    UntouchedItself(db, source);
    match act
    case DoUpsert(item, s, ts) => UpsertUntouched(rules, db, item, s, ts, source);
    case DoBegin(s, ts) => SetStateUntouched(db, s, BeginState(db, s, ts), source);
    case DoComplete(s, ts) => FinishUntouched(rules, db, s, ts, source);
    case DoPage(s, items, offset, last, total, step, ts) =>
      PageUntouched(rules, db, s, items, offset, last, total, step, ts, source);
    case DoTrickle(s, fetched, ts) => TrickleUntouched(rules, db, s, fetched, ts, source);
  }

  function BeginState(db: Db, source: Source, ts: int): SourceState {
    StateOf(db, source).(generation := StateOf(db, source).generation + 1, cursor := 0, started := Some(ts))
  }

  lemma UntouchedItself(db: Db, source: Source)
    ensures Untouched(db, db, source)
  {
  }

  lemma TrickleUntouched(rules: Rules, db: Db, s: Source, fetched: Fetch, ts: int, source: Source)
    requires s != source
    ensures Untouched(db, Trickle(rules, db, s, fetched, ts), source)
  {
    hide Untouched, IngestPage, IsLast, SetState, FirstPage;
    UntouchedItself(db, source);
    SetStateUntouched(db, s, BeginState(db, s, ts), source);
    var begun := if StateOf(db, s).started.None? then Begin(db, s, ts) else db;
    if fetched.Page? {
      var slim := FirstPage(fetched.items);
      var total := TotalOf(fetched.pagination);
      var step := StepOf(|slim|, fetched.pagination);
      var offset := StateOf(begun, s).cursor;
      var last := IsLast(|fetched.items|, fetched.pagination)
                  || (total.Some? && offset + Max(step, |slim|) >= total.value) || |slim| == 0;
      PageUntouched(rules, begun, s, slim, offset, last, total, step, ts, source);
      UntouchedTwice(db, begun, IngestPage(rules, begun, s, slim, offset, last, total, step, ts), source);
    }
  }

  /** One faithful step of a sweep: it goes on, a served page moving the cursor by the limit, or it
      completes. */
  lemma SweepStep(rules: Rules, db: Db, act: Act, source: Source, generation: nat, upstream: seq<Listing>, limit: nat)
    requires limit >= 1 && generation >= 1
    requires Sweeping(db, source, generation, upstream, limit) && Faithful(db, act, source, upstream, limit)
    ensures var b := Step(rules, db, act);
            if StateOf(b, source).started.Some? then
              Sweeping(b, source, generation, upstream, limit)
              && (act.DoTrickle? && act.source == source && act.fetched.Page? ==>
                    StateOf(b, source).cursor == StateOf(db, source).cursor + limit)
            else act.DoTrickle? && Completes(rules, db, b, source, generation, upstream, limit, act.fetched, act.ts)
  {
    hide Trickle, Finish, Moved, Swept, Upsert, IngestPage, Begin, Complete, Untouched, Urls, Stored, PageAt, Stamped;
    var b := Step(rules, db, act);
    if act.DoUpsert? || act.source != source {
      OthersUntouched(rules, db, act, source);
      UntouchedSweeps(db, b, source, generation, upstream, limit);
      UntouchedState(db, b, source);
    } else if act.fetched.Failed? {
      FailedFetch(rules, db, source, act.ts);
    } else if act.fetched == DROPPED {
      EmptyPageEndsTheSweep(rules, db, source, generation, upstream, limit, act.ts);
      SweptState(rules, db, b, source, generation, Urls(Stored(upstream, limit, StateOf(db, source).cursor)), {},
                 act.ts);
    } else {
      TrickleIs(rules, db, source, upstream, limit, act.ts);
      MovedState(rules, db, source, upstream, limit, act.ts);
      if StateOf(db, source).cursor + limit >= |upstream| {
        ServedCompletes(rules, db, source, generation, upstream, limit, act.ts);
        SweptState(rules, db, b, source, generation, Urls(Stored(upstream, limit, |upstream|)),
                   LastPage(db, source, upstream, limit, act.fetched), act.ts);
      } else {
        MovedSweeps(rules, db, source, generation, upstream, limit, act.ts);
      }
    }
  }

  lemma UntouchedState(a: Db, b: Db, source: Source)
    requires Untouched(a, b, source)
    ensures StateOf(b, source) == StateOf(a, source)
  {
  }

  lemma FailedFetch(rules: Rules, db: Db, source: Source, ts: int)
    requires StateOf(db, source).started.Some?
    ensures Trickle(rules, db, source, Failed, ts) == db
  {
  }

  lemma MovedState(rules: Rules, db: Db, source: Source, upstream: seq<Listing>, limit: nat, ts: int)
    ensures StateOf(Moved(rules, db, source, upstream, limit, ts), source)
            == StateOf(db, source).(cursor := StateOf(db, source).cursor + limit, total := Some(|upstream|))
  {
    hide UpsertAll;
  }

  lemma SweptState(rules: Rules, a: Db, b: Db, source: Source, generation: nat, stamped: set<string>,
                   last: set<string>, ts: int)
    requires Swept(rules, a, b, source, generation, stamped, last, ts)
    ensures StateOf(b, source).started == None
  {
  }

  /** Every step of a run is faithful. */
  ghost predicate FaithfulRun(rules: Rules, db: Db, acts: seq<Act>, source: Source, upstream: seq<Listing>,
                              limit: nat) {
    forall i :: 0 <= i < |acts| ==> Faithful(Run(rules, db, acts[..i]), acts[i], source, upstream, limit)
  }

  /** The sweep has not completed before step n. */
  ghost predicate StillGoing(rules: Rules, db: Db, acts: seq<Act>, source: Source, n: nat) {
    forall i :: 0 <= i <= n && i <= |acts| ==> StateOf(Run(rules, db, acts[..i]), source).started.Some?
  }

  lemma {:induction false} SweepGoesOn(rules: Rules, db: Db, acts: seq<Act>, source: Source, generation: nat,
                                       upstream: seq<Listing>, limit: nat, n: nat)
    requires limit >= 1 && generation >= 1 && n <= |acts| && Sweeping(db, source, generation, upstream, limit)
    requires FaithfulRun(rules, db, acts, source, upstream, limit) && StillGoing(rules, db, acts, source, n)
    ensures Sweeping(Run(rules, db, acts[..n]), source, generation, upstream, limit)
    decreases n
  {
    hide Sweeping, Step, Faithful, StateOf, Completes;
    if n == 0 {
      assert acts[..0] == [];
    } else {
      SweepGoesOn(rules, db, acts, source, generation, upstream, limit, n - 1);
      assert acts[..n][..n - 1] == acts[..n - 1];
      var mid := Run(rules, db, acts[..n - 1]);
      assert StateOf(Run(rules, db, acts[..n]), source).started.Some?;
      SweepStep(rules, mid, acts[n - 1], source, generation, upstream, limit);
    }
  }

  /** A sweep of the source that begins in a reachable state, and what runs until it completes. */
  ghost predicate WholeSweep(rules: Rules, before: seq<Act>, source: Source, ts: int, acts: seq<Act>,
                             upstream: seq<Listing>, limit: nat) {
    var start := Begin(Run(rules, EMPTY, before), source, ts);
    && acts != [] && limit >= 1
    && FaithfulRun(rules, start, acts, source, upstream, limit)
    && StillGoing(rules, start, acts, source, |acts| - 1)
    && StateOf(Run(rules, start, acts), source).started.None?
  }

  /** The state before the step that completes the sweep. */
  function BeforeLast(rules: Rules, before: seq<Act>, source: Source, ts: int, acts: seq<Act>): Db
    requires acts != []
  {
    Run(rules, Begin(Run(rules, EMPTY, before), source, ts), acts[..|acts| - 1])
  }

  function AfterLast(rules: Rules, before: seq<Act>, source: Source, ts: int, acts: seq<Act>): Db {
    Run(rules, Begin(Run(rules, EMPTY, before), source, ts), acts)
  }

  function NewGeneration(rules: Rules, before: seq<Act>, source: Source): nat {
    StateOf(Run(rules, EMPTY, before), source).generation + 1
  }

  lemma SoundStamps(db: Db)
    requires Sound(db)
    ensures NoFuture(db)
  {
  }

  /** While the sweep goes on, the stamped listings are exactly the stored ones before the cursor. */
  lemma SweepUnderWay(rules: Rules, before: seq<Act>, source: Source, ts: int, acts: seq<Act>,
                      upstream: seq<Listing>, limit: nat, n: nat)
    requires var start := Begin(Run(rules, EMPTY, before), source, ts);
             && limit >= 1 && n <= |acts| && FaithfulRun(rules, start, acts, source, upstream, limit)
             && StillGoing(rules, start, acts, source, n)
    ensures Sweeping(Run(rules, Begin(Run(rules, EMPTY, before), source, ts), acts[..n]), source,
                     NewGeneration(rules, before, source), upstream, limit)
  {
    hide Sound, Sweeping, Step, Faithful, Begin, FaithfulRun, StillGoing;
    var was := Run(rules, EMPTY, before);
    RunsAreSound(rules, before);
    SoundStamps(was);
    BeginSweeps(was, source, ts, upstream, limit);
    SweepGoesOn(rules, Begin(was, source, ts), acts, source, StateOf(was, source).generation + 1, upstream, limit, n);
  }

  /** From any reachable state: after a sweep begins, whatever runs in between, the step that
      completes it leaves exactly the stored listings up to its end stamped, and retires exactly the
      active ones of the source that are not among them and not exempt. */
  lemma CompletedSweepRetiresTheGone(rules: Rules, before: seq<Act>, source: Source, ts: int, acts: seq<Act>,
                                     upstream: seq<Listing>, limit: nat)
    requires WholeSweep(rules, before, source, ts, acts, upstream, limit)
    ensures var last := acts[|acts| - 1];
            var a := BeforeLast(rules, before, source, ts, acts);
            && Sweeping(a, source, NewGeneration(rules, before, source), upstream, limit)
            && last.DoTrickle?
            && Completes(rules, a, AfterLast(rules, before, source, ts, acts), source,
                         NewGeneration(rules, before, source), upstream, limit, last.fetched, last.ts)
  {
    hide Completes, Sweeping, Step, Faithful, Begin, StateOf;
    var start := Begin(Run(rules, EMPTY, before), source, ts);
    var n := |acts| - 1;
    SweepUnderWay(rules, before, source, ts, acts, upstream, limit, n);
    assert Faithful(Run(rules, start, acts[..n]), acts[n], source, upstream, limit);
    SweepStep(rules, Run(rules, start, acts[..n]), acts[n], source, NewGeneration(rules, before, source), upstream,
              limit);
  }

  // ---- coverage -----------------------------------------------------------------------------

  /** Every listing has an URL of its own. */
  ghost predicate Distinct(upstream: seq<Listing>) {
    && (forall i :: 0 <= i < |upstream| ==> upstream[i].url != "")
    && forall i, j :: 0 <= i < j < |upstream| ==> upstream[i].url != upstream[j].url
  }

  /** No page of the upstream is longer than what is stored of it, and the sweep's last page was not
      dropped. A sweep completes with the page that reaches the end, so there is always something
      left when a page is dropped, unless the upstream is empty. */
  predicate Covers(upstream: seq<Listing>, limit: nat, last: Fetch) {
    (limit <= 100 || |upstream| <= 100) && (last == DROPPED ==> upstream == [])
  }

  lemma {:induction false} StoredHas(upstream: seq<Listing>, limit: nat, n: nat, url: string)
    requires limit >= 1 && url != ""
    ensures url in Urls(Stored(upstream, limit, n))
            <==> exists p :: 0 <= p < n && p < |upstream| && Stores(limit, p) && upstream[p].url == url
  {
    hide Stores;
    if n > 0 {
      StoredHas(upstream, limit, n - 1, url);
      var tail := if n - 1 < |upstream| && Stores(limit, n - 1) then [upstream[n - 1]] else [];
      UrlsConcat(Stored(upstream, limit, n - 1), tail);
      if tail != [] { UrlsOne(upstream[n - 1]); }
    }
  }

  /** Of distinct listings, one is among the stored URLs exactly when its own position is. */
  lemma StoredAt(upstream: seq<Listing>, limit: nat, n: nat, p: nat)
    requires limit >= 1 && Distinct(upstream) && p < |upstream|
    ensures upstream[p].url in Urls(Stored(upstream, limit, n)) <==> p < n && Stores(limit, p)
  {
    hide Urls, Stored, Stores;
    StoredHas(upstream, limit, n, upstream[p].url);
  }

  lemma UrlIn(upstream: seq<Listing>, p: nat)
    requires p < |upstream| && upstream[p].url != ""
    ensures upstream[p].url in Urls(upstream)
  {
  }

  lemma SmallRemainder(p: nat, limit: nat)
    requires limit >= 1
    ensures p % limit < limit && (p < limit ==> p % limit == p)
  {
  }

  lemma StoredIn(upstream: seq<Listing>, limit: nat, n: nat)
    requires limit >= 1
    ensures Urls(Stored(upstream, limit, n)) <= Urls(upstream)
  {
    hide Urls, Stored, Stores;
    forall u | u in Urls(Stored(upstream, limit, n)) ensures u in Urls(upstream) {
      NotEmpty(Stored(upstream, limit, n), u);
      StoredHas(upstream, limit, n, u);
      var p :| 0 <= p < n && p < |upstream| && Stores(limit, p) && upstream[p].url == u;
      UrlIn(upstream, p);
    }
  }

  lemma NotEmpty(items: seq<Listing>, u: string)
    requires u in Urls(items)
    ensures u != "" && exists p :: 0 <= p < |items| && items[p].url == u
  {
  }

  /** Short pages and small upstreams are stored whole. */
  lemma StoredWhole(upstream: seq<Listing>, limit: nat)
    requires limit >= 1 && (limit <= PAGE_SIZE || |upstream| <= PAGE_SIZE)
    ensures Urls(Stored(upstream, limit, |upstream|)) == Urls(upstream)
  {
    hide Urls, Stored;
    StoredIn(upstream, limit, |upstream|);
    forall u | u in Urls(upstream) ensures u in Urls(Stored(upstream, limit, |upstream|)) {
      NotEmpty(upstream, u);
      var p :| 0 <= p < |upstream| && upstream[p].url == u;
      SmallRemainder(p, limit);
      assert Stores(limit, p);
      StoredHas(upstream, limit, |upstream|, u);
    }
  }

  /** The stored listings up to an end are all of them exactly when the pages are short enough and
      the end is the upstream's. */
  lemma StoredAllIff(upstream: seq<Listing>, limit: nat, end: nat)
    requires limit >= 1 && Distinct(upstream)
    ensures Urls(Stored(upstream, limit, end)) == Urls(upstream)
            <==> (limit <= PAGE_SIZE || |upstream| <= PAGE_SIZE) && end >= |upstream|
  {
    hide Urls, Stored;
    if end < |upstream| {
      StoredAt(upstream, limit, end, end);
      UrlIn(upstream, end);
    } else {
      StoredAll(upstream, limit, end);
      if limit <= PAGE_SIZE || |upstream| <= PAGE_SIZE {
        StoredWhole(upstream, limit);
      } else {
        StoredAt(upstream, limit, end, PAGE_SIZE);
        SmallRemainder(PAGE_SIZE, limit);
        UrlIn(upstream, PAGE_SIZE);
      }
    }
  }

  lemma StampedOnce(db: Db, source: Source, generation: nat, urls: set<string>, others: set<string>)
    requires Stamped(db, source, generation, urls)
    ensures Stamped(db, source, generation, others) <==> urls == others
  {
    if Stamped(db, source, generation, others) {
      forall u ensures u in urls <==> u in others {
        assert Stamp(db, u, source, generation) <==> u in urls;
      }
    }
  }

  lemma EndOf(a: Db, source: Source, generation: nat, upstream: seq<Listing>, limit: nat, last: Fetch)
    requires limit >= 1 && Sweeping(a, source, generation, upstream, limit)
    ensures End(a, source, upstream, last) >= |upstream| <==> (last == DROPPED ==> upstream == [])
  {
  }

  lemma CompletesStamps(rules: Rules, a: Db, b: Db, source: Source, generation: nat, upstream: seq<Listing>,
                        limit: nat, fetched: Fetch, ts: int)
    requires limit >= 1 && Completes(rules, a, b, source, generation, upstream, limit, fetched, ts)
    ensures Stamped(b, source, generation, Urls(Stored(upstream, limit, End(a, source, upstream, fetched))))
  {
  }

  /** A completed sweep has stamped exactly the upstream's listings if and only if the upstream's
      pages hold at most 100 listings and the completing page was not a dropped one. */
  lemma CoverageIff(rules: Rules, before: seq<Act>, source: Source, ts: int, acts: seq<Act>,
                    upstream: seq<Listing>, limit: nat)
    requires WholeSweep(rules, before, source, ts, acts, upstream, limit) && Distinct(upstream)
    ensures var last := acts[|acts| - 1];
            last.DoTrickle?
            && (Stamped(AfterLast(rules, before, source, ts, acts), source, NewGeneration(rules, before, source),
                        Urls(upstream))
                <==> Covers(upstream, limit, last.fetched))
  {
    hide Completes, Sweeping, Step, Run, Stamped, Distinct, Urls, Stored, FaithfulRun, StillGoing, StateOf;
    CompletedSweepRetiresTheGone(rules, before, source, ts, acts, upstream, limit);
    var last := acts[|acts| - 1];
    var a, b := BeforeLast(rules, before, source, ts, acts), AfterLast(rules, before, source, ts, acts);
    var g := NewGeneration(rules, before, source);
    var end := End(a, source, upstream, last.fetched);
    CompletesStamps(rules, a, b, source, g, upstream, limit, last.fetched, last.ts);
    StampedOnce(b, source, g, Urls(Stored(upstream, limit, end)), Urls(upstream));
    StoredAllIff(upstream, limit, end);
    EndOf(a, source, g, upstream, limit, last.fetched);
  }

  /** On short pages and without a dropped one at the end, the completed sweep leaves exactly the
      upstream's listings stamped and retires exactly the gone ones, whatever their URLs. */
  lemma CoveringSweepRetiresTheGone(rules: Rules, before: seq<Act>, source: Source, ts: int, acts: seq<Act>,
                                    upstream: seq<Listing>, limit: nat)
    requires WholeSweep(rules, before, source, ts, acts, upstream, limit)
    requires acts[|acts| - 1].DoTrickle? ==> Covers(upstream, limit, acts[|acts| - 1].fetched)
    ensures var last := acts[|acts| - 1];
            var a := BeforeLast(rules, before, source, ts, acts);
            last.DoTrickle?
            && Swept(rules, a, AfterLast(rules, before, source, ts, acts), source, NewGeneration(rules, before, source),
                     Urls(upstream), LastPage(a, source, upstream, limit, last.fetched), last.ts)
  {
    hide Swept, Sweeping, Step, Run, Urls, Stored, FaithfulRun, StillGoing, StateOf, LastPage;
    CompletedSweepRetiresTheGone(rules, before, source, ts, acts, upstream, limit);
    var a := BeforeLast(rules, before, source, ts, acts);
    var last := acts[|acts| - 1].fetched;
    EndOf(a, source, NewGeneration(rules, before, source), upstream, limit, last);
    StoredAll(upstream, limit, End(a, source, upstream, last));
    StoredWhole(upstream, limit);
  }

  /** The listings that the pages of a larger limit hold beyond the first 100 are never stamped, while
      the sweep goes on or when it completes. */
  lemma LimitAboveThePageSkips(rules: Rules, before: seq<Act>, source: Source, ts: int, acts: seq<Act>,
                               upstream: seq<Listing>, limit: nat, p: nat, n: nat)
    requires WholeSweep(rules, before, source, ts, acts, upstream, limit) && Distinct(upstream)
    requires p < |upstream| && !Stores(limit, p) && n <= |acts|
    ensures !Stamp(Run(rules, Begin(Run(rules, EMPTY, before), source, ts), acts[..n]), upstream[p].url, source,
                   NewGeneration(rules, before, source))
  {
    hide Step, Run, Distinct, Urls, Stored, FaithfulRun, Begin, NewGeneration, Stores, RetiresGone, Stamp;
    var start := Begin(Run(rules, EMPTY, before), source, ts);
    var g := NewGeneration(rules, before, source);
    if n < |acts| {
      SweepUnderWay(rules, before, source, ts, acts, upstream, limit, n);
      var b := Run(rules, start, acts[..n]);
      StoredAt(upstream, limit, StateOf(b, source).cursor, p);
    } else {
      CompletedSweepRetiresTheGone(rules, before, source, ts, acts, upstream, limit);
      var end := End(BeforeLast(rules, before, source, ts, acts), source, upstream, acts[|acts| - 1].fetched);
      StoredAt(upstream, limit, end, p);
      assert acts[..n] == acts;
    }
  }

  /** Which of the listings that the upstream still serves the completing step retires: exactly the
      active and not exempt ones of the source that the sweep did not store, because they stood
      beyond the first 100 of a page or after a dropped one. */
  lemma ServedIsRetiredIff(rules: Rules, before: seq<Act>, source: Source, ts: int, acts: seq<Act>,
                           upstream: seq<Listing>, limit: nat, p: nat)
    requires WholeSweep(rules, before, source, ts, acts, upstream, limit) && Distinct(upstream)
    requires p < |upstream| && upstream[p].url in BeforeLast(rules, before, source, ts, acts).resources
    ensures var last := acts[|acts| - 1];
            var a, b := BeforeLast(rules, before, source, ts, acts), AfterLast(rules, before, source, ts, acts);
            var url := upstream[p].url;
            && last.DoTrickle? && url in b.resources
            && (a.resources[url].active && !b.resources[url].active
                <==> && a.resources[url].active && Key(url, source) in a.seen
                     && !Exempt(a, url, source, last.ts - rules.horizon)
                     && !(p < End(a, source, upstream, last.fetched) && Stores(limit, p)))
  {
    hide Step, Run, Distinct, Urls, Stored, FaithfulRun, StillGoing, Begin, NewGeneration, Stores, Stamped, Exempt,
         PageAt, StateOf, Sweeping;
    CompletedSweepRetiresTheGone(rules, before, source, ts, acts, upstream, limit);
    var a := BeforeLast(rules, before, source, ts, acts);
    StoredAt(upstream, limit, End(a, source, upstream, acts[|acts| - 1].fetched), p);
  }

  // ---- two sweeps that do not cover -----------------------------------------------------------

  const ONE := Listing("u", [], false, false)

  /** A sweep of one step, from a state that a run of need-scoped upserts left. */
  lemma OneStepSweep(rules: Rules, before: seq<Act>, source: Source, fetched: Fetch, upstream: seq<Listing>, limit: nat)
    requires limit >= 1 && (fetched == DROPPED || (fetched == Serve(upstream, limit, 0) && limit >= |upstream|))
    ensures var start := Begin(Run(rules, EMPTY, before), source, 1);
            var acts := [DoTrickle(source, fetched, 2)];
            WholeSweep(rules, before, source, 1, acts, upstream, limit)
            && BeforeLast(rules, before, source, 1, acts) == start
  {
    var start := Begin(Run(rules, EMPTY, before), source, 1);
    var acts := [DoTrickle(source, fetched, 2)];
    hide Run, Trickle, Serve, Finish, Moved;
    assert acts[..0] == [];
    RunNothing(rules, start);
    RunOne(rules, start, acts[0]);
    if fetched == DROPPED {
      DroppedIs(rules, start, source, 2);
      FinishDoes(rules, SetState(start, source, StateOf(start, source)), source, 2);
    } else {
      TrickleIs(rules, start, source, upstream, limit, 2);
      FinishDoes(rules, Moved(rules, start, source, upstream, limit, 2), source, 2);
    }
  }

  lemma RunNothing(rules: Rules, db: Db)
    ensures Run(rules, db, []) == db
  {
  }

  lemma RunOne(rules: Rules, db: Db, act: Act)
    ensures Run(rules, db, [act]) == Step(rules, db, act)
  {
    hide Step;
    assert [act][..0] == [];
  }

  /** A listing that is known and still served, and a sweep whose only page is dropped: it is retired. */
  lemma DroppedPageRetiresTheServed(rules: Rules)
    ensures var before := [DoUpsert(ONE, Cdp, 0)];
            var b := AfterLast(rules, before, Cdp, 1, [DoTrickle(Cdp, DROPPED, 2)]);
            var db := Run(rules, EMPTY, before);
            "u" in db.resources && db.resources["u"].active && "u" in b.resources && !b.resources["u"].active
  {
    var before := [DoUpsert(ONE, Cdp, 0)];
    var acts := [DoTrickle(Cdp, DROPPED, 2)];
    hide Upsert, Run, Trickle, WholeSweep, AfterLast, Exempt;
    RunOne(rules, EMPTY, before[0]);
    UpsertTables(rules, EMPTY, ONE, Cdp, None, 0);
    OneStepSweep(rules, before, Cdp, DROPPED, [ONE], 1);
    var a := BeforeLast(rules, before, Cdp, 1, acts);
    OnlySource(a, "u", Cdp, 2 - rules.horizon);
    ServedIsRetiredIff(rules, before, Cdp, 1, acts, [ONE], 1, 0);
  }

  lemma OnlySource(db: Db, url: string, source: Source, since: int)
    requires forall k :: k in db.seen ==> k.source == source
    ensures !Exempt(db, url, source, since)
  {
  }

  function LongUrl(i: nat): string {
    seq(i + 1, _ => 'u')
  }

  /** 101 listings with an URL each. */
  function LongPage(): (r: seq<Listing>)
    ensures |r| == 101
  {
    seq(101, i requires 0 <= i < 101 => Listing(LongUrl(i), [], false, false))
  }

  lemma LongPageIsDistinct()
    ensures Distinct(LongPage())
  {
    var r := LongPage();
    hide LongUrl;
    forall i | 0 <= i < 101 ensures r[i].url != "" && |r[i].url| == i + 1 { LongUrlLength(i); }
    forall i, j | 0 <= i < j < 101 ensures r[i].url != r[j].url {
      assert |r[i].url| == i + 1 && |r[j].url| == j + 1;
    }
  }

  lemma LongUrlLength(i: nat)
    ensures LongUrl(i) != "" && |LongUrl(i)| == i + 1
  {
  }

  /** A page of 101 listings completes the sweep, and the last of them is not stamped. */
  lemma LongPageIsNotCovered(rules: Rules)
    ensures var acts := [DoTrickle(Cdp, Serve(LongPage(), 101, 0), 2)];
            && WholeSweep(rules, [], Cdp, 1, acts, LongPage(), 101)
            && !Stamp(AfterLast(rules, [], Cdp, 1, acts), LongPage()[100].url, Cdp, NewGeneration(rules, [], Cdp))
  {
    hide Step, Run, Serve, WholeSweep, Stamp, LongPage, Distinct;
    var acts := [DoTrickle(Cdp, Serve(LongPage(), 101, 0), 2)];
    OneStepSweep(rules, [], Cdp, Serve(LongPage(), 101, 0), LongPage(), 101);
    LongPageIsDistinct();
    LimitAboveThePageSkips(rules, [], Cdp, 1, acts, LongPage(), 101, 100, 1);
    assert acts[..1] == acts;
  }
}
