/** What the catalog logs of its listings' lives (live402/shadow.py): one arrival for every resource there is,
    one retirement for every time one was retired, and what one upsert leaves of a listing. */
module CatalogEvents {
  import opened Collections
  import opened TextOrder
  import opened CatalogStore
  import opened CatalogRuns
  import opened CatalogSweep
  import opened CatalogHistory

  /** How many events of this kind the log has about the listing. */
  function Number(events: seq<Event>, url: string, what: What): nat
    decreases |events|
  {
    if events == [] then 0
    else
      var last := events[|events| - 1];
      Number(events[..|events| - 1], url, what) + if last.key.url == url && last.what == what then 1 else 0
  }

  lemma {:induction false} NumberOfBoth(a: seq<Event>, b: seq<Event>, url: string, what: What)
    ensures Number(a + b, url, what) == Number(a, url, what) + Number(b, url, what)
    decreases |b|
  {
    if b == [] {
      assert a + b == a;
    } else {
      var n := |b| - 1;
      NumberOfBoth(a, b[..n], url, what);
      assert (a + b)[..|a + b| - 1] == a + b[..n] && (a + b)[|a + b| - 1] == b[n];
    }
  }

  lemma {:induction false} NumberNone(events: seq<Event>, url: string, what: What)
    requires forall i :: 0 <= i < |events| ==> events[i].what != what
    ensures Number(events, url, what) == 0
    decreases |events|
  {
    if events != [] { NumberNone(events[..|events| - 1], url, what); }
  }

  predicate AboutLife(what: What) {
    what.Added? || what.Retired? || what.SchemaChanged?
  }

  ghost predicate NoLife(events: seq<Event>) {
    forall i :: 0 <= i < |events| ==> !AboutLife(events[i].what)
  }

  lemma TaggedNoLife(key: Key, rails: seq<string>, added: bool)
    ensures NoLife(Tagged(key, rails, added))
  {
  }

  lemma {:induction false} ChangesNoLife(rules: Rules, key: Key, was: seq<Claim>, now: seq<Claim>, n: nat)
    requires n <= |now|
    ensures NoLife(Changes(rules, key, was, now, n))
    decreases n
  {
    hide FirstOn;
    if n > 0 {
      ChangesNoLife(rules, key, was, now, n - 1);
      assert NoLife(ChangesAt(rules, key, was, now, n - 1));
    }
  }

  /** Replacing claims logs nothing about a listing's life. */
  lemma ReplaceNumbers(rules: Rules, db: Db, key: Key, now: seq<Claim>, url: string, what: What)
    requires AboutLife(what)
    ensures Number(ReplaceClaims(rules, db, key, now).events, url, what) == Number(db.events, url, what)
  {
    hide Tagged, Changes, Sorted, Rails, Number;
    var was := ClaimsOf(db, key);
    var e1 := Tagged(key, Sorted(Rails(now) - Rails(was)), true);
    var e2 := Tagged(key, Sorted(Rails(was) - Rails(now)), false);
    var e3 := Changes(rules, key, was, now, |now|);
    TaggedNoLife(key, Sorted(Rails(now) - Rails(was)), true);
    TaggedNoLife(key, Sorted(Rails(was) - Rails(now)), false);
    ChangesNoLife(rules, key, was, now, |now|);
    NumberNone(e1, url, what);
    NumberNone(e2, url, what);
    NumberNone(e3, url, what);
    NumberOfBoth(db.events, e1, url, what);
    NumberOfBoth(db.events + e1, e2, url, what);
    NumberOfBoth(db.events + e1 + e2, e3, url, what);
  }

  /** One upsert of a listing with an URL: the resource is active and not retired, has the listing's schema flags and
      reappeared now exactly if it was there retired; its claims for this source are the listing's; an arrival is
      logged exactly if it is new, and a change of schema exactly if it was there with other flags. */
  lemma UpsertShows(rules: Rules, db: Db, item: Listing, source: Source, generation: Option<nat>, ts: int)
    requires item.url != ""
    ensures var b := Upsert(rules, db, item, source, generation, ts);
            var u := item.url;
            var known := u in db.resources;
            && u in b.resources && b.resources == db.resources[u := b.resources[u]]
            && b.resources[u].active && b.resources[u].retiredAt == None
            && b.resources[u].reappearedAt == (if !known then None
                                               else if db.resources[u].active then db.resources[u].reappearedAt
                                               else Some(ts))
            && b.resources[u].inSchema == item.inSchema && b.resources[u].outSchema == item.outSchema
            && b.claims == db.claims[Key(u, source) := item.claims]
            && Number(b.events, u, Added) == Number(db.events, u, Added) + (if known then 0 else 1)
            && Number(b.events, u, SchemaChanged) == Number(db.events, u, SchemaChanged)
               + (if known && (db.resources[u].inSchema != item.inSchema || db.resources[u].outSchema != item.outSchema)
                  then 1 else 0)
            && Number(b.events, u, Retired) == Number(db.events, u, Retired)
  {
    hide ReplaceClaims;
    var key := Key(item.url, source);
    var a := UpsertResource(db, item, key, ts);
    ReplaceTables(rules, a, key, item.claims);
    ReplaceNumbers(rules, a, key, item.claims, item.url, Added);
    ReplaceNumbers(rules, a, key, item.claims, item.url, SchemaChanged);
    ReplaceNumbers(rules, a, key, item.claims, item.url, Retired);
    ResourceNumbers(db, item, key, ts, item.url, Added);
    ResourceNumbers(db, item, key, ts, item.url, SchemaChanged);
    ResourceNumbers(db, item, key, ts, item.url, Retired);
    hide Number;
    assert ReplaceClaims(rules, a, key, item.claims).claims == a.claims[key := item.claims] by {
      ClaimsReplaced(rules, a, key, item.claims);
    }
  }

  lemma ClaimsReplaced(rules: Rules, db: Db, key: Key, now: seq<Claim>)
    ensures ReplaceClaims(rules, db, key, now).claims == db.claims[key := now]
  {
    hide Tagged, Changes, Sorted, Rails;
  }

  lemma ResourceNumbers(db: Db, item: Listing, key: Key, ts: int, url: string, what: What)
    requires key.url == item.url && AboutLife(what)
    ensures var known := item.url in db.resources;
            var logged := if !known then what == Added
                          else what == SchemaChanged && (db.resources[item.url].inSchema != item.inSchema
                                                         || db.resources[item.url].outSchema != item.outSchema);
            Number(UpsertResource(db, item, key, ts).events, url, what)
            == Number(db.events, url, what) + if url == item.url && logged then 1 else 0
  {
    hide Number;
    assert db.events + [] == db.events;
    OneMore(db.events, Event(key, Added), url, what);
    OneMore(db.events, Event(key, SchemaChanged), url, what);
  }

  lemma OneMore(events: seq<Event>, e: Event, url: string, what: What)
    ensures Number(events + [e], url, what)
            == Number(events, url, what) + if e.key.url == url && e.what == what then 1 else 0
  {
    assert (events + [e])[..|events|] == events;
  }

  // ---- whole runs ---------------------------------------------------------------------------

  /** The numbers of arrivals and retirements follow the listing. */
  ghost predicate Told(a: Db, b: Db, url: string) {
    && Number(b.events, url, Added) == Number(a.events, url, Added)
       + (if url in b.resources && url !in a.resources then 1 else 0)
    && Number(b.events, url, Retired) == Number(a.events, url, Retired)
       + (if url in a.resources && a.resources[url].active && url in b.resources && !b.resources[url].active
          then 1 else 0)
    && (url in a.resources ==> url in b.resources)
  }

  /** ... without a retirement: what was active stays so. */
  ghost predicate ToldActive(a: Db, b: Db, url: string) {
    Told(a, b, url) && (url in a.resources && a.resources[url].active ==> b.resources[url].active)
  }

  lemma UpsertTold(rules: Rules, db: Db, item: Listing, source: Source, generation: Option<nat>, ts: int, url: string)
    ensures ToldActive(db, Upsert(rules, db, item, source, generation, ts), url)
  {
    hide ReplaceClaims, Number, UpsertResource;
    if item.url != "" {
      var key := Key(item.url, source);
      var a := UpsertResource(db, item, key, ts);
      ReplaceTables(rules, a, key, item.claims);
      ReplaceNumbers(rules, a, key, item.claims, url, Added);
      ReplaceNumbers(rules, a, key, item.claims, url, Retired);
      ResourceNumbers(db, item, key, ts, url, Added);
      ResourceNumbers(db, item, key, ts, url, Retired);
      UpsertTables(rules, db, item, source, generation, ts);
    }
  }

  lemma {:induction false} UpsertAllTold(rules: Rules, db: Db, items: seq<Listing>, source: Source,
                                         generation: Option<nat>, ts: int, url: string)
    ensures ToldActive(db, UpsertAll(rules, db, items, source, generation, ts), url)
    decreases |items|
  {
    hide Upsert, Number;
    if items != [] {
      var n := |items| - 1;
      UpsertAllTold(rules, db, items[..n], source, generation, ts, url);
      var before := UpsertAll(rules, db, items[..n], source, generation, ts);
      UpsertTold(rules, before, items[n], source, generation, ts, url);
    }
  }

  lemma RetireOneTold(rules: Rules, db: Db, u: string, source: Source, ts: int, url: string)
    ensures Told(db, RetireOne(rules, db, u, source, ts), url)
  {
    hide Exempt;
    var b := RetireOne(rules, db, u, source, ts);
    var more := b.events[|db.events|..];
    assert b.events == db.events + more;
    NumberOfBoth(db.events, more, url, Added);
    NumberOfBoth(db.events, more, url, Retired);
    assert more == [] || (more == [Event(Key(u, source), Retired)] && more[..0] == []);
  }

  /** Retired listings stay so while others are retired. */
  lemma {:induction false} RetireAllTold(rules: Rules, db: Db, urls: seq<string>, source: Source, ts: int, url: string)
    ensures var b := RetireAll(rules, db, urls, source, ts);
            && Told(db, b, url) && (url in b.resources <==> url in db.resources)
            && (url in db.resources && !db.resources[url].active ==> url in b.resources && !b.resources[url].active)
    decreases |urls|
  {
    hide RetireOne, Number;
    if urls != [] {
      var n := |urls| - 1;
      RetireAllTold(rules, db, urls[..n], source, ts, url);
      RetireOneTold(rules, RetireAll(rules, db, urls[..n], source, ts), urls[n], source, ts, url);
      NotRevived(rules, RetireAll(rules, db, urls[..n], source, ts), urls[n], source, ts, url);
    }
  }

  lemma NotRevived(rules: Rules, db: Db, u: string, source: Source, ts: int, url: string)
    ensures var b := RetireOne(rules, db, u, source, ts);
            && (url in b.resources <==> url in db.resources)
            && (url in db.resources && !db.resources[url].active ==> url in b.resources && !b.resources[url].active)
  {
    hide Exempt;
  }

  lemma FinishTold(rules: Rules, db: Db, source: Source, ts: int, url: string)
    ensures Told(db, Finish(rules, db, source, ts), url)
  {
    hide RetireAll, Sorted, Candidates, Number;
    RetireAllTold(rules, db, Sorted(Candidates(db, source, StateOf(db, source).generation)), source, ts, url);
  }

  lemma PageTold(rules: Rules, db: Db, s: Source, items: seq<Listing>, offset: int, last: bool, total: Option<nat>,
                 step: int, ts: int, url: string)
    ensures Told(db, IngestPage(rules, db, s, items, offset, last, total, step, ts), url)
  {
    hide UpsertAll, Finish, Number, Urls, Exempt, EndsSweep, Started;
    StartedIs(db, s, ts);
    StartedEvents(db, s, ts);
    var begun := Started(db, s, ts);
    var st := StateOf(begun, s);
    var stored := UpsertAll(rules, begun, items, s, Some(st.generation), ts);
    UpsertAllTold(rules, begun, items, s, Some(st.generation), ts, url);
    var cursor := Max(offset, 0) + if step < 1 then |items| else step;
    var moved := SetState(stored, s, st.(cursor := cursor, total := if total.Some? then total else st.total));
    FinishTold(rules, moved, s, ts, url);
    FinishKeepsPage(rules, db, s, items, offset, last, total, step, ts, url);
    UpsertedIsActive(rules, begun, items, s, Some(st.generation), ts, url);
  }

  lemma StartedEvents(db: Db, s: Source, ts: int)
    ensures Started(db, s, ts).events == db.events
  {
  }

  /** A listing of the page is active in the end, and one that is not in it is as it was or retired. */
  lemma FinishKeepsPage(rules: Rules, db: Db, s: Source, items: seq<Listing>, offset: int, last: bool,
                        total: Option<nat>, step: int, ts: int, url: string)
    ensures var b := IngestPage(rules, db, s, items, offset, last, total, step, ts);
            && (url in Urls(items) ==> url in b.resources && b.resources[url].active)
            && (url !in Urls(items) && url in db.resources && !db.resources[url].active ==>
                  url in b.resources && !b.resources[url].active)
            && (url !in Urls(items) ==> (url in b.resources <==> url in db.resources))
  {
    hide IngestPage, Urls, Exempt, EndsSweep;
    PageRetires(rules, db, s, items, offset, last, total, step, ts, url);
  }

  lemma UpsertedIsActive(rules: Rules, db: Db, items: seq<Listing>, s: Source, generation: Option<nat>, ts: int,
                         url: string)
    ensures var b := UpsertAll(rules, db, items, s, generation, ts);
            && (url in Urls(items) ==> url in b.resources && b.resources[url].active)
            && (url !in Urls(items) ==> (url in b.resources <==> url in db.resources))
            && (url !in Urls(items) && url in db.resources ==> b.resources[url] == db.resources[url])
  {
    hide UpsertAll, Urls;
    UpsertAllDoes(rules, db, items, s, generation, ts);
  }

  lemma StepTold(rules: Rules, db: Db, act: Act, url: string)
    ensures Told(db, Step(rules, db, act), url)
  {
    hide Upsert, Finish, IngestPage, IsLast, Number, FirstPage;
    match act
    case DoUpsert(item, s, ts) => UpsertTold(rules, db, item, s, None, ts, url);
    case DoBegin(s, ts) =>
    case DoComplete(s, ts) => FinishTold(rules, db, s, ts, url);
    case DoPage(s, items, offset, last, total, step, ts) =>
      PageTold(rules, db, s, items, offset, last, total, step, ts, url);
    case DoTrickle(s, fetched, ts) =>
      if fetched.Page? {
        var begun := if StateOf(db, s).started.None? then Begin(db, s, ts) else db;
        var offset := StateOf(begun, s).cursor;
        var slim := FirstPage(fetched.items);
        var step := StepOf(|slim|, fetched.pagination);
        var total := TotalOf(fetched.pagination);
        var last := IsLast(|fetched.items|, fetched.pagination)
                    || (total.Some? && offset + Max(step, |slim|) >= total.value) || |slim| == 0;
        PageTold(rules, begun, s, slim, offset, last, total, step, ts, url);
      }
  }

  /** How often the operations of a run retired the listing. */
  function Retirements(rules: Rules, acts: seq<Act>, url: string): nat
    decreases |acts|
  {
    if acts == [] then 0
    else
      var before := acts[..|acts| - 1];
      var a, b := Run(rules, EMPTY, before), Run(rules, EMPTY, acts);
      Retirements(rules, before, url)
      + if url in a.resources && a.resources[url].active && url in b.resources && !b.resources[url].active then 1 else 0
  }

  /** After every run the log has exactly one arrival of each resource there is and none of any other, and as
      many retirements of it as operations that retired it; no resource is ever dropped. */
  lemma {:induction false} LivesAreLogged(rules: Rules, acts: seq<Act>, url: string)
    ensures var db := Run(rules, EMPTY, acts);
            && Number(db.events, url, Added) == (if url in db.resources then 1 else 0)
            && Number(db.events, url, Retired) == Retirements(rules, acts, url)
    decreases |acts|
  {
    hide Step;
    if acts != [] {
      var n := |acts| - 1;
      LivesAreLogged(rules, acts[..n], url);
      StepTold(rules, Run(rules, EMPTY, acts[..n]), acts[n], url);
    }
  }
}
