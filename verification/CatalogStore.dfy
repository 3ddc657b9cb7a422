/** The catalog store (live402/shadow.py): listings with their claims per source, one page of a
    sweep, the generations of a source and retirement; and one trickle step that fetches a page
    (live402/catalog.py). Resources are keyed by their URL, which is unique. */
module CatalogStore {
  import opened Collections
  import opened TextOrder

  type Text = Option<string>

  datatype Source = Cdp | PayAi | GoPlausible

  datatype Claim = Claim(rail: Text, asset: Text, amount: Text, payTo: Text)

  /** One slim catalog item; an item without a URL has "". */
  datatype Listing = Listing(url: string, claims: seq<Claim>, inSchema: bool, outSchema: bool)

  datatype Resource = Resource(
    active: bool, retiredAt: Option<int>, reappearedAt: Option<int>, inSchema: bool, outSchema: bool)

  /** The row of a resource and a source. */
  datatype Sighting = Sighting(generation: Option<nat>, lastSeen: int)

  datatype SourceState = SourceState(
    generation: nat, cursor: nat, total: Option<nat>, started: Option<int>, completed: Option<int>)

  const NEVER := SourceState(0, 0, None, None, None)

  datatype Key = Key(url: string, source: Source)

  datatype What =
    | Added | Retired | SchemaChanged
    | RailAdded(rail: string) | RailRemoved(rail: string) | PriceChanged(rail: string) | PayToChanged(rail: string)

  datatype Event = Event(key: Key, what: What)

  datatype Db = Db(
    resources: map<string, Resource>, seen: map<Key, Sighting>, claims: map<Key, seq<Claim>>,
    states: map<Source, SourceState>, events: seq<Event>)

  const EMPTY := Db(map[], map[], map[], map[], [])

  /** payto_equal, and how long another source's sighting protects a listing (cold_sweep_s). */
  datatype Rules = Rules(samePay: (Text, Text, string) -> bool, horizon: int)

  function StateOf(db: Db, source: Source): SourceState {
    if source in db.states then db.states[source] else NEVER
  }

  function ClaimsOf(db: Db, key: Key): seq<Claim> {
    if key in db.claims then db.claims[key] else []
  }

  // ---- claims -------------------------------------------------------------------------------

  function Rails(cs: seq<Claim>): set<string> {
    set c | c in cs && c.rail.Some? && c.rail.value != "" :: c.rail.value
  }

  function Tagged(key: Key, rails: seq<string>, added: bool): (r: seq<Event>)
    ensures |r| == |rails|
  {
    seq(|rails|, i requires 0 <= i < |rails| =>
      Event(key, if added then RailAdded(rails[i]) else RailRemoved(rails[i])))
  }

  predicate OnRail(c: Claim, rail: string) {
    c.rail == Some(rail) && rail != ""
  }

  /** The first claim on a rail. */
  function FirstOn(cs: seq<Claim>, rail: string): Option<Claim> {
    if cs == [] then None else if OnRail(cs[0], rail) then Some(cs[0]) else FirstOn(cs[1..], rail)
  }

  /** What changed on a rail that was there before. */
  function RailChanges(rules: Rules, key: Key, was: Claim, now: Claim, rail: string): seq<Event> {
    (if was.amount != now.amount then [Event(key, PriceChanged(rail))] else [])
    + (if was.payTo != now.payTo && !rules.samePay(was.payTo, now.payTo, rail) then [Event(key, PayToChanged(rail))]
       else [])
  }

  /** Changes of the n-th claim, when it is the first on its rail. */
  function ChangesAt(rules: Rules, key: Key, was: seq<Claim>, now: seq<Claim>, n: nat): seq<Event>
    requires n < |now|
  {
    var rail := now[n].rail;
    if rail.None? || rail.value == "" || FirstOn(now[..n], rail.value).Some? || FirstOn(was, rail.value).None? then []
    else RailChanges(rules, key, FirstOn(was, rail.value).value, now[n], rail.value)
  }

  function Changes(rules: Rules, key: Key, was: seq<Claim>, now: seq<Claim>, n: nat): seq<Event>
    requires n <= |now|
  {
    if n == 0 then [] else Changes(rules, key, was, now, n - 1) + ChangesAt(rules, key, was, now, n - 1)
  }

  /** _replace_claims */
  function ReplaceClaims(rules: Rules, db: Db, key: Key, now: seq<Claim>): Db {
    var was := ClaimsOf(db, key);
    db.(claims := db.claims[key := now],
        events := db.events
                  + Tagged(key, Sorted(Rails(now) - Rails(was)), true)
                  + Tagged(key, Sorted(Rails(was) - Rails(now)), false)
                  + Changes(rules, key, was, now, |now|))
  }

  // ---- one listing --------------------------------------------------------------------------

  function UpsertResource(db: Db, item: Listing, key: Key, ts: int): Db {
    var u := item.url;
    if u !in db.resources then
      db.(resources := db.resources[u := Resource(true, None, None, item.inSchema, item.outSchema)],
          events := db.events + [Event(key, Added)])
    else
      var r := db.resources[u];
      var changed := r.inSchema != item.inSchema || r.outSchema != item.outSchema;
      db.(resources := db.resources[u := Resource(true, None, if r.active then r.reappearedAt else Some(ts),
                                                  item.inSchema, item.outSchema)],
          events := db.events + if changed then [Event(key, SchemaChanged)] else [])
  }

  /** _upsert_source: a missing generation keeps the stored one. */
  function See(db: Db, key: Key, generation: Option<nat>, ts: int): Db {
    var kept := if generation.Some? then generation
                else if key in db.seen then db.seen[key].generation else None;
    db.(seen := db.seen[key := Sighting(kept, ts)])
  }

  /** _upsert_one */
  function Upsert(rules: Rules, db: Db, item: Listing, source: Source, generation: Option<nat>, ts: int): Db {
    if item.url == "" then db
    else
      var key := Key(item.url, source);
      See(ReplaceClaims(rules, UpsertResource(db, item, key, ts), key, item.claims), key, generation, ts)
  }

  function UpsertAll(rules: Rules, db: Db, items: seq<Listing>, source: Source, generation: Option<nat>, ts: int): Db
    decreases |items|
  {
    if items == [] then db
    else Upsert(rules, UpsertAll(rules, db, items[..|items| - 1], source, generation, ts), items[|items| - 1],
                source, generation, ts)
  }

  // ---- retirement ---------------------------------------------------------------------------

  /** Active listings of the source without this generation's stamp. */
  function Candidates(db: Db, source: Source, generation: nat): set<string> {
    set u | u in db.resources && db.resources[u].active && Key(u, source) in db.seen
            && db.seen[Key(u, source)].generation != Some(generation)
  }

  /** Another source has stamped the listing and seen it since then. */
  predicate Exempt(db: Db, url: string, source: Source, since: int) {
    exists other: Source :: other != source && Key(url, other) in db.seen
      && db.seen[Key(url, other)].generation.Some? && db.seen[Key(url, other)].lastSeen >= since
  }

  function RetireOne(rules: Rules, db: Db, url: string, source: Source, ts: int): Db {
    if url !in db.resources || !db.resources[url].active || Exempt(db, url, source, ts - rules.horizon) then db
    else db.(resources := db.resources[url := db.resources[url].(active := false, retiredAt := Some(ts))],
             events := db.events + [Event(Key(url, source), Retired)])
  }

  function RetireAll(rules: Rules, db: Db, urls: seq<string>, source: Source, ts: int): Db
    decreases |urls|
  {
    if urls == [] then db
    else RetireOne(rules, RetireAll(rules, db, urls[..|urls| - 1], source, ts), urls[|urls| - 1], source, ts)
  }

  /** _retire_unseen_unlocked; the source leaves the order of the rows open. */
  function RetireUnseen(rules: Rules, db: Db, source: Source, generation: nat, ts: int): Db {
    RetireAll(rules, db, Sorted(Candidates(db, source, generation)), source, ts)
  }

  // ---- generations --------------------------------------------------------------------------

  function SetState(db: Db, source: Source, st: SourceState): Db {
    db.(states := db.states[source := st])
  }

  /** begin_sweep */
  function Begin(db: Db, source: Source, ts: int): Db {
    var st := StateOf(db, source);
    SetState(db, source, st.(generation := st.generation + 1, cursor := 0, started := Some(ts)))
  }

  function Finish(rules: Rules, db: Db, source: Source, ts: int): Db {
    var retired := RetireUnseen(rules, db, source, StateOf(db, source).generation, ts);
    SetState(retired, source, StateOf(db, source).(completed := Some(ts), cursor := 0, started := None))
  }

  /** complete_sweep */
  function Complete(rules: Rules, db: Db, source: Source, ts: int): Db {
    if StateOf(db, source).generation < 1 then db else Finish(rules, db, source, ts)
  }

  function Max(a: int, b: int): int {
    if a > b then a else b
  }

  /** The first ingested page of a source that never began a sweep begins generation 1. */
  function Started(db: Db, source: Source, ts: int): Db {
    var st := StateOf(db, source);
    if st.generation >= 1 then db
    else SetState(db, source, st.(generation := 1, started := if st.started.Some? then st.started else Some(ts)))
  }

  /** ingest_page: one transaction. */
  function IngestPage(rules: Rules, db: Db, source: Source, items: seq<Listing>, offset: int, last: bool,
                      total: Option<nat>, step: int, ts: int): Db {
    var off := Max(offset, 0);
    var begun := Started(db, source, ts);
    var st := StateOf(begun, source);
    var cursor := off + if step < 1 then |items| else step;
    var stored := UpsertAll(rules, begun, items, source, Some(st.generation), ts);
    var moved := SetState(stored, source, st.(cursor := cursor, total := if total.Some? then total else st.total));
    if last || (total.Some? && cursor >= total.value) then Finish(rules, moved, source, ts) else moved
  }

  // ---- one trickle step ---------------------------------------------------------------------

  const PAGE_SIZE: nat := 100

  datatype Pagination = Pagination(limit: Option<nat>, offset: Option<nat>, total: Option<nat>)

  /** What a page request returns: an error, or the page's items with its pagination, if any. */
  datatype Fetch = Failed | Page(items: seq<Listing>, pagination: Option<Pagination>)

  /** parse_pagination: is it the last page? */
  predicate IsLast(n: nat, pagination: Option<Pagination>) {
    match pagination
    case None => n < PAGE_SIZE
    case Some(p) =>
      n == 0 || (if p.total.Some? then (if p.offset.Some? then p.offset.value else 0) + n >= p.total.value
                 else p.limit.Some? && n < p.limit.value)
  }

  function TotalOf(pagination: Option<Pagination>): Option<nat> {
    if pagination.Some? then pagination.value.total else None
  }

  /** _step_offset */
  function StepOf(n: nat, pagination: Option<Pagination>): nat {
    if pagination.Some? && pagination.value.limit.Some? && pagination.value.limit.value > 0
    then pagination.value.limit.value else n
  }

  function FirstPage(items: seq<Listing>): seq<Listing> {
    if |items| <= PAGE_SIZE then items else items[..PAGE_SIZE]
  }

  /** The offset that the next trickle step asks for. */
  function NextOffset(db: Db, source: Source): nat {
    if StateOf(db, source).started.None? then 0 else StateOf(db, source).cursor
  }

  /** ingest_one_page: begin a sweep if none runs, fetch, ingest. */
  function Trickle(rules: Rules, db: Db, source: Source, fetched: Fetch, ts: int): Db {
    var begun := if StateOf(db, source).started.None? then Begin(db, source, ts) else db;
    match fetched
    case Failed => begun
    case Page(items, pagination) =>
      var offset := StateOf(begun, source).cursor;
      var slim := FirstPage(items);
      var n := |slim|;
      var step := StepOf(n, pagination);
      var total := TotalOf(pagination);
      var last := IsLast(|items|, pagination) || (total.Some? && offset + Max(step, n) >= total.value) || n == 0;
      IngestPage(rules, begun, source, slim, offset, last, total, step, ts)
  }

  // ---- the store as an object ---------------------------------------------------------------

  class Catalog {
    const rules: Rules
    var resources: map<string, Resource>
    var seen: map<Key, Sighting>
    var claims: map<Key, seq<Claim>>
    var states: map<Source, SourceState>
    var events: seq<Event>

    function Tables(): Db
      reads this
    {
      Db(resources, seen, claims, states, events)
    }

    constructor (rules: Rules)
      ensures Tables() == EMPTY && this.rules == rules
    {
      this.rules := rules;
      resources, seen, claims, states, events := map[], map[], map[], map[], [];
    }

    method InsertRailEvents(key: Key, rails: seq<string>, added: bool)
      modifies this`events
      ensures events == old(events) + Tagged(key, rails, added)
    {
      for i := 0 to |rails|
        invariant events == old(events) + Tagged(key, rails, added)[..i]
      {
        events := events + [Event(key, if added then RailAdded(rails[i]) else RailRemoved(rails[i]))];
      }
      assert Tagged(key, rails, added)[..|rails|] == Tagged(key, rails, added);
    }

    /** The changes of one claim against the first one on its rail before. */
    method InsertChange(key: Key, was: seq<Claim>, now: seq<Claim>, i: nat)
      requires i < |now|
      modifies this`events
      ensures events == old(events) + ChangesAt(rules, key, was, now, i)
    {
      hide FirstOn;
      var rail := now[i].rail;
      if rail.None? || rail.value == "" || FirstOn(now[..i], rail.value).Some? { return; }
      var prev := FirstOn(was, rail.value);
      if prev.None? { return; }
      if prev.value.amount != now[i].amount { events := events + [Event(key, PriceChanged(rail.value))]; }
      if prev.value.payTo != now[i].payTo && !rules.samePay(prev.value.payTo, now[i].payTo, rail.value) {
        events := events + [Event(key, PayToChanged(rail.value))];
      }
    }

    method InsertChanges(key: Key, was: seq<Claim>, now: seq<Claim>)
      modifies this`events
      ensures events == old(events) + Changes(rules, key, was, now, |now|)
    {
      hide ChangesAt;
      for i := 0 to |now|
        invariant events == old(events) + Changes(rules, key, was, now, i)
      {
        InsertChange(key, was, now, i);
      }
    }

    method SwapClaims(key: Key, now: seq<Claim>)
      modifies this`events, this`claims
      ensures Tables() == ReplaceClaims(rules, old(Tables()), key, now)
    {
      var was := if key in claims then claims[key] else [];
      InsertRailEvents(key, Sorted(Rails(now) - Rails(was)), true);
      InsertRailEvents(key, Sorted(Rails(was) - Rails(now)), false);
      InsertChanges(key, was, now);
      claims := claims[key := now];
    }

    method UpsertRow(item: Listing, key: Key, ts: int)
      modifies this`resources, this`events
      ensures Tables() == UpsertResource(old(Tables()), item, key, ts)
    {
      if item.url !in resources {
        resources := resources[item.url := Resource(true, None, None, item.inSchema, item.outSchema)];
        events := events + [Event(key, Added)];
      } else {
        var r := resources[item.url];
        var reappeared := if r.active then r.reappearedAt else Some(ts);
        if r.inSchema != item.inSchema || r.outSchema != item.outSchema {
          events := events + [Event(key, SchemaChanged)];
        }
        resources := resources[item.url := Resource(true, None, reappeared, item.inSchema, item.outSchema)];
      }
    }

    method UpsertSource(key: Key, generation: Option<nat>, ts: int)
      modifies this`seen
      ensures Tables() == See(old(Tables()), key, generation, ts)
    {
      var kept := generation;
      if generation.None? && key in seen { kept := seen[key].generation; }
      seen := seen[key := Sighting(kept, ts)];
    }

    method UpsertOne(item: Listing, source: Source, generation: Option<nat>, ts: int)
      modifies this
      ensures Tables() == Upsert(rules, old(Tables()), item, source, generation, ts)
    {
      hide UpsertResource, ReplaceClaims, See;
      if item.url == "" { return; }
      var key := Key(item.url, source);
      UpsertRow(item, key, ts);
      SwapClaims(key, item.claims);
      UpsertSource(key, generation, ts);
    }

    method RetireUnseenListings(source: Source, generation: nat, ts: int)
      modifies this`resources, this`events
      ensures Tables() == RetireUnseen(rules, old(Tables()), source, generation, ts)
    {
      hide Exempt, Candidates, Sorted;
      var urls := Sorted(Candidates(Tables(), source, generation));
      for i := 0 to |urls|
        invariant Tables() == RetireAll(rules, old(Tables()), urls[..i], source, ts)
      {
        assert urls[..i + 1][..i] == urls[..i];
        var u := urls[i];
        if u in resources && resources[u].active && !Exempt(Tables(), u, source, ts - rules.horizon) {
          resources := resources[u := resources[u].(active := false, retiredAt := Some(ts))];
          events := events + [Event(Key(u, source), Retired)];
        }
      }
      assert urls[..|urls|] == urls;
    }

    method BeginSweep(source: Source, ts: int) returns (generation: nat)
      modifies this`states
      ensures Tables() == Begin(old(Tables()), source, ts)
      ensures generation == StateOf(Tables(), source).generation
    {
      var st := if source in states then states[source] else NEVER;
      generation := st.generation + 1;
      states := states[source := SourceState(generation, 0, st.total, Some(ts), st.completed)];
    }

    method FinishSweep(source: Source, ts: int)
      modifies this
      ensures Tables() == Finish(rules, old(Tables()), source, ts)
    {
      var st := if source in states then states[source] else NEVER;
      RetireUnseenListings(source, st.generation, ts);
      states := states[source := SourceState(st.generation, 0, st.total, None, Some(ts))];
    }

    method CompleteSweep(source: Source, ts: int)
      modifies this
      ensures Tables() == Complete(rules, old(Tables()), source, ts)
    {
      var st := if source in states then states[source] else NEVER;
      if st.generation >= 1 { FinishSweep(source, ts); }
    }

    method UpsertPage(items: seq<Listing>, source: Source, generation: Option<nat>, ts: int)
      modifies this
      ensures Tables() == UpsertAll(rules, old(Tables()), items, source, generation, ts)
    {
      hide Upsert;
      for i := 0 to |items|
        invariant Tables() == UpsertAll(rules, old(Tables()), items[..i], source, generation, ts)
      {
        assert items[..i + 1][..i] == items[..i];
        UpsertOne(items[i], source, generation, ts);
      }
      assert items[..|items|] == items;
    }

    /** The state of the source, in its first generation if it never began a sweep. */
    method EnsureStarted(source: Source, ts: int) returns (st: SourceState)
      modifies this`states
      ensures Tables() == Started(old(Tables()), source, ts) && st == StateOf(Tables(), source)
    {
      st := if source in states then states[source] else NEVER;
      if st.generation < 1 {
        st := st.(generation := 1, started := if st.started.Some? then st.started else Some(ts));
        states := states[source := st];
      }
    }

    method Ingest(source: Source, items: seq<Listing>, offset: int, last: bool, total: Option<nat>, step: int, ts: int)
      modifies this
      ensures Tables() == IngestPage(rules, old(Tables()), source, items, offset, last, total, step, ts)
    {
      hide UpsertAll, Finish, Started;
      var off := if offset < 0 then 0 else offset;
      var st := EnsureStarted(source, ts);
      UpsertPage(items, source, Some(st.generation), ts);
      var cursor := off + if step < 1 then |items| else step;
      states := states[source := st.(cursor := cursor, total := if total.Some? then total else st.total)];
      if last || (total.Some? && cursor >= total.value) { FinishSweep(source, ts); }
    }

    method IngestOnePage(source: Source, fetched: Fetch, ts: int)
      modifies this
      ensures Tables() == Trickle(rules, old(Tables()), source, fetched, ts)
    {
      hide IngestPage;
      if source !in states || states[source].started.None? {
        var _ := BeginSweep(source, ts);
      }
      if fetched.Failed? { return; }
      var offset := states[source].cursor;
      var slim := FirstPage(fetched.items);
      var step := StepOf(|slim|, fetched.pagination);
      var total := TotalOf(fetched.pagination);
      var last := IsLast(|fetched.items|, fetched.pagination);
      if !last && total.Some? && offset + Max(step, |slim|) >= total.value { last := true; }
      if |slim| == 0 { last := true; }
      Ingest(source, slim, offset, last, total, step, ts);
    }
  }
}
