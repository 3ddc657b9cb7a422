/** What every run of the catalog store keeps (live402/shadow.py): retired exactly when there is a
    retirement time, no stamp from the future, and an event log that folds to the current rails. */
module CatalogRuns {
  import opened Collections
  import opened TextOrder
  import opened CatalogStore

  datatype Act =
    | DoUpsert(item: Listing, source: Source, ts: int)
    | DoBegin(source: Source, ts: int)
    | DoComplete(source: Source, ts: int)
    | DoPage(source: Source, items: seq<Listing>, offset: int, last: bool, total: Option<nat>, step: int, ts: int)
    | DoTrickle(source: Source, fetched: Fetch, ts: int)

  function Step(rules: Rules, db: Db, act: Act): Db {
    match act
    case DoUpsert(item, source, ts) => Upsert(rules, db, item, source, None, ts)
    case DoBegin(source, ts) => Begin(db, source, ts)
    case DoComplete(source, ts) => Complete(rules, db, source, ts)
    case DoPage(source, items, offset, last, total, step, ts) =>
      IngestPage(rules, db, source, items, offset, last, total, step, ts)
    case DoTrickle(source, fetched, ts) => Trickle(rules, db, source, fetched, ts)
  }

  function Run(rules: Rules, db: Db, acts: seq<Act>): Db
    decreases |acts|
  {
    if acts == [] then db else Step(rules, Run(rules, db, acts[..|acts| - 1]), acts[|acts| - 1])
  }

  // ---- the event log ------------------------------------------------------------------------

  function Replay(rails: set<string>, e: Event, key: Key): set<string> {
    if e.key != key then rails
    else match e.what
         case RailAdded(r) => rails + {r}
         case RailRemoved(r) => rails - {r}
         case _ => rails
  }

  /** The rails after replaying the events of one resource and source. */
  function Fold(rails: set<string>, events: seq<Event>, key: Key): set<string>
    decreases |events|
  {
    if events == [] then rails else Replay(Fold(rails, events[..|events| - 1], key), events[|events| - 1], key)
  }

  lemma {:induction false} FoldConcat(rails: set<string>, a: seq<Event>, b: seq<Event>, key: Key)
    ensures Fold(rails, a + b, key) == Fold(Fold(rails, a, key), b, key)
    decreases |b|
  {
    if b == [] {
      assert a + b == a;
    } else {
      FoldConcat(rails, a, b[..|b| - 1], key);
      assert (a + b)[..|a + b| - 1] == a + b[..|b| - 1];
    }
  }

  lemma {:induction false} FoldTagged(was: set<string>, key: Key, rails: seq<string>, added: bool, k: Key)
    ensures Fold(was, Tagged(key, rails, added), k)
            == if k != key then was else if added then was + Members(rails) else was - Members(rails)
    decreases |rails|
  {
    if rails == [] {
    } else {
      var shorter := rails[..|rails| - 1];
      FoldTagged(was, key, shorter, added, k);
      assert Tagged(key, rails, added)[..|rails| - 1] == Tagged(key, shorter, added);
      assert Members(rails) == Members(shorter) + {rails[|rails| - 1]};
    }
  }

  ghost predicate Quiet(events: seq<Event>) {
    forall i :: 0 <= i < |events| ==> !events[i].what.RailAdded? && !events[i].what.RailRemoved?
  }

  lemma {:induction false} FoldQuiet(rails: set<string>, events: seq<Event>, key: Key)
    requires Quiet(events)
    ensures Fold(rails, events, key) == rails
    decreases |events|
  {
    if events != [] { FoldQuiet(rails, events[..|events| - 1], key); }
  }

  lemma NoneIsQuiet()
    ensures Quiet([])
  {
  }

  lemma BothQuiet(a: seq<Event>, b: seq<Event>)
    requires Quiet(a) && Quiet(b)
    ensures Quiet(a + b)
  {
  }

  lemma ChangeIsQuiet(rules: Rules, key: Key, was: seq<Claim>, now: seq<Claim>, n: nat)
    requires n < |now|
    ensures Quiet(ChangesAt(rules, key, was, now, n))
  {
    hide FirstOn;
  }

  lemma {:induction false} ChangesQuiet(rules: Rules, key: Key, was: seq<Claim>, now: seq<Claim>, n: nat)
    requires n <= |now|
    ensures Quiet(Changes(rules, key, was, now, n))
  {
    hide Quiet, ChangesAt;
    if n == 0 {
      NoneIsQuiet();
    } else {
      ChangesQuiet(rules, key, was, now, n - 1);
      ChangeIsQuiet(rules, key, was, now, n - 1);
      BothQuiet(Changes(rules, key, was, now, n - 1), ChangesAt(rules, key, was, now, n - 1));
    }
  }

  /** A change event of a rail. */
  predicate ChangeOf(e: Event, key: Key, rail: string, price: bool) {
    e == Event(key, if price then PriceChanged(rail) else PayToChanged(rail))
  }

  /** What must have changed on a rail between its first claims. */
  predicate Changed(rules: Rules, was: seq<Claim>, now: seq<Claim>, rail: string, price: bool) {
    var a, b := FirstOn(was, rail), FirstOn(now, rail);
    a.Some? && b.Some?
    && (if price then a.value.amount != b.value.amount
        else a.value.payTo != b.value.payTo && !rules.samePay(a.value.payTo, b.value.payTo, rail))
  }

  lemma {:induction false} FirstOnMore(cs: seq<Claim>, c: Claim, rail: string)
    ensures FirstOn(cs + [c], rail)
            == if FirstOn(cs, rail).Some? then FirstOn(cs, rail) else if OnRail(c, rail) then Some(c) else None
  {
    if cs == [] {
      assert [] + [c] == [c] && [c][1..] == [];
    } else {
      FirstOnMore(cs[1..], c, rail);
      assert (cs + [c])[1..] == cs[1..] + [c];
    }
  }

  /** One more claim adds its rail's change, when it is the first on it. */
  lemma ChangeStep(rules: Rules, key: Key, was: seq<Claim>, now: seq<Claim>, n: nat, e: Event, rail: string,
                   price: bool)
    requires n < |now| && ChangeOf(e, key, rail, price)
    ensures e in ChangesAt(rules, key, was, now, n)
            <==> FirstOn(now[..n], rail).None? && OnRail(now[n], rail) && Changed(rules, was, now[..n + 1], rail, price)
  {
    hide FirstOn;
    assert now[..n + 1] == now[..n] + [now[n]];
    FirstOnMore(now[..n], now[n], rail);
    if now[n].rail.Some? { FirstOnMore(now[..n], now[n], now[n].rail.value); }
  }

  /** A price or payTo event is logged exactly for the rails that have a claim before and after and
      whose first claims differ in it. */
  lemma {:induction false} ChangesIff(rules: Rules, key: Key, was: seq<Claim>, now: seq<Claim>, n: nat, rail: string,
                                      price: bool)
    requires n <= |now|
    ensures (exists e :: ChangeOf(e, key, rail, price) && e in Changes(rules, key, was, now, n))
            <==> Changed(rules, was, now[..n], rail, price)
    decreases n
  {
    hide ChangesAt, FirstOn;
    var e := Event(key, if price then PriceChanged(rail) else PayToChanged(rail));
    assert ChangeOf(e, key, rail, price);
    if n == 0 {
      NoClaims(was, rail);
      assert now[..0] == [];
    } else {
      ChangesIff(rules, key, was, now, n - 1, rail, price);
      ChangeStep(rules, key, was, now, n - 1, e, rail, price);
      FirstOnMore(now[..n - 1], now[n - 1], rail);
      assert now[..n] == now[..n - 1] + [now[n - 1]];
    }
  }

  lemma NoClaims(was: seq<Claim>, rail: string)
    ensures FirstOn([], rail) == None
  {
  }

  /** The log of every resource and source folds to the rails of its current claims. */
  ghost predicate Logged(db: Db) {
    forall key :: Fold({}, db.events, key) == Rails(ClaimsOf(db, key))
  }

  lemma SortedMembers(rails: set<string>)
    ensures Members(Sorted(rails)) == rails
  {
  }

  lemma ReplaceLogs(rules: Rules, db: Db, key: Key, now: seq<Claim>)
    requires Logged(db)
    ensures Logged(ReplaceClaims(rules, db, key, now))
  {
    hide Changes, Sorted, Rails, Fold, Tagged, Quiet, Members;
    var was := ClaimsOf(db, key);
    var added, removed := Sorted(Rails(now) - Rails(was)), Sorted(Rails(was) - Rails(now));
    var e1, e2 := Tagged(key, added, true), Tagged(key, removed, false);
    var e3 := Changes(rules, key, was, now, |now|);
    ChangesQuiet(rules, key, was, now, |now|);
    SortedMembers(Rails(now) - Rails(was));
    SortedMembers(Rails(was) - Rails(now));
    var b := ReplaceClaims(rules, db, key, now);
    forall k ensures Fold({}, b.events, k) == Rails(ClaimsOf(b, k)) {
      var r0 := Fold({}, db.events, k);
      assert r0 == Rails(ClaimsOf(db, k));
      FoldConcat({}, db.events, e1, k);
      FoldTagged(r0, key, added, true, k);
      var r1 := Fold(r0, e1, k);
      FoldConcat({}, db.events + e1, e2, k);
      FoldTagged(r1, key, removed, false, k);
      FoldConcat({}, db.events + e1 + e2, e3, k);
      FoldQuiet(Fold(r1, e2, k), e3, k);
    }
  }

  /** Other events leave the folds alone. */
  lemma QuietLogs(a: Db, b: Db, more: seq<Event>)
    requires Logged(a) && Quiet(more) && b.events == a.events + more && b.claims == a.claims
    ensures Logged(b)
  {
    hide Fold, Quiet, Rails;
    forall k ensures Fold({}, b.events, k) == Rails(ClaimsOf(b, k)) {
      assert Fold({}, a.events, k) == Rails(ClaimsOf(a, k));
      FoldConcat({}, a.events, more, k);
      FoldQuiet(Fold({}, a.events, k), more, k);
    }
  }

  // ---- the other invariants -----------------------------------------------------------------

  /** Retired exactly when there is a retirement time. */
  ghost predicate Dated(db: Db) {
    forall u :: u in db.resources ==> (db.resources[u].active <==> db.resources[u].retiredAt.None?)
  }

  /** No stamp is newer than its source's generation. */
  ghost predicate NoFuture(db: Db) {
    forall k :: k in db.seen && db.seen[k].generation.Some? ==>
                  db.seen[k].generation.value <= StateOf(db, k.source).generation
  }

  ghost predicate Sound(db: Db) {
    Dated(db) && NoFuture(db) && Logged(db)
  }

  lemma ResourceSound(db: Db, item: Listing, key: Key, ts: int)
    requires Sound(db)
    ensures Sound(UpsertResource(db, item, key, ts)) && UpsertResource(db, item, key, ts).states == db.states
  {
    hide Logged, Fold;
    var b := UpsertResource(db, item, key, ts);
    assert b.events == db.events + b.events[|db.events|..];
    QuietLogs(db, b, b.events[|db.events|..]);
  }

  lemma ReplaceSound(rules: Rules, db: Db, key: Key, now: seq<Claim>)
    requires Sound(db)
    ensures Sound(ReplaceClaims(rules, db, key, now)) && ReplaceClaims(rules, db, key, now).states == db.states
  {
    hide Logged, Tagged, Changes, Rails, Sorted;
    ReplaceLogs(rules, db, key, now);
  }

  lemma SeeSound(db: Db, key: Key, generation: Option<nat>, ts: int)
    requires Sound(db) && (generation.Some? ==> generation.value <= StateOf(db, key.source).generation)
    ensures Sound(See(db, key, generation, ts)) && See(db, key, generation, ts).states == db.states
  {
    hide Logged;
    assert db.events + [] == db.events;
    QuietLogs(db, See(db, key, generation, ts), []);
  }

  lemma UpsertSound(rules: Rules, db: Db, item: Listing, source: Source, generation: Option<nat>, ts: int)
    requires Sound(db) && (generation.Some? ==> generation.value <= StateOf(db, source).generation)
    ensures Sound(Upsert(rules, db, item, source, generation, ts))
    ensures Upsert(rules, db, item, source, generation, ts).states == db.states
  {
    hide Sound, UpsertResource, ReplaceClaims, See;
    if item.url != "" {
      var key := Key(item.url, source);
      var a := UpsertResource(db, item, key, ts);
      ResourceSound(db, item, key, ts);
      ReplaceSound(rules, a, key, item.claims);
      SeeSound(ReplaceClaims(rules, a, key, item.claims), key, generation, ts);
    }
  }

  lemma {:induction false} UpsertAllSound(rules: Rules, db: Db, items: seq<Listing>, source: Source,
                                          generation: Option<nat>, ts: int)
    requires Sound(db) && (generation.Some? ==> generation.value <= StateOf(db, source).generation)
    ensures Sound(UpsertAll(rules, db, items, source, generation, ts))
    ensures UpsertAll(rules, db, items, source, generation, ts).states == db.states
    decreases |items|
  {
    hide Sound, Upsert;
    if items != [] {
      UpsertAllSound(rules, db, items[..|items| - 1], source, generation, ts);
      UpsertSound(rules, UpsertAll(rules, db, items[..|items| - 1], source, generation, ts), items[|items| - 1],
                  source, generation, ts);
    }
  }

  lemma RetireOneSound(rules: Rules, db: Db, url: string, source: Source, ts: int)
    requires Sound(db)
    ensures var b := RetireOne(rules, db, url, source, ts);
            Sound(b) && b.seen == db.seen && b.states == db.states && b.claims == db.claims
  {
    hide Logged, Exempt;
    var b := RetireOne(rules, db, url, source, ts);
    assert b.events == db.events + b.events[|db.events|..];
    QuietLogs(db, b, b.events[|db.events|..]);
  }

  lemma {:induction false} RetireAllSound(rules: Rules, db: Db, urls: seq<string>, source: Source, ts: int)
    requires Sound(db)
    ensures var b := RetireAll(rules, db, urls, source, ts);
            Sound(b) && b.seen == db.seen && b.states == db.states && b.claims == db.claims
    decreases |urls|
  {
    hide Sound, RetireOne;
    if urls != [] {
      RetireAllSound(rules, db, urls[..|urls| - 1], source, ts);
      RetireOneSound(rules, RetireAll(rules, db, urls[..|urls| - 1], source, ts), urls[|urls| - 1], source, ts);
    }
  }

  /** A change of a source's state that does not lower its generation. */
  lemma StateSound(db: Db, source: Source, st: SourceState)
    requires Sound(db) && st.generation >= StateOf(db, source).generation
    ensures Sound(SetState(db, source, st))
  {
    hide Logged;
    assert db.events + [] == db.events;
    QuietLogs(db, SetState(db, source, st), []);
  }

  lemma FinishSound(rules: Rules, db: Db, source: Source, ts: int)
    requires Sound(db)
    ensures Sound(Finish(rules, db, source, ts))
  {
    hide Sound, Sorted, Candidates, RetireAll;
    var st := StateOf(db, source);
    var retired := RetireUnseen(rules, db, source, st.generation, ts);
    RetireAllSound(rules, db, Sorted(Candidates(db, source, st.generation)), source, ts);
    StateSound(retired, source, st.(completed := Some(ts), cursor := 0, started := None));
  }

  lemma PageSound(rules: Rules, db: Db, source: Source, items: seq<Listing>, offset: int, last: bool,
                  total: Option<nat>, step: int, ts: int)
    requires Sound(db)
    ensures Sound(IngestPage(rules, db, source, items, offset, last, total, step, ts))
  {
    hide Sound, UpsertAll, Finish;
    var begun := Started(db, source, ts);
    var st := StateOf(begun, source);
    if StateOf(db, source).generation < 1 { StateSound(db, source, st); }
    var stored := UpsertAll(rules, begun, items, source, Some(st.generation), ts);
    UpsertAllSound(rules, begun, items, source, Some(st.generation), ts);
    var cursor := Max(offset, 0) + if step < 1 then |items| else step;
    var moved := SetState(stored, source, st.(cursor := cursor, total := if total.Some? then total else st.total));
    StateSound(stored, source, StateOf(moved, source));
    FinishSound(rules, moved, source, ts);
  }

  lemma StepSound(rules: Rules, db: Db, act: Act)
    requires Sound(db)
    ensures Sound(Step(rules, db, act))
  {
    hide Sound, Upsert, Finish, IngestPage, IsLast;
    match act
    case DoUpsert(item, source, ts) => UpsertSound(rules, db, item, source, None, ts);
    case DoBegin(source, ts) => StateSound(db, source, StateOf(Begin(db, source, ts), source));
    case DoComplete(source, ts) => FinishSound(rules, db, source, ts);
    case DoPage(source, items, offset, last, total, step, ts) =>
      PageSound(rules, db, source, items, offset, last, total, step, ts);
    case DoTrickle(source, fetched, ts) =>
      var begun := if StateOf(db, source).started.None? then Begin(db, source, ts) else db;
      StateSound(db, source, StateOf(begun, source));
      if fetched.Page? {
        var slim := FirstPage(fetched.items);
        var total := TotalOf(fetched.pagination);
        var step := StepOf(|slim|, fetched.pagination);
        var offset := StateOf(begun, source).cursor;
        var last := IsLast(|fetched.items|, fetched.pagination)
                    || (total.Some? && offset + Max(step, |slim|) >= total.value) || |slim| == 0;
        PageSound(rules, begun, source, slim, offset, last, total, step, ts);
      }
  }

  /** In every reachable state: retired exactly when dated, no stamp from the future, and the
      replayed event log gives, for each resource and source, the rails of its current claims. */
  lemma {:induction false} RunsAreSound(rules: Rules, acts: seq<Act>)
    ensures Sound(Run(rules, EMPTY, acts))
    decreases |acts|
  {
    if acts == [] {
      assert forall key :: Fold({}, EMPTY.events, key) == {} && Rails(ClaimsOf(EMPTY, key)) == {};
    } else {
      RunsAreSound(rules, acts[..|acts| - 1]);
      StepSound(rules, Run(rules, EMPTY, acts[..|acts| - 1]), acts[|acts| - 1]);
    }
  }
}
