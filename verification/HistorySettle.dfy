/** A tentative batch that is settled later leaves the URL state that trusted writes of the same
    rows, oldest first, would have left. */
module HistorySettle {
  import opened Collections
  import opened UrlHistory
  import opened HistoryStore
  import opened HistoryRuns
  import opened HistoryBatches
  import Recency

  // ---- folds over events --------------------------------------------------------------------

  function EventOf(r: Reading): Event {
    Event(r.url, r.snap)
  }

  function Events(rs: seq<Reading>): seq<Event> {
    seq(|rs|, i requires 0 <= i < |rs| => EventOf(rs[i]))
  }

  /** The trusted observations that stored probes stand for. */
  function Stored(db: Db, ids: seq<nat>): seq<Event>
    requires forall p :: p in ids ==> p in db.probes
  {
    seq(|ids|, i requires 0 <= i < |ids| => assert ids[i] in ids; Event(db.probes[ids[i]].url, db.probes[ids[i]].row))
  }

  lemma TrustedAllLast(rules: Rules, db: Db, ids: seq<nat>, url: string)
    requires ids != [] && forall p :: p in ids ==> p in db.probes
    ensures var p := ids[|ids| - 1];
            && p in db.probes
            && State(TrustedAll(rules, db, ids), url)
               == State(Trusted(rules, TrustedAll(rules, db, ids[..|ids| - 1]), db.probes[p].url, db.probes[p].row),
                        url)
  {
    hide Trusted, State;
    assert ids[|ids| - 1] in ids;
  }

  lemma NothingTrusted(rules: Rules, db: Db, ids: seq<nat>, url: string)
    requires ids == []
    ensures TrustedAll(rules, db, ids) == db && EventsOf(Stored(db, ids), url) == []
  {
  }

  lemma {:induction false} TrustedAllState(rules: Rules, db: Db, ids: seq<nat>, url: string)
    requires forall p :: p in ids ==> p in db.probes
    ensures State(TrustedAll(rules, db, ids), url) == ApplyAll(rules, State(db, url), EventsOf(Stored(db, ids), url))
    decreases |ids|
  {
    hide Trusted, TrustedAll, State, EventsOf;
    if ids == [] {
      NothingTrusted(rules, db, ids, url);
    } else {
      var shorter := ids[..|ids| - 1];
      var p := ids[|ids| - 1];
      TrustedAllState(rules, db, shorter, url);
      TrustedAllLast(rules, db, ids, url);
      var e := Event(db.probes[p].url, db.probes[p].row);
      TrustedState(rules, TrustedAll(rules, db, shorter), e, url);
      EventsStep(rules, State(db, url), Stored(db, shorter), e, url);
      assert Stored(db, ids) == Stored(db, shorter) + [e];
    }
  }

  lemma WriteStep(rules: Rules, db: Db, wrote: Db, shorter: seq<Reading>, r: Reading, url: string)
    requires r.trust != Tentative
    requires State(wrote, url) == ApplyAll(rules, State(db, url), EventsOf(Events(shorter), url))
    ensures State(Write(rules, wrote, r), url) == ApplyAll(rules, State(db, url), EventsOf(Events(shorter + [r]), url))
  {
    hide Trusted, ApplyAll, EventsOf, Write, Apply;
    WriteState(rules, wrote, r);
    assert State(Write(rules, wrote, r), url) == State(Trusted(rules, wrote, r.url, r.snap), url);
    TrustedState(rules, wrote, EventOf(r), url);
    EventsStep(rules, State(db, url), Events(shorter), EventOf(r), url);
    assert Events(shorter + [r]) == Events(shorter) + [EventOf(r)];
  }

  lemma {:induction false} WriteAllState(rules: Rules, db: Db, rs: seq<Reading>, url: string)
    requires forall i :: 0 <= i < |rs| ==> rs[i].trust != Tentative
    ensures State(WriteAll(rules, db, rs), url) == ApplyAll(rules, State(db, url), EventsOf(Events(rs), url))
    decreases |rs|
  {
    hide Write, Apply, State;
    if rs != [] {
      var shorter := rs[..|rs| - 1];
      var r := rs[|rs| - 1];
      WriteAllState(rules, db, shorter, url);
      WriteStep(rules, db, WriteAll(rules, db, shorter), shorter, r, url);
      assert shorter + [r] == rs;
    }
  }

  /** Events that agree on what the probes table keeps. */
  ghost predicate SameEvents(a: seq<Event>, b: seq<Event>) {
    |a| == |b| && forall i :: 0 <= i < |a| ==> a[i].url == b[i].url && SameRow(a[i].snap, b[i].snap)
  }

  lemma {:induction false} SameEventsSameRows(a: seq<Event>, b: seq<Event>, url: string)
    requires SameEvents(a, b)
    ensures |EventsOf(a, url)| == |EventsOf(b, url)|
    ensures forall i :: 0 <= i < |EventsOf(a, url)| ==> SameRow(EventsOf(a, url)[i], EventsOf(b, url)[i])
    decreases |a|
  {
    if a != [] { SameEventsSameRows(a[..|a| - 1], b[..|a| - 1], url); }
  }

  // ---- the rows of a persisted batch --------------------------------------------------------

  /** The probes and observations that writing `rs` adds to a. */
  ghost predicate Wrote(a: Db, b: Db, rs: seq<Reading>) {
    && b.nextProbe == a.nextProbe + |rs| && a.nextObs <= b.nextObs
    && (forall p :: p in b.probes && a.nextProbe <= p ==>
                      p - a.nextProbe < |rs|
                      && b.probes[p] == Probe(rs[p - a.nextProbe].url, RowOf(rs[p - a.nextProbe].snap),
                                              rs[p - a.nextProbe].trust))
    && (forall p :: p in b.probes && p < a.nextProbe ==> p in a.probes && b.probes[p] == a.probes[p])
    && forall o :: o in b.obs ==>
         if o < a.nextObs then o in a.obs && b.obs[o] == a.obs[o]
         else b.obs[o].probe.Some? && a.nextProbe <= b.obs[o].probe.value
  }

  lemma InsertedWrote(a: Db, b: Db, c: Db, r: Reading)
    requires Linked(a) && Inserted(a, b, r) && Trimmed(b, c)
    ensures Wrote(a, c, [r])
  {
  }

  lemma WriteWrote(rules: Rules, db: Db, r: Reading)
    requires Tidy(db)
    ensures Wrote(db, Write(rules, db, r), [r])
  {
    hide *;
    var told := Told(rules, db, r);
    ToldSame(rules, db, r);
    TidyLinks(told);
    InsertInserts(told, r);
    TrimTidies(told, Insert(told, r), r);
    SameWrite(rules, db, r);
    InsertedWrote(told, Insert(told, r), Write(rules, db, r), r);
    SameWrote(db, told, Write(rules, db, r), [r]);
  }

  lemma ToldSame(rules: Rules, db: Db, r: Reading)
    requires Tidy(db)
    ensures var told := Told(rules, db, r);
            && told.probes == db.probes && told.obs == db.obs && told.nextProbe == db.nextProbe
            && told.nextObs == db.nextObs && Tidy(told)
  {
    SameTables(db, Told(rules, db, r));
  }

  lemma SameWrote(a: Db, b: Db, c: Db, rs: seq<Reading>)
    requires a.probes == b.probes && a.obs == b.obs && a.nextProbe == b.nextProbe && a.nextObs == b.nextObs
    requires Wrote(b, c, rs)
    ensures Wrote(a, c, rs)
  {
  }

  lemma WroteTwice(a: Db, b: Db, c: Db, rs: seq<Reading>, r: Reading)
    requires Wrote(a, b, rs) && Wrote(b, c, [r])
    ensures Wrote(a, c, rs + [r])
  {
    forall p | p in c.probes && a.nextProbe <= p
      ensures p - a.nextProbe < |rs| + 1
      ensures var x := (rs + [r])[p - a.nextProbe]; c.probes[p] == Probe(x.url, RowOf(x.snap), x.trust)
    {
      if p < b.nextProbe { assert p in b.probes; }
    }
  }

  lemma WroteStep(rules: Rules, db: Db, wrote: Db, rs: seq<Reading>, r: Reading)
    requires Tidy(wrote) && Wrote(db, wrote, rs)
    ensures Wrote(db, Write(rules, wrote, r), rs + [r])
  {
    hide *;
    WriteWrote(rules, wrote, r);
    WroteTwice(db, wrote, Write(rules, wrote, r), rs, r);
  }

  lemma WriteAllIs(rules: Rules, db: Db, rs: seq<Reading>)
    ensures rs == [] ==> WriteAll(rules, db, rs) == db
    ensures rs != [] ==> var n := |rs| - 1;
                         WriteAll(rules, db, rs) == Write(rules, WriteAll(rules, db, rs[..n]), rs[n])
                           && rs[..n] + [rs[n]] == rs
  {
    hide Write;
  }

  lemma {:induction false} WriteAllWrote(rules: Rules, db: Db, rs: seq<Reading>)
    requires Tidy(db)
    ensures Wrote(db, WriteAll(rules, db, rs), rs)
    decreases |rs|
  {
    hide *;
    WriteAllIs(rules, db, rs);
    if rs == [] {
      WroteNothing(db);
    } else {
      var n := |rs| - 1;
      WriteAllWrote(rules, db, rs[..n]);
      WriteAllTidies(rules, db, rs[..n]);
      WroteStep(rules, db, WriteAll(rules, db, rs[..n]), rs[..n], rs[n]);
    }
  }

  lemma WroteNothing(db: Db)
    requires Tidy(db)
    ensures Wrote(db, db, [])
  {
  }

  function Range(n: nat, k: nat): (r: set<nat>)
    ensures forall p :: p in r <==> n <= p < n + k
  {
    if k == 0 then {} else Range(n, k - 1) + {n + k - 1}
  }

  function NewIds(db: Db, rs: seq<Reading>): set<nat> {
    Range(db.nextProbe, |rs|)
  }

  /** Writing a batch makes only its own rows promotable. */
  lemma OnlyItsOwn(a: Db, b: Db, rs: seq<Reading>, bid: string)
    requires Linked(a) && Linked(b) && Wrote(a, b, rs)
    ensures Promotable(b, bid) <= Promotable(a, bid) + NewIds(a, rs)
  {
    forall p | p in Promotable(b, bid) && p < a.nextProbe ensures p in Promotable(a, bid) {
      var o :| o in b.obs && b.obs[o].probe == Some(p) && b.obs[o].batch == Some(bid);
      assert o in a.obs && a.obs[o] == b.obs[o];
    }
  }

  /** A sealed batch gains no promotable rows, and those it keeps are unchanged. */
  lemma SealedKeeps(a: Db, b: Db, bid: string)
    requires Linked(a) && Forward(a, b) && bid in a.sealed
    ensures Promotable(b, bid) <= Promotable(a, bid)
    ensures forall p :: p in Promotable(b, bid) ==> p in a.probes && b.probes[p] == a.probes[p]
  {
    forall p | p in Promotable(b, bid) ensures p in Promotable(a, bid) && b.probes[p] == a.probes[p] {
      var o :| o in b.obs && b.obs[o].probe == Some(p) && b.obs[o].batch == Some(bid);
      assert SealedBatch(a, b.obs[o].batch);
      assert o in a.obs && a.obs[o] == b.obs[o];
    }
  }

  // ---- the order of promotion ---------------------------------------------------------------

  /** `order` lists the positions of the rows, oldest first; rows of one time in their order. */
  ghost predicate TimeOrder(rs: seq<Reading>, order: seq<nat>) {
    && (forall i :: i in order <==> i < |rs|)
    && forall i, j :: 0 <= i < j < |order| ==> order[i] < |rs| && order[j] < |rs| && Earlier(rs, order[i], order[j])
  }

  predicate Earlier(rs: seq<Reading>, i: nat, j: nat)
    requires i < |rs| && j < |rs|
  {
    rs[i].snap.ts < rs[j].snap.ts || (rs[i].snap.ts == rs[j].snap.ts && i < j)
  }

  ghost predicate OldFirst(ts: Recency.Stamps, s: seq<nat>) {
    (forall x :: x in s ==> x in ts) && forall i, j :: 0 <= i < j < |s| ==> Older(ts, s[i], s[j])
  }

  ghost predicate Older(ts: Recency.Stamps, i: nat, j: nat) {
    i in ts && j in ts && Recency.Newer(ts, j, i)
  }

  lemma {:induction false} OneOrder(ts: Recency.Stamps, a: seq<nat>, b: seq<nat>)
    requires OldFirst(ts, a) && OldFirst(ts, b) && forall x :: x in a <==> x in b
    ensures a == b
    decreases |a|
  {
    if a == [] {
      assert forall k :: 0 <= k < |b| ==> b[k] in a;
    } else {
      assert a[0] in a && a[0] in b && b[0] in b && b[0] in a;
      var i :| 0 <= i < |b| && b[i] == a[0];
      var j :| 0 <= j < |a| && a[j] == b[0];
      assert i == 0 || Older(ts, b[0], b[i]);
      assert j == 0 || Older(ts, a[0], a[j]);
      forall x ensures x in a[1..] <==> x in b[1..] {
        if x in a[1..] { assert x in b && Older(ts, a[0], x); }
        if x in b[1..] { assert x in a && Older(ts, b[0], x); }
      }
      OneOrder(ts, a[1..], b[1..]);
    }
  }

  /** The rows of the batch, as trusted readings, oldest first. */
  function InOrder(rs: seq<Reading>, order: seq<nat>): seq<Reading>
    requires forall i :: i in order ==> i < |rs|
  {
    seq(|order|, k requires 0 <= k < |order| => assert order[k] in order; rs[order[k]].(trust := Independent))
  }

  function Shifted(order: seq<nat>, n: nat): (r: seq<nat>)
    ensures |r| == |order| && forall k :: 0 <= k < |r| ==> r[k] == order[k] + n
  {
    seq(|order|, k requires 0 <= k < |order| => order[k] + n)
  }

  lemma ShiftedMembers(rs: seq<Reading>, order: seq<nat>, n: nat)
    requires TimeOrder(rs, order)
    ensures forall x :: x in Shifted(order, n) <==> n <= x < n + |rs|
  {
    var b := Shifted(order, n);
    forall x | n <= x < n + |rs| ensures x in b {
      var i: nat := x - n;
      assert i in order;
      var k :| 0 <= k < |order| && order[k] == i;
      assert b[k] == x;
    }
    forall x | x in b ensures n <= x < n + |rs| {
      var k :| 0 <= k < |b| && b[k] == x;
      assert order[k] in order;
    }
  }

  lemma ShiftedSorted(ts: Recency.Stamps, rs: seq<Reading>, order: seq<nat>, n: nat)
    requires TimeOrder(rs, order)
    requires forall p :: n <= p < n + |rs| ==> p in ts && ts[p] == rs[p - n].snap.ts
    ensures OldFirst(ts, Shifted(order, n))
  {
    var b := Shifted(order, n);
    ShiftedMembers(rs, order, n);
    forall i, j | 0 <= i < j < |b| ensures Older(ts, b[i], b[j]) {
      assert b[i] in b && b[j] in b;
      assert Earlier(rs, order[i], order[j]);
      assert ts[b[i]] == rs[order[i]].snap.ts && ts[b[j]] == rs[order[j]].snap.ts;
    }
  }

  /** The promoted probes in the order of promotion: the batch's rows, oldest first. */
  lemma PromotionOrder(ts: Recency.Stamps, rs: seq<Reading>, order: seq<nat>, n: nat)
    requires TimeOrder(rs, order)
    requires forall p :: n <= p < n + |rs| ==> p in ts && ts[p] == rs[p - n].snap.ts
    ensures Recency.OldestFirst(ts, Range(n, |rs|)) == Shifted(order, n)
  {
    hide Recency.OldestFirst, Range, Shifted, TimeOrder;
    ShiftedMembers(rs, order, n);
    ShiftedSorted(ts, rs, order, n);
    OneOrder(ts, Recency.OldestFirst(ts, Range(n, |rs|)), Shifted(order, n));
  }

  // ---- the theorem --------------------------------------------------------------------------

  /** The tables when a batch is settled: persisted as tentative rows, and then whatever ran. */
  function Later(rules: Rules, db: Db, bid: string, rs: seq<Reading>, ops: seq<Op>): Db {
    Run(rules, Persist(rules, db, Some(bid), rs), ops)
  }

  /** All rows of the batch are still there and still tentative. */
  ghost predicate Retained(rules: Rules, db: Db, bid: string, rs: seq<Reading>, ops: seq<Op>) {
    NewIds(db, ForBatch(bid, rs)) <= Promotable(Later(rules, db, bid, rs, ops), bid)
  }

  /** The stored probes n, n + 1, ... are the rows of a batch. */
  ghost predicate Holds(db: Db, rows: seq<Reading>, n: nat) {
    forall p :: n <= p < n + |rows| ==>
      p in db.probes && db.probes[p].url == rows[p - n].url && db.probes[p].row == RowOf(rows[p - n].snap)
  }

  lemma WroteHolds(a: Db, wrote: Db, now: Db, rows: seq<Reading>, ids: set<nat>)
    requires Wrote(a, wrote, rows) && NewIds(a, rows) <= ids
    requires forall p :: p in ids ==> p in wrote.probes && p in now.probes && now.probes[p] == wrote.probes[p]
    ensures Holds(now, rows, a.nextProbe)
  {
    forall p | a.nextProbe <= p < a.nextProbe + |rows| ensures p in ids {
      assert p in NewIds(a, rows);
    }
  }

  lemma SamePromotable(a: Db, b: Db, bid: string)
    requires a.probes == b.probes && a.obs == b.obs
    ensures Promotable(a, bid) == Promotable(b, bid)
  {
  }

  lemma PersistTables(rules: Rules, db: Db, bid: string, rs: seq<Reading>)
    requires Tidy(db) && bid !in db.sealed
    ensures var kept, wrote := Persist(rules, db, Some(bid), rs), WriteAll(rules, db, ForBatch(bid, rs));
            kept.probes == wrote.probes && kept.obs == wrote.obs && bid in kept.sealed && Tidy(kept) && Tidy(wrote)
  {
    hide WriteAll, ForBatch;
    WriteAllTidies(rules, db, ForBatch(bid, rs));
    SameTables(WriteAll(rules, db, ForBatch(bid, rs)), Persist(rules, db, Some(bid), rs));
  }

  /** From the state that persisting left to the state when the batch is settled. */
  lemma KeptRows(db: Db, wrote: Db, kept: Db, now: Db, rows: seq<Reading>, bid: string)
    requires Linked(db) && Linked(wrote) && Linked(kept) && Promotable(db, bid) == {}
    requires Wrote(db, wrote, rows) && kept.probes == wrote.probes && kept.obs == wrote.obs
    requires Forward(kept, now) && bid in kept.sealed && NewIds(db, rows) <= Promotable(now, bid)
    ensures Promotable(now, bid) == NewIds(db, rows) && Holds(now, rows, db.nextProbe)
  {
    hide *;
    SealedKeeps(kept, now, bid);
    OnlyItsOwn(db, wrote, rows, bid);
    SamePromotable(kept, wrote, bid);
    PromotableStored(now, bid);
    WroteHolds(db, wrote, now, rows, Promotable(now, bid));
  }

  lemma LaterRows(rules: Rules, db: Db, bid: string, rs: seq<Reading>, ops: seq<Op>)
    requires Tidy(db) && bid !in db.sealed && Promotable(db, bid) == {}
    requires Retained(rules, db, bid, rs, ops)
    ensures var now, rows := Later(rules, db, bid, rs, ops), ForBatch(bid, rs);
            Promotable(now, bid) == NewIds(db, rows) && Holds(now, rows, db.nextProbe)
  {
    hide WriteAll, Run, ForBatch, Promotable, Tidy, Wrote, Holds, Forward, Persist, NewIds;
    var rows := ForBatch(bid, rs);
    var wrote := WriteAll(rules, db, rows);
    var kept := Persist(rules, db, Some(bid), rs);
    PersistTables(rules, db, bid, rs);
    WriteAllWrote(rules, db, rows);
    RunForward(rules, kept, ops);
    TidyLinks(db);
    TidyLinks(kept);
    TidyLinks(wrote);
    KeptRows(db, wrote, kept, Later(rules, db, bid, rs, ops), rows, bid);
  }

  lemma PromotableStored(db: Db, bid: string)
    ensures forall p :: p in Promotable(db, bid) ==> p in db.probes
  {
  }

  lemma SameStored(db: Db, rows: seq<Reading>, order: seq<nat>, n: nat)
    requires TimeOrder(rows, order) && Holds(db, rows, n)
    ensures forall p :: p in Shifted(order, n) ==> p in db.probes
    ensures SameEvents(Stored(db, Shifted(order, n)), Events(InOrder(rows, order)))
  {
    var promoted := Shifted(order, n);
    ShiftedMembers(rows, order, n);
    var a, b := Stored(db, promoted), Events(InOrder(rows, order));
    forall k | 0 <= k < |a| ensures a[k].url == b[k].url && SameRow(a[k].snap, b[k].snap) {
      assert promoted[k] in promoted && order[k] in order;
    }
  }

  lemma MarkedHolds(db: Db, rows: seq<Reading>, n: nat, ids: set<nat>, url: string)
    requires Holds(db, rows, n)
    ensures Holds(MarkSettled(db, ids), rows, n)
    ensures State(MarkSettled(db, ids), url) == State(db, url)
  {
  }

  lemma HeldStamps(db: Db, rows: seq<Reading>, n: nat)
    requires Holds(db, rows, n)
    ensures var ts := ProbeStamps(db); forall p :: n <= p < n + |rows| ==> p in ts && ts[p] == rows[p - n].snap.ts
  {
  }

  lemma SettleState(rules: Rules, db: Db, rows: seq<Reading>, order: seq<nat>, bid: string, n: nat, url: string)
    requires TimeOrder(rows, order) && Holds(db, rows, n) && Promotable(db, bid) == Range(n, |rows|)
    ensures SameButPrice(State(Settle(rules, db, Some(bid)), url),
                         ApplyAll(rules, State(db, url), EventsOf(Events(InOrder(rows, order)), url)))
  {
    hide Recency.OldestFirst, Promotable, Range, TrustedAll, ApplyAll, EventsOf, SameButPrice, SameEvents, ProbeStamps,
         TimeOrder, Holds, MarkSettled, Shifted, State;
    HeldStamps(db, rows, n);
    PromotionOrder(ProbeStamps(db), rows, order, n);
    var ids := Promotable(db, bid);
    var promoted := Shifted(order, n);
    var marked := MarkSettled(db, ids);
    assert Settle(rules, db, Some(bid)) == TrustedAll(rules, marked, promoted);
    MarkedHolds(db, rows, n, ids, url);
    SameStored(marked, rows, order, n);
    TrustedAllState(rules, marked, promoted, url);
    OrderIds(rows, order);
    var a, b := Stored(marked, promoted), Events(InOrder(rows, order));
    SameEventsSameRows(a, b, url);
    SameStates(rules, State(db, url), EventsOf(a, url), EventsOf(b, url));
  }

  lemma OrderIds(rows: seq<Reading>, order: seq<nat>)
    requires TimeOrder(rows, order)
    ensures forall i :: i in order ==> i < |rows|
  {
  }

  lemma SameStates(rules: Rules, st: UrlState, os: seq<Snap>, ps: seq<Snap>)
    requires |os| == |ps| && forall i :: 0 <= i < |os| ==> SameRow(os[i], ps[i])
    ensures SameButPrice(ApplyAll(rules, st, os), ApplyAll(rules, st, ps))
  {
    RowsDecideState(rules, st, st, os, ps);
  }

  /** A batch persisted as tentative rows and settled later leaves a URL with the state (all but the
      time of the last price change) that trusted writes of those rows, oldest first, would have
      left, when its rows are still there and the URL's state has not changed in between. */
  lemma SettlingLaterIsTrusting(rules: Rules, db: Db, bid: string, rs: seq<Reading>, ops: seq<Op>, order: seq<nat>,
                                url: string)
    requires Tidy(db) && bid !in db.sealed && Promotable(db, bid) == {}
    requires Retained(rules, db, bid, rs, ops)
    requires State(Later(rules, db, bid, rs, ops), url) == State(db, url)
    requires TimeOrder(ForBatch(bid, rs), order)
    ensures SameButPrice(State(Settle(rules, Later(rules, db, bid, rs, ops), Some(bid)), url),
                         State(WriteAll(rules, db, InOrder(ForBatch(bid, rs), order)), url))
  {
    LaterRows(rules, db, bid, rs, ops);
    var now, rows := Later(rules, db, bid, rs, ops), ForBatch(bid, rs);
    assert NewIds(db, rows) == Range(db.nextProbe, |rows|);
    hide Later, ForBatch, Promotable, Retained, Holds, Tidy, WriteAll, Settle, State, ApplyAll, EventsOf;
    SettleState(rules, now, rows, order, bid, db.nextProbe, url);
    WriteAllState(rules, db, InOrder(rows, order), url);
  }
}
