/** What every run of store operations keeps: retention caps, referential integrity, a URL state
    that is the fold of the trusted observations, and sealed batches that only lose rows. */
module HistoryRuns {
  import opened Collections
  import opened UrlHistory
  import opened HistoryStore
  import Recency

  datatype Op =
    | DoRecord(r: Reading)
    | DoPersist(batch: Text, rs: seq<Reading>)
    | DoSettle(batch: Text)
    | DoSeal(batch: Text)
    | DoClaim(url: string, ts: int, batch: Text, claims: seq<Fact>)
    | DoAttest(batch: Text)

  function Step(rules: Rules, db: Db, op: Op): Db {
    match op
    case DoRecord(r) => Record(rules, db, r)
    case DoPersist(batch, rs) => Persist(rules, db, batch, rs)
    case DoSettle(batch) => Settle(rules, db, batch)
    case DoSeal(batch) => Seal(db, batch)
    case DoClaim(url, ts, batch, claims) => RecordClaim(db, url, ts, batch, claims)
    case DoAttest(batch) => Attest(db, batch)
  }

  function Run(rules: Rules, db: Db, ops: seq<Op>): Db
    decreases |ops|
  {
    if ops == [] then db else Step(rules, Run(rules, db, ops[..|ops| - 1]), ops[|ops| - 1])
  }

  // ---- the invariant ------------------------------------------------------------------------

  /** Every observation with a probe id refers to a stored probe of the same URL. */
  ghost predicate Linked(db: Db) {
    && (forall p :: p in db.probes ==> p < db.nextProbe)
    && (forall o :: o in db.obs ==> o < db.nextObs)
    && forall o :: o in db.obs && db.obs[o].probe.Some? ==>
                     db.obs[o].probe.value in db.probes && db.probes[db.obs[o].probe.value].url == db.obs[o].url
  }

  ghost predicate ProbesCapped(db: Db) {
    forall u :: |ProbesOf(db, u)| <= PER_URL_CAP
  }

  ghost predicate ObsCapped(db: Db) {
    forall u :: |ObsOf(db, u)| <= OBS_PER_URL_CAP
  }

  ghost predicate Tidy(db: Db) {
    Linked(db) && ProbesCapped(db) && ObsCapped(db) && |db.probes| <= GLOBAL_CAP
  }

  // ---- table writes -------------------------------------------------------------------------

  /** New observation rows get fresh ids and nothing else changes. */
  ghost predicate Added(a: Db, b: Db, rows: seq<Obs>) {
    && b == a.(obs := b.obs, nextObs := a.nextObs + |rows|)
    && (forall o :: o in a.obs && o < a.nextObs ==> o in b.obs && b.obs[o] == a.obs[o])
    && (forall o :: o in b.obs && o < a.nextObs ==> o in a.obs)
    && forall o :: o in b.obs && a.nextObs <= o && (o in a.obs ==> o < a.nextObs) ==>
                     o - a.nextObs < |rows| && b.obs[o] == rows[o - a.nextObs]
  }

  lemma {:induction false} AddAllAdds(db: Db, rows: seq<Obs>)
    requires forall o :: o in db.obs ==> o < db.nextObs
    ensures Added(db, AddAll(db, rows), rows)
    ensures forall o :: o in AddAll(db, rows).obs ==> o < db.nextObs + |rows|
    decreases |rows|
  {
    if rows != [] { AddAllAdds(db, rows[..|rows| - 1]); }
  }

  /** The rows an insertion adds, all of its own probe, batch and URL. */
  ghost predicate Inserted(a: Db, b: Db, r: Reading) {
    && b == a.(obs := b.obs, nextObs := b.nextObs, nextProbe := a.nextProbe + 1,
               probes := a.probes[a.nextProbe := Probe(r.url, RowOf(r.snap), r.trust)])
    && a.nextObs <= b.nextObs
    && (forall o :: o in b.obs ==> o < b.nextObs)
    && (forall o :: o in a.obs ==> o in b.obs)
    && forall o :: o in b.obs ==>
         if o < a.nextObs then o in a.obs && b.obs[o] == a.obs[o]
         else b.obs[o].probe == Some(a.nextProbe) && b.obs[o].batch == r.batch && b.obs[o].url == r.url
  }

  lemma InsertInserts(db: Db, r: Reading)
    requires Linked(db)
    ensures Inserted(db, Insert(db, r), r)
  {
    hide AddAll, Facts;
    var p := db.nextProbe;
    var stored := db.(probes := db.probes[p := Probe(r.url, RowOf(r.snap), r.trust)], nextProbe := p + 1);
    AddAllAdds(stored, RowsOf(Some(p), r.batch, true, r.url, r.snap.ts, Facts(r)));
    AddAllAdds(AddAll(stored, RowsOf(Some(p), r.batch, true, r.url, r.snap.ts, Facts(r))),
               RowsOf(Some(p), r.batch, false, r.url, r.snap.ts, r.claims));
  }

  // ---- retention ----------------------------------------------------------------------------

  /** Rows may go; no row is added or changed. */
  ghost predicate Trimmed(a: Db, b: Db) {
    && b == a.(probes := b.probes, obs := b.obs)
    && (forall p :: p in b.probes ==> p in a.probes && b.probes[p] == a.probes[p])
    && forall o :: o in b.obs ==> o in a.obs && b.obs[o] == a.obs[o]
  }

  lemma TrimmedSets(a: Db, b: Db, u: string)
    requires Trimmed(a, b)
    ensures ProbesOf(b, u) <= ProbesOf(a, u) && ObsOf(b, u) <= ObsOf(a, u)
    ensures |ProbesOf(b, u)| <= |ProbesOf(a, u)| && |ObsOf(b, u)| <= |ObsOf(a, u)|
    ensures |b.probes| <= |a.probes|
  {
    Recency.SubsetSize(ProbesOf(b, u), ProbesOf(a, u));
    Recency.SubsetSize(ObsOf(b, u), ObsOf(a, u));
    Recency.SubsetSize(b.probes.Keys, a.probes.Keys);
    assert |b.probes| == |b.probes.Keys| && |a.probes| == |a.probes.Keys|;
  }

  lemma DropTrims(db: Db, ids: set<nat>)
    ensures Trimmed(db, Drop(db, ids)) && Drop(db, ids).probes.Keys == db.probes.Keys - ids
    ensures Linked(db) ==> Linked(Drop(db, ids))
  {
  }

  lemma CapUrlCaps(db: Db, url: string)
    requires Linked(db)
    ensures var b := CapUrl(db, url); Trimmed(db, b) && Linked(b) && |ProbesOf(b, url)| <= PER_URL_CAP
  {
    var ids := ProbesOf(db, url);
    var keep := Recency.Newest(ProbeStamps(db), ids, PER_URL_CAP);
    Recency.NewestCount(ProbeStamps(db), ids, PER_URL_CAP);
    DropTrims(db, ids - keep);
    hide Recency.Newest;
    assert ProbesOf(CapUrl(db, url), url) <= keep;
    Recency.SubsetSize(ProbesOf(CapUrl(db, url), url), keep);
  }

  lemma CapAllCaps(db: Db)
    requires Linked(db)
    ensures var b := CapAll(db); Trimmed(db, b) && Linked(b) && |b.probes| <= GLOBAL_CAP
  {
    var ids := db.probes.Keys;
    var keep := Recency.Newest(ProbeStamps(db), ids, GLOBAL_CAP);
    Recency.NewestCount(ProbeStamps(db), ids, GLOBAL_CAP);
    DropTrims(db, ids - keep);
    hide Recency.Newest;
    assert CapAll(db).probes.Keys <= keep;
    Recency.SubsetSize(CapAll(db).probes.Keys, keep);
    assert |CapAll(db).probes| == |CapAll(db).probes.Keys|;
  }

  lemma CapObsCaps(db: Db, url: string)
    requires Linked(db)
    ensures var b := CapObs(db, url);
            Trimmed(db, b) && Linked(b) && b.probes == db.probes && |ObsOf(b, url)| <= OBS_PER_URL_CAP
  {
    var ids := ObsOf(db, url);
    var keep := Recency.Newest(ObsStamps(db), ids, OBS_PER_URL_CAP);
    Recency.NewestCount(ObsStamps(db), ids, OBS_PER_URL_CAP);
    hide Recency.Newest;
    assert ObsOf(CapObs(db, url), url) <= keep;
    Recency.SubsetSize(ObsOf(CapObs(db, url), url), keep);
  }

  // ---- one write keeps the tables tidy ------------------------------------------------------

  /** Tables a, before an insertion for `url`, and b, after it: the other URLs are as they were. */
  lemma InsertedSets(a: Db, b: Db, r: Reading, u: string)
    requires Linked(a) && Inserted(a, b, r)
    ensures u != r.url ==> ProbesOf(b, u) == ProbesOf(a, u) && ObsOf(b, u) == ObsOf(a, u)
  {
  }

  lemma InsertedLinked(a: Db, b: Db, r: Reading)
    requires Linked(a) && Inserted(a, b, r)
    ensures Linked(b)
  {
  }

  /** The three retention deletes after an insertion. */
  function Trim(db: Db, url: string): Db {
    CapObs(CapAll(CapUrl(db, url)), url)
  }

  lemma TrimmedTwice(a: Db, b: Db, c: Db)
    requires Trimmed(a, b) && Trimmed(b, c)
    ensures Trimmed(a, c)
  {
  }

  lemma TrimCaps(b: Db, url: string)
    requires Linked(b)
    ensures var e := Trim(b, url);
            && Trimmed(b, e) && Linked(e) && |e.probes| <= GLOBAL_CAP
            && |ProbesOf(e, url)| <= PER_URL_CAP && |ObsOf(e, url)| <= OBS_PER_URL_CAP
  {
    hide CapUrl, CapAll, CapObs, Linked, ProbesOf, ObsOf, Trimmed;
    var c := CapUrl(b, url);
    var d := CapAll(c);
    var e := CapObs(d, url);
    CapUrlCaps(b, url);
    CapAllCaps(c);
    CapObsCaps(d, url);
    TrimmedSets(c, d, url);
    TrimmedSets(d, e, url);
    TrimmedTwice(b, c, d);
    TrimmedTwice(b, d, e);
  }

  lemma TrimTidies(a: Db, b: Db, r: Reading)
    requires Tidy(a) && Inserted(a, b, r)
    ensures Tidy(Trim(b, r.url)) && Trimmed(b, Trim(b, r.url))
  {
    hide Trim, Linked, Trimmed, Inserted;
    InsertedLinked(a, b, r);
    TrimCaps(b, r.url);
    var e := Trim(b, r.url);
    forall u ensures |ProbesOf(e, u)| <= PER_URL_CAP && |ObsOf(e, u)| <= OBS_PER_URL_CAP {
      hide ProbesOf, ObsOf;
      InsertedSets(a, b, r, u);
      TrimmedSets(b, e, u);
      assert |ProbesOf(a, u)| <= PER_URL_CAP && |ObsOf(a, u)| <= OBS_PER_URL_CAP;
    }
  }

  lemma WriteTidies(rules: Rules, db: Db, r: Reading)
    requires Tidy(db)
    ensures Tidy(Write(rules, db, r))
  {
    var told := if r.trust == Tentative then db else Trusted(rules, db, r.url, r.snap);
    SameTables(db, told);
    InsertInserts(told, r);
    TrimTidies(told, Insert(told, r), r);
  }

  /** Only probes and observations matter for tidiness, and of a probe only its URL. */
  lemma SameTables(a: Db, b: Db)
    requires a.obs == b.obs && a.nextObs == b.nextObs && a.nextProbe == b.nextProbe
    requires a.probes.Keys == b.probes.Keys && forall p :: p in a.probes ==> a.probes[p].url == b.probes[p].url
    requires Tidy(a)
    ensures Tidy(b)
  {
    assert |a.probes| == |a.probes.Keys| == |b.probes|;
    forall u ensures |ProbesOf(b, u)| <= PER_URL_CAP && |ObsOf(b, u)| <= OBS_PER_URL_CAP {
      assert ProbesOf(b, u) == ProbesOf(a, u) && ObsOf(b, u) == ObsOf(a, u);
    }
  }

  lemma {:induction false} WriteAllTidies(rules: Rules, db: Db, rs: seq<Reading>)
    requires Tidy(db)
    ensures Tidy(WriteAll(rules, db, rs))
    decreases |rs|
  {
    if rs != [] {
      WriteAllTidies(rules, db, rs[..|rs| - 1]);
      WriteTidies(rules, WriteAll(rules, db, rs[..|rs| - 1]), rs[|rs| - 1]);
    }
  }

  lemma {:induction false} TrustedAllTables(rules: Rules, db: Db, ids: seq<nat>)
    ensures TrustedAll(rules, db, ids)
            == db.(urls := TrustedAll(rules, db, ids).urls, log := TrustedAll(rules, db, ids).log)
    decreases |ids|
  {
    if ids != [] { TrustedAllTables(rules, db, ids[..|ids| - 1]); }
  }

  lemma SettleTidies(rules: Rules, db: Db, batch: Text)
    requires Tidy(db)
    ensures Tidy(Settle(rules, db, batch))
  {
    if batch.Some? {
      var ids := Promotable(db, batch.value);
      TrustedAllTables(rules, MarkSettled(db, ids), Recency.OldestFirst(ProbeStamps(db), ids));
      SameTables(db, Settle(rules, db, batch));
    }
  }

  lemma ClaimAdds(db: Db, url: string, ts: int, batch: Text, claims: seq<Fact>)
    requires Linked(db)
    ensures var b := AddAll(db, RowsOf(None, batch, false, url, ts, claims));
            Linked(b) && b.probes == db.probes && forall u :: u != url ==> ObsOf(b, u) == ObsOf(db, u)
  {
    var rows := RowsOf(None, batch, false, url, ts, claims);
    AddAllAdds(db, rows);
    hide AddAll;
  }

  /** Rows for one URL were added and trimmed to its cap. */
  lemma TrimmedTidy(a: Db, b: Db, c: Db, url: string)
    requires Tidy(a) && b.probes == a.probes && Trimmed(b, c) && Linked(c) && c.probes == b.probes
    requires |ObsOf(c, url)| <= OBS_PER_URL_CAP && forall u :: u != url ==> ObsOf(b, u) == ObsOf(a, u)
    ensures Tidy(c)
  {
    hide Trimmed, Linked, ProbesOf, ObsOf;
    forall u ensures |ProbesOf(c, u)| <= PER_URL_CAP && |ObsOf(c, u)| <= OBS_PER_URL_CAP {
      TrimmedSets(b, c, u);
      SameProbes(a, b, u);
      assert |ProbesOf(a, u)| <= PER_URL_CAP && |ObsOf(a, u)| <= OBS_PER_URL_CAP;
    }
  }

  lemma SameProbes(a: Db, b: Db, u: string)
    requires a.probes == b.probes
    ensures ProbesOf(a, u) == ProbesOf(b, u)
  {
  }

  lemma ClaimTidies(db: Db, url: string, ts: int, batch: Text, claims: seq<Fact>)
    requires Tidy(db)
    ensures Tidy(RecordClaim(db, url, ts, batch, claims))
  {
    hide AddAll, CapObs, Trimmed, ObsOf, ProbesOf, RowsOf;
    if url != "" && claims != [] {
      var b := AddAll(db, RowsOf(None, batch, false, url, ts, claims));
      ClaimAdds(db, url, ts, batch, claims);
      CapObsCaps(b, url);
      TrimmedTidy(db, b, CapObs(b, url), url);
    }
  }

  lemma StepTidies(rules: Rules, db: Db, op: Op)
    requires Tidy(db)
    ensures Tidy(Step(rules, db, op))
  {
    hide Tidy, Write, WriteAll, Settle, RecordClaim, ForBatch;
    match op
    case DoRecord(r) => WriteTidies(rules, db, r);
    case DoPersist(batch, rs) =>
      if batch.Some? && !SealedBatch(db, batch) {
        WriteAllTidies(rules, db, ForBatch(batch.value, rs));
        SameTables(WriteAll(rules, db, ForBatch(batch.value, rs)), Persist(rules, db, batch, rs));
      }
    case DoSettle(batch) => SettleTidies(rules, db, batch);
    case DoSeal(batch) => SameTables(db, Seal(db, batch));
    case DoClaim(url, ts, batch, claims) => ClaimTidies(db, url, ts, batch, claims);
    case DoAttest(batch) => SameTables(db, Attest(db, batch));
  }

  /** After every operation of every run the caps hold, and every observation with a probe id
      refers to a stored probe of its URL. */
  lemma {:induction false} RunsStayTidy(rules: Rules, ops: seq<Op>)
    ensures Tidy(Run(rules, EMPTY, ops))
    decreases |ops|
  {
    if ops != [] {
      RunsStayTidy(rules, ops[..|ops| - 1]);
      StepTidies(rules, Run(rules, EMPTY, ops[..|ops| - 1]), ops[|ops| - 1]);
    }
  }

  // ---- the URL state is the fold of the trusted observations --------------------------------

  /** The trusted observations of one URL, in order. */
  function EventsOf(log: seq<Event>, url: string): seq<Snap>
    decreases |log|
  {
    if log == [] then []
    else
      var last := log[|log| - 1];
      EventsOf(log[..|log| - 1], url) + If(last.url == url, last.snap)
  }

  ghost predicate Folded(rules: Rules, db: Db) {
    forall u :: State(db, u) == ApplyAll(rules, NOTHING, EventsOf(db.log, u))
  }

  lemma StaysWhenLate(rules: Rules, st: UrlState, o: Snap)
    ensures Late(st, o) ==> Apply(rules, st, o) == st
  {
  }

  lemma TrustedState(rules: Rules, db: Db, e: Event, url: string)
    ensures var b := Trusted(rules, db, e.url, e.snap);
            State(b, url) == if e.url == url then Apply(rules, State(db, url), e.snap) else State(db, url)
  {
    StaysWhenLate(rules, State(db, url), e.snap);
    hide Apply, Late;
  }

  lemma EventsStep(rules: Rules, st: UrlState, events: seq<Event>, e: Event, url: string)
    ensures ApplyAll(rules, st, EventsOf(events + [e], url))
            == var was := ApplyAll(rules, st, EventsOf(events, url));
               if e.url == url then Apply(rules, was, e.snap) else was
  {
    hide Apply;
    assert (events + [e])[..|events|] == events;
    var os := EventsOf(events, url);
    if e.url == url {
      assert (os + [e.snap])[..|os|] == os;
    } else {
      assert os + [] == os;
    }
  }

  lemma TrustedFolds(rules: Rules, db: Db, url: string, o: Snap)
    requires Folded(rules, db)
    ensures Folded(rules, Trusted(rules, db, url, o))
  {
    hide Apply, Late, State, ApplyAll, EventsOf;
    var b := Trusted(rules, db, url, o);
    forall u ensures State(b, u) == ApplyAll(rules, NOTHING, EventsOf(b.log, u)) {
      assert State(db, u) == ApplyAll(rules, NOTHING, EventsOf(db.log, u));
      TrustedState(rules, db, Event(url, o), u);
      EventsStep(rules, NOTHING, db.log, Event(url, o), u);
    }
  }

  lemma SameFold(rules: Rules, a: Db, b: Db)
    requires Folded(rules, a) && a.urls == b.urls && a.log == b.log
    ensures Folded(rules, b)
  {
    forall u ensures State(b, u) == ApplyAll(rules, NOTHING, EventsOf(b.log, u)) {
      assert State(b, u) == State(a, u);
    }
  }

  lemma {:induction false} AddAllSameState(db: Db, rows: seq<Obs>)
    ensures AddAll(db, rows).urls == db.urls && AddAll(db, rows).log == db.log && AddAll(db, rows).sealed == db.sealed
    ensures AddAll(db, rows).probes == db.probes && AddAll(db, rows).nextProbe == db.nextProbe
    decreases |rows|
  {
    if rows != [] { AddAllSameState(db, rows[..|rows| - 1]); }
  }

  /** What a write tells the URL state: nothing when it is tentative. */
  function Told(rules: Rules, db: Db, r: Reading): Db {
    if r.trust == Tentative then db else Trusted(rules, db, r.url, r.snap)
  }

  lemma WriteState(rules: Rules, db: Db, r: Reading)
    ensures Write(rules, db, r).urls == Told(rules, db, r).urls
    ensures Write(rules, db, r).log == Told(rules, db, r).log
    ensures Write(rules, db, r).sealed == db.sealed
    ensures Write(rules, db, r).nextProbe == db.nextProbe + 1
  {
    hide AddAll, Facts, RowsOf;
    var told := Told(rules, db, r);
    var p := told.nextProbe;
    var stored := told.(probes := told.probes[p := Probe(r.url, RowOf(r.snap), r.trust)], nextProbe := p + 1);
    AddAllSameState(stored, RowsOf(Some(p), r.batch, true, r.url, r.snap.ts, Facts(r)));
    AddAllSameState(AddAll(stored, RowsOf(Some(p), r.batch, true, r.url, r.snap.ts, Facts(r))),
                    RowsOf(Some(p), r.batch, false, r.url, r.snap.ts, r.claims));
  }

  lemma WriteFolds(rules: Rules, db: Db, r: Reading)
    requires Folded(rules, db)
    ensures Folded(rules, Write(rules, db, r))
  {
    hide Write, Trusted, Folded;
    if r.trust != Tentative { TrustedFolds(rules, db, r.url, r.snap); }
    WriteState(rules, db, r);
    SameFold(rules, Told(rules, db, r), Write(rules, db, r));
  }

  lemma {:induction false} WriteAllFolds(rules: Rules, db: Db, rs: seq<Reading>)
    requires Folded(rules, db)
    ensures Folded(rules, WriteAll(rules, db, rs))
    decreases |rs|
  {
    if rs != [] {
      hide Write, Folded;
      WriteAllFolds(rules, db, rs[..|rs| - 1]);
      WriteFolds(rules, WriteAll(rules, db, rs[..|rs| - 1]), rs[|rs| - 1]);
    }
  }

  lemma {:induction false} TrustedAllFolds(rules: Rules, db: Db, ids: seq<nat>)
    requires Folded(rules, db)
    ensures Folded(rules, TrustedAll(rules, db, ids))
    decreases |ids|
  {
    if ids != [] {
      hide Trusted, Folded;
      var told := TrustedAll(rules, db, ids[..|ids| - 1]);
      var p := ids[|ids| - 1];
      TrustedAllFolds(rules, db, ids[..|ids| - 1]);
      if p in db.probes { TrustedFolds(rules, told, db.probes[p].url, db.probes[p].row); }
    }
  }

  lemma StepFolds(rules: Rules, db: Db, op: Op)
    requires Folded(rules, db)
    ensures Folded(rules, Step(rules, db, op))
  {
    hide Write, Folded, WriteAll, TrustedAll, Recency.OldestFirst, AddAll;
    match op
    case DoRecord(r) => WriteFolds(rules, db, r);
    case DoPersist(batch, rs) =>
      if batch.Some? && !SealedBatch(db, batch) {
        WriteAllFolds(rules, db, ForBatch(batch.value, rs));
        SameFold(rules, WriteAll(rules, db, ForBatch(batch.value, rs)), Persist(rules, db, batch, rs));
      }
    case DoSettle(batch) =>
      if batch.Some? {
        var ids := Promotable(db, batch.value);
        SameFold(rules, db, MarkSettled(db, ids));
        TrustedAllFolds(rules, MarkSettled(db, ids), Recency.OldestFirst(ProbeStamps(db), ids));
      }
    case DoSeal(batch) => SameFold(rules, db, Seal(db, batch));
    case DoClaim(url, ts, batch, claims) =>
      AddAllSameState(db, RowsOf(None, batch, false, url, ts, claims));
      SameFold(rules, db, RecordClaim(db, url, ts, batch, claims));
    case DoAttest(batch) => SameFold(rules, db, Attest(db, batch));
  }

  /** Over every run, a URL's state is what its trusted observations make of it, in their order. */
  lemma {:induction false} RunsFoldTrusted(rules: Rules, ops: seq<Op>)
    ensures Folded(rules, Run(rules, EMPTY, ops))
    decreases |ops|
  {
    if ops == [] {
      assert forall u :: EventsOf(EMPTY.log, u) == [];
    } else {
      RunsFoldTrusted(rules, ops[..|ops| - 1]);
      StepFolds(rules, Run(rules, EMPTY, ops[..|ops| - 1]), ops[|ops| - 1]);
    }
  }

  /** Observations j and n showed the new payTo, and nothing accepted in between showed any. */
  ghost predicate MovedBy(rules: Rules, os: seq<Snap>, j: nat, n: nat, after: Text, rail: Text)
    requires n < |os|
  {
    && j < n && Accepted(rules, NOTHING, os, j) && Accepted(rules, NOTHING, os, n)
    && Matches(rules, os[j].payTo, after, rail) && Matches(rules, os[n].payTo, after, rail)
    && forall k :: j < k < n && Accepted(rules, NOTHING, os, k) ==> os[k].payTo == None
  }

  /** The n-th observation moves the trusted payTo only as the second of two. */
  ghost predicate TwoStep(rules: Rules, os: seq<Snap>, n: nat, rail: Text)
    requires n < |os|
  {
    var before, after := ApplyAll(rules, NOTHING, os[..n]).lastPay, ApplyAll(rules, NOTHING, os[..n + 1]).lastPay;
    Differs(rules, before, after, rail) ==> exists j :: MovedBy(rules, os, j, n, after, rail)
  }

  lemma MovesAreTwoStep(rules: Rules, os: seq<Snap>, n: nat, rail: Text)
    requires OnRail(os, rail) && n < |os|
    ensures TwoStep(rules, os, n, rail)
  {
    hide ApplyAll, Accepted, Matches, Differs;
    var after := ApplyAll(rules, NOTHING, os[..n + 1]).lastPay;
    assert os[..n + 1][..n] == os[..n];
    if Differs(rules, ApplyAll(rules, NOTHING, os[..n]).lastPay, after, rail) {
      var j := MoveTakesTwo(rules, os[..n + 1], rail);
      PrefixAccepted(rules, NOTHING, os, n + 1);
      assert MovedBy(rules, os, j, n, after, rail);
    }
  }

  /** Over whole runs, a trusted payTo moves from a known address to a different one only by two
      accepted trusted observations of the new one with no payTo accepted between them, and a
      pending payTo always differs from the trusted one (on one rail). */
  lemma TrustedMovesTakeTwo(rules: Rules, ops: seq<Op>, url: string, rail: Text, n: nat)
    requires OnRail(EventsOf(Run(rules, EMPTY, ops).log, url), rail)
    requires n < |EventsOf(Run(rules, EMPTY, ops).log, url)|
    ensures var db := Run(rules, EMPTY, ops);
            var os := EventsOf(db.log, url);
            && State(db, url) == ApplyAll(rules, NOTHING, os)
            && PendingOk(rules, State(db, url), rail)
            && TwoStep(rules, os, n, rail)
  {
    hide Run, EventsOf, ApplyAll, TwoStep, OnRail;
    RunsFoldTrusted(rules, ops);
    var os := EventsOf(Run(rules, EMPTY, ops).log, url);
    PendingDiffers(rules, NOTHING, os, rail);
    MovesAreTwoStep(rules, os, n, rail);
  }

  // ---- the clock of a URL ---------------------------------------------------------------------

  /** last_checked of every URL is kept or moved forward. */
  ghost predicate Advances(a: Db, b: Db) {
    forall u :: var was, now := State(a, u).lastChecked, State(b, u).lastChecked;
                was.Some? ==> now.Some? && was.value <= now.value
  }

  lemma TrustedAdvances(rules: Rules, a: Db, db: Db, url: string, o: Snap)
    requires Advances(a, db)
    ensures Advances(a, Trusted(rules, db, url, o))
  {
    CheckedNeverDecreases(rules, State(db, url), o);
    hide Apply;
    var b := Trusted(rules, db, url, o);
    forall u ensures var was, now := State(a, u).lastChecked, State(b, u).lastChecked;
                     was.Some? ==> now.Some? && was.value <= now.value
    {
      assert var was, now := State(a, u).lastChecked, State(db, u).lastChecked;
             was.Some? ==> now.Some? && was.value <= now.value;
      assert State(b, u)
          == if u == url && !Late(State(db, url), o) then Apply(rules, State(db, url), o) else State(db, u);
    }
  }

  lemma {:induction false} TrustedAllAdvances(rules: Rules, a: Db, db: Db, ids: seq<nat>)
    requires Advances(a, db)
    ensures Advances(a, TrustedAll(rules, db, ids))
    decreases |ids|
  {
    if ids != [] {
      hide Trusted, Advances;
      var told := TrustedAll(rules, db, ids[..|ids| - 1]);
      var p := ids[|ids| - 1];
      TrustedAllAdvances(rules, a, db, ids[..|ids| - 1]);
      if p in db.probes { TrustedAdvances(rules, a, told, db.probes[p].url, db.probes[p].row); }
    }
  }

  lemma SameAdvances(a: Db, b: Db, c: Db)
    requires Advances(a, b) && b.urls == c.urls
    ensures Advances(a, c)
  {
    forall u ensures State(b, u) == State(c, u) {}
  }

  lemma {:induction false} WriteAllAdvances(rules: Rules, a: Db, db: Db, rs: seq<Reading>)
    requires Advances(a, db)
    ensures Advances(a, WriteAll(rules, db, rs))
    decreases |rs|
  {
    if rs != [] {
      hide Write, Advances, Trusted;
      var wrote := WriteAll(rules, db, rs[..|rs| - 1]);
      var r := rs[|rs| - 1];
      WriteAllAdvances(rules, a, db, rs[..|rs| - 1]);
      TrustedAdvances(rules, a, wrote, r.url, r.snap);
      WriteState(rules, wrote, r);
      SameAdvances(a, Told(rules, wrote, r), Write(rules, wrote, r));
    }
  }

  /** No operation moves a URL's last_checked backwards. */
  lemma ChecksOnlyAdvance(rules: Rules, db: Db, op: Op)
    ensures Advances(db, Step(rules, db, op))
  {
    assert Advances(db, db);
    hide Write, Advances, WriteAll, TrustedAll, Recency.OldestFirst, AddAll;
    match op
    case DoRecord(r) =>
      WriteAllAdvances(rules, db, db, [r]);
      OneWrite(rules, db, r);
    case DoPersist(batch, rs) =>
      if batch.Some? && !SealedBatch(db, batch) {
        WriteAllAdvances(rules, db, db, ForBatch(batch.value, rs));
        SameAdvances(db, WriteAll(rules, db, ForBatch(batch.value, rs)), Persist(rules, db, batch, rs));
      }
    case DoSettle(batch) =>
      if batch.Some? {
        var ids := Promotable(db, batch.value);
        SameAdvances(db, db, MarkSettled(db, ids));
        TrustedAllAdvances(rules, db, MarkSettled(db, ids), Recency.OldestFirst(ProbeStamps(db), ids));
      }
    case DoSeal(batch) => SameAdvances(db, db, Seal(db, batch));
    case DoClaim(url, ts, batch, claims) =>
      AddAllSameState(db, RowsOf(None, batch, false, url, ts, claims));
      SameAdvances(db, db, RecordClaim(db, url, ts, batch, claims));
    case DoAttest(batch) => SameAdvances(db, db, Attest(db, batch));
  }

  lemma OneWrite(rules: Rules, db: Db, r: Reading)
    ensures WriteAll(rules, db, [r]) == Write(rules, db, r)
  {
    hide Write;
    assert [r][..0] == [] && WriteAll(rules, db, []) == db;
  }
}
