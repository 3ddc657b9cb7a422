/** Batches of the observation store: what sealing fixes, and what settling a tentative batch
    later leaves behind compared with trusted writes. */
module HistoryBatches {
  import opened Collections
  import opened UrlHistory
  import opened HistoryStore
  import opened HistoryRuns
  import Recency

  // ---- nothing is rewritten -----------------------------------------------------------------

  /** Ids are never used again, stored rows never change (a tentative probe may become settled),
      a stored probe gains no row, and no new row of a sealed batch belongs to a probe or is an observed one. */
  ghost predicate Forward(a: Db, b: Db) {
    && a.nextProbe <= b.nextProbe && a.nextObs <= b.nextObs && a.sealed <= b.sealed
    && (forall p :: p in b.probes && p < a.nextProbe ==>
                      p in a.probes && (b.probes[p] == a.probes[p]
                                        || (a.probes[p].trust == Tentative
                                            && b.probes[p] == a.probes[p].(trust := Settled))))
    && (forall o :: o in b.obs && o < a.nextObs ==> o in a.obs && b.obs[o] == a.obs[o])
    && (forall o :: o in b.obs && a.nextObs <= o && b.obs[o].probe.Some? ==> a.nextProbe <= b.obs[o].probe.value)
    && forall o :: o in b.obs && a.nextObs <= o && SealedBatch(a, b.obs[o].batch) ==>
                     !b.obs[o].observed && b.obs[o].probe == None
  }

  lemma ForwardTwice(a: Db, b: Db, c: Db)
    requires Forward(a, b) && Forward(b, c)
    ensures Forward(a, c)
  {
    forall p | p in c.probes && p < a.nextProbe
      ensures p in a.probes && (c.probes[p] == a.probes[p]
                                || (a.probes[p].trust == Tentative && c.probes[p] == a.probes[p].(trust := Settled)))
    {
      assert p in b.probes;
    }
    forall o | o in c.obs && a.nextObs <= o && SealedBatch(a, c.obs[o].batch)
      ensures !c.obs[o].observed && c.obs[o].probe == None
    {
      assert SealedBatch(b, c.obs[o].batch);
      if o < b.nextObs { assert o in b.obs; }
    }
  }

  lemma InsertForward(a: Db, b: Db, r: Reading)
    requires Linked(a) && Inserted(a, b, r) && !SealedBatch(a, r.batch)
    ensures Forward(a, b)
  {
  }

  lemma TrimForward(a: Db, b: Db)
    requires Trimmed(a, b) && forall o :: o in a.obs ==> o < a.nextObs
    ensures Forward(a, b)
  {
  }

  lemma WriteForward(rules: Rules, db: Db, r: Reading)
    requires Tidy(db) && !SealedBatch(db, r.batch)
    ensures Forward(db, Write(rules, db, r))
  {
    hide *;
    var told := Told(rules, db, r);
    var inserted := Insert(told, r);
    ToldTables(rules, db, r);
    TidyLinks(told);
    InsertInserts(told, r);
    InsertedIds(told, inserted, r);
    TrimTidies(told, inserted, r);
    InsertForward(told, inserted, r);
    TrimForward(inserted, Trim(inserted, r.url));
    ForwardTwice(db, told, inserted);
    ForwardTwice(db, inserted, Trim(inserted, r.url));
    SameWrite(rules, db, r);
  }

  lemma ToldTables(rules: Rules, db: Db, r: Reading)
    requires Tidy(db) && !SealedBatch(db, r.batch)
    ensures var told := Told(rules, db, r); Forward(db, told) && Tidy(told) && !SealedBatch(told, r.batch)
  {
    SameTables(db, Told(rules, db, r));
  }

  lemma TidyLinks(db: Db)
    requires Tidy(db)
    ensures Linked(db)
  {
  }

  lemma InsertedIds(a: Db, b: Db, r: Reading)
    requires Inserted(a, b, r)
    ensures forall o :: o in b.obs ==> o < b.nextObs
  {
  }

  lemma SameWrite(rules: Rules, db: Db, r: Reading)
    ensures Write(rules, db, r) == Trim(Insert(Told(rules, db, r), r), r.url)
  {
    hide Insert, CapObs, CapAll, CapUrl, Trusted;
  }

  lemma {:induction false} WriteAllForward(rules: Rules, db: Db, rs: seq<Reading>)
    requires Tidy(db) && forall i :: 0 <= i < |rs| ==> !SealedBatch(db, rs[i].batch)
    ensures Forward(db, WriteAll(rules, db, rs)) && Tidy(WriteAll(rules, db, rs))
    ensures WriteAll(rules, db, rs).sealed == db.sealed
    decreases |rs|
  {
    if rs != [] {
      hide Write, Tidy, Forward;
      var wrote := WriteAll(rules, db, rs[..|rs| - 1]);
      var r := rs[|rs| - 1];
      WriteAllForward(rules, db, rs[..|rs| - 1]);
      WriteForward(rules, wrote, r);
      WriteTidies(rules, wrote, r);
      WriteState(rules, wrote, r);
      ForwardTwice(db, wrote, WriteAll(rules, db, rs));
    } else {
      assert Forward(db, db);
    }
  }

  lemma {:induction false} ForBatchRows(bid: string, rs: seq<Reading>)
    ensures forall i :: 0 <= i < |ForBatch(bid, rs)| ==> ForBatch(bid, rs)[i].batch == Some(bid)
  {
    if rs != [] { ForBatchRows(bid, rs[1..]); }
  }

  lemma ClaimAddsForward(db: Db, url: string, ts: int, batch: Text, claims: seq<Fact>)
    requires Linked(db)
    ensures Forward(db, AddAll(db, RowsOf(None, batch, false, url, ts, claims)))
  {
    AddAllAdds(db, RowsOf(None, batch, false, url, ts, claims));
    hide AddAll;
  }

  lemma ClaimForward(db: Db, url: string, ts: int, batch: Text, claims: seq<Fact>)
    requires Tidy(db)
    ensures Forward(db, RecordClaim(db, url, ts, batch, claims))
  {
    hide AddAll, RowsOf, CapObs, Forward, Trimmed, ProbesCapped, ObsCapped;
    ForwardItself(db);
    if url != "" && claims != [] {
      var b := AddAll(db, RowsOf(None, batch, false, url, ts, claims));
      ClaimAddsForward(db, url, ts, batch, claims);
      ClaimAdds(db, url, ts, batch, claims);
      CapObsCaps(b, url);
      TrimForward(b, CapObs(b, url));
      ForwardTwice(db, b, CapObs(b, url));
    }
  }

  lemma SettleForward(rules: Rules, db: Db, batch: Text)
    requires Tidy(db)
    ensures Forward(db, Settle(rules, db, batch))
  {
    if batch.Some? {
      var ids := Promotable(db, batch.value);
      TrustedAllTables(rules, MarkSettled(db, ids), Recency.OldestFirst(ProbeStamps(db), ids));
      hide TrustedAll, Recency.OldestFirst;
    }
  }

  /** Sealing one more batch. */
  lemma SealForward(a: Db, b: Db, bid: string)
    requires Forward(a, b)
    ensures Forward(a, b.(sealed := b.sealed + {bid}))
  {
  }

  lemma PersistForward(rules: Rules, db: Db, batch: Text, rs: seq<Reading>)
    requires Tidy(db)
    ensures Forward(db, Persist(rules, db, batch, rs))
  {
    hide WriteAll, ForBatch, Forward, Tidy;
    ForwardItself(db);
    if batch.Some? && !SealedBatch(db, batch) {
      ForBatchRows(batch.value, rs);
      WriteAllForward(rules, db, ForBatch(batch.value, rs));
      SealForward(db, WriteAll(rules, db, ForBatch(batch.value, rs)), batch.value);
    }
  }

  lemma StepForward(rules: Rules, db: Db, op: Op)
    requires Tidy(db)
    ensures Forward(db, Step(rules, db, op))
  {
    hide Write, Persist, RecordClaim, Settle, Forward, Tidy, BatchRows;
    ForwardItself(db);
    match op
    case DoRecord(r) =>
      if r.url != "" && !SealedBatch(db, r.batch) { WriteForward(rules, db, r); }
    case DoPersist(batch, rs) => PersistForward(rules, db, batch, rs);
    case DoSettle(batch) => SettleForward(rules, db, batch);
    case DoSeal(batch) => if batch.Some? { SealForward(db, db, batch.value); }
    case DoClaim(url, ts, batch, claims) => ClaimForward(db, url, ts, batch, claims);
    case DoAttest(batch) => if batch.Some? { SealForward(db, db, batch.value); }
  }

  lemma {:induction false} RunForward(rules: Rules, db: Db, ops: seq<Op>)
    requires Tidy(db)
    ensures Forward(db, Run(rules, db, ops)) && Tidy(Run(rules, db, ops))
    decreases |ops|
  {
    hide Tidy, Forward, Step;
    if ops != [] {
      RunForward(rules, db, ops[..|ops| - 1]);
      var mid := Run(rules, db, ops[..|ops| - 1]);
      StepForward(rules, mid, ops[|ops| - 1]);
      StepTidies(rules, mid, ops[|ops| - 1]);
      ForwardTwice(db, mid, Run(rules, db, ops));
    } else {
      ForwardItself(db);
    }
  }

  lemma ForwardItself(db: Db)
    requires Tidy(db)
    ensures Forward(db, db)
  {
  }

  // ---- attestations -------------------------------------------------------------------------

  /** The observed rows of a sealed batch can only shrink by retention. */
  lemma SealedRowsOnlyShrink(rules: Rules, db: Db, ops: seq<Op>, bid: string)
    requires Tidy(db) && bid in db.sealed
    ensures var later := BatchRows(Run(rules, db, ops), bid);
            later.Items <= BatchRows(db, bid).Items && later.Keys <= BatchRows(db, bid).Keys
  {
    RunForward(rules, db, ops);
  }

  lemma {:induction false} SameSizeSame<T>(a: set<T>, b: set<T>)
    requires a <= b && |a| == |b|
    ensures a == b
  {
    if a != b {
      assert exists x :: x in b && x !in a;
      var x :| x in b && x !in a;
      Recency.SubsetSize(a, b - {x});
    }
  }

  lemma SameRows(was: map<nat, Obs>, now: map<nat, Obs>)
    requires now.Items <= was.Items && now.Keys <= was.Keys
    ensures |now| <= |was| && (|now| == |was| ==> now == was)
  {
    Recency.SubsetSize(now.Keys, was.Keys);
    assert |now| == |now.Keys| && |was| == |was.Keys|;
    if |now| == |was| {
      SameSizeSame(now.Keys, was.Keys);
      assert forall o :: o in now ==> (o, now[o]) in now.Items;
      assert now == was;
    }
  }

  lemma AttestTables(rules: Rules, db: Db, batch: Text, digest: map<nat, Obs> -> string)
    requires Attested(db, batch, digest).Some?
    ensures var b := Step(rules, db, DoAttest(batch));
            batch.Some? && batch.value in b.sealed && BatchRows(b, batch.value) == BatchRows(db, batch.value)
  {
  }

  /** Once a batch has been attested, every later attestation of it counts no more rows, and one
      that counts as many has the same digest, whatever ran in between. */
  lemma AttestationIsStable(rules: Rules, before: seq<Op>, between: seq<Op>, batch: Text,
                            digest: map<nat, Obs> -> string)
    requires Attested(Run(rules, EMPTY, before), batch, digest).Some?
    ensures var was := Attested(Run(rules, EMPTY, before), batch, digest).value;
            var db := Run(rules, Step(rules, Run(rules, EMPTY, before), DoAttest(batch)), between);
            match Attested(db, batch, digest)
            case None => BatchRows(db, batch.value) == map[]
            case Some(now) => now.n <= was.n && (now.n == was.n ==> now == was)
  {
    hide Run, Step, BatchRows, Tidy;
    var first := Run(rules, EMPTY, before);
    var db0 := Step(rules, first, DoAttest(batch));
    RunsStayTidy(rules, before);
    StepTidies(rules, first, DoAttest(batch));
    AttestTables(rules, first, batch, digest);
    SealedRowsOnlyShrink(rules, db0, between, batch.value);
    SameRows(BatchRows(db0, batch.value), BatchRows(Run(rules, db0, between), batch.value));
  }

  // ---- tentative rows -----------------------------------------------------------------------

  /** Operations that carry no trusted observation. */
  predicate Untrusted(op: Op) {
    match op
    case DoRecord(r) => r.trust == Tentative
    case DoPersist(_, rs) => forall i :: 0 <= i < |rs| ==> rs[i].trust == Tentative
    case DoSettle(_) => false
    case _ => true
  }

  lemma {:induction false} TentativeWritesTellNothing(rules: Rules, db: Db, rs: seq<Reading>)
    requires forall i :: 0 <= i < |rs| ==> rs[i].trust == Tentative
    ensures WriteAll(rules, db, rs).urls == db.urls && WriteAll(rules, db, rs).log == db.log
    decreases |rs|
  {
    if rs != [] {
      hide Write;
      TentativeWritesTellNothing(rules, db, rs[..|rs| - 1]);
      WriteState(rules, WriteAll(rules, db, rs[..|rs| - 1]), rs[|rs| - 1]);
    }
  }

  lemma {:induction false} ForBatchTrust(bid: string, rs: seq<Reading>)
    requires forall i :: 0 <= i < |rs| ==> rs[i].trust == Tentative
    ensures forall i :: 0 <= i < |ForBatch(bid, rs)| ==> ForBatch(bid, rs)[i].trust == Tentative
  {
    if rs != [] { ForBatchTrust(bid, rs[1..]); }
  }

  /** Tentative rows, claims, sealing and attesting never touch the URL state, in any run. */
  lemma {:induction false} TentativeRunsTellNothing(rules: Rules, db: Db, ops: seq<Op>)
    requires forall i :: 0 <= i < |ops| ==> Untrusted(ops[i])
    ensures Run(rules, db, ops).urls == db.urls && Run(rules, db, ops).log == db.log
    decreases |ops|
  {
    if ops != [] {
      hide Write, AddAll, WriteAll;
      var mid := Run(rules, db, ops[..|ops| - 1]);
      TentativeRunsTellNothing(rules, db, ops[..|ops| - 1]);
      match ops[|ops| - 1]
      case DoRecord(r) => WriteState(rules, mid, r);
      case DoPersist(batch, rs) =>
        if batch.Some? {
          ForBatchTrust(batch.value, rs);
          TentativeWritesTellNothing(rules, mid, ForBatch(batch.value, rs));
        }
      case DoClaim(url, ts, batch, claims) => AddAllSameState(mid, RowsOf(None, batch, false, url, ts, claims));
      case _ =>
    }
  }
}
