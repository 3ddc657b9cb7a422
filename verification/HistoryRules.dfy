/** The rules of the observation store (live402/history.py), stated on its rows: which operations tell the
    URL state, what settling promotes and that it does so once, and which rows retention keeps. */
module HistoryRules {
  import opened Collections
  import opened UrlHistory
  import opened HistoryStore
  import opened HistoryRuns
  import Recency

  // ---- who is told --------------------------------------------------------------------------

  /** A reading that reaches the URL state when it is written. */
  predicate Tells(r: Reading) {
    r.trust == Independent || r.trust == Scheduled || r.trust == Settled
  }

  lemma InsertSameLog(db: Db, r: Reading)
    ensures Insert(db, r).log == db.log && Insert(db, r).sealed == db.sealed
  {
    hide RowsOf, Facts;
    var p := db.nextProbe;
    var stored := db.(probes := db.probes[p := Probe(r.url, RowOf(r.snap), r.trust)], nextProbe := p + 1);
    AddAllSame(stored, RowsOf(Some(p), r.batch, true, r.url, r.snap.ts, Facts(r)));
    AddAllSame(AddAll(stored, RowsOf(Some(p), r.batch, true, r.url, r.snap.ts, Facts(r))),
               RowsOf(Some(p), r.batch, false, r.url, r.snap.ts, r.claims));
  }

  lemma {:induction false} AddAllSame(db: Db, rows: seq<Obs>)
    ensures var b := AddAll(db, rows); b.log == db.log && b.sealed == db.sealed && b.probes == db.probes
    decreases |rows|
  {
    if rows != [] { AddAllSame(db, rows[..|rows| - 1]); }
  }

  lemma WriteTells(rules: Rules, db: Db, r: Reading)
    ensures var b := Write(rules, db, r);
            && b.log == db.log + (if Tells(r) then [Event(r.url, r.snap)] else [])
            && b.sealed == db.sealed
  {
    hide Insert, CapUrl, CapAll, CapObs;
    var told := if r.trust == Tentative then db else Trusted(rules, db, r.url, r.snap);
    InsertSameLog(told, r);
    CapsSame(Insert(told, r), r.url);
  }

  lemma CapsSame(db: Db, url: string)
    ensures var b := CapObs(CapAll(CapUrl(db, url)), url); b.log == db.log && b.sealed == db.sealed
  {
    hide Recency.Newest;
  }

  /** A recorded reading is told exactly if it has an URL, a trusted class, and no sealed batch; without an URL or for
      a sealed batch nothing changes at all. */
  lemma RecordTells(rules: Rules, db: Db, r: Reading)
    ensures var ignored := r.url == "" || (r.batch.Some? && r.batch.value in db.sealed);
            && (ignored ==> Record(rules, db, r) == db)
            && (!ignored ==> Record(rules, db, r).log == db.log + (if Tells(r) then [Event(r.url, r.snap)] else []))
  {
    hide Write;
    WriteTells(rules, db, r);
  }

  /** The trusted rows with an URL, in order. */
  function Told(rs: seq<Reading>): seq<Event> {
    if rs == [] then []
    else (if rs[0].url != "" && Tells(rs[0]) then [Event(rs[0].url, rs[0].snap)] else []) + Told(rs[1..])
  }

  lemma {:induction false} ToldLast(rs: seq<Reading>)
    requires rs != []
    ensures var n := |rs| - 1;
            Told(rs) == Told(rs[..n]) + if rs[n].url != "" && Tells(rs[n]) then [Event(rs[n].url, rs[n].snap)] else []
    decreases |rs|
  {
    hide Tells;
    var n := |rs| - 1;
    if n == 0 {
      assert rs[1..] == [] && rs[..0] == [];
    } else {
      ToldLast(rs[1..]);
      assert rs[1..][..n - 1] == rs[..n][1..];
    }
  }

  lemma {:induction false} WriteAllTells(rules: Rules, db: Db, rs: seq<Reading>)
    requires forall i :: 0 <= i < |rs| ==> rs[i].url != ""
    ensures var b := WriteAll(rules, db, rs); b.log == db.log + Told(rs) && b.sealed == db.sealed
    decreases |rs|
  {
    hide Write, Tells, Told;
    if rs == [] {
      assert Told(rs) == [] by { NothingTold(); }
    } else {
      var n := |rs| - 1;
      WriteAllTells(rules, db, rs[..n]);
      WriteTells(rules, WriteAll(rules, db, rs[..n]), rs[n]);
      ToldLast(rs);
    }
  }

  lemma NothingTold()
    ensures Told([]) == []
  {
  }

  lemma {:induction false} ForBatchTells(bid: string, rs: seq<Reading>)
    ensures Told(ForBatch(bid, rs)) == Told(rs)
    ensures forall i :: 0 <= i < |ForBatch(bid, rs)| ==>
              ForBatch(bid, rs)[i].url != "" && ForBatch(bid, rs)[i].batch == Some(bid)
    decreases |rs|
  {
    if rs != [] {
      ForBatchTells(bid, rs[1..]);
      if rs[0].url != "" {
        assert ForBatch(bid, rs)[1..] == ForBatch(bid, rs[1..]);
      } else {
        assert ForBatch(bid, rs) == ForBatch(bid, rs[1..]);
      }
    }
  }

  /** A batch that is not sealed yet tells its trusted rows with an URL, in order, and is sealed; a sealed one and
      one without an id change nothing, so neither does persisting or recording for it again. */
  lemma PersistTells(rules: Rules, db: Db, batch: Text, rs: seq<Reading>, again: seq<Reading>, r: Reading)
    ensures var b := Persist(rules, db, batch, rs);
            && (batch.None? || batch.value in db.sealed ==> b == db)
            && (batch.Some? && batch.value !in db.sealed ==>
                  b.log == db.log + Told(rs) && b.sealed == db.sealed + {batch.value})
            && (batch.Some? ==> Persist(rules, b, batch, again) == b)
            && (batch.Some? && r.batch == batch ==> Record(rules, b, r) == b)
  {
    hide WriteAll, Told, ForBatch, Write;
    if batch.Some? {
      ForBatchTells(batch.value, rs);
      WriteAllTells(rules, db, ForBatch(batch.value, rs));
    }
  }

  /** Claims, seals and attestations tell nobody, and only claims and writes add rows. */
  lemma OthersTellNobody(db: Db, url: string, ts: int, batch: Text, claims: seq<Fact>)
    ensures RecordClaim(db, url, ts, batch, claims).log == db.log
    ensures RecordClaim(db, url, ts, batch, claims).urls == db.urls
    ensures RecordClaim(db, url, ts, batch, claims).probes == db.probes
    ensures Seal(db, batch) == db.(sealed := Seal(db, batch).sealed)
    ensures Attest(db, batch) == db.(sealed := Attest(db, batch).sealed)
  {
    hide Recency.Newest, RowsOf;
    if url != "" && claims != [] { ClaimRows(db, RowsOf(None, batch, false, url, ts, claims)); }
  }

  lemma {:induction false} ClaimRows(db: Db, rows: seq<Obs>)
    ensures var b := AddAll(db, rows); b.log == db.log && b.urls == db.urls && b.probes == db.probes
    decreases |rows|
  {
    if rows != [] { ClaimRows(db, rows[..|rows| - 1]); }
  }

  // ---- settling -----------------------------------------------------------------------------

  /** A probe that settling the batch promotes. */
  ghost predicate Promoted(db: Db, bid: string, p: nat) {
    && p in db.probes && db.probes[p].trust == Tentative
    && exists o :: o in db.obs && db.obs[o].probe == Some(p) && db.obs[o].batch == Some(bid)
  }

  lemma {:induction false} TrustedAllSame(rules: Rules, db: Db, ids: seq<nat>)
    ensures var b := TrustedAll(rules, db, ids);
            b.probes == db.probes && b.obs == db.obs && b.sealed == db.sealed
    decreases |ids|
  {
    hide Apply, Late;
    if ids != [] { TrustedAllSame(rules, db, ids[..|ids| - 1]); }
  }

  lemma {:induction false} TrustedAllLog(rules: Rules, db: Db, ids: seq<nat>)
    requires forall p :: p in ids ==> p in db.probes
    ensures var b := TrustedAll(rules, db, ids);
            && |b.log| == |db.log| + |ids| && b.log[..|db.log|] == db.log
            && forall k :: 0 <= k < |ids| ==>
                 ids[k] in db.probes && b.log[|db.log| + k] == Event(db.probes[ids[k]].url, db.probes[ids[k]].row)
    decreases |ids|
  {
    hide Apply, Late;
    if ids != [] {
      var n := |ids| - 1;
      TrustedAllLog(rules, db, ids[..n]);
      assert ids[n] in ids;
    }
  }

  /** Settling promotes exactly those probes, tells each of them once, the oldest first and the earlier id on a tie,
      and touches no observation; settling the batch again changes nothing. */
  lemma SettleTells(rules: Rules, db: Db, bid: string) returns (order: seq<nat>)
    ensures var b := Settle(rules, db, Some(bid));
            && b.obs == db.obs && b.sealed == db.sealed && b.probes.Keys == db.probes.Keys
            && (forall p :: p in db.probes ==>
                  b.probes[p] == if Promoted(db, bid, p) then db.probes[p].(trust := Settled) else db.probes[p])
            && (forall p :: p in order <==> Promoted(db, bid, p))
            && (forall i, j :: 0 <= i < j < |order| ==>
                  order[i] in db.probes && order[j] in db.probes
                  && (db.probes[order[i]].row.ts < db.probes[order[j]].row.ts
                      || (db.probes[order[i]].row.ts == db.probes[order[j]].row.ts && order[i] < order[j])))
            && |b.log| == |db.log| + |order| && b.log[..|db.log|] == db.log
            && (forall k :: 0 <= k < |order| ==>
                  order[k] in db.probes
                  && b.log[|db.log| + k] == Event(db.probes[order[k]].url, db.probes[order[k]].row))
            && Settle(rules, b, Some(bid)) == b
  {
    hide Recency.OldestFirst, TrustedAll;
    var ids := Promotable(db, bid);
    order := Recency.OldestFirst(ProbeStamps(db), ids);
    var marked := MarkSettled(db, ids);
    TrustedAllSame(rules, marked, order);
    TrustedAllLog(rules, marked, order);
    var b := Settle(rules, db, Some(bid));
    forall p ensures p !in Promotable(b, bid) {
      if p in ids { assert b.probes[p].trust == Settled; }
    }
    assert Promotable(b, bid) == {};
    assert Recency.OldestFirst(ProbeStamps(b), {}) == [];
    NothingToSettle(rules, b, []);
  }

  // ---- retention ----------------------------------------------------------------------------

  /** The stored probes of the URL that are newer than this one. */
  function NewerProbes(db: Db, url: string, p: nat): set<nat>
    requires p in db.probes
  {
    set q | q in db.probes && db.probes[q].url == url
            && (db.probes[q].row.ts > db.probes[p].row.ts || (db.probes[q].row.ts == db.probes[p].row.ts && q > p))
  }

  /** A URL keeps exactly the probes that have fewer than 500 newer ones of it, and with each its observations. */
  lemma CapUrlIff(db: Db, url: string)
    ensures var b := CapUrl(db, url);
            && (forall p :: p in b.probes <==>
                  p in db.probes && (db.probes[p].url == url ==> |NewerProbes(db, url, p)| < 500))
            && (forall p :: p in b.probes ==> b.probes[p] == db.probes[p])
            && (forall o :: o in b.obs <==>
                  o in db.obs && (db.obs[o].probe.Some? && db.obs[o].probe.value in db.probes ==>
                                    db.obs[o].probe.value in b.probes))
            && (forall o :: o in b.obs ==> b.obs[o] == db.obs[o])
  {
    forall p | p in db.probes && db.probes[p].url == url
      ensures Recency.NewerThan(ProbeStamps(db), ProbesOf(db, url), p) == NewerProbes(db, url, p)
    {
    }
  }

  /** The table keeps exactly the probes that have fewer than 50000 newer ones. */
  lemma CapAllIff(db: Db)
    ensures var b := CapAll(db);
            forall p :: p in b.probes <==>
              p in db.probes
              && |set q | q in db.probes && (db.probes[q].row.ts > db.probes[p].row.ts
                                             || (db.probes[q].row.ts == db.probes[p].row.ts && q > p))| < 50000
  {
    forall p | p in db.probes
      ensures Recency.NewerThan(ProbeStamps(db), db.probes.Keys, p)
              == set q | q in db.probes && (db.probes[q].row.ts > db.probes[p].row.ts
                                            || (db.probes[q].row.ts == db.probes[p].row.ts && q > p))
    {
    }
  }

  /** A URL keeps exactly the observations that have fewer than 4000 newer ones of it. */
  lemma CapObsIff(db: Db, url: string)
    ensures var b := CapObs(db, url);
            && b == db.(obs := b.obs)
            && forall o :: o in b.obs <==>
                 o in db.obs
                 && (db.obs[o].url == url ==>
                       |set q | q in db.obs && db.obs[q].url == url
                                && (db.obs[q].ts > db.obs[o].ts || (db.obs[q].ts == db.obs[o].ts && q > o))| < 4000)
  {
    forall o | o in db.obs && db.obs[o].url == url
      ensures Recency.NewerThan(ObsStamps(db), ObsOf(db, url), o)
              == set q | q in db.obs && db.obs[q].url == url
                         && (db.obs[q].ts > db.obs[o].ts || (db.obs[q].ts == db.obs[o].ts && q > o))
    {
    }
  }

  /** The caps in every state of every run. */
  lemma RunsAreCapped(rules: Rules, ops: seq<Op>, url: string)
    ensures var db := Run(rules, EMPTY, ops);
            && |set p | p in db.probes && db.probes[p].url == url| <= 500
            && |set o | o in db.obs && db.obs[o].url == url| <= 4000
            && |db.probes| <= 50000
  {
    RunsStayTidy(rules, ops);
    var db := Run(rules, EMPTY, ops);
    assert ProbesOf(db, url) == set p | p in db.probes && db.probes[p].url == url;
    assert ObsOf(db, url) == set o | o in db.obs && db.obs[o].url == url;
  }
}
