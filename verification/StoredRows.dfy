/** What the observation store keeps of a write and of a claim (live402/history.py, _write_probe_row and
    record_claim), row by row. */
module StoredRows {
  import opened Collections
  import opened UrlHistory
  import opened HistoryStore
  import opened HistoryRuns
  import opened HistoryBatches
  import opened HistoryFacts
  import Recency

  // ---- a written reading --------------------------------------------------------------------

  /** The probe row of a reading is the reading's own, without its envelope. */
  lemma StoredProbe(rules: Rules, db: Db, r: Reading)
    requires Tidy(db)
    ensures var b, p := Write(rules, db, r), db.nextProbe;
            && b.nextProbe == p + 1
            && (p in b.probes ==>
                  && b.probes[p].url == r.url && b.probes[p].trust == r.trust
                  && b.probes[p].row == Snap(r.snap.ts, r.snap.live, r.snap.payTo, r.snap.amount, r.snap.schema,
                                             r.snap.rail, ""))
  {
    hide Insert, Trim, Tidy, Linked, Write, Told;
    var told := Told(rules, db, r);
    ToldSame(rules, db, r);
    TidyLinks(told);
    InsertInserts(told, r);
    TrimTidies(told, Insert(told, r), r);
    SameWrite(rules, db, r);
    InsertedProbe(told, r);
  }

  lemma InsertedProbe(db: Db, r: Reading)
    ensures var b := Insert(db, r);
            && db.nextProbe in b.probes && b.nextProbe == db.nextProbe + 1
            && b.probes[db.nextProbe] == Probe(r.url, r.snap.(quote := ""), r.trust)
  {
    hide AddAll, RowsOf, Facts;
    var p := db.nextProbe;
    var stored := db.(probes := db.probes[p := Probe(r.url, RowOf(r.snap), r.trust)], nextProbe := p + 1);
    var observed := RowsOf(Some(p), r.batch, true, r.url, r.snap.ts, Facts(r));
    AddedTables(stored, observed);
    AddedTables(AddAll(stored, observed), RowsOf(Some(p), r.batch, false, r.url, r.snap.ts, r.claims));
  }

  lemma {:induction false} AddedTables(db: Db, rows: seq<Obs>)
    ensures var b := AddAll(db, rows); b.probes == db.probes && b.nextProbe == db.nextProbe
    decreases |rows|
  {
    if rows != [] { AddedTables(db, rows[..|rows| - 1]); }
  }

  /** A claimed row of the probe with this fact. */
  ghost predicate Claims(db: Db, p: nat, r: Reading, f: Fact) {
    exists o :: o in db.obs && db.obs[o] == Obs(Some(p), r.batch, false, r.url, f, r.snap.ts)
  }

  /** The claims that come with a reading are stored beside it, and no others. */
  lemma WriteStoresClaims(rules: Rules, db: Db, r: Reading, f: Fact)
    requires Tidy(db)
    ensures var b, p := Write(rules, db, r), db.nextProbe;
            && (Claims(b, p, r, f) ==> f in r.claims)
            && (Fits(db, r) && p in b.probes && f in r.claims ==> Claims(b, p, r, f))
  {
    hide *;
    var told := Told(rules, db, r);
    var a := Insert(told, r);
    var b := Write(rules, db, r);
    var p := db.nextProbe;
    WriteStoresReading(rules, db, r, f);
    ClaimsOnlySaid(b, p, r, f);
    ToldSame(rules, db, r);
    TidyLinks(told);
    InsertInserts(told, r);
    TrimTidies(told, a, r);
    SameWrite(rules, db, r);
    if Fits(db, r) && p in b.probes && f in r.claims {
      FitsTold(rules, db, r);
      InsertHas(told, r);
      ClaimStays(told, a, r, f);
    }
  }

  lemma ClaimsOnlySaid(b: Db, p: nat, r: Reading, f: Fact)
    requires OnlySaid(b, p, r)
    ensures Claims(b, p, r, f) ==> f in r.claims
  {
    hide Says;
  }

  lemma ClaimStays(a: Db, b: Db, r: Reading, f: Fact)
    requires Linked(a) && Inserted(a, b, r) && NewRows(a, b, r) && Fits(a, r)
    requires a.nextProbe in Trim(b, r.url).probes && f in r.claims
    requires Trimmed(b, Trim(b, r.url))
    ensures Claims(Trim(b, r.url), a.nextProbe, r, f)
  {
    hide Facts, Trim, Fits, Linked, Inserted;
    var k :| 0 <= k < |r.claims| && r.claims[k] == f;
    var o := a.nextObs + |Facts(r)| + k;
    assert b.obs[o] == NewRow(a.nextProbe, r, |Facts(r)| + k);
    FittingStays(a, b, r, o);
  }

  // ---- a recorded claim ---------------------------------------------------------------------

  /** A recorded claim adds one row of its batch, URL and time for each of its fields, without a probe and not
      observed, at the next ids; when its URL's rows then exceed their cap the oldest of them go, and rows of other
      URLs stay. Without a URL or fields nothing changes. */
  lemma ClaimIsStored(db: Db, url: string, ts: int, batch: Text, claims: seq<Fact>)
    requires forall o :: o in db.obs ==> o < db.nextObs
    ensures var b := RecordClaim(db, url, ts, batch, claims);
            && (url == "" || claims == [] ==> b == db)
            && (url != "" ==>
                  && b.nextObs == db.nextObs + |claims|
                  && (forall o :: o in b.obs ==>
                        if o < db.nextObs then o in db.obs && b.obs[o] == db.obs[o]
                        else o - db.nextObs < |claims|
                             && b.obs[o] == Obs(None, batch, false, url, claims[o - db.nextObs], ts))
                  && (forall o :: o in db.obs && db.obs[o].url != url ==> o in b.obs)
                  && (|ObsOf(db, url)| + |claims| <= 4000 ==>
                        forall o :: o in db.obs || db.nextObs <= o < b.nextObs ==> o in b.obs))
  {
    hide Recency.Newest, AddAll;
    if url != "" && claims != [] {
      var rows := RowsOf(None, batch, false, url, ts, claims);
      var a := AddAll(db, rows);
      AddAllHas(db, rows);
      if |ObsOf(db, url)| + |claims| <= 4000 {
        AllFit(db, a, url, |claims|);
      }
    }
  }

  /** Rows within the cap are all among the newest. */
  lemma AllFit(db: Db, a: Db, url: string, n: nat)
    requires |ObsOf(db, url)| + n <= 4000
    requires forall o :: o in a.obs && a.obs[o].url == url ==>
               o in ObsOf(db, url) || db.nextObs <= o < db.nextObs + n
    ensures CapObs(a, url).obs == a.obs
  {
    var ids := ObsOf(a, url);
    var news := set o | o in ids && db.nextObs <= o < db.nextObs + n;
    RangeSize(db.nextObs, n, news);
    Recency.SubsetSize(ids, ObsOf(db, url) + news);
    Recency.NewestCount(ObsStamps(a), ids, 4000);
    forall o | o in ids ensures o in Recency.Newest(ObsStamps(a), ids, 4000) {
      AllNewest(ObsStamps(a), ids, 4000);
    }
  }

  lemma AllNewest(ts: Recency.Stamps, rows: set<nat>, k: nat)
    requires (forall x :: x in rows ==> x in ts) && |Recency.Newest(ts, rows, k)| == |rows|
    ensures Recency.Newest(ts, rows, k) == rows
  {
    hide Recency.NewerThan;
    var kept := Recency.Newest(ts, rows, k);
    assert kept <= rows;
    if x :| x in rows && x !in kept {
      Recency.SubsetSize(kept, rows - {x});
    }
  }

  // ---- an attestation -----------------------------------------------------------------------

  /** Exactly a batch with observed rows is attested: their number and the digest of all of them and nothing else.
      Attesting it seals it. */
  lemma AttestedIff(db: Db, batch: Text, digest: map<nat, Obs> -> string)
    ensures Attested(db, batch, digest).Some?
            <==> exists o :: o in db.obs && batch.Some? && db.obs[o].batch == batch && db.obs[o].observed
    ensures Attested(db, batch, digest).Some? ==>
              exists rows: map<nat, Obs> ::
                && (forall o :: o in rows <==> o in db.obs && db.obs[o].batch == batch && db.obs[o].observed)
                && (forall o :: o in rows ==> rows[o] == db.obs[o])
                && Attested(db, batch, digest).value == Attestation(batch.value, |rows|, digest(rows))
    ensures Attest(db, batch)
            == if Attested(db, batch, digest).Some? then db.(sealed := db.sealed + {batch.value}) else db
  {
    if batch.Some? {
      var rows := BatchRows(db, batch.value);
      if o :| o in db.obs && db.obs[o].batch == batch && db.obs[o].observed { assert o in rows; }
      if rows != map[] {
        var o :| o in rows;
        assert o in db.obs;
      }
    }
  }
}
