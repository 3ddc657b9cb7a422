/** What the observation rows of a probe say (live402/history.py): exactly what its reading said, when
    it is written and in every later state of the store. */
module HistoryFacts {
  import opened Collections
  import opened UrlHistory
  import opened HistoryStore
  import opened HistoryRuns
  import opened HistoryBatches
  import Recency

  // ---- readings -----------------------------------------------------------------------------

  /** What a reading says about a field. Whether the endpoint can be invoked is known when its schema
      is, or when it is not live. */
  predicate Says(r: Reading, f: Fact) {
    match f
    case Live(yes) => yes == r.snap.live
    case Payable(yes) => yes == r.payable
    case Invocable(yes) =>
      if r.snap.schema.Some? then yes == (r.payable && r.snap.schema.value != 0) else !r.snap.live && !yes
    case Latency(ms) => r.latency == Some(ms)
    case Status(code) => r.status == Some(code)
    case PayTo(address) => r.snap.payTo == Some(address)
    case Amount(atomic) => r.snap.amount == Some(atomic)
    case Schema(present) => r.snap.schema.Some? && present == (r.snap.schema.value != 0)
    case Claim(_, _) => false
  }

  lemma FactIsPart(r: Reading, f: Fact)
    ensures f in Facts(r)
            <==> f == Live(r.snap.live) || f == Payable(r.payable)
                 || f in InvocableFact(r) || f in Measured(r) || f in Quoted(r) || f in Answered(r)
  {
    hide InvocableFact, Measured, Quoted, Answered;
  }

  lemma FactsSay(r: Reading, f: Fact)
    ensures f in Facts(r) <==> Says(r, f)
  {
    FactIsPart(r, f);
    hide Facts;
  }

  /** An observed row of the probe with this fact is stored. */
  ghost predicate Tells(db: Db, p: nat, f: Fact) {
    exists o :: o in db.obs && db.obs[o].probe == Some(p) && db.obs[o].observed && db.obs[o].fact == f
  }

  // ---- the rows of a new probe --------------------------------------------------------------

  /** The k-th row that a write inserts. */
  function NewRow(p: nat, r: Reading, k: nat): Obs
    requires k < |Facts(r)| + |r.claims|
  {
    Obs(Some(p), r.batch, k < |Facts(r)|, r.url, (Facts(r) + r.claims)[k], r.snap.ts)
  }

  /** The inserted rows stand at the next ids, in order. */
  ghost predicate NewRows(a: Db, b: Db, r: Reading) {
    && (forall o :: a.nextObs <= o < a.nextObs + |Facts(r)| + |r.claims| ==>
          o in b.obs && b.obs[o] == NewRow(a.nextProbe, r, o - a.nextObs))
    && forall o :: o in b.obs && a.nextObs <= o ==> o < a.nextObs + |Facts(r)| + |r.claims|
  }

  lemma {:induction false} AddAllHas(db: Db, rows: seq<Obs>)
    ensures var b := AddAll(db, rows);
            && b.nextObs == db.nextObs + |rows|
            && (forall o :: db.nextObs <= o < db.nextObs + |rows| ==> o in b.obs && b.obs[o] == rows[o - db.nextObs])
            && forall o :: o < db.nextObs || o >= db.nextObs + |rows| ==>
                 (o in b.obs <==> o in db.obs) && (o in db.obs ==> b.obs[o] == db.obs[o])
    decreases |rows|
  {
    if rows != [] { AddAllHas(db, rows[..|rows| - 1]); }
  }

  lemma InsertHas(db: Db, r: Reading)
    requires Linked(db)
    ensures NewRows(db, Insert(db, r), r)
  {
    hide AddAll, Facts;
    var p := db.nextProbe;
    var stored := db.(probes := db.probes[p := Probe(r.url, RowOf(r.snap), r.trust)], nextProbe := p + 1);
    var observed := RowsOf(Some(p), r.batch, true, r.url, r.snap.ts, Facts(r));
    var claimed := RowsOf(Some(p), r.batch, false, r.url, r.snap.ts, r.claims);
    AddAllHas(stored, observed);
    AddAllHas(AddAll(stored, observed), claimed);
  }

  // ---- what retention keeps -----------------------------------------------------------------

  lemma {:induction false} RangeSize(lo: nat, n: nat, s: set<nat>)
    requires forall x :: x in s ==> lo <= x < lo + n
    ensures |s| <= n
    decreases n
  {
    if n == 0 {
      assert s == {};
    } else {
      var last := lo + n - 1;
      RangeSize(lo, n - 1, s - {last});
      assert s <= (s - {last}) + {last};
      Recency.SubsetSize(s, (s - {last}) + {last});
    }
  }

  /** A write's rows have room in their URL's cap: with the stored ones, or because they are the latest. */
  predicate Fits(db: Db, r: Reading) {
    var n := |Facts(r)| + |r.claims|;
    || |ObsOf(db, r.url)| + n <= 4000
    || (n <= 4000 && forall o :: o in ObsOf(db, r.url) ==> db.obs[o].ts <= r.snap.ts)
  }

  /** Rows that fit are among the newest. */
  lemma FittingIsNewest(a: Db, d: Db, r: Reading, o: nat)
    requires Fits(a, r) && o in ObsOf(d, r.url) && a.nextObs <= o
    requires forall x :: x in ObsOf(d, r.url) ==>
               if x < a.nextObs then x in ObsOf(a, r.url) && d.obs[x] == a.obs[x]
               else x < a.nextObs + |Facts(r)| + |r.claims| && d.obs[x].ts == r.snap.ts
    ensures o in Recency.Newest(ObsStamps(d), ObsOf(d, r.url), OBS_PER_URL_CAP)
  {
    hide Facts;
    var n := |Facts(r)| + |r.claims|;
    var ids := ObsOf(d, r.url);
    var rest := Recency.NewerThan(ObsStamps(d), ids, o);
    var news := set x | x in ids && a.nextObs <= x;
    RangeSize(a.nextObs, n, news);
    if |ObsOf(a, r.url)| + n <= OBS_PER_URL_CAP {
      Recency.SubsetSize(ids, ObsOf(a, r.url) + news);
      Recency.NewestCount(ObsStamps(d), ids, OBS_PER_URL_CAP);
    } else {
      assert rest <= news - {o};
      Recency.SubsetSize(rest, news - {o});
    }
  }

  lemma CapUrlKeeps(db: Db, url: string, o: nat)
    requires o in db.obs && db.obs[o].probe.Some?
    requires db.obs[o].probe.value in CapUrl(db, url).probes
    ensures o in CapUrl(db, url).obs
  {
  }

  lemma CapAllKeeps(db: Db, o: nat)
    requires o in db.obs && db.obs[o].probe.Some?
    requires db.obs[o].probe.value in CapAll(db).probes
    ensures o in CapAll(db).obs
  {
  }

  lemma CapObsKeeps(db: Db, url: string, o: nat)
    requires o in db.obs
    requires db.obs[o].url == url ==> o in Recency.Newest(ObsStamps(db), ObsOf(db, url), OBS_PER_URL_CAP)
    ensures o in CapObs(db, url).obs
  {
    hide Recency.Newest;
  }

  /** After an insertion and some deletes, what is left of the URL's rows. */
  lemma LeftOver(a: Db, b: Db, d: Db, r: Reading)
    requires Inserted(a, b, r) && NewRows(a, b, r) && Trimmed(b, d)
    ensures forall x :: x in ObsOf(d, r.url) ==>
              if x < a.nextObs then x in ObsOf(a, r.url) && d.obs[x] == a.obs[x]
              else x < a.nextObs + |Facts(r)| + |r.claims| && d.obs[x].ts == r.snap.ts
  {
    hide Facts;
    forall x | x in ObsOf(d, r.url) && a.nextObs <= x
      ensures x < a.nextObs + |Facts(r)| + |r.claims| && d.obs[x].ts == r.snap.ts
    {
      assert x in b.obs;
      assert b.obs[x] == NewRow(a.nextProbe, r, x - a.nextObs);
    }
  }

  lemma NewRowAt(a: Db, b: Db, r: Reading, o: nat)
    requires NewRows(a, b, r) && o in b.obs && a.nextObs <= o
    ensures b.obs[o].probe == Some(a.nextProbe) && b.obs[o].url == r.url
  {
    hide Facts;
    assert b.obs[o] == NewRow(a.nextProbe, r, o - a.nextObs);
  }

  lemma TrimmedProbes(a: Db, b: Db, p: nat)
    requires Trimmed(a, b) && p in b.probes
    ensures p in a.probes
  {
  }

  lemma TrimmedRow(a: Db, b: Db, o: nat)
    requires Trimmed(a, b) && o in b.obs
    ensures o in a.obs && b.obs[o] == a.obs[o]
  {
  }

  lemma IsObsOf(db: Db, url: string, o: nat)
    requires o in db.obs && db.obs[o].url == url
    ensures o in ObsOf(db, url)
  {
  }

  /** A row of a probe that stays is kept when it fits. */
  lemma FittingStays(a: Db, b: Db, r: Reading, o: nat)
    requires Linked(a) && Inserted(a, b, r) && NewRows(a, b, r) && Fits(a, r)
    requires o in b.obs && a.nextObs <= o && a.nextProbe in Trim(b, r.url).probes
    ensures o in Trim(b, r.url).obs
  {
    hide *;
    var p := a.nextProbe;
    var c := CapUrl(b, r.url);
    var d := CapAll(c);
    InsertedLinked(a, b, r);
    CapUrlCaps(b, r.url);
    CapAllCaps(c);
    CapObsCaps(d, r.url);
    TrimIs(b, r.url);
    TrimmedProbes(d, CapObs(d, r.url), p);
    TrimmedProbes(c, d, p);
    NewRowAt(a, b, r, o);
    CapUrlKeeps(b, r.url, o);
    TrimmedRow(b, c, o);
    CapAllKeeps(c, o);
    TrimmedRow(c, d, o);
    TrimmedTwice(b, c, d);
    LeftOver(a, b, d, r);
    IsObsOf(d, r.url, o);
    FittingIsNewest(a, d, r, o);
    CapObsKeeps(d, r.url, o);
  }

  lemma TrimIs(b: Db, url: string)
    ensures Trim(b, url) == CapObs(CapAll(CapUrl(b, url)), url)
  {
  }

  /** A probe that is not older than any stored one stays. */
  lemma LatestProbeStays(rules: Rules, db: Db, r: Reading)
    requires Tidy(db) && forall q :: q in db.probes ==> db.probes[q].row.ts <= r.snap.ts
    ensures db.nextProbe in Write(rules, db, r).probes
  {
    hide *;
    var told := Told(rules, db, r);
    var p := db.nextProbe;
    var a := Insert(told, r);
    ToldSame(rules, db, r);
    TidyLinks(told);
    InsertInserts(told, r);
    InsertedProbes(db, told, a, r);
    InsertedLinked(told, a, r);
    NewestProbeStays(a, r.url, p);
    CapObsProbes(CapAll(CapUrl(a, r.url)), r.url);
    TrimIs(a, r.url);
    SameWrite(rules, db, r);
  }

  lemma CapObsProbes(db: Db, url: string)
    ensures CapObs(db, url).probes == db.probes
  {
  }

  lemma InsertedProbes(db: Db, told: Db, a: Db, r: Reading)
    requires Linked(told) && Inserted(told, a, r) && told.probes == db.probes && told.nextProbe == db.nextProbe
    requires forall q :: q in db.probes ==> db.probes[q].row.ts <= r.snap.ts
    ensures var p := db.nextProbe;
            p in a.probes && forall q :: q in a.probes && q != p ==> q < p && a.probes[q].row.ts <= a.probes[p].row.ts
  {
  }

  lemma NewestProbeStays(a: Db, url: string, p: nat)
    requires p in a.probes
    requires forall q :: q in a.probes && q != p ==> q < p && a.probes[q].row.ts <= a.probes[p].row.ts
    ensures p in CapAll(CapUrl(a, url)).probes
  {
    var ids := ProbesOf(a, url);
    assert p in ids ==> Recency.NewerThan(ProbeStamps(a), ids, p) == {};
    var c := CapUrl(a, url);
    assert p in c.probes;
    assert Recency.NewerThan(ProbeStamps(c), c.probes.Keys, p) == {};
  }

  /** The rows of the probe that a write inserts, as they stand in a later state. */
  ghost predicate OnlySaid(db: Db, p: nat, r: Reading) {
    forall o :: o in db.obs && db.obs[o].probe == Some(p) ==>
      var row := db.obs[o];
      row.batch == r.batch && row.url == r.url && row.ts == r.snap.ts
      && if row.observed then Says(r, row.fact) else row.fact in r.claims
  }

  lemma NewRowSays(p: nat, r: Reading, k: nat)
    requires k < |Facts(r)| + |r.claims|
    ensures var row := NewRow(p, r, k);
            && row.batch == r.batch && row.url == r.url && row.ts == r.snap.ts
            && if row.observed then Says(r, row.fact) else row.fact in r.claims
  {
    hide Facts, Says;
    FactsSay(r, (Facts(r) + r.claims)[k]);
  }

  lemma InsertSays(a: Db, r: Reading)
    requires Linked(a)
    ensures OnlySaid(Insert(a, r), a.nextProbe, r)
  {
    hide Insert, Says, NewRow;
    var b := Insert(a, r);
    InsertHas(a, r);
    InsertInserts(a, r);
    forall o | o in b.obs && b.obs[o].probe == Some(a.nextProbe)
      ensures a.nextObs <= o < a.nextObs + |Facts(r)| + |r.claims| && b.obs[o] == NewRow(a.nextProbe, r, o - a.nextObs)
    {
      assert a.nextObs <= o;
    }
    hide Facts;
    forall o | o in b.obs && b.obs[o].probe == Some(a.nextProbe)
      ensures var row := b.obs[o];
              && row.batch == r.batch && row.url == r.url && row.ts == r.snap.ts
              && if row.observed then Says(r, row.fact) else row.fact in r.claims
    {
      NewRowSays(a.nextProbe, r, o - a.nextObs);
    }
  }

  lemma TrimSays(a: Db, b: Db, p: nat, r: Reading)
    requires OnlySaid(a, p, r) && Trimmed(a, b)
    ensures OnlySaid(b, p, r)
  {
    hide Says;
  }

  /** The write of a reading stores nothing else under its probe: every row is of its batch, URL and
      time, the observed rows say what the reading says, and the others are its claims. If the rows
      fit and the probe stays, the observed rows say all of it. */
  lemma WriteStoresReading(rules: Rules, db: Db, r: Reading, f: Fact)
    requires Tidy(db)
    ensures var b := Write(rules, db, r);
            && OnlySaid(b, db.nextProbe, r)
            && (Fits(db, r) ==> (Tells(b, db.nextProbe, f) <==> db.nextProbe in b.probes && Says(r, f)))
  {
    hide *;
    var told := Told(rules, db, r);
    var a := Insert(told, r);
    var b := Write(rules, db, r);
    var p := db.nextProbe;
    ToldSame(rules, db, r);
    TidyLinks(told);
    InsertSays(told, r);
    InsertInserts(told, r);
    TrimTidies(told, a, r);
    SameWrite(rules, db, r);
    TrimSays(a, b, p, r);
    TidyLinks(b);
    TellsOnlySaid(b, p, r, f);
    if Fits(db, r) && p in b.probes && Says(r, f) {
      FitsTold(rules, db, r);
      InsertHas(told, r);
      SaidIsTold(told, a, r, f);
    }
  }

  lemma ToldSame(rules: Rules, db: Db, r: Reading)
    requires Tidy(db)
    ensures var told := Told(rules, db, r); told.nextProbe == db.nextProbe && told.probes == db.probes && Tidy(told)
  {
    SameTables(db, Told(rules, db, r));
  }

  lemma FitsTold(rules: Rules, db: Db, r: Reading)
    requires Fits(db, r)
    ensures Fits(Told(rules, db, r), r)
  {
    assert ObsOf(Told(rules, db, r), r.url) == ObsOf(db, r.url);
  }

  /** What is told was said, by a stored probe. */
  lemma TellsOnlySaid(b: Db, p: nat, r: Reading, f: Fact)
    requires OnlySaid(b, p, r) && Linked(b)
    ensures Tells(b, p, f) ==> Says(r, f) && p in b.probes
  {
  }

  lemma SaidIsTold(a: Db, b: Db, r: Reading, f: Fact)
    requires Linked(a) && Inserted(a, b, r) && NewRows(a, b, r) && Fits(a, r)
    requires a.nextProbe in Trim(b, r.url).probes && Says(r, f)
    requires Trimmed(b, Trim(b, r.url))
    ensures Tells(Trim(b, r.url), a.nextProbe, f)
  {
    hide Facts, Trim, Fits, Says, Linked, Inserted;
    FactsSay(r, f);
    var k :| 0 <= k < |Facts(r)| && Facts(r)[k] == f;
    var o := a.nextObs + k;
    assert b.obs[o] == NewRow(a.nextProbe, r, k);
    FittingStays(a, b, r, o);
  }

  // ---- over runs ----------------------------------------------------------------------------

  lemma ForwardSays(a: Db, b: Db, p: nat, r: Reading)
    requires Forward(a, b) && OnlySaid(a, p, r) && p < a.nextProbe
    ensures OnlySaid(b, p, r)
  {
    hide Says;
    forall o | o in b.obs && b.obs[o].probe == Some(p) ensures o in a.obs && a.obs[o] == b.obs[o] {
      assert a.nextObs <= o ==> a.nextProbe <= p;
    }
  }

  /** From any reachable state: in every later state, whatever ran in between, the observed rows of a
      recorded reading's probe say nothing but what the reading said, and right after it was recorded
      they say all of it if they fit. The rows of a reading no older than the stored probes stay. */
  lemma StoredRowsTellTheReading(rules: Rules, before: seq<Op>, r: Reading, after: seq<Op>, f: Fact)
    requires r.url != "" && !SealedBatch(Run(rules, EMPTY, before), r.batch)
    ensures var db := Run(rules, EMPTY, before);
            var b := Record(rules, db, r);
            && (Tells(Run(rules, b, after), db.nextProbe, f) ==> Says(r, f))
            && OnlySaid(Run(rules, b, after), db.nextProbe, r)
            && (Fits(db, r) ==> (Tells(b, db.nextProbe, f) <==> db.nextProbe in b.probes && Says(r, f)))
            && ((forall q :: q in db.probes ==> db.probes[q].row.ts <= r.snap.ts) ==> db.nextProbe in b.probes)
  {
    hide Write, Tidy, OnlySaid, Tells, Fits, Forward, Run, Says, SealedBatch;
    var db := Run(rules, EMPTY, before);
    var b := Record(rules, db, r);
    var c := Run(rules, b, after);
    RunsStayTidy(rules, before);
    WriteStoresReading(rules, db, r, f);
    WriteState(rules, db, r);
    WriteTidies(rules, db, r);
    RunForward(rules, b, after);
    ForwardSays(b, c, db.nextProbe, r);
    TidyLinks(c);
    TellsOnlySaid(c, db.nextProbe, r, f);
    if forall q :: q in db.probes ==> db.probes[q].row.ts <= r.snap.ts { LatestProbeStays(rules, db, r); }
  }
}
