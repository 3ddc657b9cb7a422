/** The observation store (live402/history.py): probes, observations, trusted URL state and
    sealed batches, what each store operation does to them, and the store as an object whose
    methods are proved against those functions. */
module HistoryStore {
  import opened Collections
  import opened UrlHistory
  import Recency

  const PER_URL_CAP: nat := 500
  const GLOBAL_CAP: nat := 50000
  const OBS_PER_URL_CAP: nat := 4000

  /** The trust class of a probe. Every class but Tentative is trusted. */
  datatype Trust = Independent | Scheduled | Tentative | Settled

  /** A field of an observation with its value. */
  datatype Fact =
    | Live(yes: bool) | Payable(yes: bool) | Invocable(yes: bool) | Latency(ms: int) | PayTo(address: string)
    | Amount(atomic: string) | Status(code: int) | Schema(present: bool) | Claim(field: string, text: string)

  /** What a caller asks to write: one observation, its batch and the catalog's claims about the URL. */
  datatype Reading = Reading(
    url: string, snap: Snap, payable: bool, latency: Option<int>, status: Option<int>,
    trust: Trust, batch: Text, claims: seq<Fact>)

  datatype Probe = Probe(url: string, row: Snap, trust: Trust)

  datatype Obs = Obs(probe: Option<nat>, batch: Text, observed: bool, url: string, fact: Fact, ts: int)

  /** One trusted observation, in the order in which they reached the URL state. */
  datatype Event = Event(url: string, snap: Snap)

  /** The tables. `log` is not a table: it records the trusted observations that were applied. */
  datatype Db = Db(
    probes: map<nat, Probe>, obs: map<nat, Obs>, urls: map<string, UrlState>, sealed: set<string>,
    nextProbe: nat, nextObs: nat, log: seq<Event>)

  const EMPTY := Db(map[], map[], map[], {}, 0, 0, [])

  // ---- trusted URL state --------------------------------------------------------------------

  function State(db: Db, url: string): UrlState {
    if url in db.urls then db.urls[url] else NOTHING
  }

  /** _apply_trusted_url_state: a late observation writes nothing. */
  function Trusted(rules: Rules, db: Db, url: string, o: Snap): Db {
    var logged := db.(log := db.log + [Event(url, o)]);
    if Late(State(db, url), o) then logged
    else logged.(urls := db.urls[url := Apply(rules, State(db, url), o)])
  }

  // ---- one probe with its observations ------------------------------------------------------

  function If<T>(b: bool, x: T): seq<T> {
    if b then [x] else []
  }

  /** What was found out about being invocable. */
  function InvocableFact(r: Reading): seq<Fact> {
    if r.snap.schema.Some? then [Invocable(r.payable && r.snap.schema.value != 0)]
    else If(!r.snap.live, Invocable(false))
  }

  function Measured(r: Reading): seq<Fact> {
    if r.latency.Some? then [Latency(r.latency.value)] else []
  }

  /** What the payment envelope said. */
  function Quoted(r: Reading): seq<Fact> {
    (if r.snap.payTo.Some? then [PayTo(r.snap.payTo.value)] else [])
    + (if r.snap.amount.Some? then [Amount(r.snap.amount.value)] else [])
  }

  function Answered(r: Reading): seq<Fact> {
    (if r.status.Some? then [Status(r.status.value)] else [])
    + (if r.snap.schema.Some? then [Schema(r.snap.schema.value != 0)] else [])
  }

  /** The observed fields, in the order of OBSERVED_FIELDS; unknown values are left out. */
  function Facts(r: Reading): seq<Fact> {
    [Live(r.snap.live), Payable(r.payable)] + InvocableFact(r) + Measured(r) + Quoted(r) + Answered(r)
  }

  /** The rows of one table write: the observed facts and then the claimed ones. */
  function RowsOf(probe: Option<nat>, batch: Text, observed: bool, url: string, ts: int,
                  facts: seq<Fact>): (r: seq<Obs>)
    ensures |r| == |facts|
  {
    seq(|facts|, i requires 0 <= i < |facts| => Obs(probe, batch, observed, url, facts[i], ts))
  }

  function AddObs(db: Db, row: Obs): Db {
    db.(obs := db.obs[db.nextObs := row], nextObs := db.nextObs + 1)
  }

  function AddAll(db: Db, rows: seq<Obs>): Db
    decreases |rows|
  {
    if rows == [] then db else AddObs(AddAll(db, rows[..|rows| - 1]), rows[|rows| - 1])
  }

  /** The probes table keeps no envelope. */
  function RowOf(o: Snap): Snap {
    o.(quote := "")
  }

  function Insert(db: Db, r: Reading): Db {
    var p := db.nextProbe;
    var stored := db.(probes := db.probes[p := Probe(r.url, RowOf(r.snap), r.trust)], nextProbe := p + 1);
    AddAll(AddAll(stored, RowsOf(Some(p), r.batch, true, r.url, r.snap.ts, Facts(r))),
           RowsOf(Some(p), r.batch, false, r.url, r.snap.ts, r.claims))
  }

  // ---- retention ----------------------------------------------------------------------------

  function ProbeStamps(db: Db): (r: Recency.Stamps)
    ensures r.Keys == db.probes.Keys
  {
    map p | p in db.probes :: db.probes[p].row.ts
  }

  function ObsStamps(db: Db): (r: Recency.Stamps)
    ensures r.Keys == db.obs.Keys
  {
    map o | o in db.obs :: db.obs[o].ts
  }

  function ProbesOf(db: Db, url: string): set<nat> {
    set p | p in db.probes && db.probes[p].url == url
  }

  function ObsOf(db: Db, url: string): set<nat> {
    set o | o in db.obs && db.obs[o].url == url
  }

  /** _delete_probes_and_obs */
  function Drop(db: Db, ids: set<nat>): Db {
    db.(probes := map p | p in db.probes && p !in ids :: db.probes[p],
        obs := map o | o in db.obs && !(db.obs[o].probe.Some? && db.obs[o].probe.value in ids) :: db.obs[o])
  }

  function CapUrl(db: Db, url: string): Db {
    var ids := ProbesOf(db, url);
    Drop(db, ids - Recency.Newest(ProbeStamps(db), ids, PER_URL_CAP))
  }

  function CapAll(db: Db): Db {
    Drop(db, db.probes.Keys - Recency.Newest(ProbeStamps(db), db.probes.Keys, GLOBAL_CAP))
  }

  function CapObs(db: Db, url: string): Db {
    var ids := ObsOf(db, url);
    var dropped := ids - Recency.Newest(ObsStamps(db), ids, OBS_PER_URL_CAP);
    db.(obs := map o | o in db.obs && o !in dropped :: db.obs[o])
  }

  /** _write_probe_row */
  function Write(rules: Rules, db: Db, r: Reading): Db {
    var told := if r.trust == Tentative then db else Trusted(rules, db, r.url, r.snap);
    CapObs(CapAll(CapUrl(Insert(told, r), r.url)), r.url)
  }

  function WriteAll(rules: Rules, db: Db, rs: seq<Reading>): Db
    decreases |rs|
  {
    if rs == [] then db else Write(rules, WriteAll(rules, db, rs[..|rs| - 1]), rs[|rs| - 1])
  }

  // ---- the store operations -----------------------------------------------------------------

  predicate SealedBatch(db: Db, batch: Text) {
    batch.Some? && batch.value in db.sealed
  }

  /** record_probe. A reading without a URL, or for a sealed batch, is ignored. */
  function Record(rules: Rules, db: Db, r: Reading): Db {
    if r.url == "" || SealedBatch(db, r.batch) then db else Write(rules, db, r)
  }

  function ForBatch(bid: string, rs: seq<Reading>): seq<Reading> {
    if rs == [] then []
    else If(rs[0].url != "", rs[0].(batch := Some(bid))) + ForBatch(bid, rs[1..])
  }

  /** persist_route_batch. `batch` is None when the id is missing or malformed. */
  function Persist(rules: Rules, db: Db, batch: Text, rs: seq<Reading>): Db {
    if batch.None? || SealedBatch(db, batch) then db
    else
      var wrote := WriteAll(rules, db, ForBatch(batch.value, rs));
      wrote.(sealed := wrote.sealed + {batch.value})
  }

  /** The tentative probes with an observation of the batch. */
  function Promotable(db: Db, bid: string): set<nat> {
    set p | p in db.probes && db.probes[p].trust == Tentative
            && exists o :: o in db.obs && db.obs[o].probe == Some(p) && db.obs[o].batch == Some(bid)
  }

  function MarkSettled(db: Db, ids: set<nat>): Db {
    db.(probes := map p | p in db.probes :: if p in ids then db.probes[p].(trust := Settled) else db.probes[p])
  }

  /** The trusted observations of stored probes, one after the other. */
  function TrustedAll(rules: Rules, db: Db, ids: seq<nat>): Db
    decreases |ids|
  {
    if ids == [] then db
    else
      var told := TrustedAll(rules, db, ids[..|ids| - 1]);
      var p := ids[|ids| - 1];
      if p in db.probes then Trusted(rules, told, db.probes[p].url, db.probes[p].row) else told
  }

  /** mark_batch_settled, oldest probe first. */
  function Settle(rules: Rules, db: Db, batch: Text): Db {
    if batch.None? then db
    else
      var ids := Promotable(db, batch.value);
      TrustedAll(rules, MarkSettled(db, ids), Recency.OldestFirst(ProbeStamps(db), ids))
  }

  function Seal(db: Db, batch: Text): Db {
    if batch.None? then db else db.(sealed := db.sealed + {batch.value})
  }

  /** record_claim */
  function RecordClaim(db: Db, url: string, ts: int, batch: Text, claims: seq<Fact>): Db {
    if url == "" || claims == [] then db
    else CapObs(AddAll(db, RowsOf(None, batch, false, url, ts, claims)), url)
  }

  /** The rows an attestation hashes. */
  function BatchRows(db: Db, bid: string): map<nat, Obs> {
    map o | o in db.obs && db.obs[o].batch == Some(bid) && db.obs[o].observed :: db.obs[o]
  }

  datatype Attestation = Attestation(batch: string, n: nat, digest: string)

  /** attestation_for, with any digest of the rows. */
  function Attested(db: Db, batch: Text, digest: map<nat, Obs> -> string): Option<Attestation> {
    if batch.None? || BatchRows(db, batch.value) == map[] then None
    else
      var rows := BatchRows(db, batch.value);
      Some(Attestation(batch.value, |rows|, digest(rows)))
  }

  /** Computing an attestation seals the batch. */
  function Attest(db: Db, batch: Text): Db {
    if batch.None? || BatchRows(db, batch.value) == map[] then db else Seal(db, batch)
  }

  // ---- the store as an object ---------------------------------------------------------------

  class Store {
    const rules: Rules
    var probes: map<nat, Probe>
    var obs: map<nat, Obs>
    var urls: map<string, UrlState>
    var sealed: set<string>
    var nextProbe: nat
    var nextObs: nat
    ghost var log: seq<Event>

    ghost function Tables(): Db
      reads this
    {
      Db(probes, obs, urls, sealed, nextProbe, nextObs, log)
    }

    constructor (rules: Rules)
      ensures Tables() == EMPTY && this.rules == rules
    {
      this.rules := rules;
      probes, obs, urls, sealed, nextProbe, nextObs, log := map[], map[], map[], {}, 0, 0, [];
    }

    /** The state after an observation that is not late. */
    method Changed(st: UrlState, o: Snap) returns (r: UrlState)
      requires !Late(st, o)
      ensures r == Apply(rules, st, o)
    {
      r := st;
      if Differs(rules, st.lastPay, o.payTo, o.rail) {
        if Matches(rules, st.pending, o.payTo, o.rail) {
          r := r.(lastPay := o.payTo, pending := None);
        } else {
          r := r.(payChangedAt := Some(o.ts), pending := o.payTo);
        }
      } else if o.payTo.Some? {
        r := r.(lastPay := o.payTo, pending := None);
      }
      if st.lastAmount.Some? && o.amount.Some? && rules.priceFlipped(st.lastAmount.value, o.amount.value, o) {
        r := r.(priceChangedAt := Some(o.ts));
      }
      if st.schema.Some? && o.schema.Some? && st.schema.value != o.schema.value {
        r := r.(schemaChangedAt := Some(o.ts));
      }
      if o.amount.Some? { r := r.(lastAmount := o.amount); }
      if o.schema.Some? { r := r.(schema := o.schema); }
      if o.live { r := r.(lastOk := Some(o.ts)); }
      r := r.(lastChecked := Some(o.ts));
    }

    /** Whether the URL state was written. */
    method ApplyTrustedUrlState(url: string, o: Snap) returns (wrote: bool)
      modifies this
      ensures Tables() == Trusted(rules, old(Tables()), url, o)
      ensures wrote <==> !Late(State(old(Tables()), url), o)
    {
      hide Apply;
      var st := if url in urls then urls[url] else NOTHING;
      log := log + [Event(url, o)];
      if Late(st, o) { return false; }
      var changed := Changed(st, o);
      urls := urls[url := changed];
      return true;
    }

    method WriteFacts(probe: Option<nat>, batch: Text, observed: bool, url: string, ts: int, facts: seq<Fact>)
      modifies this`obs, this`nextObs
      ensures Tables() == AddAll(old(Tables()), RowsOf(probe, batch, observed, url, ts, facts))
    {
      ghost var rows := RowsOf(probe, batch, observed, url, ts, facts);
      for i := 0 to |facts|
        invariant Tables() == AddAll(old(Tables()), rows[..i])
      {
        assert rows[..i + 1][..i] == rows[..i];
        obs := obs[nextObs := Obs(probe, batch, observed, url, facts[i], ts)];
        nextObs := nextObs + 1;
      }
      assert rows[..|facts|] == rows;
    }

    method DeleteProbesAndObs(ids: set<nat>)
      modifies this`probes, this`obs
      ensures Tables() == Drop(old(Tables()), ids)
    {
      probes := map p | p in probes && p !in ids :: probes[p];
      obs := map o | o in obs && !(obs[o].probe.Some? && obs[o].probe.value in ids) :: obs[o];
    }

    method CapObservations(url: string)
      modifies this`obs
      ensures Tables() == CapObs(old(Tables()), url)
    {
      var stamps := map o | o in obs :: obs[o].ts;
      var ids := set o | o in obs && obs[o].url == url;
      assert stamps == ObsStamps(Tables()) && ids == ObsOf(Tables(), url);
      var dropped := ids - Recency.Newest(stamps, ids, OBS_PER_URL_CAP);
      if |ids| > OBS_PER_URL_CAP {
        obs := map o | o in obs && o !in dropped :: obs[o];
      } else {
        Recency.NewestCount(stamps, ids, OBS_PER_URL_CAP);
        assert obs == map o | o in obs && o !in dropped :: obs[o];
      }
    }

    method CapProbesOf(url: string)
      modifies this`probes, this`obs
      ensures Tables() == CapUrl(old(Tables()), url)
    {
      var stamps := map p | p in probes :: probes[p].row.ts;
      var ids := set p | p in probes && probes[p].url == url;
      assert stamps == ProbeStamps(Tables()) && ids == ProbesOf(Tables(), url);
      if |ids| > PER_URL_CAP {
        DeleteProbesAndObs(ids - Recency.Newest(stamps, ids, PER_URL_CAP));
      } else {
        Recency.NewestCount(stamps, ids, PER_URL_CAP);
        NothingDropped(Tables());
        assert ids - Recency.Newest(stamps, ids, PER_URL_CAP) == {};
      }
    }

    /** The oldest rows go until GLOBAL_CAP of them are left. */
    method CapProbes()
      modifies this`probes, this`obs
      ensures Tables() == CapAll(old(Tables()))
    {
      hide Recency.OldestFirst, Recency.Newest, Members, Drop;
      var stamps := map p | p in probes :: probes[p].row.ts;
      assert stamps == ProbeStamps(Tables());
      var n := |probes.Keys|;
      if n > GLOBAL_CAP {
        var oldest := Recency.OldestFirst(stamps, probes.Keys);
        Recency.OldestAreNotNewest(stamps, probes.Keys, GLOBAL_CAP);
        DeleteProbesAndObs(Members(oldest[..n - GLOBAL_CAP]));
      } else {
        Recency.NewestCount(stamps, probes.Keys, GLOBAL_CAP);
        NothingDropped(Tables());
        assert probes.Keys - Recency.Newest(stamps, probes.Keys, GLOBAL_CAP) == {};
      }
    }

    method WriteProbeRow(r: Reading)
      modifies this
      ensures Tables() == Write(rules, old(Tables()), r)
    {
      hide Trusted, AddAll, RowsOf, Facts, CapUrl, CapAll, CapObs;
      if r.trust != Tentative {
        var _ := ApplyTrustedUrlState(r.url, r.snap);
      }
      var p := nextProbe;
      probes := probes[p := Probe(r.url, RowOf(r.snap), r.trust)];
      nextProbe := nextProbe + 1;
      WriteFacts(Some(p), r.batch, true, r.url, r.snap.ts, Facts(r));
      WriteFacts(Some(p), r.batch, false, r.url, r.snap.ts, r.claims);
      CapProbesOf(r.url);
      CapProbes();
      CapObservations(r.url);
    }

    method RecordProbe(r: Reading)
      modifies this
      ensures Tables() == Record(rules, old(Tables()), r)
    {
      if r.url == "" { return; }
      if r.batch.Some? && r.batch.value in sealed { return; }
      WriteProbeRow(r);
    }

    method RowsFor(bid: string, rs: seq<Reading>) returns (rows: seq<Reading>)
      ensures rows == ForBatch(bid, rs)
    {
      hide ForBatch;
      rows := [];
      assert rs[0..] == rs;
      for i := 0 to |rs|
        invariant rows + ForBatch(bid, rs[i..]) == ForBatch(bid, rs)
      {
        ForBatchStep(bid, rs, i);
        if rs[i].url != "" { rows := rows + [rs[i].(batch := Some(bid))]; }
      }
      ForBatchDone(bid, rs);
    }

    method WriteRows(rows: seq<Reading>)
      modifies this
      ensures Tables() == WriteAll(rules, old(Tables()), rows)
    {
      hide Write;
      for i := 0 to |rows|
        invariant Tables() == WriteAll(rules, old(Tables()), rows[..i])
      {
        assert rows[..i + 1][..i] == rows[..i];
        WriteProbeRow(rows[i]);
      }
      assert rows[..|rows|] == rows;
    }

    method PersistRouteBatch(batch: Text, rs: seq<Reading>)
      modifies this
      ensures Tables() == Persist(rules, old(Tables()), batch, rs)
    {
      if batch.None? || batch.value in sealed { return; }
      var rows := RowsFor(batch.value, rs);
      WriteRows(rows);
      sealed := sealed + {batch.value};
    }

    method ApplyInOrder(order: seq<nat>)
      requires forall p :: p in order ==> p in probes
      modifies this
      ensures Tables() == TrustedAll(rules, old(Tables()), order)
    {
      hide Trusted;
      for i := 0 to |order|
        invariant Tables() == TrustedAll(rules, old(Tables()), order[..i])
        invariant probes == old(probes)
      {
        assert order[..i + 1][..i] == order[..i];
        assert order[i] in order;
        TrustedKeepsProbes(rules, Tables(), probes[order[i]].url, probes[order[i]].row);
        var _ := ApplyTrustedUrlState(probes[order[i]].url, probes[order[i]].row);
      }
      assert order[..|order|] == order;
    }

    method MarkBatchSettled(batch: Text)
      modifies this
      ensures Tables() == Settle(rules, old(Tables()), batch)
    {
      if batch.None? { return; }
      var ids := set p | p in probes && probes[p].trust == Tentative
                         && exists o :: o in obs && obs[o].probe == Some(p) && obs[o].batch == batch;
      assert ids == Promotable(Tables(), batch.value);
      var stamps := map p | p in probes :: probes[p].row.ts;
      assert stamps == ProbeStamps(Tables());
      hide Promotable, ProbeStamps, Recency.OldestFirst, TrustedAll;
      var order := Recency.OldestFirst(stamps, ids);
      if ids == {} { NothingToSettle(rules, Tables(), order); return; }
      probes := map p | p in probes :: if p in ids then probes[p].(trust := Settled) else probes[p];
      assert Tables() == MarkSettled(old(Tables()), ids);
      ApplyInOrder(order);
    }

    method SealBatch(batch: Text)
      modifies this`sealed
      ensures Tables() == Seal(old(Tables()), batch)
    {
      if batch.Some? { sealed := sealed + {batch.value}; }
    }

    method RecordClaims(url: string, ts: int, batch: Text, claims: seq<Fact>)
      modifies this
      ensures Tables() == RecordClaim(old(Tables()), url, ts, batch, claims)
    {
      if url == "" || |claims| == 0 { return; }
      WriteFacts(None, batch, false, url, ts, claims);
      CapObservations(url);
    }

    method AttestationFor(batch: Text, digest: map<nat, Obs> -> string) returns (r: Option<Attestation>)
      modifies this`sealed
      ensures r == Attested(old(Tables()), batch, digest)
      ensures Tables() == Attest(old(Tables()), batch)
    {
      if batch.None? { return None; }
      var rows := map o | o in obs && obs[o].batch == batch && obs[o].observed :: obs[o];
      assert rows == BatchRows(Tables(), batch.value);
      if |rows| == 0 { return None; }
      sealed := sealed + {batch.value};
      return Some(Attestation(batch.value, |rows|, digest(rows)));
    }
  }

  lemma ForBatchStep(bid: string, rs: seq<Reading>, i: nat)
    requires i < |rs|
    ensures ForBatch(bid, rs[i..]) == If(rs[i].url != "", rs[i].(batch := Some(bid))) + ForBatch(bid, rs[i + 1..])
  {
    assert rs[i..][1..] == rs[i + 1..];
  }

  lemma ForBatchDone(bid: string, rs: seq<Reading>)
    ensures ForBatch(bid, rs[|rs|..]) == []
  {
  }

  lemma NothingDropped(db: Db)
    ensures Drop(db, {}) == db
  {
    assert Drop(db, {}).probes == db.probes && Drop(db, {}).obs == db.obs;
  }

  lemma TrustedKeepsProbes(rules: Rules, db: Db, url: string, o: Snap)
    ensures Trusted(rules, db, url, o).probes == db.probes
  {
  }

  lemma NothingToSettle(rules: Rules, db: Db, order: seq<nat>)
    requires order == []
    ensures TrustedAll(rules, MarkSettled(db, {}), order) == db
  {
    assert MarkSettled(db, {}).probes == db.probes;
  }
}
