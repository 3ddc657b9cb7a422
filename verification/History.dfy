/** The trusted state of one URL (live402/history.py): how one observation changes it,
    and what a whole sequence of accepted observations can do to its payTo. */
module UrlHistory {
  import opened Collections

  type Text = Option<string>

  /** One observation of a URL. `quote` stands for the envelope and asset details that only the
      price comparison reads; they are not kept in the probes table. */
  datatype Snap = Snap(ts: int, live: bool, payTo: Text, amount: Text, schema: Option<int>, rail: Text, quote: string)

  datatype UrlState = UrlState(
    lastPay: Text, lastAmount: Text, schema: Option<int>,
    payChangedAt: Option<int>, priceChangedAt: Option<int>, schemaChangedAt: Option<int>,
    lastChecked: Option<int>, lastOk: Option<int>, pending: Text)

  const NOTHING := UrlState(None, None, None, None, None, None, None, None, None)

  /** Comparison of addresses on a known or unknown rail (payto_equal compares canonical forms),
      and _price_flipped. Both are arbitrary functions. */
  datatype Rules = Rules(canon: (string, Text) -> string, priceFlipped: (string, string, Snap) -> bool)

  /** payto_equal on two addresses that are there. */
  predicate SamePay(rules: Rules, a: string, b: string, rail: Text) {
    rules.canon(a, rail) == rules.canon(b, rail)
  }

  predicate Differs(rules: Rules, a: Text, b: Text, rail: Text) {
    a.Some? && b.Some? && !SamePay(rules, a.value, b.value, rail)
  }

  predicate Matches(rules: Rules, a: Text, b: Text, rail: Text) {
    a.Some? && b.Some? && SamePay(rules, a.value, b.value, rail)
  }

  /** An observation is late when a newer trusted one has been applied. */
  predicate Late(st: UrlState, o: Snap) {
    st.lastChecked.Some? && o.ts < st.lastChecked.value
  }

  /** _apply_trusted_url_state on one URL. */
  function Apply(rules: Rules, st: UrlState, o: Snap): UrlState {
    if Late(st, o) then st
    else
      var flipped := Differs(rules, st.lastPay, o.payTo, o.rail);
      var establishes := flipped && Matches(rules, st.pending, o.payTo, o.rail);
      var holds := flipped && !establishes;
      UrlState(
        lastPay := if holds || o.payTo.None? then st.lastPay else o.payTo,
        lastAmount := if o.amount.Some? then o.amount else st.lastAmount,
        schema := if o.schema.Some? then o.schema else st.schema,
        payChangedAt := if holds then Some(o.ts) else st.payChangedAt,
        priceChangedAt :=
          if st.lastAmount.Some? && o.amount.Some? && rules.priceFlipped(st.lastAmount.value, o.amount.value, o)
          then Some(o.ts) else st.priceChangedAt,
        schemaChangedAt :=
          if st.schema.Some? && o.schema.Some? && st.schema != o.schema then Some(o.ts) else st.schemaChangedAt,
        lastChecked := Some(o.ts),
        lastOk := if o.live then Some(o.ts) else st.lastOk,
        pending := if holds then o.payTo else if o.payTo.Some? then None else st.pending)
  }

  function ApplyAll(rules: Rules, st: UrlState, os: seq<Snap>): UrlState
    decreases |os|
  {
    if os == [] then st else Apply(rules, ApplyAll(rules, st, os[..|os| - 1]), os[|os| - 1])
  }

  /** last_checked never decreases, and an observation older than it changes nothing. */
  lemma CheckedNeverDecreases(rules: Rules, st: UrlState, o: Snap)
    ensures st.lastChecked.Some? ==>
              Apply(rules, st, o).lastChecked.Some? && st.lastChecked.value <= Apply(rules, st, o).lastChecked.value
    ensures Apply(rules, st, o).lastChecked.Some?
    ensures st.lastChecked.Some? && o.ts < st.lastChecked.value ==> Apply(rules, st, o) == st
  {
  }

  // ---- the two-step payTo rule, on one rail -------------------------------------------------

  predicate OnRail(os: seq<Snap>, rail: Text) {
    forall i :: 0 <= i < |os| ==> os[i].rail == rail
  }

  /** A pending payTo is always another one than the trusted one. */
  predicate PendingOk(rules: Rules, st: UrlState, rail: Text) {
    st.pending.Some? ==> Differs(rules, st.lastPay, st.pending, rail)
  }

  lemma {:induction false} PendingDiffers(rules: Rules, st: UrlState, os: seq<Snap>, rail: Text)
    requires PendingOk(rules, st, rail) && OnRail(os, rail)
    ensures PendingOk(rules, ApplyAll(rules, st, os), rail)
    decreases |os|
  {
    if os != [] { PendingDiffers(rules, st, os[..|os| - 1], rail); }
  }

  /** The k-th observation was accepted: it was not late when it came. */
  predicate Accepted(rules: Rules, st: UrlState, os: seq<Snap>, k: nat)
    requires k < |os|
  {
    !Late(ApplyAll(rules, st, os[..k]), os[k])
  }

  /** Since the j-th observation, no payTo was accepted. */
  predicate SilentSince(rules: Rules, st: UrlState, os: seq<Snap>, j: nat) {
    forall k :: j < k < |os| && Accepted(rules, st, os, k) ==> os[k].payTo == None
  }

  /** Where a pending payTo comes from: an accepted observation of it, and no payTo accepted since. */
  lemma {:induction false} PendingHasSource(rules: Rules, os: seq<Snap>) returns (j: nat)
    requires ApplyAll(rules, NOTHING, os).pending.Some?
    ensures j < |os| && Accepted(rules, NOTHING, os, j) && os[j].payTo == ApplyAll(rules, NOTHING, os).pending
    ensures SilentSince(rules, NOTHING, os, j)
    decreases |os|
  {
    hide Differs, Matches;
    var n := |os| - 1;
    var before := os[..n];
    var st := ApplyAll(rules, NOTHING, before);
    if !Late(st, os[n]) && os[n].payTo.Some? {
      j := n;
    } else {
      j := PendingHasSource(rules, before);
      PrefixAccepted(rules, NOTHING, os, n);
    }
  }

  lemma PrefixAccepted(rules: Rules, st: UrlState, os: seq<Snap>, n: nat)
    requires n <= |os|
    ensures forall k :: 0 <= k < n ==> (Accepted(rules, st, os[..n], k) <==> Accepted(rules, st, os, k))
  {
    forall k | 0 <= k < n ensures Accepted(rules, st, os[..n], k) <==> Accepted(rules, st, os, k) {
      assert os[..n][..k] == os[..k];
    }
  }

  /** A URL's trusted payTo moves from a known address to a different one only by two accepted
      observations of the new one with no payTo accepted between them. */
  lemma MoveTakesTwo(rules: Rules, os: seq<Snap>, rail: Text) returns (j: nat)
    requires OnRail(os, rail) && os != []
    requires var n := |os| - 1;
             Differs(rules, ApplyAll(rules, NOTHING, os[..n]).lastPay, ApplyAll(rules, NOTHING, os).lastPay, rail)
    ensures var n := |os| - 1;
            var b := ApplyAll(rules, NOTHING, os).lastPay;
            && j < n && Accepted(rules, NOTHING, os, j) && Accepted(rules, NOTHING, os, n)
            && Matches(rules, os[j].payTo, b, rail) && Matches(rules, os[n].payTo, b, rail)
            && (forall k :: j < k < n && Accepted(rules, NOTHING, os, k) ==> os[k].payTo == None)
  {
    var n := |os| - 1;
    j := PendingHasSource(rules, os[..n]);
    PrefixAccepted(rules, NOTHING, os, n);
  }

  // ---- late promotion -----------------------------------------------------------------------

  /** All columns but the time of the last price change. */
  predicate SameButPrice(a: UrlState, b: UrlState) {
    a.(priceChangedAt := None) == b.(priceChangedAt := None)
  }

  /** Observations that agree on what the probes table keeps. */
  predicate SameRow(a: Snap, b: Snap) {
    a.(quote := "") == b.(quote := "")
  }

  lemma {:induction false} RowsDecideState(rules: Rules, s: UrlState, t: UrlState, os: seq<Snap>, ps: seq<Snap>)
    requires SameButPrice(s, t) && |os| == |ps| && forall i :: 0 <= i < |os| ==> SameRow(os[i], ps[i])
    ensures SameButPrice(ApplyAll(rules, s, os), ApplyAll(rules, t, ps))
    decreases |os|
  {
    if os != [] {
      var n := |os| - 1;
      RowsDecideState(rules, s, t, os[..n], ps[..n]);
      assert SameRow(os[n], ps[n]);
    }
  }

  lemma {:induction false} ApplyInParts(rules: Rules, st: UrlState, a: seq<Snap>, b: seq<Snap>)
    ensures ApplyAll(rules, st, a + b) == ApplyAll(rules, ApplyAll(rules, st, a), b)
    decreases |b|
  {
    if b == [] {
      assert a + b == a;
    } else {
      var n := |b| - 1;
      ApplyInParts(rules, st, a, b[..n]);
      assert (a + b)[..|a + b| - 1] == a + b[..n];
    }
  }

  // ---- what the columns mean ------------------------------------------------------------------

  /** The last accepted observation with a property. */
  function LastAccepted(rules: Rules, os: seq<Snap>, has: Snap -> bool): Option<nat>
    decreases |os|
  {
    if os == [] then None
    else
      var n := |os| - 1;
      if !Late(ApplyAll(rules, NOTHING, os[..n]), os[n]) && has(os[n]) then Some(n)
      else LastAccepted(rules, os[..n], has)
  }

  lemma {:induction false} LastAcceptedIs(rules: Rules, os: seq<Snap>, has: Snap -> bool)
    ensures match LastAccepted(rules, os, has)
            case None => forall k :: 0 <= k < |os| && Accepted(rules, NOTHING, os, k) ==> !has(os[k])
            case Some(j) => j < |os| && Accepted(rules, NOTHING, os, j) && has(os[j])
                            && forall k :: j < k < |os| && Accepted(rules, NOTHING, os, k) ==> !has(os[k])
    decreases |os|
  {
    hide ApplyAll, Late;
    if os != [] {
      var n := |os| - 1;
      LastAcceptedIs(rules, os[..n], has);
      PrefixAccepted(rules, NOTHING, os, n);
    }
  }

  predicate IsLive(o: Snap) {
    o.live
  }

  predicate HasAmount(o: Snap) {
    o.amount.Some?
  }

  predicate HasSchema(o: Snap) {
    o.schema.Some?
  }

  /** last_checked is the newest time of all. */
  lemma {:induction false} CheckedIsNewest(rules: Rules, os: seq<Snap>)
    ensures var st := ApplyAll(rules, NOTHING, os);
            && (st.lastChecked == None <==> os == [])
            && (os != [] ==> (exists k :: 0 <= k < |os| && os[k].ts == st.lastChecked.value)
                             && forall k :: 0 <= k < |os| ==> os[k].ts <= st.lastChecked.value)
    decreases |os|
  {
    hide Differs, Matches;
    if os != [] {
      var n := |os| - 1;
      CheckedIsNewest(rules, os[..n]);
      assert forall k :: 0 <= k < n ==> os[..n][k] == os[k];
    }
  }

  /** One observation sets what it shows, unless it is late. */
  lemma ApplySets(rules: Rules, st: UrlState, o: Snap)
    ensures var b := Apply(rules, st, o);
            && b.lastOk == (if !Late(st, o) && o.live then Some(o.ts) else st.lastOk)
            && b.lastAmount == (if !Late(st, o) && o.amount.Some? then o.amount else st.lastAmount)
            && b.schema == (if !Late(st, o) && o.schema.Some? then o.schema else st.schema)
  {
    hide Differs, Matches;
  }

  lemma {:induction false} ValuesAreLast(rules: Rules, os: seq<Snap>)
    ensures var st := ApplyAll(rules, NOTHING, os);
            var ok, amount := LastAccepted(rules, os, IsLive), LastAccepted(rules, os, HasAmount);
            var schema := LastAccepted(rules, os, HasSchema);
            && (ok.Some? ==> ok.value < |os|) && (amount.Some? ==> amount.value < |os|)
            && (schema.Some? ==> schema.value < |os|)
            && st.lastOk == (if ok.None? then None else Some(os[ok.value].ts))
            && st.lastAmount == (if amount.None? then None else os[amount.value].amount)
            && st.schema == (if schema.None? then None else os[schema.value].schema)
    decreases |os|
  {
    hide Apply, Late;
    if os != [] {
      var n := |os| - 1;
      ValuesAreLast(rules, os[..n]);
      ApplySets(rules, ApplyAll(rules, NOTHING, os[..n]), os[n]);
      assert forall k :: 0 <= k < n ==> os[..n][k] == os[k];
    }
  }

  /** The last success is the last accepted live observation, the amount and the schema are those of
      the last accepted observation that shows one, and last_checked is the newest time of all. */
  lemma ColumnsAreLast(rules: Rules, os: seq<Snap>)
    ensures var st := ApplyAll(rules, NOTHING, os);
            var ok, amount := LastAccepted(rules, os, IsLive), LastAccepted(rules, os, HasAmount);
            var schema := LastAccepted(rules, os, HasSchema);
            && (ok.Some? ==> ok.value < |os|) && (amount.Some? ==> amount.value < |os|)
            && (schema.Some? ==> schema.value < |os|)
            && st.lastOk == (if ok.None? then None else Some(os[ok.value].ts))
            && st.lastAmount == (if amount.None? then None else os[amount.value].amount)
            && st.schema == (if schema.None? then None else os[schema.value].schema)
            && (st.lastChecked == None <==> os == [])
            && (os != [] ==> (exists k :: 0 <= k < |os| && os[k].ts == st.lastChecked.value)
                             && forall k :: 0 <= k < |os| ==> os[k].ts <= st.lastChecked.value)
  {
    hide ApplyAll, LastAccepted;
    ValuesAreLast(rules, os);
    CheckedIsNewest(rules, os);
  }
}
