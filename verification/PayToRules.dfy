/** The two-step payTo rule as a caller sees it (live402/history.py, _apply_trusted_url_state): what one
    accepted observation does to the columns of its URL, and that a second sighting does move the payTo. */
module PayToRules {
  import opened Collections
  import opened UrlHistory

  /** Two addresses that are there and compare equal on the rail. */
  predicate SameAddress(rules: Rules, a: Text, b: Text, rail: Text) {
    a.Some? && b.Some? && rules.canon(a.value, rail) == rules.canon(b.value, rail)
  }

  /** What one observation that is not older than the last one does to the three payTo columns. */
  lemma PayToStep(rules: Rules, st: UrlState, o: Snap)
    requires st.lastChecked.Some? ==> st.lastChecked.value <= o.ts
    ensures var b := Apply(rules, st, o);
            && (o.payTo.None? ==>
                  b.lastPay == st.lastPay && b.pending == st.pending && b.payChangedAt == st.payChangedAt)
            && (o.payTo.Some? && (st.lastPay.None? || SameAddress(rules, st.lastPay, o.payTo, o.rail)) ==>
                  b.lastPay == o.payTo && b.pending == None && b.payChangedAt == st.payChangedAt)
            && (o.payTo.Some? && st.lastPay.Some? && !SameAddress(rules, st.lastPay, o.payTo, o.rail)
                && SameAddress(rules, st.pending, o.payTo, o.rail) ==>
                  b.lastPay == o.payTo && b.pending == None && b.payChangedAt == st.payChangedAt)
            && (o.payTo.Some? && st.lastPay.Some? && !SameAddress(rules, st.lastPay, o.payTo, o.rail)
                && !SameAddress(rules, st.pending, o.payTo, o.rail) ==>
                  b.lastPay == st.lastPay && b.pending == o.payTo && b.payChangedAt == Some(o.ts))
  {
  }

  /** ... and to the other ones: times of change are set exactly when a known value is seen to change. */
  lemma OtherColumnsStep(rules: Rules, st: UrlState, o: Snap)
    requires st.lastChecked.Some? ==> st.lastChecked.value <= o.ts
    ensures var b := Apply(rules, st, o);
            && b.lastChecked == Some(o.ts)
            && b.lastOk == (if o.live then Some(o.ts) else st.lastOk)
            && b.lastAmount == (if o.amount.Some? then o.amount else st.lastAmount)
            && b.schema == (if o.schema.Some? then o.schema else st.schema)
            && (b.schemaChangedAt != st.schemaChangedAt ==> b.schemaChangedAt == Some(o.ts))
            && (o.schema.Some? && st.schema.Some? && o.schema.value != st.schema.value ==>
                  b.schemaChangedAt == Some(o.ts))
            && (!(o.schema.Some? && st.schema.Some? && o.schema.value != st.schema.value) ==>
                  b.schemaChangedAt == st.schemaChangedAt)
            && (if o.amount.Some? && st.lastAmount.Some?
                   && rules.priceFlipped(st.lastAmount.value, o.amount.value, o)
                then b.priceChangedAt == Some(o.ts) else b.priceChangedAt == st.priceChangedAt)
  {
    hide Differs, Matches;
  }

  lemma SilentPrefix(rules: Rules, os: seq<Snap>, n: nat, j: nat)
    requires n <= |os| && SilentSince(rules, NOTHING, os, j)
    ensures SilentSince(rules, NOTHING, os[..n], j)
  {
    hide Accepted;
    PrefixAccepted(rules, NOTHING, os, n);
  }

  lemma SilentStep(rules: Rules, os: seq<Snap>, j: nat)
    requires os != [] && j < |os| - 1 && SilentSince(rules, NOTHING, os, j)
    ensures var st := ApplyAll(rules, NOTHING, os[..|os| - 1]);
            var b := ApplyAll(rules, NOTHING, os);
            b.lastPay == st.lastPay && b.pending == st.pending
  {
    hide Apply;
    var n := |os| - 1;
    var st := ApplyAll(rules, NOTHING, os[..n]);
    if Accepted(rules, NOTHING, os, n) {
      PayToStep(rules, st, os[n]);
    } else {
      CheckedNeverDecreases(rules, st, os[n]);
    }
  }

  /** Observations after the k-th that carry no payTo or come too late keep what it left. */
  lemma {:induction false} SilenceKeeps(rules: Rules, os: seq<Snap>, j: nat)
    requires j < |os| && SilentSince(rules, NOTHING, os, j)
    ensures ApplyAll(rules, NOTHING, os).lastPay == ApplyAll(rules, NOTHING, os[..j + 1]).lastPay
    ensures ApplyAll(rules, NOTHING, os).pending == ApplyAll(rules, NOTHING, os[..j + 1]).pending
    decreases |os|
  {
    hide Apply, ApplyAll, SilentSince;
    var n := |os| - 1;
    if j == n {
      assert os[..j + 1] == os;
    } else {
      SilentPrefix(rules, os, n, j);
      SilenceKeeps(rules, os[..n], j);
      assert os[..n][..j + 1] == os[..j + 1];
      SilentStep(rules, os, j);
    }
  }

  /** Two accepted observations of one new address, with no payTo accepted in between, do move the trusted payTo:
      the first is held back and dates the change, the second is taken over. */
  lemma SecondSightingMoves(rules: Rules, os: seq<Snap>, rail: Text, j: nat)
    requires OnRail(os, rail) && os != [] && j < |os| - 1
    requires var n := |os| - 1;
             && Accepted(rules, NOTHING, os, j) && Accepted(rules, NOTHING, os, n)
             && SameAddress(rules, os[j].payTo, os[n].payTo, rail)
             && (forall k :: j < k < n && Accepted(rules, NOTHING, os, k) ==> os[k].payTo == None)
    requires var was := ApplyAll(rules, NOTHING, os[..j]).lastPay;
             was.Some? && !SameAddress(rules, was, os[j].payTo, rail)
             && !SameAddress(rules, ApplyAll(rules, NOTHING, os[..j]).pending, os[j].payTo, rail)
    ensures ApplyAll(rules, NOTHING, os[..j + 1]).lastPay == ApplyAll(rules, NOTHING, os[..j]).lastPay
    ensures ApplyAll(rules, NOTHING, os[..j + 1]).payChangedAt == Some(os[j].ts)
    ensures ApplyAll(rules, NOTHING, os).lastPay == os[|os| - 1].payTo
    ensures ApplyAll(rules, NOTHING, os).pending == None
  {
    hide Apply;
    var n := |os| - 1;
    var first := os[..j + 1];
    assert first[..j] == os[..j] && first[j] == os[j];
    PayToStep(rules, ApplyAll(rules, NOTHING, os[..j]), os[j]);
    PrefixAccepted(rules, NOTHING, os, n);
    assert SilentSince(rules, NOTHING, os[..n], j);
    SilenceKeeps(rules, os[..n], j);
    assert os[..n][..j + 1] == first;
    PayToStep(rules, ApplyAll(rules, NOTHING, os[..n]), os[n]);
  }
}
