/** The final gate before a payment (_billable_winner of live402/route.py), stated on the envelope, the caller's
    bounds and the addresses alone. */
module GateRules {
  import opened Collections
  import opened EnvelopeGate
  import opened Rails
  import opened Selection
  import opened PickedPayment
  import opened WinnerGate

  /** Addresses are spelled in any case on Base and Algorand and in one only on Solana. */
  predicate SameAddress(rules: EnvelopeGate.Rules, rail: Rail, a: string, b: string) {
    && (rail == Solana ==> a == b)
    && (rail == Base ==> rules.lower(a) == rules.lower(b))
    && (rail == Algorand ==> rules.upper(a) == rules.upper(b))
  }

  predicate NamesPayee(item: Option<Accept>) {
    item.Some? && item.value.payTo.Some?
  }

  /** The option pays the address of the first entry that names one, whether or not that entry is valid. */
  ghost predicate PaysTheFirst(rules: EnvelopeGate.Rules, items: seq<Option<Accept>>, o: Opt) {
    exists i :: 0 <= i < |items| && NamesPayee(items[i]) && (forall k :: 0 <= k < i ==> !NamesPayee(items[k]))
                && SameAddress(rules, o.rail, items[i].value.payTo.value, o.payTo)
  }

  /** The caller's bounds on the payment, figure by figure. */
  predicate Affordable(cons: Constraints, o: Opt) {
    && (cons.rails.Some? ==> o.rail in cons.rails.value)
    && (cons.maxAmount.Some? ==> o.usdc && o.atomic <= cons.maxAmount.value)
    && (cons.maxUsd.Some? ==> o.usdc && o.atomic as real / 1000000.0 <= cons.maxUsd.value)
    && (cons.maxTotal.Some? ==> o.cost.Some? && o.cost.value <= cons.maxTotal.value)
    && (cons.maxSettle.Some? ==> o.settle.Some? && o.settle.value <= cons.maxSettle.value)
  }

  lemma {:induction false} FirstPayeeIs(items: seq<Option<Accept>>, i: nat)
    requires i < |items| && NamesPayee(items[i]) && forall k :: 0 <= k < i ==> !NamesPayee(items[k])
    ensures FirstPayee(items) == items[i].value.payTo
    decreases i
  {
    if i > 0 {
      assert !NamesPayee(items[0]);
      forall k | 0 <= k < i - 1 ensures !NamesPayee(items[1..][k]) { assert items[1..][k] == items[k + 1]; }
      FirstPayeeIs(items[1..], i - 1);
    }
  }

  lemma {:induction false} FirstPayeeNamed(items: seq<Option<Accept>>) returns (i: nat)
    requires FirstPayee(items).Some?
    ensures i < |items| && NamesPayee(items[i]) && forall k :: 0 <= k < i ==> !NamesPayee(items[k])
  {
    i := 0;
    if !NamesPayee(items[0]) {
      var j := FirstPayeeNamed(items[1..]);
      i := j + 1;
      forall k | 0 <= k < i ensures !NamesPayee(items[k]) {
        if k > 0 { assert items[k] == items[1..][k - 1]; }
      }
    }
  }

  lemma PayeeIff(rules: EnvelopeGate.Rules, e: Evidence, o: Opt)
    requires e.result.envelope.Listed?
    ensures PaysPayee(rules, e, o) <==> PaysTheFirst(rules, e.result.envelope.items, o)
  {
    var items := e.result.envelope.items;
    if FirstPayee(items).Some? {
      var i := FirstPayeeNamed(items);
      FirstPayeeIs(items, i);
    }
    if PaysTheFirst(rules, items, o) {
      var i :| 0 <= i < |items| && NamesPayee(items[i]) && (forall k :: 0 <= k < i ==> !NamesPayee(items[k]))
               && SameAddress(rules, o.rail, items[i].value.payTo.value, o.payTo);
      FirstPayeeIs(items, i);
    }
  }

  /** For any result and however its payment was selected, the gate opens exactly when the URL is https, the result is
      live, meets the bounds that are not about the payment and changes no payee that the caller has not accepted,
      the envelope has an integer version and a list, and the selected payment is one of that list's validated
      entries and one of the candidate's own, is affordable, and pays the address that the list names first. */
  lemma OpensIff(rules: EnvelopeGate.Rules, e: Evidence, objective: Objective, cons: Constraints)
    ensures GateOpens(rules, e, objective, cons)
            <==> && e.https && e.candidate.live && e.candidate.fits && !cons.unmeasured
                 && (e.candidate.pending ==> cons.acceptChange)
                 && e.result.version.Int? && e.result.envelope.Listed? && e.selected.Some?
                 && e.selected.value in Valid(rules, e.result.envelope.items, e.result.version)
                 && e.selected.value in e.candidate.opts
                 && Affordable(cons, e.selected.value)
                 && PaysTheFirst(rules, e.result.envelope.items, e.selected.value)
  {
    hide Matches, Valid, PaysPayee, PaysTheFirst, Pick;
    if e.selected.Some? {
      GateIff(rules, e.selected.value, e.result);
      if e.result.envelope.Listed? { PayeeIff(rules, e, e.selected.value); }
    }
  }
}
