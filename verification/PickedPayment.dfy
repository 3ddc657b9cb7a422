/** The selected payment against the two gates behind the picker (live402/select.py,
    live402/payment.py): what pick_selected_payment returns, checked again on the envelope and
    against the caller's bounds. */
module PickedPayment {
  import opened Collections
  import opened EnvelopeGate
  import opened Rails
  import opened Selection
  import StableSort

  /** selected_payment_passes_constraints: the selected option is one that fits, its own economics
      are within the bounds, and the candidate meets the bounds that are not about the option. */
  predicate FinalCheck(c: Candidate, selected: Opt, cons: Constraints) {
    && !cons.unmeasured && selected in OptionsFor(c, cons)
    && CostFits(selected.cost, cons.maxTotal) && TimeFits(selected.settle, cons.maxSettle)
    && c.live && c.opts != [] && c.fits
  }

  lemma PickFits(c: Candidate, objective: Objective, cons: Constraints)
    requires Pick(c, objective, cons).Some?
    ensures Pick(c, objective, cons).value in OptionsFor(c, cons)
  {
    hide OptionsFor, FirstLeast, Priced, MinUsd, Assets;
    var opts := OptionsFor(c, cons);
    assert opts[0] in opts;
    PricedMembers(opts);
  }

  /** The picked option of a probe result passes the envelope gate exactly when the envelope has an
      integer version and a list, and passes the final check of an eligible candidate exactly when
      its own cost and settlement time are within the caller's bounds: the rail, amount and price
      part never fails. */
  lemma PickedPaymentPasses(rules: Rules, r: Result, c: Candidate, objective: Objective, cons: Constraints)
    requires c.opts == Options(rules, r) && Pick(c, objective, cons).Some?
    ensures var o := Pick(c, objective, cons).value;
            && (Matches(rules, o, r) <==> r.version.Int? && r.envelope.Listed?)
            && (Eligible(c, cons) ==>
                  (FinalCheck(c, o, cons) <==> CostFits(o.cost, cons.maxTotal) && TimeFits(o.settle, cons.maxSettle)))
  {
    hide Pick, OptionsFor, Options, Matches;
    PickFits(c, objective, cons);
    PickedPassesGateIff(rules, Pick(c, objective, cons).value, r);
  }

  /** Ranking by total cost, or by settlement time, meets the bound on it whenever some option that
      the picker considers does. */
  lemma RankedBoundIsMet(c: Candidate, cons: Constraints, o: Opt)
    requires c.live && o in OptionsFor(c, cons) && (o.usdc || forall p :: p in OptionsFor(c, cons) ==> !p.usdc)
    ensures o.cost.Some? && CostFits(o.cost, cons.maxTotal) ==>
              var p := Pick(c, LowestTotalCost, cons); p.Some? && CostFits(p.value.cost, cons.maxTotal)
    ensures o.settle.Some? && TimeFits(o.settle, cons.maxSettle) ==>
              var p := Pick(c, FastestSettlement, cons); p.Some? && TimeFits(p.value.settle, cons.maxSettle)
  {
    hide OptionsFor, FirstLeast, Priced;
    var opts := OptionsFor(c, cons);
    var a, b := Pick(c, LowestTotalCost, cons), Pick(c, FastestSettlement, cons);
    assert a == FirstLeast(Priced(opts), Cost);
    assert b == FirstLeast(Priced(opts), Settle);
    PricedMembers(opts);
    if o.cost.Some? { assert Cost(o) == o.cost && Cost(a.value) == a.value.cost; }
    if o.settle.Some? {
      assert Settle(o) == Some(o.settle.value as real) && Settle(b.value) == Some(b.value.settle.value as real);
    }
  }

  /** The winner's payment: with an envelope that has an integer version and a list, and no bound on
      cost or settlement time, it passes both gates. */
  lemma WinnersPaymentPasses(rules: Rules, r: Result, results: seq<Candidate>, objective: Objective, cons: Constraints)
    requires var w := PickWinner(results, objective, cons); w.Some? && w.value.opts == Options(rules, r)
    requires r.version.Int? && r.envelope.Listed? && cons.maxTotal.None? && cons.maxSettle.None?
    ensures var w := PickWinner(results, objective, cons).value;
            && w in results && Eligible(w, cons) && Pick(w, objective, cons).Some?
            && Matches(rules, Pick(w, objective, cons).value, r) && FinalCheck(w, Pick(w, objective, cons).value, cons)
  {
    hide Pick, Options, Matches, FinalCheck, Eligible, Seen, KindOf;
    WinnerIsPicked(results, objective, cons);
    PickedPaymentPasses(rules, r, PickWinner(results, objective, cons).value, objective, cons);
  }

  lemma {:induction false} FirstIsPicked(ranked: seq<Candidate>, objective: Objective, cons: Constraints)
    ensures var w := FirstPicked(ranked, objective, cons);
            w.Some? ==> w.value in ranked && Pick(w.value, objective, cons).Some?
  {
    hide Pick;
    if ranked != [] { FirstIsPicked(ranked[1..], objective, cons); }
  }

  lemma WinnerIsPicked(results: seq<Candidate>, objective: Objective, cons: Constraints)
    ensures var w := PickWinner(results, objective, cons);
            w.Some? ==> w.value in results && Eligible(w.value, cons) && Pick(w.value, objective, cons).Some?
  {
    hide Pick, Eligible, Seen, KindOf, Kinds, Comparator, StableSort.Sort;
    var among := Remaining(results, objective, cons);
    var ranked := StableSort.Sort(Comparator(objective), among);
    FirstIsPicked(ranked, objective, cons);
    StableSort.SameMembers(ranked, among);
  }
}
