/** The final gate before a payment (_billable_winner of live402/route.py) over the picker and the
    envelope gate: what a settle call implies about the selected payment, and which picked payments
    the gate lets through. */
module WinnerGate {
  import opened Amounts
  import opened Collections
  import opened EnvelopeGate
  import opened Rails
  import opened Selection
  import opened PickedPayment
  import PaidRoute
  import Outcomes
  import StableSort

  /** What the gate reads of a probe result besides its status: the URL's scheme, the selected
      payment, the accepts, and the candidate that the picker sees in it. */
  datatype Evidence = Evidence(https: bool, selected: Option<Opt>, result: Result, candidate: Candidate)

  /** _payto_from_envelope: the first payee of the accepts. */
  function FirstPayee(items: seq<Option<Accept>>): Option<string> {
    if items == [] then None
    else if items[0].Some? && items[0].value.payTo.Some? then items[0].value.payTo
    else FirstPayee(items[1..])
  }

  /** The result's own payTo. */
  function Payee(r: Result): Option<string> {
    if r.envelope.Listed? then FirstPayee(r.envelope.items) else None
  }

  /** http200_winner_ok: a result without a selected payment is picked from again. */
  predicate WinnerOk(c: Candidate, selected: Option<Opt>, objective: Objective, cons: Constraints) {
    var o := if selected.Some? then selected else Pick(c, objective, cons);
    c.live && c.opts != [] && o.Some? && OnRails(cons, o.value)
  }

  predicate PaysPayee(rules: Rules, e: Evidence, o: Opt) {
    Payee(e.result).Some? && SamePay(rules, Payee(e.result).value, o.payTo, o.rail)
  }

  /** The checks of _billable_winner that are not about the status, in its order. */
  predicate GateOpens(rules: Rules, e: Evidence, objective: Objective, cons: Constraints) {
    && e.https && WinnerOk(e.candidate, e.selected, objective, cons)
    && (e.candidate.pending ==> cons.acceptChange)
    && e.selected.Some?
    && Matches(rules, e.selected.value, e.result)
    && FinalCheck(e.candidate, e.selected.value, cons)
    && PaysPayee(rules, e, e.selected.value)
  }

  /** Within all of the caller's bounds on the payment itself. */
  predicate WithinBounds(cons: Constraints, o: Opt) {
    && OnRails(cons, o) && WithinAmount(cons, o) && WithinUsd(cons, o)
    && CostFits(o.cost, cons.maxTotal) && TimeFits(o.settle, cons.maxSettle)
  }

  /** Whatever the probe returned and however it was picked: when the facilitator is asked to settle,
      the selected payment is a validated entry of the result's own versioned envelope, within all of
      the caller's bounds, and pays the payee that the envelope names first. */
  lemma SettledPaymentIsValidated(codec: Outcomes.Codec, req: PaidRoute.Request, w: PaidRoute.World,
                                  rules: Rules, e: Evidence, objective: Objective, cons: Constraints)
    requires w.gate <==> GateOpens(rules, e, objective, cons)
    requires PaidRoute.SettleCall in PaidRoute.Effects(codec, req, w)
    ensures e.selected.Some? && e.https && !cons.unmeasured
    ensures var o := e.selected.value;
            && e.result.version.Int? && e.result.envelope.Listed?
            && o in Valid(rules, e.result.envelope.items, e.result.version)
            && o in e.candidate.opts && WithinBounds(cons, o) && PaysPayee(rules, e, o)
  {
    hide Matches, Validate, Valid, PaysPayee, WinnerOk, PaidRoute.Effects;
    PaidRoute.SettleIsGuarded(codec, req, w);
    GateIff(rules, e.selected.value, e.result);
  }

  /** The evidence of a candidate whose payment was picked. */
  predicate IsPicked(rules: Rules, e: Evidence, objective: Objective, cons: Constraints) {
    && e.candidate.opts == Options(rules, e.result) && Eligible(e.candidate, cons)
    && e.selected.Some? && e.selected == Pick(e.candidate, objective, cons)
  }

  /** Which picked payments pass: the gate opens exactly for an https URL whose envelope has an integer
      version and a list, when the payment's own cost and settlement time are within the bounds and it
      pays the payee that the envelope names first. */
  lemma GateOpensIff(rules: Rules, e: Evidence, objective: Objective, cons: Constraints)
    requires IsPicked(rules, e, objective, cons)
    ensures var o := e.selected.value;
            GateOpens(rules, e, objective, cons)
            <==> && e.https && e.result.version.Int? && e.result.envelope.Listed?
                 && CostFits(o.cost, cons.maxTotal) && TimeFits(o.settle, cons.maxSettle) && PaysPayee(rules, e, o)
  {
    hide Matches, Options, Pick, PaysPayee, OptionsFor, CostFits, TimeFits, FinalCheck;
    PickFits(e.candidate, objective, cons);
    PickedPaymentPasses(rules, e.result, e.candidate, objective, cons);
    EligibleParts(e.candidate, cons);
  }

  lemma EligibleParts(c: Candidate, cons: Constraints)
    requires Eligible(c, cons)
    ensures c.live && c.opts != [] && (c.pending ==> cons.acceptChange)
  {
    hide OptionsFor;
  }

  /** Everything of a request but the gate is in order. */
  predicate Ready(req: PaidRoute.Request, w: PaidRoute.World) {
    && w.verifyTime > 0 && PaidRoute.VerifyOk(w.verify) && w.badBody.None?
    && PaidRoute.Billable(w.(gate := true)) && (req.routeBinding ==> w.binding.Some?) && w.settleTime > 0
  }

  /** A picked payment is paid for exactly under those conditions. */
  lemma PickedIsSettledIff(codec: Outcomes.Codec, req: PaidRoute.Request, w: PaidRoute.World,
                           rules: Rules, e: Evidence, objective: Objective, cons: Constraints)
    requires (w.gate <==> GateOpens(rules, e, objective, cons)) && IsPicked(rules, e, objective, cons) && Ready(req, w)
    ensures var o := e.selected.value;
            PaidRoute.SettleCall in PaidRoute.Effects(codec, req, w)
            <==> && e.https && e.result.version.Int? && e.result.envelope.Listed?
                 && CostFits(o.cost, cons.maxTotal) && TimeFits(o.settle, cons.maxSettle) && PaysPayee(rules, e, o)
  {
    hide GateOpens, IsPicked, PaysPayee, CostFits, TimeFits, PaidRoute.Effects;
    GateOpensIff(rules, e, objective, cons);
    ReadySettles(codec, req, w);
  }

  lemma ReadySettles(codec: Outcomes.Codec, req: PaidRoute.Request, w: PaidRoute.World)
    requires Ready(req, w)
    ensures PaidRoute.SettleCall in PaidRoute.Effects(codec, req, w) <==> w.gate
  {
    hide PaidRoute.Classify;
    PaidRoute.EffectsAreOrdered(PaidRoute.ProgressOf(codec, req, w));
  }

  // ---- a second payee -----------------------------------------------------------------------

  /** One unit to q, and nothing to p. */
  const DEAR := LONE.(amount := Text("1"), payTo := Some("q"))
  const TWO_PAYEES := Result(Int(2), Listed([Some(DEAR), Some(LONE)]), Undeclared, Undeclared, LONE)
  const NO_BOUNDS := Constraints(None, None, None, None, None, false, false)

  function DearOpt(rules: Rules): Opt {
    Fields(rules, DEAR, Base, Chain(Base), "a", "q", 1)
  }

  function FreeOpt(rules: Rules): Opt {
    Fields(rules, LONE, Base, Chain(Base), "a", "p", 0)
  }

  lemma OneIsCanonical()
    ensures Canonical("1") == Some(1)
  {
    assert Number("1"[..0]) == 0 && Number("1") == 1;
  }

  lemma TwoAreValid(rules: Rules)
    requires rules.validAsset("a", Base) && rules.validPay("p", Base) && rules.validPay("q", Base)
    ensures Validate(rules, DEAR, Int(2)) == Some(DearOpt(rules))
    ensures Validate(rules, LONE, Int(2)) == Some(FreeOpt(rules))
  {
    hide Fields, Canonical;
    OneIsCanonical();
    ZeroIsCanonical();
  }

  lemma TwoOptions(rules: Rules, a: Accept, b: Accept, version: Whole, x: Opt, y: Opt)
    requires Validate(rules, a, version) == Some(x) && Validate(rules, b, version) == Some(y)
    requires IdentityOf(x) != IdentityOf(y)
    ensures Dedupe(Valid(rules, [Some(a), Some(b)], version)) == [x, y]
  {
    OneOption(rules, a, version, x);
    hide Validate, IdentityOf;
    var items := [Some(a), Some(b)];
    assert items[..1] == [Some(a)] && [Some(a)][..0] == [] && Valid(rules, [], version) == [];
    assert Valid(rules, [Some(a)], version) == [x];
    assert Valid(rules, items, version) == [x, y];
    assert [x, y][..1] == [x] && [x] + [y] == [x, y];
    assert forall o :: o in [x] ==> o == x;
  }

  /** The least dollar price is picked. */
  lemma FreeIsPicked(c: Candidate, x: Opt, y: Opt)
    requires c.opts == [x, y] && c.live && x.usdc && y.usdc && x.atomic == 1 && y.atomic == 0
    ensures Pick(c, Cheapest, NO_BOUNDS) == Some(y)
  {
    hide OptionsFor, FirstLeast, MinUsd, Assets, Priced;
    var opts := OptionsFor(c, NO_BOUNDS);
    PricedMembers(opts);
    assert y in c.opts && y in opts && y in Priced(opts);
    var p := Pick(c, Cheapest, NO_BOUNDS);
    assert p == FirstLeast(Priced(opts), Usd) && p.value in opts;
    assert Usd(p.value).value <= Usd(y).value;
  }

  /** The cheapest option of an envelope with two payees is picked, and the gate refuses to pay it,
      because the result's own payTo is the first payee. */
  lemma SecondPayeeIsRefused(rules: Rules)
    requires rules.validAsset("a", Base) && rules.validPay("p", Base) && rules.validPay("q", Base) && rules.isUsdc("a")
    requires rules.lower("p") != rules.lower("q")
    ensures var c := Candidate(true, Options(rules, TWO_PAYEES), false, None, None, None, None, None, false, true);
            var e := Evidence(true, Some(FreeOpt(rules)), TWO_PAYEES, c);
            IsPicked(rules, e, Cheapest, NO_BOUNDS) && !GateOpens(rules, e, Cheapest, NO_BOUNDS)
  {
    var c := Candidate(true, Options(rules, TWO_PAYEES), false, None, None, None, None, None, false, true);
    var e := Evidence(true, Some(FreeOpt(rules)), TWO_PAYEES, c);
    hide Validate, Valid, Dedupe, Pick, OptionsFor, GateOpens;
    TwoAreValid(rules);
    TwoOptions(rules, DEAR, LONE, Int(2), DearOpt(rules), FreeOpt(rules));
    FreeIsPicked(c, DearOpt(rules), FreeOpt(rules));
    GateOpensIff(rules, e, Cheapest, NO_BOUNDS);
    assert FirstPayee(TWO_PAYEES.envelope.items) == Some("q");
  }
}
