/** Picking a route among probed candidates (live402/select.py): the payment options that survive
    the caller's bounds, the comparators, the cheapest-comparable subset and the winner.
    A candidate lists its observed options, all of them complete (live402/payment.py:868-910). */
module Selection {
  import opened Collections
  import opened Rails
  import opened StableSort

  /** `cost` and `settle` are the economics of the result as a whole; `fits` says whether the bounds
      that are not about price, rail, cost or settlement are met. */
  datatype Candidate = Candidate(
    live: bool, opts: seq<Opt>, invocable: bool, latency: Option<int>, mature: Option<real>, weak: Option<real>,
    cost: Option<real>, settle: Option<int>, pending: bool, fits: bool)

  /** `rails` is the networks lock; `unmeasured` says that a bound is set which nobody meets, such as
      one that is not measured. */
  datatype Constraints = Constraints(
    rails: Option<set<Rail>>, maxAmount: Option<int>, maxUsd: Option<real>, maxTotal: Option<real>,
    maxSettle: Option<int>, acceptChange: bool, unmeasured: bool)

  datatype Objective = Cheapest | Fastest | MostReliable | LowestTotalCost | FastestSettlement | Best

  // ---- options ------------------------------------------------------------------------------

  function Filter<T(!new)>(xs: seq<T>, keep: T -> bool): (r: seq<T>)
    ensures forall x :: x in r <==> x in xs && keep(x)
    decreases |xs|
  {
    if xs == [] then []
    else
      var n := |xs| - 1;
      assert xs == xs[..n] + [xs[n]];
      Filter(xs[..n], keep) + if keep(xs[n]) then [xs[n]] else []
  }

  predicate OnRails(cons: Constraints, o: Opt) {
    cons.rails.Some? ==> o.rail in cons.rails.value
  }

  predicate WithinAmount(cons: Constraints, o: Opt) {
    cons.maxAmount.Some? ==> o.usdc && o.atomic <= cons.maxAmount.value
  }

  predicate WithinUsd(cons: Constraints, o: Opt) {
    cons.maxUsd.Some? ==> Usd(o).Some? && Usd(o).value <= cons.maxUsd.value
  }

  function OnRailsOnly(opts: seq<Opt>, cons: Constraints): seq<Opt> {
    Filter(opts, o => OnRails(cons, o))
  }

  function WithinAmountOnly(opts: seq<Opt>, cons: Constraints): seq<Opt> {
    Filter(opts, o => WithinAmount(cons, o))
  }

  function WithinUsdOnly(opts: seq<Opt>, cons: Constraints): seq<Opt> {
    Filter(opts, o => WithinUsd(cons, o))
  }

  /** _options_for_constraints */
  function OptionsFor(c: Candidate, cons: Constraints): (r: seq<Opt>)
    ensures forall o :: o in r <==> o in c.opts && OnRails(cons, o) && WithinAmount(cons, o) && WithinUsd(cons, o)
  {
    WithinUsdOnly(WithinAmountOnly(OnRailsOnly(c.opts, cons), cons), cons)
  }

  /** The atomic bound: only options of known decimals can meet it. */
  method KeepWithinAmount(opts: seq<Opt>, cons: Constraints, max: int) returns (kept: seq<Opt>)
    requires cons.maxAmount == Some(max)
    ensures kept == WithinAmountOnly(opts, cons)
  {
    kept := [];
    for i := 0 to |opts|
      invariant kept == WithinAmountOnly(opts[..i], cons)
    {
      assert opts[..i + 1][..i] == opts[..i];
      if opts[i].usdc && opts[i].atomic <= max { kept := kept + [opts[i]]; }
    }
    assert opts[..|opts|] == opts;
  }

  /** _options_for_constraints as the source runs it: one pass for each bound that is set. */
  method OptionsForConstraints(c: Candidate, cons: Constraints) returns (opts: seq<Opt>)
    ensures opts == OptionsFor(c, cons)
  {
    hide OnRailsOnly, WithinAmountOnly, WithinUsdOnly;
    opts := c.opts;
    NoBounds(opts, cons);
    if cons.rails.Some? { opts := OnRailsOnly(opts, cons); }
    NoBounds(opts, cons);
    if cons.maxAmount.Some? { opts := KeepWithinAmount(opts, cons, cons.maxAmount.value); }
    NoBounds(opts, cons);
    if cons.maxUsd.Some? { opts := WithinUsdOnly(opts, cons); }
  }

  lemma {:induction false} FilterAll<T(!new)>(xs: seq<T>, keep: T -> bool)
    requires forall x :: x in xs ==> keep(x)
    ensures Filter(xs, keep) == xs
    decreases |xs|
  {
    if xs != [] {
      var n := |xs| - 1;
      assert xs == xs[..n] + [xs[n]] && xs[n] in xs;
      assert forall x :: x in xs[..n] ==> x in xs;
      FilterAll(xs[..n], keep);
    }
  }

  /** A bound that is not set drops nothing. */
  lemma NoBounds(opts: seq<Opt>, cons: Constraints)
    ensures cons.rails.None? ==> OnRailsOnly(opts, cons) == opts
    ensures cons.maxAmount.None? ==> WithinAmountOnly(opts, cons) == opts
    ensures cons.maxUsd.None? ==> WithinUsdOnly(opts, cons) == opts
  {
    if cons.rails.None? { FilterAll(opts, o => OnRails(cons, o)); }
    if cons.maxAmount.None? { FilterAll(opts, o => WithinAmount(cons, o)); }
    if cons.maxUsd.None? { FilterAll(opts, o => WithinUsd(cons, o)); }
  }

  // ---- prices -------------------------------------------------------------------------------

  /** The least known dollar price. */
  function MinUsd(opts: seq<Opt>): (r: Option<real>)
    ensures r.Some? <==> exists o :: o in opts && o.usdc
    ensures r.Some? ==> exists o :: o in opts && Usd(o) == r
    ensures r.Some? ==> forall o :: o in opts && o.usdc ==> r.value <= Usd(o).value
    decreases |opts|
  {
    if opts == [] then None
    else
      var n := |opts| - 1;
      assert opts == opts[..n] + [opts[n]];
      var rest := MinUsd(opts[..n]);
      var u := Usd(opts[n]);
      if u.None? then rest else if rest.None? || u.value < rest.value then u else rest
  }

  /** The least amount in one asset. */
  function MinAtomic(opts: seq<Opt>, asset: AssetKey): (r: Option<nat>)
    ensures r.Some? <==> exists o :: o in opts && o.key == asset
    ensures r.Some? ==> exists o :: o in opts && o.key == asset && o.atomic == r.value
    ensures r.Some? ==> forall o :: o in opts && o.key == asset ==> r.value <= o.atomic
    decreases |opts|
  {
    if opts == [] then None
    else
      var n := |opts| - 1;
      assert opts == opts[..n] + [opts[n]];
      var rest := MinAtomic(opts[..n], asset);
      if opts[n].key != asset then rest
      else if rest.None? || opts[n].atomic < rest.value then Some(opts[n].atomic) else rest
  }

  function Assets(opts: seq<Opt>): set<AssetKey> {
    set o | o in opts :: o.key
  }

  lemma OneIsUnique(s: set<AssetKey>)
    requires |s| == 1
    ensures forall x, y :: x in s && y in s ==> x == y
  {
    forall x, y | x in s && y in s ensures x == y {
      assert |s - {x}| == 0;
      assert y !in s - {x};
    }
  }

  function TheOne(s: set<AssetKey>): (x: AssetKey)
    requires |s| == 1
    ensures s == {x}
  {
    OneIsUnique(s);
    assert s != {};
    var x :| x in s;
    assert forall y :: y in s ==> y == x;
    x
  }

  // ---- comparators --------------------------------------------------------------------------

  /** _cmp_amount_asc: by dollars, else by amount in the one asset both take, else a tie. */
  function CmpAmount(a: Candidate, b: Candidate): int {
    var ua, ub := MinUsd(a.opts), MinUsd(b.opts);
    if ua.Some? && ub.Some? then Sign(ua.value < ub.value, ua.value > ub.value)
    else
      var both := Assets(a.opts) * Assets(b.opts);
      if |both| != 1 then 0
      else
        var x, y := MinAtomic(a.opts, TheOne(both)), MinAtomic(b.opts, TheOne(both));
        if x.Some? && y.Some? then Sign(x.value < y.value, x.value > y.value) else 0
  }

  function CmpLatency(a: Candidate, b: Candidate, unknownLast: bool): int {
    if a.latency.Some? && b.latency.Some? then
      Sign(a.latency.value < b.latency.value, a.latency.value > b.latency.value)
    else if unknownLast then Sign(a.latency.Some?, b.latency.Some?) else 0
  }

  function CmpRate(a: Option<real>, b: Option<real>): int {
    if a.Some? && b.Some? then Sign(a.value > b.value, a.value < b.value) else Sign(a.Some?, b.Some?)
  }

  /** _readiness_tier */
  function Tier(c: Candidate): int {
    if c.invocable then 2 else if c.live && c.opts != [] then 1 else if c.live then 0 else -1
  }

  function CmpBest(a: Candidate, b: Candidate): int {
    Or(Sign(Tier(a) > Tier(b), Tier(a) < Tier(b)),
       Or(CmpRate(a.mature, b.mature), Or(CmpLatency(a, b, false), Or(CmpAmount(a, b), CmpRate(a.weak, b.weak)))))
  }

  function CmpTotalCost(a: Candidate, b: Candidate): int {
    if a.cost.Some? && b.cost.Some?
    then Or(Sign(a.cost.value < b.cost.value, a.cost.value > b.cost.value), CmpLatency(a, b, false))
    else Sign(a.cost.Some?, b.cost.Some?)
  }

  function CmpSettlement(a: Candidate, b: Candidate): int {
    if a.settle.Some? && b.settle.Some?
    then Or(Sign(a.settle.value < b.settle.value, a.settle.value > b.settle.value), CmpAmount(a, b))
    else Sign(a.settle.Some?, b.settle.Some?)
  }

  function CmpReliable(a: Candidate, b: Candidate): int {
    Or(CmpRate(a.mature, b.mature), Or(CmpRate(a.weak, b.weak), Or(CmpLatency(a, b, true), CmpAmount(a, b))))
  }

  function Comparator(objective: Objective): (Candidate, Candidate) -> int {
    match objective
    case Cheapest => (a, b) => Or(CmpAmount(a, b), CmpLatency(a, b, false))
    case Fastest => (a, b) => Or(CmpLatency(a, b, true), CmpAmount(a, b))
    case MostReliable => (a, b) => CmpReliable(a, b)
    case LowestTotalCost => (a, b) => CmpTotalCost(a, b)
    case FastestSettlement => (a, b) => CmpSettlement(a, b)
    case Best => (a, b) => CmpBest(a, b)
  }

  // ---- the picked option --------------------------------------------------------------------

  /** The first option with the least known value: what sorting by the value puts first. */
  function FirstLeast(opts: seq<Opt>, value: Opt -> Option<real>): (r: Option<Opt>)
    ensures r.Some? <==> exists o :: o in opts && value(o).Some?
    ensures r.Some? ==> r.value in opts && value(r.value).Some?
    ensures r.Some? ==> forall o :: o in opts && value(o).Some? ==> value(r.value).value <= value(o).value
    decreases |opts|
  {
    if opts == [] then None
    else
      var n := |opts| - 1;
      assert opts == opts[..n] + [opts[n]];
      var before := FirstLeast(opts[..n], value);
      if value(opts[n]).None? then before
      else if before.None? || value(opts[n]).value < value(before.value).value then Some(opts[n]) else before
  }

  function Amount(o: Opt): Option<real> {
    Some(o.atomic as real)
  }

  function Cost(o: Opt): Option<real> {
    o.cost
  }

  function Settle(o: Opt): Option<real> {
    if o.settle.Some? then Some(o.settle.value as real) else None
  }

  /** Dollars of known USDC order as its amounts. */
  function ByUsd(a: Opt, b: Opt): int {
    Sign(a.atomic < b.atomic, a.atomic > b.atomic)
  }

  /** The options pick_selected_payment still considers after the price step, the preferred first: those
      with a dollar price, cheapest first, if there are any. */
  function Priced(opts: seq<Opt>): seq<Opt> {
    if MinUsd(opts).Some? then Sort(ByUsd, Filter(opts, (o: Opt) => o.usdc)) else opts
  }

  lemma PricedMembers(opts: seq<Opt>)
    ensures forall o :: o in Priced(opts) <==> o in opts && (MinUsd(opts).Some? ==> o.usdc)
  {
    hide Sort, Filter, MinUsd;
    if MinUsd(opts).Some? { SameMembers(Priced(opts), Filter(opts, (o: Opt) => o.usdc)); }
  }

  /** pick_selected_payment, without the economics it attaches. */
  function Pick(c: Candidate, objective: Objective, cons: Constraints): Option<Opt> {
    var opts := OptionsFor(c, cons);
    if !c.live || opts == [] then None
    else
      var priced := Priced(opts);
      match objective
      case LowestTotalCost => FirstLeast(priced, Cost)
      case FastestSettlement => FirstLeast(priced, Settle)
      case _ =>
        if MinUsd(opts).Some? then FirstLeast(priced, Usd)
        else if objective == Cheapest && |Assets(opts)| == 1 then FirstLeast(opts, Amount)
        else Some(opts[0])
  }

  // ---- the economics of the source ----------------------------------------------------------

  /** What live402/economics.py knows of an option: no fee in dollars, so no total cost, and the
      settlement time of its rail. */
  predicate OptEconomics(o: Opt) {
    o.cost.None? && o.settle == FinalityMs(o.rail)
  }

  /** ... and of a candidate: that of its first option. */
  predicate Economics(c: Candidate) {
    && c.cost.None? && (c.opts != [] ==> c.settle == FinalityMs(c.opts[0].rail))
    && forall o :: o in c.opts ==> OptEconomics(o)
  }

  // ---- the winner ---------------------------------------------------------------------------

  predicate CostFits(cost: Option<real>, max: Option<real>) {
    max.Some? ==> cost.Some? && cost.value <= max.value
  }

  predicate TimeFits(time: Option<int>, max: Option<int>) {
    max.Some? ==> time.Some? && time.value <= max.value
  }

  /** passes_constraints and _payto_selectable */
  predicate Eligible(c: Candidate, cons: Constraints) {
    && CostFits(c.cost, cons.maxTotal) && TimeFits(c.settle, cons.maxSettle)
    && c.live && c.opts != [] && !cons.unmeasured && c.fits
    && (cons.rails.Some? || cons.maxAmount.Some? || cons.maxUsd.Some? ==> OptionsFor(c, cons) != [])
    && (c.pending ==> cons.acceptChange)
  }

  /** Comparable by dollars, by the amount in one asset, or not at all. */
  datatype Kind = Dollars | InAsset(asset: AssetKey) | Unpriced

  function KindOf(opts: seq<Opt>): Kind {
    if MinUsd(opts).Some? then Dollars
    else if |Assets(opts)| == 1 then InAsset(TheOne(Assets(opts))) else Unpriced
  }

  /** What _cheapest_comparable_subset looks at: an unlocked candidate without a fitting option
      falls back to all its options. */
  function Seen(c: Candidate, cons: Constraints): seq<Opt> {
    var opts := OptionsFor(c, cons);
    if opts == [] && cons.rails.None? then c.opts else opts
  }

  function Kinds(cs: seq<Candidate>, cons: Constraints): set<Kind> {
    set c | c in cs && KindOf(Seen(c, cons)) != Unpriced :: KindOf(Seen(c, cons))
  }

  function InDollars(cs: seq<Candidate>, cons: Constraints): seq<Candidate> {
    Filter(cs, (c: Candidate) => KindOf(Seen(c, cons)) == Dollars)
  }

  /** _cheapest_comparable_subset */
  function Comparable(cs: seq<Candidate>, cons: Constraints): seq<Candidate> {
    var kinds := Kinds(cs, cons);
    if Dollars in kinds then InDollars(cs, cons)
    else if |kinds| == 1 then Filter(cs, (c: Candidate) => KindOf(Seen(c, cons)) in kinds)
    else []
  }

  /** _cheapest_comparable_subset as the source runs it. */
  method CheapestComparableSubset(cs: seq<Candidate>, cons: Constraints) returns (r: seq<Candidate>)
    ensures r == Comparable(cs, cons)
  {
    hide Seen, KindOf;
    var kinds: set<Kind> := {};
    for i := 0 to |cs|
      invariant kinds == Kinds(cs[..i], cons)
    {
      KindsStep(cs[..i], cs[i], cons);
      assert cs[..i + 1] == cs[..i] + [cs[i]];
      var kind := KindOf(Seen(cs[i], cons));
      if kind != Unpriced { kinds := kinds + {kind}; }
    }
    assert cs[..|cs|] == cs;
    if Dollars in kinds { return InDollars(cs, cons); }
    if |kinds| == 1 { return Filter(cs, (c: Candidate) => KindOf(Seen(c, cons)) in kinds); }
    return [];
  }

  lemma KindsStep(cs: seq<Candidate>, c: Candidate, cons: Constraints)
    ensures Kinds(cs + [c], cons)
            == Kinds(cs, cons) + (if KindOf(Seen(c, cons)) == Unpriced then {} else {KindOf(Seen(c, cons))})
  {
    hide Seen, KindOf;
    assert forall x :: x in cs + [c] <==> x in cs || x == c;
  }

  function Passing(results: seq<Candidate>, cons: Constraints): seq<Candidate> {
    Filter(results, (c: Candidate) => Eligible(c, cons))
  }

  /** The candidates that are ranked. */
  function Remaining(results: seq<Candidate>, objective: Objective, cons: Constraints): seq<Candidate> {
    var passing := Passing(results, cons);
    match objective
    case Cheapest => Comparable(passing, cons)
    case LowestTotalCost => Filter(passing, (c: Candidate) => c.cost.Some?)
    case FastestSettlement => Filter(passing, (c: Candidate) => c.settle.Some?)
    case _ => passing
  }

  /** The first of the ranked candidates with a selectable payment. */
  function FirstPicked(ranked: seq<Candidate>, objective: Objective, cons: Constraints): Option<Candidate> {
    if ranked == [] then None
    else if Pick(ranked[0], objective, cons).Some? then Some(ranked[0])
    else FirstPicked(ranked[1..], objective, cons)
  }

  /** pick_winner */
  function PickWinner(results: seq<Candidate>, objective: Objective, cons: Constraints): Option<Candidate> {
    FirstPicked(Sort(Comparator(objective), Remaining(results, objective, cons)), objective, cons)
  }
}
