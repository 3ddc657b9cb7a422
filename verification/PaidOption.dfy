/** Which option of a candidate is paid (live402/select.py, pick_selected_payment), for every objective,
    down to the last tie-break. */
module PaidOption {
  import opened Collections
  import opened Rails
  import opened StableSort
  import opened SortStability
  import opened Selection
  import opened CompareRules

  /** Some option within the bounds has a dollar price. */
  ghost predicate Dollar(c: Candidate, cons: Constraints) {
    exists x :: x in c.opts && Within(cons, x) && x.usdc
  }

  /** Within the bounds and, if any such option has a dollar price, with one. */
  ghost predicate Considered(c: Candidate, cons: Constraints, o: Opt) {
    o in c.opts && Within(cons, o) && (Dollar(c, cons) ==> o.usdc)
  }

  /** The figure that the objective pays the least of: the option's cost or settlement time; else its amount, where
      amounts compare; else nothing tells the options apart. */
  ghost function Figure(c: Candidate, objective: Objective, cons: Constraints, o: Opt): Option<real> {
    match objective
    case LowestTotalCost => o.cost
    case FastestSettlement => if o.settle.Some? then Some(o.settle.value as real) else None
    case _ =>
      if Dollar(c, cons)
         || (objective == Cheapest
             && forall x, y :: x in c.opts && Within(cons, x) && y in c.opts && Within(cons, y) ==> x.key == y.key)
      then Some(o.atomic as real)
      else Some(0.0)
  }

  ghost predicate CanBePaid(c: Candidate, objective: Objective, cons: Constraints, o: Opt) {
    c.live && Considered(c, cons, o) && Figure(c, objective, cons, o).Some?
  }

  /** Paid before the other one: by the figure, then by dollars where there are any. */
  ghost predicate Before(c: Candidate, objective: Objective, cons: Constraints, o: Opt, p: Opt)
    requires CanBePaid(c, objective, cons, o) && CanBePaid(c, objective, cons, p)
  {
    var x, y := Figure(c, objective, cons, o).value, Figure(c, objective, cons, p).value;
    x < y || (x == y && Dollar(c, cons) && o.atomic < p.atomic)
  }

  // ---- least values through filters ---------------------------------------------------------

  lemma {:induction false} SameValues(opts: seq<Opt>, v: Opt -> Option<real>, u: Opt -> Option<real>)
    requires forall o :: o in opts ==> v(o) == u(o)
    ensures FirstLeast(opts, v) == FirstLeast(opts, u)
    decreases |opts|
  {
    if opts != [] {
      var n := |opts| - 1;
      assert opts == opts[..n] + [opts[n]];
      SameValues(opts[..n], v, u);
    }
  }

  function Only(keep: Opt -> bool, v: Opt -> Option<real>): Opt -> Option<real> {
    o => if keep(o) then v(o) else None
  }

  /** The least among some options is the least of them all when the others have no value. */
  lemma {:induction false} LeastOfSome(opts: seq<Opt>, keep: Opt -> bool, v: Opt -> Option<real>)
    ensures FirstLeast(Filter(opts, keep), v) == FirstLeast(opts, Only(keep, v))
    decreases |opts|
  {
    if opts != [] {
      var n := |opts| - 1;
      var front := Filter(opts[..n], keep);
      LeastOfSome(opts[..n], keep, v);
      if keep(opts[n]) {
        assert (front + [opts[n]])[..|front|] == front;
      } else {
        assert front + [] == front;
      }
    }
  }

  /** The first of the least: whatever comes before it is greater. */
  ghost predicate FirstAt(opts: seq<Opt>, v: Opt -> Option<real>, i: nat) {
    && i < |opts| && v(opts[i]).Some?
    && forall j :: 0 <= j < |opts| && v(opts[j]).Some? ==>
         v(opts[i]).value <= v(opts[j]).value && (j < i ==> v(opts[i]).value < v(opts[j]).value)
  }

  lemma {:induction false} LeastIsFirst(opts: seq<Opt>, v: Opt -> Option<real>) returns (i: nat)
    requires FirstLeast(opts, v).Some?
    ensures FirstAt(opts, v, i) && FirstLeast(opts, v) == Some(opts[i])
    decreases |opts|
  {
    var n := |opts| - 1;
    var before := FirstLeast(opts[..n], v);
    if v(opts[n]).Some? && (before.None? || v(opts[n]).value < v(before.value).value) {
      i := n;
      forall j | 0 <= j < n && v(opts[j]).Some? ensures v(opts[n]).value < v(opts[j]).value {
        assert opts[..n][j] == opts[j];
      }
    } else {
      i := LeastIsFirst(opts[..n], v);
      forall j | 0 <= j < n && v(opts[j]).Some? ensures v(opts[i]).value <= v(opts[j]).value {
        assert opts[..n][j] == opts[j];
      }
      forall j | 0 <= j < i && v(opts[j]).Some? ensures v(opts[i]).value < v(opts[j]).value {
        assert opts[..n][j] == opts[j];
      }
    }
  }

  lemma FirstIsLeast(opts: seq<Opt>, v: Opt -> Option<real>, i: nat)
    requires FirstAt(opts, v, i)
    ensures FirstLeast(opts, v) == Some(opts[i])
  {
    assert opts[i] in opts;
    var k := LeastIsFirst(opts, v);
  }

  function Zero(o: Opt): Option<real> {
    Some(0.0)
  }

  lemma FirstOfAll(opts: seq<Opt>)
    requires opts != []
    ensures FirstLeast(opts, Zero) == Some(opts[0])
  {
    hide FirstLeast;
    FirstIsLeast(opts, Zero, 0);
  }

  // ---- least values of a sorted list --------------------------------------------------------

  function SameAmount(p: Opt): Opt -> bool {
    o => ByUsd(o, p) == 0
  }

  lemma {:induction false} TiedIsFilter(xs: seq<Opt>, p: Opt)
    ensures Tied(ByUsd, p, xs) == Filter(xs, SameAmount(p))
    decreases |xs|
  {
    if xs != [] {
      var n := |xs| - 1;
      TiedIsFilter(xs[..n], p);
      TiedOfBoth(ByUsd, p, xs[..n], [xs[n]]);
      assert xs == xs[..n] + [xs[n]];
      assert Tied(ByUsd, p, [xs[n]]) == if SameAmount(p)(xs[n]) then [xs[n]] else [] by { assert [xs[n]][1..] == []; }
    }
  }

  lemma UsdIsWeak(items: set<Opt>)
    ensures WeakOrder(ByUsd, items)
  {
  }

  /** Cheapest first. */
  ghost predicate Ascending(s: seq<Opt>) {
    forall i, j :: 0 <= i < j < |s| ==> s[i].atomic <= s[j].atomic
  }

  lemma SortAscends(xs: seq<Opt>)
    ensures Ascending(Sort(ByUsd, xs)) && forall o :: o in Sort(ByUsd, xs) <==> o in xs
  {
    hide Sort, WeakOrder, Leads;
    SameMembers(Sort(ByUsd, xs), xs);
    UsdIsWeak(Members(xs));
    BelowLeads(ByUsd, Members(xs));
    SortLeads(Below(ByUsd), ByUsd, Members(xs), xs);
  }

  /** The first of the least in such a list has the least dollars among those with its value. */
  lemma LeastAscends(s: seq<Opt>, v: Opt -> Option<real>, i: nat)
    requires Ascending(s) && FirstAt(s, v, i)
    ensures forall o :: o in s && v(o).Some? ==>
              v(s[i]).value <= v(o).value && (v(s[i]).value == v(o).value ==> s[i].atomic <= o.atomic)
  {
  }

  /** Sorting by dollars leaves options of one price in their order. */
  lemma SortKeepsTies(xs: seq<Opt>, v: Opt -> Option<real>, p: Opt)
    requires p in xs
    ensures FirstLeast(Sort(ByUsd, xs), Only(SameAmount(p), v)) == FirstLeast(xs, Only(SameAmount(p), v))
  {
    hide Sort, FirstLeast, Tied, Filter, WeakOrder, ByUsd, Only;
    UsdIsWeak(Members(xs));
    SortIsStable(ByUsd, Members(xs), xs, p);
    TiedIsFilter(Sort(ByUsd, xs), p);
    TiedIsFilter(xs, p);
    LeastOfSome(Sort(ByUsd, xs), SameAmount(p), v);
    LeastOfSome(xs, SameAmount(p), v);
  }

  /** What is first among the least of a list that was sorted by dollars: it has the least dollars among those with
      its value, and is the first of its dollars in the original order. */
  lemma SortedLeast(xs: seq<Opt>, v: Opt -> Option<real>, p: Opt)
    requires FirstLeast(Sort(ByUsd, xs), v) == Some(p)
    ensures FirstLeast(xs, Only(SameAmount(p), v)) == Some(p)
    ensures v(p).Some?
    ensures forall o :: o in xs && v(o).Some? ==>
              v(p).value <= v(o).value && (v(p).value == v(o).value ==> p.atomic <= o.atomic)
  {
    hide Sort, FirstLeast, Ascending;
    var s := Sort(ByUsd, xs);
    SortAscends(xs);
    var i := LeastIsFirst(s, v);
    LeastAscends(s, v, i);
    SortKeepsTies(xs, v, p);
    FirstIsLeast(s, Only(SameAmount(p), v), i);
  }

  // ---- the figure that is used --------------------------------------------------------------

  /** The value pick_selected_payment sorts by. */
  function Value(c: Candidate, objective: Objective, cons: Constraints): Opt -> Option<real> {
    match objective
    case LowestTotalCost => Cost
    case FastestSettlement => Settle
    case _ =>
      if MinUsd(OptionsFor(c, cons)).Some? then Usd
      else if objective == Cheapest && |Assets(OptionsFor(c, cons))| == 1 then Amount
      else Zero
  }

  lemma PickIsLeastValue(c: Candidate, objective: Objective, cons: Constraints)
    requires c.live && OptionsFor(c, cons) != []
    ensures Pick(c, objective, cons) == FirstLeast(Priced(OptionsFor(c, cons)), Value(c, objective, cons))
  {
    hide OptionsFor, MinUsd, FirstLeast, Filter, Assets, Sort;
    FirstOfAll(OptionsFor(c, cons));
  }

  lemma FittingIs(c: Candidate, cons: Constraints)
    ensures forall x :: x in OptionsFor(c, cons) <==> x in c.opts && Within(cons, x)
    ensures MinUsd(OptionsFor(c, cons)).Some? <==> Dollar(c, cons)
  {
    hide OptionsFor, MinUsd;
  }

  lemma OneAsset(opts: seq<Opt>)
    ensures |Assets(opts)| == 1 <==> opts != [] && forall x, y :: x in opts && y in opts ==> x.key == y.key
  {
    if |Assets(opts)| == 1 {
      assert Assets(opts) == {TheOne(Assets(opts))};
      forall x, y | x in opts && y in opts ensures x.key == y.key {
        assert x.key in Assets(opts) && y.key in Assets(opts);
      }
      assert opts == [] ==> Assets(opts) == {};
    }
    if opts != [] && forall x, y :: x in opts && y in opts ==> x.key == y.key {
      assert opts[0] in opts && Assets(opts) == {opts[0].key};
    }
  }

  /** The value is the figure, up to the unit of dollars. */
  lemma ValueIsFigure(c: Candidate, objective: Objective, cons: Constraints, o: Opt, p: Opt)
    requires c.live && Considered(c, cons, o) && Considered(c, cons, p)
    ensures var v := Value(c, objective, cons);
            && (v(o).Some? <==> CanBePaid(c, objective, cons, o)) && (v(p).Some? <==> CanBePaid(c, objective, cons, p))
            && (v(o).Some? && v(p).Some? ==>
                  (v(o).value <= v(p).value <==>
                     Figure(c, objective, cons, o).value <= Figure(c, objective, cons, p).value))
  {
    hide OptionsFor, MinUsd, Assets;
    FittingIs(c, cons);
    OneAsset(OptionsFor(c, cons));
  }

  // ---- the picked option --------------------------------------------------------------------

  function AnyOpt(o: Opt): bool {
    true
  }

  /** The options that are compared, as one test on each. */
  function Compared(c: Candidate, cons: Constraints): Opt -> bool {
    if MinUsd(OptionsFor(c, cons)).Some? then (o: Opt) => o.usdc else AnyOpt
  }

  /** A value on the considered options only. */
  function Fitting(c: Candidate, cons: Constraints, v: Opt -> Option<real>): Opt -> Option<real> {
    Only((o: Opt) => OnRails(cons, o), Only((o: Opt) => WithinAmount(cons, o), Only((o: Opt) => WithinUsd(cons, o),
         Only(Compared(c, cons), v))))
  }

  lemma LeastOfFitting(c: Candidate, cons: Constraints, v: Opt -> Option<real>)
    ensures FirstLeast(Filter(OptionsFor(c, cons), Compared(c, cons)), v) == FirstLeast(c.opts, Fitting(c, cons, v))
  {
    hide FirstLeast, Filter, MinUsd;
    var fitting := OptionsFor(c, cons);
    var v1 := Only(Compared(c, cons), v);
    LeastOfSome(fitting, Compared(c, cons), v);
    LeastOfSome(WithinAmountOnly(OnRailsOnly(c.opts, cons), cons), o => WithinUsd(cons, o), v1);
    LeastOfSome(OnRailsOnly(c.opts, cons), o => WithinAmount(cons, o), Only(o => WithinUsd(cons, o), v1));
    LeastOfSome(c.opts, o => OnRails(cons, o), Only(o => WithinAmount(cons, o), Only(o => WithinUsd(cons, o), v1)));
  }

  lemma FittingIff(c: Candidate, cons: Constraints, v: Opt -> Option<real>, o: Opt)
    requires o in c.opts
    ensures Fitting(c, cons, v)(o) == if Considered(c, cons, o) then v(o) else None
  {
    hide OptionsFor, MinUsd;
    FittingIs(c, cons);
  }

  /** Options with the dollars of p, or all of them when there are no dollars. */
  function TiedWith(c: Candidate, cons: Constraints, p: Opt): Opt -> bool {
    if MinUsd(OptionsFor(c, cons)).Some? then SameAmount(p) else AnyOpt
  }

  /** The picked option is least by value and then by dollars, and first among its ties. */
  lemma PickIsFirst(c: Candidate, objective: Objective, cons: Constraints, p: Opt)
    requires c.live && OptionsFor(c, cons) != [] && Pick(c, objective, cons) == Some(p)
    ensures var v := Value(c, objective, cons);
            && FirstLeast(c.opts, Fitting(c, cons, Only(TiedWith(c, cons, p), v))) == Some(p) && v(p).Some?
            && forall o :: o in c.opts && Considered(c, cons, o) && v(o).Some? ==>
                 v(p).value <= v(o).value && (v(p).value == v(o).value && Dollar(c, cons) ==> p.atomic <= o.atomic)
  {
    hide FirstLeast, Filter, Value, Pick, MinUsd, Sort, OptionsFor, Only, Fitting, Within;
    var v, opts := Value(c, objective, cons), OptionsFor(c, cons);
    FittingIs(c, cons);
    PickIsLeastValue(c, objective, cons);
    LeastOfFitting(c, cons, Only(TiedWith(c, cons, p), v));
    if MinUsd(opts).Some? {
      SortedLeast(Filter(opts, (o: Opt) => o.usdc), v, p);
    } else {
      FilterAll(opts, AnyOpt);
      AnyIsAll(opts, v);
      var i := LeastIsFirst(opts, v);
    }
  }

  lemma AnyIsAll(opts: seq<Opt>, v: Opt -> Option<real>)
    ensures FirstLeast(opts, Only(AnyOpt, v)) == FirstLeast(opts, v)
  {
    SameValues(opts, Only(AnyOpt, v), v);
  }

  lemma PickIff(c: Candidate, objective: Objective, cons: Constraints)
    ensures Pick(c, objective, cons).None? <==> forall o :: o in c.opts ==> !CanBePaid(c, objective, cons, o)
  {
    hide Figure, FirstLeast, Priced, Value, OptionsFor, MinUsd, Within, Pick;
    FittingIs(c, cons);
    NothingFits(c, objective, cons);
    var opts := OptionsFor(c, cons);
    if c.live && opts != [] {
      PickIsLeastValue(c, objective, cons);
      PricedMembers(opts);
      forall o | Considered(c, cons, o)
        ensures Value(c, objective, cons)(o).Some? <==> CanBePaid(c, objective, cons, o)
      {
        ValueIsFigure(c, objective, cons, o, o);
      }
      assert forall o :: o in Priced(opts) <==> Considered(c, cons, o);
    }
  }

  /** The option at this place is paid: no other one is before it, and of those that tie it stands first. */
  ghost predicate FirstPaid(c: Candidate, objective: Objective, cons: Constraints, i: nat)
    requires i < |c.opts|
  {
    && CanBePaid(c, objective, cons, c.opts[i])
    && forall j :: 0 <= j < |c.opts| && CanBePaid(c, objective, cons, c.opts[j]) ==>
         && !Before(c, objective, cons, c.opts[j], c.opts[i])
         && (j < i ==> Before(c, objective, cons, c.opts[i], c.opts[j]))
  }

  /** The selected payment of a live candidate is the option that may be paid with the least figure, among
      those the one with the least dollars, and among those the first in the list; there is none exactly if no option
      may be paid. */
  lemma PaidIff(c: Candidate, objective: Objective, cons: Constraints)
    ensures Pick(c, objective, cons).None? <==> forall o :: o in c.opts ==> !CanBePaid(c, objective, cons, o)
    ensures Pick(c, objective, cons).Some? ==>
              exists i :: 0 <= i < |c.opts| && FirstPaid(c, objective, cons, i)
                          && Pick(c, objective, cons).value == c.opts[i]
  {
    hide CanBePaid, FirstLeast, FirstPaid, Pick, OptionsFor, Fitting, Value, Only, Considered;
    PickIff(c, objective, cons);
    NothingFits(c, objective, cons);
    if Pick(c, objective, cons).Some? {
      var p := Pick(c, objective, cons).value;
      PickIsFirst(c, objective, cons, p);
      var u := Fitting(c, cons, Only(TiedWith(c, cons, p), Value(c, objective, cons)));
      var i := LeastIsFirst(c.opts, u);
      FirstIsPaid(c, objective, cons, i);
    }
  }

  lemma FirstIsPaid(c: Candidate, objective: Objective, cons: Constraints, i: nat)
    requires c.live && i < |c.opts|
    requires var p := c.opts[i];
             var v := Value(c, objective, cons);
             && FirstAt(c.opts, Fitting(c, cons, Only(TiedWith(c, cons, p), v)), i) && v(p).Some?
             && forall o :: o in c.opts && Considered(c, cons, o) && v(o).Some? ==>
                  v(p).value <= v(o).value && (v(p).value == v(o).value && Dollar(c, cons) ==> p.atomic <= o.atomic)
    ensures FirstPaid(c, objective, cons, i)
  {
    hide Value, Considered, Figure, Fitting, OptionsFor, MinUsd, Dollar;
    var p := c.opts[i];
    var v := Value(c, objective, cons);
    var u := Only(TiedWith(c, cons, p), v);
    FittingIs(c, cons);
    FittingIff(c, cons, u, p);
    ValueIsFigure(c, objective, cons, p, p);
    forall j | 0 <= j < |c.opts| && CanBePaid(c, objective, cons, c.opts[j])
      ensures !Before(c, objective, cons, c.opts[j], p)
      ensures j < i ==> Before(c, objective, cons, p, c.opts[j])
    {
      var o := c.opts[j];
      assert o in c.opts;
      ValueIsFigure(c, objective, cons, p, o);
      ValueIsFigure(c, objective, cons, o, p);
      FittingIff(c, cons, u, o);
    }
  }

  lemma NothingFits(c: Candidate, objective: Objective, cons: Constraints)
    ensures !c.live || OptionsFor(c, cons) == [] ==>
              Pick(c, objective, cons).None? && forall o :: o in c.opts ==> !CanBePaid(c, objective, cons, o)
  {
    hide OptionsFor;
    forall o | o in c.opts && Within(cons, o) ensures OptionsFor(c, cons) != [] { assert o in OptionsFor(c, cons); }
  }
}
