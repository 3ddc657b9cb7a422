/** Every rule of the ranking (live402/select.py), stated on the candidates' own figures: who may be ranked,
    which of two candidates is ahead down to the last tie-break, and which option is paid. */
module CompareRules {
  import opened Collections
  import opened Rails
  import opened StableSort
  import opened Selection
  import opened Ranking

  // ---- which of two is ahead ----------------------------------------------------------------

  /** Ahead by the first order that tells them apart. */
  predicate Then(first: bool, firstOther: bool, second: bool) {
    first || (!firstOther && second)
  }

  /** A known rate before an unknown one, and the higher before the lower. */
  predicate HigherRate(x: Option<real>, y: Option<real>) {
    x.Some? && (y.None? || x.value > y.value)
  }

  /** Both latencies known, and a's lower. */
  predicate KnownQuicker(a: Candidate, b: Candidate) {
    a.latency.Some? && b.latency.Some? && a.latency.value < b.latency.value
  }

  /** A known latency before an unknown one, and the lower before the higher. */
  predicate QuickerFirst(a: Candidate, b: Candidate) {
    a.latency.Some? && (b.latency.None? || a.latency.value < b.latency.value)
  }

  /** The price is the least known dollar price of each or, when one of them has none, the least amount in the
      only asset both take. */
  ghost predicate LowerPrice(a: Candidate, b: Candidate) {
    if (exists o :: o in a.opts && o.usdc) && (exists o :: o in b.opts && o.usdc) then
      exists o :: o in a.opts && o.usdc && forall p :: p in b.opts && p.usdc ==> o.atomic < p.atomic
    else
      exists asset :: SharedOnly(a, b, asset)
        && exists o :: o in a.opts && o.key == asset
                       && forall p :: p in b.opts && p.key == asset ==> o.atomic < p.atomic
  }

  /** The one asset that both take. */
  predicate SharedOnly(a: Candidate, b: Candidate, asset: AssetKey) {
    && (exists o :: o in a.opts && o.key == asset) && (exists p :: p in b.opts && p.key == asset)
    && forall o, p :: o in a.opts && p in b.opts && o.key == p.key ==> o.key == asset
  }

  ghost predicate Ahead(objective: Objective, a: Candidate, b: Candidate) {
    match objective
    case Cheapest => Then(LowerPrice(a, b), LowerPrice(b, a), KnownQuicker(a, b))
    case Fastest => Then(QuickerFirst(a, b), QuickerFirst(b, a), LowerPrice(a, b))
    case MostReliable =>
      Then(HigherRate(a.mature, b.mature), HigherRate(b.mature, a.mature),
           Then(HigherRate(a.weak, b.weak), HigherRate(b.weak, a.weak),
                Then(QuickerFirst(a, b), QuickerFirst(b, a), LowerPrice(a, b))))
    case LowestTotalCost =>
      (a.cost.Some? && (b.cost.None? || a.cost.value < b.cost.value))
      || (a.cost.Some? && a.cost == b.cost && KnownQuicker(a, b))
    case FastestSettlement =>
      (a.settle.Some? && (b.settle.None? || a.settle.value < b.settle.value))
      || (a.settle.Some? && a.settle == b.settle && LowerPrice(a, b))
    case Best =>
      Then(Readier(a, b), Readier(b, a),
           Then(HigherRate(a.mature, b.mature), HigherRate(b.mature, a.mature),
                Then(KnownQuicker(a, b), KnownQuicker(b, a),
                     Then(LowerPrice(a, b), LowerPrice(b, a), HigherRate(a.weak, b.weak)))))
  }

  lemma DollarsCompare(a: Candidate, b: Candidate)
    requires MinUsd(a.opts).Some? && MinUsd(b.opts).Some?
    ensures LowerPrice(a, b) <==> MinUsd(a.opts).value < MinUsd(b.opts).value
  {
    hide MinUsd;
    var o :| o in a.opts && Usd(o) == MinUsd(a.opts);
    var p :| p in b.opts && Usd(p) == MinUsd(b.opts);
    if MinUsd(a.opts).value < MinUsd(b.opts).value {
      forall q | q in b.opts && q.usdc ensures o.atomic < q.atomic {
        assert MinUsd(b.opts).value <= Usd(q).value;
      }
    }
    if LowerPrice(a, b) {
      var x :| x in a.opts && x.usdc && forall q :: q in b.opts && q.usdc ==> x.atomic < q.atomic;
      assert MinUsd(a.opts).value <= Usd(x).value && x.atomic < p.atomic;
    }
  }

  lemma SharedIff(a: Candidate, b: Candidate, asset: AssetKey)
    ensures SharedOnly(a, b, asset) <==> Assets(a.opts) * Assets(b.opts) == {asset}
  {
    var both := Assets(a.opts) * Assets(b.opts);
    if SharedOnly(a, b, asset) {
      assert asset in both;
      assert forall x :: x in both ==> x == asset;
    }
    if both == {asset} {
      assert asset in both;
      forall o, p | o in a.opts && p in b.opts && o.key == p.key ensures o.key == asset { assert o.key in both; }
    }
  }

  lemma AmountsCompare(a: Candidate, b: Candidate, asset: AssetKey)
    requires SharedOnly(a, b, asset)
    ensures MinAtomic(a.opts, asset).Some? && MinAtomic(b.opts, asset).Some?
    ensures MinAtomic(a.opts, asset).value < MinAtomic(b.opts, asset).value <==>
              exists o :: o in a.opts && o.key == asset
                          && forall p :: p in b.opts && p.key == asset ==> o.atomic < p.atomic
  {
    hide MinAtomic;
    var o :| o in a.opts && o.key == asset && o.atomic == MinAtomic(a.opts, asset).value;
    var p :| p in b.opts && p.key == asset && p.atomic == MinAtomic(b.opts, asset).value;
  }

  lemma OneShared(a: Candidate, b: Candidate)
    ensures var both := Assets(a.opts) * Assets(b.opts);
            |both| == 1 <==> exists asset :: SharedOnly(a, b, asset)
    ensures forall x, y :: SharedOnly(a, b, x) && SharedOnly(a, b, y) ==> x == y
  {
    var both := Assets(a.opts) * Assets(b.opts);
    if |both| == 1 {
      assert both == {TheOne(both)};
      SharedIff(a, b, TheOne(both));
    }
    if asset :| SharedOnly(a, b, asset) { SharedIff(a, b, asset); }
  }

  /** The price comparison is what the options' prices say. */
  lemma PriceIff(a: Candidate, b: Candidate)
    ensures CmpAmount(a, b) < 0 <==> LowerPrice(a, b)
    ensures CmpAmount(a, b) > 0 <==> LowerPrice(b, a)
  {
    hide MinUsd, MinAtomic, Assets, SharedOnly, LowerPrice;
    if MinUsd(a.opts).Some? && MinUsd(b.opts).Some? {
      DollarsCompare(a, b);
      DollarsCompare(b, a);
    } else {
      NoDollars(a, b);
      NoDollars(b, a);
    }
  }

  lemma NoDollars(a: Candidate, b: Candidate)
    requires MinUsd(a.opts).None? || MinUsd(b.opts).None?
    ensures CmpAmount(a, b) < 0 <==> LowerPrice(a, b)
    ensures CmpAmount(b, a) > 0 <==> LowerPrice(a, b)
  {
    hide MinUsd, MinAtomic, Assets, SharedOnly;
    OneShared(a, b);
    var both := Assets(a.opts) * Assets(b.opts);
    assert both == Assets(b.opts) * Assets(a.opts);
    if asset :| SharedOnly(a, b, asset) {
      SharedIff(a, b, asset);
      assert TheOne(both) in both;
      AmountsCompare(a, b, asset);
    }
  }

  /** The comparator of every objective, down to its last tie-break. */
  lemma CompareIff(objective: Objective, a: Candidate, b: Candidate)
    ensures Comparator(objective)(a, b) < 0 <==> Ahead(objective, a, b)
    ensures Comparator(objective)(a, b) > 0 <==> Ahead(objective, b, a)
  {
    hide CmpAmount, LowerPrice, Tier, Readier;
    PriceIff(a, b);
    TierIsReadiness();
  }

  /** Of two candidates that are ranked and can be paid the winner is the second exactly if it is ahead. */
  lemma OfTwo(objective: Objective, a: Candidate, b: Candidate, results: seq<Candidate>, cons: Constraints)
    requires Remaining(results, objective, cons) == [a, b]
    requires Pick(a, objective, cons).Some? && Pick(b, objective, cons).Some?
    ensures PickWinner(results, objective, cons) == Some(if Ahead(objective, b, a) then b else a)
  {
    hide Remaining, Pick, Comparator, Ahead, InsertAll;
    CompareIff(objective, b, a);
    SortTwo(Comparator(objective), a, b);
  }

  lemma SortTwo(cmp: (Candidate, Candidate) -> int, a: Candidate, b: Candidate)
    ensures Sort(cmp, [a, b]) == if cmp(b, a) < 0 then [b, a] else [a, b]
  {
    hide Reversed, Inserted;
    assert [a, b][..2] == [a, b] && [a, b][2..] == [];
    var r := Reversed([a, b]);
    assert r[0] == b && r[1] == a;
    assert r == [b, a];
  }

  // ---- who may be ranked --------------------------------------------------------------------

  lemma FilterLast<T(!new)>(xs: seq<T>, y: T, keep: T -> bool)
    ensures Filter(xs + [y], keep) == Filter(xs, keep) + if keep(y) then [y] else []
  {
    assert (xs + [y])[..|xs|] == xs;
  }

  /** Filtering keeps order and multiplicity: it goes through a list item by item. */
  lemma {:induction false} FilterOfBoth<T(!new)>(xs: seq<T>, ys: seq<T>, keep: T -> bool)
    ensures Filter(xs + ys, keep) == Filter(xs, keep) + Filter(ys, keep)
    decreases |ys|
  {
    hide Filter;
    if ys == [] {
      assert xs + ys == xs;
      FilterNothing(keep);
    } else {
      var n := |ys| - 1;
      FilterOfBoth(xs, ys[..n], keep);
      FilterLast(xs + ys[..n], ys[n], keep);
      FilterLast(ys[..n], ys[n], keep);
      assert ys == ys[..n] + [ys[n]] && xs + ys == (xs + ys[..n]) + [ys[n]];
    }
  }

  lemma FilterNothing<T(!new)>(keep: T -> bool)
    ensures Filter([], keep) == []
  {
  }

  lemma FilterOne<T(!new)>(x: T, keep: T -> bool)
    ensures Filter([x], keep) == if keep(x) then [x] else []
  {
  }

  /** An option within every bound on options that is set. */
  predicate Within(cons: Constraints, o: Opt) {
    && (cons.rails.Some? ==> o.rail in cons.rails.value)
    && (cons.maxAmount.Some? ==> o.usdc && o.atomic <= cons.maxAmount.value)
    && (cons.maxUsd.Some? ==> o.usdc && o.atomic as real / 1000000.0 <= cons.maxUsd.value)
  }

  /** Exactly the live candidates within the bounds are considered: none when an unmeasured bound is set, and
      none with a payee change that the caller has not accepted. */
  lemma PassesIff(results: seq<Candidate>, cons: Constraints, c: Candidate)
    ensures c in Passing(results, cons) <==>
              && c in results && c.live && c.opts != [] && c.fits && !cons.unmeasured
              && (c.pending ==> cons.acceptChange)
              && (cons.maxTotal.Some? ==> c.cost.Some? && c.cost.value <= cons.maxTotal.value)
              && (cons.maxSettle.Some? ==> c.settle.Some? && c.settle.value <= cons.maxSettle.value)
              && (exists o :: o in c.opts && Within(cons, o))
  {
    hide OptionsFor;
    var fitting := OptionsFor(c, cons);
    if fitting != [] { assert fitting[0] in fitting && Within(cons, fitting[0]); }
    if o :| o in c.opts && Within(cons, o) { assert o in fitting; }
    if cons.rails.None? && cons.maxAmount.None? && cons.maxUsd.None? && c.opts != [] {
      assert c.opts[0] in c.opts && Within(cons, c.opts[0]);
    }
  }

  /** Ranked for an objective: those considered whose figure is known; for the cheapest, see below. */
  lemma RankedIff(results: seq<Candidate>, objective: Objective, cons: Constraints, c: Candidate)
    requires objective != Cheapest
    ensures c in Remaining(results, objective, cons) <==>
              && c in Passing(results, cons)
              && (objective == LowestTotalCost ==> c.cost.Some?)
              && (objective == FastestSettlement ==> c.settle.Some?)
  {
    hide Passing;
  }

  /** All the options within the bounds are in one asset, and none has a dollar price. */
  ghost predicate OneUnpriced(c: Candidate, cons: Constraints, asset: AssetKey) {
    (exists o :: o in c.opts && Within(cons, o))
    && forall o :: o in c.opts && Within(cons, o) ==> !o.usdc && o.key == asset
  }

  ghost predicate HasDollars(c: Candidate, cons: Constraints) {
    exists o :: o in c.opts && Within(cons, o) && o.usdc
  }

  lemma KindIs(c: Candidate, cons: Constraints)
    requires exists o :: o in c.opts && Within(cons, o)
    ensures KindOf(Seen(c, cons)) == Dollars <==> HasDollars(c, cons)
    ensures forall asset :: KindOf(Seen(c, cons)) == InAsset(asset) <==> OneUnpriced(c, cons, asset)
  {
    hide MinUsd, TheOne, OptionsFor;
    var opts := OptionsFor(c, cons);
    var x :| x in c.opts && Within(cons, x);
    assert x in opts && Seen(c, cons) == opts;
    assert forall o :: o in opts <==> o in c.opts && Within(cons, o);
    if |Assets(opts)| == 1 {
      assert x.key in Assets(opts) && Assets(opts) == {TheOne(Assets(opts))};
      assert forall o :: o in opts ==> o.key in Assets(opts);
    }
    forall asset | OneUnpriced(c, cons, asset) ensures |Assets(opts)| == 1 {
      assert Assets(opts) == {asset};
    }
  }

  /** Ranked for the cheapest: with a dollar price among those considered, exactly those that have one; else,
      when all that are in one unpriced asset are in the same one, exactly those; else nobody. */
  lemma CheapestRankedIff(results: seq<Candidate>, cons: Constraints, c: Candidate)
    ensures c in Remaining(results, Cheapest, cons) <==>
              && c in Passing(results, cons)
              && if exists r :: r in Passing(results, cons) && HasDollars(r, cons) then HasDollars(c, cons)
                 else exists asset ::
                   && OneUnpriced(c, cons, asset)
                   && forall r, other :: r in Passing(results, cons) && OneUnpriced(r, cons, other) ==> other == asset
  {
    hide Passing, KindOf, Seen, HasDollars, OneUnpriced, InDollars;
    var passing := Passing(results, cons);
    forall r | r in passing
      ensures KindOf(Seen(r, cons)) == Dollars <==> HasDollars(r, cons)
      ensures forall asset :: KindOf(Seen(r, cons)) == InAsset(asset) <==> OneUnpriced(r, cons, asset)
    {
      PassesIff(results, cons, r);
      KindIs(r, cons);
    }
    ComparableIff(passing, cons, c);
  }

  lemma OneOnly(kinds: set<Kind>)
    ensures |kinds| == 1 <==> exists k :: k in kinds && forall x :: x in kinds ==> x == k
  {
    if |kinds| == 1 {
      var k :| k in kinds;
      assert |kinds - {k}| == 0;
      assert forall x :: x in kinds ==> x == k;
    }
    if k :| k in kinds && forall x :: x in kinds ==> x == k { assert kinds == {k}; }
  }

  /** Ranked among candidates of these kinds. */
  ghost predicate Chosen(kinds: set<Kind>, kind: Kind) {
    if Dollars in kinds then kind == Dollars
    else kind.InAsset? && forall x :: x in kinds ==> x == kind
  }

  lemma ChosenIff(cs: seq<Candidate>, cons: Constraints, c: Candidate)
    ensures c in Comparable(cs, cons) <==> c in cs && Chosen(Kinds(cs, cons), KindOf(Seen(c, cons)))
  {
    hide KindOf, Seen;
    var kinds := Kinds(cs, cons);
    OneOnly(kinds);
    assert c in cs && KindOf(Seen(c, cons)) != Unpriced ==> KindOf(Seen(c, cons)) in kinds;
  }

  lemma ComparableIff(cs: seq<Candidate>, cons: Constraints, c: Candidate)
    ensures c in Comparable(cs, cons) <==>
              && c in cs
              && if exists r :: r in cs && KindOf(Seen(r, cons)) == Dollars then KindOf(Seen(c, cons)) == Dollars
                 else exists asset ::
                   && KindOf(Seen(c, cons)) == InAsset(asset)
                   && forall r, other :: r in cs && KindOf(Seen(r, cons)) == InAsset(other) ==> other == asset
  {
    hide KindOf, Seen, Comparable;
    ChosenIff(cs, cons, c);
    var kinds, kind := Kinds(cs, cons), KindOf(Seen(c, cons));
    assert Dollars in kinds <==> exists r :: r in cs && KindOf(Seen(r, cons)) == Dollars;
    if Dollars !in kinds && kind.InAsset? {
      forall r, other | r in cs && KindOf(Seen(r, cons)) == InAsset(other) ensures InAsset(other) in kinds {}
      forall x | x in kinds ensures x.InAsset? && exists r :: r in cs && KindOf(Seen(r, cons)) == InAsset(x.asset) {
        var r :| r in cs && KindOf(Seen(r, cons)) == x;
      }
    }
  }
}
