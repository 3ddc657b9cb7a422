/** When the cheapest objective pays the least (live402/select.py): the ranking compares the best
    price over all of a candidate's options, the payment uses the best price that the networks
    lock allows, so the two agree exactly when the lock cannot drop an option that matters. */
module CheapestPays {
  import opened Collections
  import opened Rails
  import opened StableSort
  import opened Selection
  import opened Ranking

  const ALL: set<Rail> := {Base, Solana, Algorand}

  // ---- comparable candidates ----------------------------------------------------------------

  /** The passing candidates with a dollar price within the bounds. */
  lemma DollarsRemain(results: seq<Candidate>, cons: Constraints)
    requires exists r :: r in results && Eligible(r, cons) && MinUsd(OptionsFor(r, cons)).Some?
    ensures forall c :: c in Remaining(results, Cheapest, cons)
                        <==> c in results && Eligible(c, cons) && MinUsd(OptionsFor(c, cons)).Some?
  {
    hide *;
    var passing := Passing(results, cons);
    PassingIs(results, cons);
    forall c | Eligible(c, cons)
      ensures KindOf(Seen(c, cons)) == Dollars <==> MinUsd(OptionsFor(c, cons)).Some?
    {
      SeenIsFitting(c, cons);
      KindIsDollars(OptionsFor(c, cons));
    }
    var r :| r in results && Eligible(r, cons) && MinUsd(OptionsFor(r, cons)).Some?;
    RankedInDollars(results, cons, r);
    InDollarsIs(passing, cons);
  }

  lemma PassingIs(results: seq<Candidate>, cons: Constraints)
    ensures forall c :: c in Passing(results, cons) <==> c in results && Eligible(c, cons)
  {
    hide Eligible;
  }

  lemma InDollarsIs(cs: seq<Candidate>, cons: Constraints)
    ensures forall c :: c in InDollars(cs, cons) <==> c in cs && KindOf(Seen(c, cons)) == Dollars
  {
    hide KindOf, Seen;
  }

  lemma KindIsDollars(opts: seq<Opt>)
    ensures KindOf(opts) == Dollars <==> MinUsd(opts).Some?
  {
    hide MinUsd, Assets;
  }

  /** One candidate in dollars is enough for ranking those in dollars. */
  lemma RankedInDollars(results: seq<Candidate>, cons: Constraints, r: Candidate)
    requires r in Passing(results, cons) && KindOf(Seen(r, cons)) == Dollars
    ensures Remaining(results, Cheapest, cons) == InDollars(Passing(results, cons), cons)
  {
    hide Passing, InDollars, KindOf, Seen;
    assert Dollars in Kinds(Passing(results, cons), cons);
  }

  /** An eligible candidate has a fitting option. */
  lemma SeenIsFitting(c: Candidate, cons: Constraints)
    requires Eligible(c, cons)
    ensures OptionsFor(c, cons) != [] && Seen(c, cons) == OptionsFor(c, cons)
  {
    if cons.rails.None? && cons.maxAmount.None? && cons.maxUsd.None? {
      assert c.opts[0] in OptionsFor(c, cons);
    }
  }

  lemma PickIsLeast(c: Candidate, cons: Constraints)
    requires Eligible(c, cons) && MinUsd(OptionsFor(c, cons)).Some?
    ensures var p := Pick(c, Cheapest, cons);
            && p.Some? && p.value in OptionsFor(c, cons) && p.value.usdc
            && forall o :: o in OptionsFor(c, cons) && o.usdc ==> p.value.atomic <= o.atomic
  {
    hide OptionsFor, MinUsd, FirstLeast, Filter, Seen, Priced;
    SeenIsFitting(c, cons);
    var opts := OptionsFor(c, cons);
    var priced := Priced(opts);
    PricedMembers(opts);
    assert Pick(c, Cheapest, cons) == FirstLeast(priced, Usd);
    var p := FirstLeast(priced, Usd).value;
    forall o | o in opts && o.usdc ensures p.atomic <= o.atomic {
      assert o in priced && Usd(p).value <= Usd(o).value;
    }
  }

  // ---- what a caller expects ----------------------------------------------------------------

  /** The cheapest winner pays no more than any dollar price within the bounds. */
  ghost predicate PaysLeast(results: seq<Candidate>, cons: Constraints) {
    var w := PickWinner(results, Cheapest, cons);
    forall r, o :: r in results && Eligible(r, cons) && o in OptionsFor(r, cons) && o.usdc ==>
      w.Some? && Pick(w.value, Cheapest, cons).Some? && Pick(w.value, Cheapest, cons).value.usdc
      && Pick(w.value, Cheapest, cons).value.atomic <= o.atomic
  }

  /** No option of a supported rail is locked out, or all are. */
  predicate LockIsIdle(cons: Constraints) {
    cons.rails.None? || cons.rails.value == {} || cons.rails.value == ALL
  }

  /** The bounds leave room for two different prices. */
  predicate RoomForTwo(cons: Constraints) {
    && !cons.unmeasured && (cons.maxAmount.Some? ==> cons.maxAmount.value >= 1)
    && (cons.maxUsd.Some? ==> cons.maxUsd.value >= 0.000001)
  }

  /** Without a lock the bounds keep the least dollar price if they keep any. */
  lemma LeastFits(c: Candidate, cons: Constraints, o: Opt)
    requires cons.rails.None? || cons.rails.value == ALL
    requires MinUsd(OptionsFor(c, cons)).Some? && o in c.opts && Usd(o) == MinUsd(c.opts) && o.usdc
    ensures o in OptionsFor(c, cons)
  {
    var q :| q in OptionsFor(c, cons) && Usd(q) == MinUsd(OptionsFor(c, cons));
    assert q.usdc && q in c.opts;
    assert Usd(o).value <= Usd(q).value;
    RailIsSupported(o.rail);
  }

  lemma RailIsSupported(r: Rail)
    ensures r in ALL
  {
    match r
    case Base =>
    case Solana =>
    case Algorand =>
  }

  /** The winner among dollar candidates, and its payment. */
  lemma DollarWinner(results: seq<Candidate>, cons: Constraints, r: Candidate)
    requires r in results && Eligible(r, cons) && MinUsd(OptionsFor(r, cons)).Some?
    ensures var w := PickWinner(results, Cheapest, cons);
            && w.Some? && Eligible(w.value, cons) && MinUsd(OptionsFor(w.value, cons)).Some? && Cheaper(w.value, r)
  {
    hide Pick, Eligible, OptionsFor, Remaining, PickWinner;
    var among := Remaining(results, Cheapest, cons);
    DollarsRemain(results, cons);
    forall c | c in among ensures MinUsd(c.opts).Some? {
      FittingIsOption(c, cons);
    }
    PriceLeads(Members(among));
    WinnerLeads(Cheaper, results, Cheapest, cons);
    assert r in among;
    PickIsLeast(r, cons);
  }

  lemma FittingIsOption(c: Candidate, cons: Constraints)
    ensures MinUsd(OptionsFor(c, cons)).Some? ==> MinUsd(c.opts).Some?
  {
  }

  lemma UnlockedPaysLeast(results: seq<Candidate>, cons: Constraints)
    requires cons.rails.None? || cons.rails.value == ALL
    ensures PaysLeast(results, cons)
  {
    hide PickWinner, Pick, Eligible;
    forall r, o | r in results && Eligible(r, cons) && o in OptionsFor(r, cons) && o.usdc
      ensures var w := PickWinner(results, Cheapest, cons);
              w.Some? && Pick(w.value, Cheapest, cons).Some? && Pick(w.value, Cheapest, cons).value.usdc
              && Pick(w.value, Cheapest, cons).value.atomic <= o.atomic
    {
      DollarWinner(results, cons, r);
      var w := PickWinner(results, Cheapest, cons).value;
      PickIsLeast(w, cons);
      WinnerPrice(w, r, cons, o);
    }
  }

  lemma WinnerPrice(w: Candidate, r: Candidate, cons: Constraints, o: Opt)
    requires cons.rails.None? || cons.rails.value == ALL
    requires MinUsd(OptionsFor(w, cons)).Some? && Cheaper(w, r) && o in OptionsFor(r, cons) && o.usdc
    requires var p := Pick(w, Cheapest, cons);
             p.Some? && p.value.usdc && forall q :: q in OptionsFor(w, cons) && q.usdc ==> p.value.atomic <= q.atomic
    ensures Pick(w, Cheapest, cons).value.atomic <= o.atomic
  {
    hide Pick;
    FittingIsOption(w, cons);
    assert o in r.opts;
    var least :| least in w.opts && Usd(least) == MinUsd(w.opts);
    LeastFits(w, cons, least);
    assert Usd(least).value <= MinUsd(r.opts).value <= Usd(o).value;
  }

  /** With no room for two prices every payment within the bounds costs nothing. */
  lemma NoRoomPaysLeast(results: seq<Candidate>, cons: Constraints)
    requires !RoomForTwo(cons)
    ensures PaysLeast(results, cons)
  {
    hide PickWinner, Pick;
    forall r, o | r in results && Eligible(r, cons) && o in OptionsFor(r, cons) && o.usdc
      ensures var w := PickWinner(results, Cheapest, cons);
              w.Some? && Pick(w.value, Cheapest, cons).Some? && Pick(w.value, Cheapest, cons).value.usdc
              && Pick(w.value, Cheapest, cons).value.atomic <= o.atomic
    {
      DollarWinner(results, cons, r);
      var w := PickWinner(results, Cheapest, cons).value;
      PickIsLeast(w, cons);
      NoRoomIsFree(w, cons, Pick(w, Cheapest, cons).value);
    }
  }

  lemma NoRoomIsFree(c: Candidate, cons: Constraints, o: Opt)
    requires !RoomForTwo(cons) && Eligible(c, cons) && o in OptionsFor(c, cons) && o.usdc
    ensures o.atomic == 0
  {
    hide MinUsd;
  }

  lemma EmptyLockPaysLeast(results: seq<Candidate>, cons: Constraints)
    requires cons.rails == Some({})
    ensures PaysLeast(results, cons)
  {
    forall r, o | r in results ensures o !in OptionsFor(r, cons) {
      assert !OnRails(cons, o);
    }
  }

  /** A bound on total cost, which is never known, or one below the fastest rail: nobody passes. */
  predicate NobodyPasses(cons: Constraints) {
    cons.maxTotal.Some? || (cons.maxSettle.Some? && cons.maxSettle.value < 2000)
  }

  lemma NobodyPassesPaysLeast(results: seq<Candidate>, cons: Constraints)
    requires NobodyPasses(cons) && forall c :: c in results ==> Economics(c)
    ensures PaysLeast(results, cons)
  {
    hide PickWinner, Pick, OptionsFor;
    forall r | r in results ensures !Eligible(r, cons) {
      assert Economics(r);
    }
  }

  // ---- the lock that matters ----------------------------------------------------------------

  /** A live candidate with the source's economics that meets the other bounds of the caller. */
  function Offer(opts: seq<Opt>): Candidate
    requires opts != []
  {
    Candidate(true, opts, false, Some(0), None, None, None, FinalityMs(opts[0].rail), false, true)
  }

  /** Free on a locked-out rail and one unit on an allowed one, the Base option first. */
  function Bait(allowed: Rail, lockedOut: Rail): Candidate {
    Offer(if allowed == Base then [Coin(allowed, 1), Coin(lockedOut, 0)] else [Coin(lockedOut, 0), Coin(allowed, 1)])
  }

  /** Free on the allowed rail, with a free Base option first. */
  function Fair(allowed: Rail): Candidate {
    Offer(if allowed == Base then [Coin(allowed, 0)] else [Coin(Base, 0), Coin(allowed, 0)])
  }

  /** One rail in the lock and one outside, one of them Base. */
  predicate Splits(cons: Constraints, y: Rail, x: Rail) {
    cons.rails.Some? && y in cons.rails.value && x !in cons.rails.value && (y == Base || x == Base)
  }

  lemma OffersAreEconomic(y: Rail, x: Rail)
    requires y == Base || x == Base
    ensures Economics(Bait(y, x)) && Economics(Fair(y))
    ensures Bait(y, x).settle == Fair(y).settle == Some(2000)
  {
  }

  /** Within a lock and bounds with room for two, a coin of nothing or one unit is within them. */
  lemma CoinFits(cons: Constraints, rail: Rail, atomic: nat)
    requires cons.rails.Some? && RoomForTwo(cons) && atomic <= 1
    ensures var o := Coin(rail, atomic);
            (OnRails(cons, o) <==> rail in cons.rails.value) && WithinAmount(cons, o) && WithinUsd(cons, o)
            && Usd(o) == Some(if atomic == 0 then 0.0 else 0.000001)
  {
  }

  lemma BaitHas(y: Rail, x: Rail)
    ensures forall o :: o in Bait(y, x).opts <==> o == Coin(x, 0) || o == Coin(y, 1)
  {
    hide Coin;
    var opts := Bait(y, x).opts;
    assert |opts| == 2 && {opts[0], opts[1]} == {Coin(x, 0), Coin(y, 1)};
  }

  lemma FairHas(y: Rail)
    ensures forall o :: o in Fair(y).opts <==> (o == Coin(Base, 0) && y != Base) || o == Coin(y, 0)
  {
    hide Coin;
    var opts := Fair(y).opts;
    assert opts[0] == if y == Base then Coin(y, 0) else Coin(Base, 0);
  }

  lemma BaitOptions(cons: Constraints, y: Rail, x: Rail)
    requires Splits(cons, y, x) && RoomForTwo(cons) && !NobodyPasses(cons)
    ensures forall o :: o in OptionsFor(Bait(y, x), cons) <==> o == Coin(y, 1)
    ensures MinUsd(Bait(y, x).opts) == Some(0.0)
    ensures Eligible(Bait(y, x), cons) && MinUsd(OptionsFor(Bait(y, x), cons)).Some?
  {
    hide OptionsFor, MinUsd, OnRails, WithinAmount, WithinUsd, Usd, RoomForTwo;
    CoinFits(cons, y, 1);
    CoinFits(cons, x, 0);
    BaitHas(y, x);
    OffersAreEconomic(y, x);
    var a := Bait(y, x);
    assert Coin(y, 1) in OptionsFor(a, cons) && Coin(x, 0) in a.opts;
    RoomIsMeasured(cons);
  }

  lemma FairOptions(cons: Constraints, y: Rail, x: Rail)
    requires Splits(cons, y, x) && RoomForTwo(cons) && !NobodyPasses(cons)
    ensures forall o :: o in OptionsFor(Fair(y), cons) <==> o == Coin(y, 0)
    ensures MinUsd(Fair(y).opts) == Some(0.0)
    ensures Eligible(Fair(y), cons) && MinUsd(OptionsFor(Fair(y), cons)).Some?
  {
    hide OptionsFor, MinUsd, OnRails, WithinAmount, WithinUsd, Usd, RoomForTwo;
    CoinFits(cons, y, 0);
    CoinFits(cons, Base, 0);
    FairHas(y);
    OffersAreEconomic(y, x);
    var b := Fair(y);
    assert Coin(y, 0) in OptionsFor(b, cons);
    RoomIsMeasured(cons);
  }

  lemma RoomIsMeasured(cons: Constraints)
    requires RoomForTwo(cons)
    ensures !cons.unmeasured
  {
  }

  lemma TwoStay(cmp: (Candidate, Candidate) -> int, a: Candidate, b: Candidate)
    requires cmp(b, a) >= 0
    ensures Sort(cmp, [a, b]) == [a, b]
  {
    var xs := [a, b];
    assert RunEnd(cmp, xs, 2, false) == 2 && xs[..2] == xs && xs[2..] == [];
  }

  /** Equal best prices and latencies: the first one stays first. */
  lemma BaitGoesFirst(y: Rail, x: Rail)
    requires MinUsd(Bait(y, x).opts) == Some(0.0) == MinUsd(Fair(y).opts)
    ensures Comparator(Cheapest)(Fair(y), Bait(y, x)) >= 0
  {
    hide MinUsd, Assets;
  }

  /** The bait is ranked first and wins, and the caller pays one unit instead of nothing. */
  lemma LockBreaksCheapest(cons: Constraints, y: Rail, x: Rail)
    requires Splits(cons, y, x) && RoomForTwo(cons) && !NobodyPasses(cons)
    ensures Economics(Bait(y, x)) && Economics(Fair(y))
    ensures !PaysLeast([Bait(y, x), Fair(y)], cons)
  {
    hide OptionsFor, Eligible, Pick, MinUsd, Assets, Bait, Fair, Sort, Remaining, Comparator, RoomForTwo, NobodyPasses,
         Economics;
    var a, b := Bait(y, x), Fair(y);
    OffersAreEconomic(y, x);
    BaitOptions(cons, y, x);
    FairOptions(cons, y, x);
    BothRemain([a, b], cons);
    BaitGoesFirst(y, x);
    TwoStay(Comparator(Cheapest), a, b);
    PickIsLeast(a, cons);
    assert PickWinner([a, b], Cheapest, cons) == Some(a);
    assert Pick(a, Cheapest, cons).value == Coin(y, 1);
    assert b in [a, b] && Coin(y, 0) in OptionsFor(b, cons);
  }

  lemma AllPass(results: seq<Candidate>, cons: Constraints)
    requires forall c :: c in results ==> Eligible(c, cons) && KindOf(Seen(c, cons)) == Dollars
    ensures Passing(results, cons) == results && InDollars(results, cons) == results
  {
    hide Eligible, KindOf, Seen;
    FilterAll(results, (c: Candidate) => Eligible(c, cons));
    FilterAll(results, (c: Candidate) => KindOf(Seen(c, cons)) == Dollars);
  }

  lemma BothRemain(results: seq<Candidate>, cons: Constraints)
    requires |results| == 2
    requires forall i :: 0 <= i < 2 ==> Eligible(results[i], cons) && MinUsd(OptionsFor(results[i], cons)).Some?
    ensures Remaining(results, Cheapest, cons) == results
  {
    hide OptionsFor, Eligible, MinUsd, Assets, Passing, InDollars, Seen;
    forall c | c in results ensures Eligible(c, cons) && KindOf(Seen(c, cons)) == Dollars {
      SeenIsFitting(c, cons);
    }
    AllPass(results, cons);
    assert results[0] in results && Dollars in Kinds(results, cons);
  }

  /** The results that a request can have. */
  ghost predicate AllEconomic(results: seq<Candidate>) {
    forall c :: c in results ==> Economics(c)
  }

  /** The cheapest winner pays the least among all candidates that the source's economics allow
      exactly when the networks lock is missing, empty or complete, the bounds leave no room for two
      prices, or a bound on total cost or settlement lets nobody pass. */
  lemma CheapestPaysLeastIff(cons: Constraints)
    ensures (forall results :: AllEconomic(results) ==> PaysLeast(results, cons))
            <==> LockIsIdle(cons) || !RoomForTwo(cons) || NobodyPasses(cons)
  {
    hide PaysLeast;
    if NobodyPasses(cons) {
      forall results | AllEconomic(results) ensures PaysLeast(results, cons) { NobodyPassesPaysLeast(results, cons); }
    } else if !RoomForTwo(cons) {
      forall results ensures PaysLeast(results, cons) { NoRoomPaysLeast(results, cons); }
    } else if cons.rails.None? || cons.rails.value == ALL {
      forall results ensures PaysLeast(results, cons) { UnlockedPaysLeast(results, cons); }
    } else if cons.rails.value == {} {
      forall results ensures PaysLeast(results, cons) { EmptyLockPaysLeast(results, cons); }
    } else {
      var y, x := SplittingRails(cons);
      LockBreaksCheapest(cons, y, x);
      assert AllEconomic([Bait(y, x), Fair(y)]);
    }
  }

  lemma SplittingRails(cons: Constraints) returns (y: Rail, x: Rail)
    requires cons.rails.Some? && cons.rails.value != {} && cons.rails.value != ALL
    ensures Splits(cons, y, x)
  {
    var lock := cons.rails.value;
    if Base in lock {
      Proper(lock);
      y := Base;
      x :| x in ALL && x !in lock;
    } else {
      x := Base;
      y :| y in lock;
    }
  }

  lemma Proper(lock: set<Rail>)
    requires lock != ALL
    ensures exists x :: x in ALL && x !in lock
  {
    forall r | r in lock ensures r in ALL { RailIsSupported(r); }
    assert ALL <= lock ==> lock == ALL;
  }

  // ---- bounds nobody meets ------------------------------------------------------------------

  /** No total cost is known: ranking by it finds no winner, and a bound on it leaves none. */
  lemma NoTotalCost(results: seq<Candidate>, objective: Objective, cons: Constraints)
    requires AllEconomic(results) && (objective == LowestTotalCost || cons.maxTotal.Some?)
    ensures PickWinner(results, objective, cons) == None
  {
    hide Eligible, Comparator, Pick, Seen, KindOf;
    var among := Remaining(results, objective, cons);
    PassingIs(results, cons);
    forall c ensures c !in among {
      assert c in results ==> Economics(c);
      NotEligible(c, cons);
      RemainingPass(results, objective, cons, c);
    }
    SameMembers(Sort(Comparator(objective), among), among);
    FirstIsIn(among);
  }

  lemma FirstIsIn<T>(xs: seq<T>)
    ensures xs != [] ==> xs[0] in xs
  {
  }

  lemma NotEligible(c: Candidate, cons: Constraints)
    ensures Economics(c) && cons.maxTotal.Some? ==> !Eligible(c, cons)
  {
    hide OptionsFor;
  }

  lemma RemainingPass(results: seq<Candidate>, objective: Objective, cons: Constraints, c: Candidate)
    ensures c in Remaining(results, objective, cons) ==> c in Passing(results, cons)
    ensures c in Remaining(results, LowestTotalCost, cons) ==> c.cost.Some?
  {
    hide Passing, Seen, KindOf;
  }
}
