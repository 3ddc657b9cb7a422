/** What the winner is best at (live402/select.py): although the comparators are not transitive
    among ties, the winner has an optimum of the leading keys; and when the cheapest winner really
    pays the least. */
module Ranking {
  import opened Collections
  import opened Rails
  import opened StableSort
  import opened Selection

  // ---- leading orders -----------------------------------------------------------------------

  /** Known rates first, the higher the better. */
  predicate RateLeq(a: Option<real>, b: Option<real>) {
    b.None? || (a.Some? && a.value >= b.value)
  }

  /** Known latencies first, the lower the better. */
  predicate Quicker(a: Candidate, b: Candidate) {
    b.latency.None? || (a.latency.Some? && a.latency.value <= b.latency.value)
  }

  /** Mature reliability, then weak reliability, then known latency. */
  predicate MoreReliable(a: Candidate, b: Candidate) {
    RateLeq(a.mature, b.mature)
    && (a.mature == b.mature ==> RateLeq(a.weak, b.weak) && (a.weak == b.weak ==> Quicker(a, b)))
  }

  predicate Payable(c: Candidate) {
    c.live && c.opts != []
  }

  /** Ahead in readiness: invocable before payable before live only before neither. */
  predicate Readier(a: Candidate, b: Candidate) {
    || (a.invocable && !b.invocable)
    || (a.invocable == b.invocable == false && Payable(a) && !Payable(b))
    || (a.invocable == b.invocable == false && !Payable(a) && !Payable(b) && a.live && !b.live)
  }

  /** Nothing is ahead of a in readiness, and when they are as ready, a is as reliable. */
  predicate Better(a: Candidate, b: Candidate) {
    !Readier(b, a) && (!Readier(a, b) ==> RateLeq(a.mature, b.mature))
  }

  predicate CostsLess(a: Candidate, b: Candidate) {
    b.cost.None? || (a.cost.Some? && a.cost.value <= b.cost.value)
  }

  predicate SettlesSooner(a: Candidate, b: Candidate) {
    b.settle.None? || (a.settle.Some? && a.settle.value <= b.settle.value)
  }

  /** The least dollar price over all options of each. */
  predicate Cheaper(a: Candidate, b: Candidate) {
    var ua, ub := MinUsd(a.opts), MinUsd(b.opts);
    ub.None? || (ua.Some? && ua.value <= ub.value)
  }

  lemma FastestLeads(items: set<Candidate>)
    ensures Leads(Quicker, Comparator(Fastest), items)
  {
    hide CmpAmount;
  }

  lemma ReliableLeads(items: set<Candidate>)
    ensures Leads(MoreReliable, Comparator(MostReliable), items)
  {
    hide CmpAmount;
  }

  lemma BestLeads(items: set<Candidate>)
    ensures Leads(Better, Comparator(Best), items)
  {
    hide CmpAmount, CmpLatency;
    hide Tier, Readier;
    TierIsReadiness();
  }

  /** Two candidates compare by readiness as the flags say. */
  lemma TierIsReadiness()
    ensures forall a, b :: Tier(a) > Tier(b) <==> Readier(a, b)
  {
  }

  lemma CostLeads(items: set<Candidate>)
    ensures Leads(CostsLess, Comparator(LowestTotalCost), items)
  {
    hide CmpLatency;
  }

  lemma SettlementLeads(items: set<Candidate>)
    ensures Leads(SettlesSooner, Comparator(FastestSettlement), items)
  {
    hide CmpAmount;
  }

  lemma PriceLeads(items: set<Candidate>)
    requires forall c :: c in items ==> MinUsd(c.opts).Some?
    ensures Leads(Cheaper, Comparator(Cheapest), items)
  {
    hide MinUsd, CmpLatency;
  }

  // ---- the winner leads ---------------------------------------------------------------------

  lemma {:induction false} FirstPickedLeads(leq: (Candidate, Candidate) -> bool, ranked: seq<Candidate>,
                                            objective: Objective, cons: Constraints)
    requires SortedBy(leq, ranked) && forall i :: 0 <= i < |ranked| ==> leq(ranked[i], ranked[i])
    ensures match FirstPicked(ranked, objective, cons)
            case None => forall r :: r in ranked ==> Pick(r, objective, cons).None?
            case Some(w) => w in ranked && Pick(w, objective, cons).Some?
                            && forall r :: r in ranked && Pick(r, objective, cons).Some? ==> leq(w, r)
    decreases |ranked|
  {
    hide Pick;
    if ranked != [] {
      var first, rest := ranked[0], ranked[1..];
      assert ranked == [first] + rest;
      forall r | r in rest ensures leq(first, r) {
        var i :| 0 <= i < |rest| && rest[i] == r;
        assert ranked[i + 1] == r;
      }
      FirstPickedLeads(leq, rest, objective, cons);
    }
  }

  /** No candidate that could have been picked is strictly ahead of the winner. */
  ghost predicate Wins(leq: (Candidate, Candidate) -> bool, winner: Option<Candidate>, among: seq<Candidate>,
                       objective: Objective, cons: Constraints) {
    match winner
    case None => forall r :: r in among ==> Pick(r, objective, cons).None?
    case Some(w) => w in among && Pick(w, objective, cons).Some?
                    && forall r :: r in among && Pick(r, objective, cons).Some? ==> leq(w, r)
  }

  lemma WinnerLeads(leq: (Candidate, Candidate) -> bool, results: seq<Candidate>, objective: Objective,
                    cons: Constraints)
    requires Leads(leq, Comparator(objective), Members(Remaining(results, objective, cons)))
    ensures Wins(leq, PickWinner(results, objective, cons), Remaining(results, objective, cons), objective, cons)
  {
    hide Pick, Remaining, Comparator, Sort;
    var among := Remaining(results, objective, cons);
    var ranked := Sort(Comparator(objective), among);
    SortLeads(leq, Comparator(objective), Members(among), among);
    SameMembers(ranked, among);
    Reflexive(leq, Comparator(objective), Members(among));
    FirstPickedLeads(leq, ranked, objective, cons);
  }

  lemma Reflexive(leq: (Candidate, Candidate) -> bool, cmp: (Candidate, Candidate) -> int, items: set<Candidate>)
    requires Leads(leq, cmp, items)
    ensures forall a :: a in items ==> leq(a, a)
  {
  }

  /** fastest: the winner's latency is known if any is, and is the least known one. */
  lemma FastestWins(results: seq<Candidate>, cons: Constraints)
    ensures Wins(Quicker, PickWinner(results, Fastest, cons), Remaining(results, Fastest, cons), Fastest, cons)
  {
    FastestLeads(Members(Remaining(results, Fastest, cons)));
    WinnerLeads(Quicker, results, Fastest, cons);
  }

  /** most_reliable: the highest mature reliability, among those the highest weak one, among those
      the least known latency. */
  lemma MostReliableWins(results: seq<Candidate>, cons: Constraints)
    ensures Wins(MoreReliable, PickWinner(results, MostReliable, cons), Remaining(results, MostReliable, cons),
                 MostReliable, cons)
  {
    ReliableLeads(Members(Remaining(results, MostReliable, cons)));
    WinnerLeads(MoreReliable, results, MostReliable, cons);
  }

  /** best: no candidate that can be picked is readier, and of those that are as ready none has a
      higher mature reliability. */
  lemma BestWins(results: seq<Candidate>, cons: Constraints)
    ensures Wins(Better, PickWinner(results, Best, cons), Remaining(results, Best, cons), Best, cons)
  {
    BestLeads(Members(Remaining(results, Best, cons)));
    WinnerLeads(Better, results, Best, cons);
  }

  /** ... on the flags: the winner is invocable if any candidate that can be picked is, and among those
      that agree with it in this its mature reliability is the highest, known before unknown. */
  lemma BestIsInvocable(results: seq<Candidate>, cons: Constraints, w: Candidate, r: Candidate)
    requires PickWinner(results, Best, cons) == Some(w)
    requires r in Remaining(results, Best, cons) && Pick(r, Best, cons).Some?
    ensures r.invocable ==> w.invocable
    ensures r.invocable == w.invocable && r.mature.Some? ==> w.mature.Some? && w.mature.value >= r.mature.value
  {
    hide PickWinner, OptionsFor, FirstLeast;
    BestWins(results, cons);
    assert Payable(w) && Payable(r);
  }

  lemma LowestTotalCostWins(results: seq<Candidate>, cons: Constraints)
    ensures Wins(CostsLess, PickWinner(results, LowestTotalCost, cons), Remaining(results, LowestTotalCost, cons),
                 LowestTotalCost, cons)
  {
    CostLeads(Members(Remaining(results, LowestTotalCost, cons)));
    WinnerLeads(CostsLess, results, LowestTotalCost, cons);
  }

  lemma FastestSettlementWins(results: seq<Candidate>, cons: Constraints)
    ensures Wins(SettlesSooner, PickWinner(results, FastestSettlement, cons),
                 Remaining(results, FastestSettlement, cons), FastestSettlement, cons)
  {
    SettlementLeads(Members(Remaining(results, FastestSettlement, cons)));
    WinnerLeads(SettlesSooner, results, FastestSettlement, cons);
  }

  // ---- one asset without dollars ------------------------------------------------------------

  /** A candidate whose options are all in one asset that has no known dollar price. */
  predicate OnlyIn(c: Candidate, asset: AssetKey) {
    c.opts != [] && forall o :: o in c.opts ==> !o.usdc && o.key == asset
  }

  lemma OnlyInFacts(c: Candidate, asset: AssetKey)
    requires OnlyIn(c, asset)
    ensures MinUsd(c.opts).None? && Assets(c.opts) == {asset} && MinAtomic(c.opts, asset).Some?
  {
    assert c.opts[0] in c.opts;
  }

  predicate LessIn(asset: AssetKey, a: Candidate, b: Candidate) {
    var x, y := MinAtomic(a.opts, asset), MinAtomic(b.opts, asset);
    y.None? || (x.Some? && x.value <= y.value)
  }

  /** The order by the least amount in the asset. */
  function AmountOrder(asset: AssetKey): (Candidate, Candidate) -> bool {
    (a, b) => LessIn(asset, a, b)
  }

  lemma CompareInAsset(a: Candidate, b: Candidate, asset: AssetKey)
    requires OnlyIn(a, asset) && OnlyIn(b, asset)
    ensures CmpAmount(a, b) < 0 <==> !LessIn(asset, b, a)
    ensures CmpAmount(a, b) > 0 <==> !LessIn(asset, a, b)
  {
    hide MinUsd, MinAtomic, Assets, OnlyIn;
    OnlyInFacts(a, asset);
    OnlyInFacts(b, asset);
    assert Assets(a.opts) * Assets(b.opts) == {asset};
  }

  lemma AssetLeads(items: set<Candidate>, asset: AssetKey)
    requires forall c :: c in items ==> OnlyIn(c, asset)
    ensures Leads(AmountOrder(asset), Comparator(Cheapest), items)
  {
    hide MinAtomic, CmpAmount, CmpLatency, OnlyIn;
    forall a, b | a in items && b in items && !AmountOrder(asset)(b, a)
      ensures Comparator(Cheapest)(a, b) < 0 && Comparator(Cheapest)(b, a) >= 0
    {
      CompareInAsset(a, b, asset);
      CompareInAsset(b, a, asset);
    }
  }

  /** cheapest: candidates that all take the same unpriced asset are ranked by its amount. */
  lemma CheapestInOneAssetWins(results: seq<Candidate>, cons: Constraints, asset: AssetKey)
    requires forall r :: r in Remaining(results, Cheapest, cons) ==> OnlyIn(r, asset)
    ensures Wins(AmountOrder(asset), PickWinner(results, Cheapest, cons), Remaining(results, Cheapest, cons), Cheapest,
                 cons)
  {
    hide Remaining, PickWinner, Wins, OnlyIn;
    AssetLeads(Members(Remaining(results, Cheapest, cons)), asset);
    WinnerLeads(AmountOrder(asset), results, Cheapest, cons);
  }

  // ---- why no more can be said --------------------------------------------------------------

  /** Three payable candidates that the best comparator orders in a circle. */
  lemma BestComparatorCycles()
    ensures exists a, b, c :: CmpBest(a, b) < 0 && CmpBest(b, c) < 0 && CmpBest(c, a) < 0
  {
    var p, q, r := Coin(Base, 1), Coin(Base, 2), Coin(Base, 3);
    var a := Candidate(true, [p], false, Some(3), None, None, None, None, false, true);
    var b := Candidate(true, [q], false, None, None, None, None, None, false, true);
    var c := Candidate(true, [r], false, Some(1), None, None, None, None, false, true);
    assert a.opts[0] == p && b.opts[0] == q && c.opts[0] == r;
    hide MinUsd, Assets;
    assert MinUsd(a.opts) == Usd(p) && MinUsd(b.opts) == Usd(q) && MinUsd(c.opts) == Usd(r);
    assert CmpAmount(a, b) < 0 && CmpAmount(b, c) < 0;
    assert CmpBest(a, b) < 0 && CmpBest(b, c) < 0 && CmpBest(c, a) < 0;
  }
}
