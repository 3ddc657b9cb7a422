/** History reorders a probe shortlist (live402/probe.py): only its head, preferred rails first, and
    only among close need scores. */
module Shortlist {
  import opened Collections
  import opened StableSort

  const CLOSE_SCORE := 20
  const WINDOW: nat := 14

  /** A ranked catalog item: `score` is its need score, `preferred` whether it is on the preferred rail. */
  datatype Resource = Resource(url: string, score: int, preferred: bool)

  /** What the store knows about a URL. */
  datatype Hint = Hint(lastOk: Option<int>, checks: int)

  const UNKNOWN := Hint(None, 0)

  datatype Row = Row(idx: nat, item: Resource, band: int, mature: bool, weak: bool, checks: int)

  /** _success_freshness_band */
  function Band(lastOk: Option<int>, now: int): int {
    if lastOk.None? then 0
    else
      var age := now - lastOk.value;
      if age < 300 then 3 else if age < 3600 then 2 else if age < 86400 then 1 else 0
  }

  function RowOf(items: seq<Resource>, hints: map<string, Hint>, now: int, i: nat): Row
    requires i < |items|
  {
    var hint := if items[i].url in hints then hints[items[i].url] else UNKNOWN;
    Row(i, items[i], Band(hint.lastOk, now), hint.checks >= 10, hint.checks >= 3, hint.checks)
  }

  function Order(a: int, b: int): int {
    Sign(a < b, a > b)
  }

  function Flag(b: bool): int {
    if b then 1 else 0
  }

  /** Highest score first, then as ranked. */
  function ByScore(a: Row, b: Row): int {
    Or(Order(b.item.score, a.item.score), Order(a.idx, b.idx))
  }

  function Counted(r: Row): int {
    if r.mature || r.weak then r.checks else 0
  }

  /** Fresh successes first, then mature and weak histories, then more checks, then as ranked. */
  function ByHistory(a: Row, b: Row): int {
    Or(Order(b.band, a.band),
       Or(Order(Flag(b.mature), Flag(a.mature)),
          Or(Order(Flag(b.weak), Flag(a.weak)), Or(Order(Counted(b), Counted(a)), Order(a.idx, b.idx)))))
  }

  predicate ScoreLeq(a: Row, b: Row) {
    ByScore(a, b) <= 0
  }

  /** The first row has the better history, or is ranked earlier with an equal one. */
  predicate HistoryLeq(a: Row, b: Row) {
    ByHistory(a, b) <= 0
  }

  function Abs(n: int): int {
    if n < 0 then -n else n
  }

  /** How far a cluster goes: while the score is close to the first one's. */
  function ClusterEnd(group: seq<Row>, n: nat): (r: nat)
    requires 1 <= n <= |group|
    ensures n <= r <= |group|
    ensures forall k :: n <= k < r ==> Abs(group[0].item.score - group[k].item.score) < CLOSE_SCORE
    decreases |group| - n
  {
    if n < |group| && Abs(group[0].item.score - group[n].item.score) < CLOSE_SCORE then ClusterEnd(group, n + 1) else n
  }

  /** A score-sorted group, cluster by cluster, each sorted by history. */
  function Clustered(group: seq<Row>): seq<Row>
    decreases |group|
  {
    if group == [] then []
    else
      var n := ClusterEnd(group, 1);
      Sort(ByHistory, group[..n]) + Clustered(group[n..])
  }

  /** reorder_group */
  function Reordered(group: seq<Row>): seq<Row> {
    Clustered(Sort(ByScore, group))
  }

  function Chosen(rows: seq<Row>, preferred: bool): (r: seq<Row>)
    ensures forall x :: x in r ==> x in rows && x.item.preferred == preferred
    decreases |rows|
  {
    if rows == [] then []
    else
      var n := |rows| - 1;
      Chosen(rows[..n], preferred) + if rows[n].item.preferred == preferred then [rows[n]] else []
  }

  /** The reordered head: preferred rails first. */
  function Boosted(rows: seq<Row>): seq<Row> {
    Reordered(Chosen(rows, true)) + Reordered(Chosen(rows, false))
  }

  function Items(rows: seq<Row>): (r: seq<Resource>)
    ensures |r| == |rows| && forall i :: 0 <= i < |r| ==> r[i] == rows[i].item
  {
    seq(|rows|, i requires 0 <= i < |rows| => rows[i].item)
  }

  function Rows(items: seq<Resource>, hints: map<string, Hint>, now: int): (r: seq<Row>)
    ensures |r| == |items| && forall i :: 0 <= i < |r| ==> r[i] == RowOf(items, hints, now, i)
  {
    seq(|items|, i requires 0 <= i < |items| => RowOf(items, hints, now, i))
  }

  // ---- the source's loops -------------------------------------------------------------------

  lemma {:induction false} ClusterGrows(group: seq<Row>, n: nat, m: nat)
    requires 1 <= n <= m <= |group|
    requires forall k :: n <= k < m ==> Abs(group[0].item.score - group[k].item.score) < CLOSE_SCORE
    ensures ClusterEnd(group, n) == ClusterEnd(group, m)
    decreases m - n
  {
    if n < m { ClusterGrows(group, n + 1, m); }
  }

  method ReorderGroup(rows: seq<Row>) returns (r: seq<Row>)
    ensures r == Reordered(rows)
  {
    hide Sort, Clustered, ClusterEnd, ByHistory, ByScore;
    NoCluster();
    if rows == [] { return Sort(ByScore, rows); }
    var group := Sort(ByScore, rows);
    SameMembers(group, rows);
    r := [];
    var start := 0;
    var i := 1;
    assert group[0..] == group;
    while i < |group|
      invariant 0 <= start < i <= |group|
      invariant forall k :: start < k < i ==> Abs(group[start].item.score - group[k].item.score) < CLOSE_SCORE
      invariant r + Clustered(group[start..]) == Clustered(group)
    {
      if Abs(group[start].item.score - group[i].item.score) >= CLOSE_SCORE {
        CloseCluster(group, start, i);
        r := r + Sort(ByHistory, group[start..i]);
        start := i;
      }
      i := i + 1;
    }
    CloseCluster(group, start, |group|);
    assert group[|group|..] == [] && group[start..|group|] == group[start..];
    r := r + Sort(ByHistory, group[start..]);
  }

  lemma NoCluster()
    ensures Clustered([]) == [] && Reordered([]) == [] && Sort(ByScore, []) == []
  {
  }

  lemma ClusteredIs(group: seq<Row>)
    requires group != []
    ensures var n := ClusterEnd(group, 1); Clustered(group) == Sort(ByHistory, group[..n]) + Clustered(group[n..])
  {
    hide Sort;
  }

  lemma CloseCluster(group: seq<Row>, start: nat, i: nat)
    requires start < i <= |group|
    requires forall k :: start < k < i ==> Abs(group[start].item.score - group[k].item.score) < CLOSE_SCORE
    requires i < |group| ==> Abs(group[start].item.score - group[i].item.score) >= CLOSE_SCORE
    ensures Clustered(group[start..]) == Sort(ByHistory, group[start..i]) + Clustered(group[i..])
  {
    hide Sort, Clustered;
    var g := group[start..];
    ClusterGrows(g, 1, i - start);
    assert ClusterEnd(g, 1) == i - start;
    ClusteredIs(g);
    assert g[..i - start] == group[start..i] && g[i - start..] == group[i..];
  }

  lemma NoneChosen()
    ensures Chosen([], true) == [] && Chosen([], false) == []
  {
  }

  lemma ChosenStep(rows: seq<Row>, row: Row)
    ensures Chosen(rows + [row], row.item.preferred) == Chosen(rows, row.item.preferred) + [row]
    ensures Chosen(rows + [row], !row.item.preferred) == Chosen(rows, !row.item.preferred)
  {
    assert (rows + [row])[..|rows|] == rows;
  }

  /** The rows of the head, split by preference. */
  method SplitRows(head: seq<Resource>, hints: map<string, Hint>, now: int)
    returns (preferred: seq<Row>, other: seq<Row>)
    ensures preferred == Chosen(Rows(head, hints, now), true) && other == Chosen(Rows(head, hints, now), false)
  {
    hide RowOf, Rows, Chosen;
    preferred, other := [], [];
    ghost var meta := Rows(head, hints, now);
    NoneChosen();
    assert meta[..0] == [];
    for i := 0 to |head|
      invariant preferred == Chosen(meta[..i], true) && other == Chosen(meta[..i], false)
    {
      var row := RowOf(head, hints, now, i);
      ChosenStep(meta[..i], row);
      assert meta[..i + 1] == meta[..i] + [row];
      if row.item.preferred { preferred := preferred + [row]; } else { other := other + [row]; }
    }
    assert meta[..|head|] == meta;
  }

  /** _history_boost_shortlist. `hints` is empty when the store cannot be read. */
  method HistoryBoostShortlist(ranked: seq<Resource>, hints: map<string, Hint>, now: int) returns (r: seq<Resource>)
    ensures r == Boost(ranked, hints, now)
  {
    hide Reordered, Rows, Chosen, Items;
    if |ranked| <= 1 || |hints| == 0 { return ranked; }
    var n := if |ranked| < WINDOW then |ranked| else WINDOW;
    var preferred, other := SplitRows(ranked[..n], hints, now);
    var a := ReorderGroup(preferred);
    var b := ReorderGroup(other);
    return Items(a + b) + ranked[n..];
  }

  function Boost(ranked: seq<Resource>, hints: map<string, Hint>, now: int): seq<Resource> {
    if |ranked| <= 1 || |hints| == 0 then ranked
    else
      var n := if |ranked| < WINDOW then |ranked| else WINDOW;
      Items(Boosted(Rows(ranked[..n], hints, now))) + ranked[n..]
  }

  // ---- what the order keeps -----------------------------------------------------------------

  /** No row stands before one of a need score that is at least 20 higher, and rows of equal score
      stand by history. */
  ghost predicate Close(rows: seq<Row>) {
    && (forall i, j :: 0 <= i < j < |rows| ==> rows[j].item.score - rows[i].item.score < CLOSE_SCORE)
    && forall i, j :: 0 <= i < j < |rows| && rows[i].item.score == rows[j].item.score ==> HistoryLeq(rows[i], rows[j])
  }

  lemma ScoreLeads(items: set<Row>)
    ensures Leads(ScoreLeq, ByScore, items)
  {
  }

  lemma HistoryLeads(items: set<Row>)
    ensures Leads(HistoryLeq, ByHistory, items)
  {
  }

  ghost predicate Descending(rows: seq<Row>) {
    forall i, j :: 0 <= i < j < |rows| ==> rows[i].item.score >= rows[j].item.score
  }

  lemma SortedByScore(rows: seq<Row>)
    ensures Descending(Sort(ByScore, rows))
  {
    hide Sort;
    ScoreLeads(Members(rows));
    SortLeads(ScoreLeq, ByScore, Members(rows), rows);
  }

  lemma SortedByHistory(rows: seq<Row>)
    ensures SortedBy(HistoryLeq, Sort(ByHistory, rows))
    ensures |Sort(ByHistory, rows)| == |rows| && forall x :: x in Sort(ByHistory, rows) <==> x in rows
  {
    hide Sort, ByHistory;
    HistoryLeads(Members(rows));
    SortLeads(HistoryLeq, ByHistory, Members(rows), rows);
    SameMembers(Sort(ByHistory, rows), rows);
  }

  lemma {:induction false} ClusteredKeeps(group: seq<Row>)
    ensures multiset(Clustered(group)) == multiset(group)
    decreases |group|
  {
    if group != [] {
      var n := ClusterEnd(group, 1);
      ClusteredKeeps(group[n..]);
      assert group == group[..n] + group[n..];
    }
  }

  /** One cluster before the later ones. */
  lemma JoinClose(a: seq<Row>, b: seq<Row>, top: int)
    requires SortedBy(HistoryLeq, a) && Close(b)
    requires forall x :: x in a ==> top - CLOSE_SCORE < x.item.score <= top
    requires forall x, y :: x in a && y in b ==> y.item.score < x.item.score
    ensures Close(a + b)
  {
    hide HistoryLeq;
    var r := a + b;
    forall i, j | 0 <= i < j < |r|
      ensures r[j].item.score - r[i].item.score < CLOSE_SCORE
      ensures r[i].item.score == r[j].item.score ==> HistoryLeq(r[i], r[j])
    {
      if j < |a| {
        assert r[i] == a[i] && r[j] == a[j] && a[i] in a && a[j] in a;
      } else if i >= |a| {
        assert r[i] == b[i - |a|] && r[j] == b[j - |a|];
      } else {
        assert r[i] == a[i] && r[j] == b[j - |a|] && a[i] in a && b[j - |a|] in b;
      }
    }
  }

  lemma Falls(rows: seq<Row>, i: nat, j: nat)
    requires Descending(rows) && i < j < |rows|
    ensures rows[i].item.score >= rows[j].item.score
  {
  }

  lemma TailFalls(rows: seq<Row>, n: nat)
    requires Descending(rows) && n <= |rows|
    ensures Descending(rows[n..])
  {
  }

  lemma ClusterRange(group: seq<Row>, n: nat)
    requires group != [] && Descending(group) && n == ClusterEnd(group, 1)
    ensures forall x :: x in group[..n] ==> group[0].item.score - CLOSE_SCORE < x.item.score <= group[0].item.score
    ensures forall x, y :: x in group[..n] && y in group[n..] ==> y.item.score < x.item.score
    ensures Descending(group[n..])
  {
    hide ClusterEnd, Descending;
    ClusterStops(group, 1);
    var top := group[0].item.score;
    forall x | x in group[..n] ensures top - CLOSE_SCORE < x.item.score <= top {
      var i :| 0 <= i < n && group[i] == x;
      if i > 0 { Falls(group, 0, i); }
    }
    forall y | y in group[n..] ensures y.item.score <= top - CLOSE_SCORE {
      var j :| n <= j < |group| && group[j] == y;
      if j > n { Falls(group, n, j); }
      Falls(group, 0, n);
    }
    TailFalls(group, n);
  }

  lemma {:induction false} ClusterStops(group: seq<Row>, n: nat)
    requires 1 <= n <= |group|
    ensures var end := ClusterEnd(group, n);
            end < |group| ==> Abs(group[0].item.score - group[end].item.score) >= CLOSE_SCORE
    decreases |group| - n
  {
    if n < |group| && Abs(group[0].item.score - group[n].item.score) < CLOSE_SCORE { ClusterStops(group, n + 1); }
  }

  lemma {:induction false} ClusteredIsClose(group: seq<Row>)
    requires Descending(group)
    ensures Close(Clustered(group))
    decreases |group|
  {
    hide Close, Descending, SortedBy;
    if group == [] {
      NothingIsClose();
    } else {
      var n := ClusterEnd(group, 1);
      ClusterRange(group, n);
      ClusteredIsClose(group[n..]);
      SortedByHistory(group[..n]);
      ClusteredKeeps(group[n..]);
      SameMembers(Clustered(group[n..]), group[n..]);
      hide Clustered;
      JoinClose(Sort(ByHistory, group[..n]), Clustered(group[n..]), group[0].item.score);
    }
  }

  lemma NothingIsClose()
    ensures Close([])
  {
  }

  lemma ReorderedKeeps(rows: seq<Row>)
    ensures multiset(Reordered(rows)) == multiset(rows) && Close(Reordered(rows))
  {
    hide Sort, Close, Clustered;
    SortedByScore(rows);
    ClusteredKeeps(Sort(ByScore, rows));
    ClusteredIsClose(Sort(ByScore, rows));
  }

  lemma {:induction false} ChosenSplits(rows: seq<Row>)
    ensures multiset(Chosen(rows, true)) + multiset(Chosen(rows, false)) == multiset(rows)
    decreases |rows|
  {
    hide Chosen;
    if rows == [] {
      NoneChosen();
    } else {
      var n := |rows| - 1;
      ChosenSplits(rows[..n]);
      ChosenStep(rows[..n], rows[n]);
      assert rows == rows[..n] + [rows[n]];
      assert rows[n].item.preferred == true || rows[n].item.preferred == false;
    }
  }

  function Without(rows: seq<Row>, k: nat): (r: seq<Row>)
    requires k < |rows|
    ensures |r| == |rows| - 1
  {
    rows[..k] + rows[k + 1..]
  }

  lemma ItemsOneLess(rows: seq<Row>, k: nat)
    requires k < |rows|
    ensures Items(rows) == Items(rows[..k]) + [rows[k].item] + Items(rows[k + 1..])
    ensures Items(Without(rows, k)) == Items(rows[..k]) + Items(rows[k + 1..])
  {
  }

  lemma OneLess(rows: seq<Row>, k: nat)
    requires k < |rows|
    ensures multiset(rows) == multiset(Without(rows, k)) + multiset{rows[k]}
    ensures multiset(Items(rows)) == multiset(Items(Without(rows, k))) + multiset{rows[k].item}
  {
    hide Items;
    ItemsOneLess(rows, k);
    assert rows == rows[..k] + [rows[k]] + rows[k + 1..];
  }

  /** Equal items stay as many when rows are rearranged. */
  lemma {:induction false} SameItems(a: seq<Row>, b: seq<Row>)
    requires multiset(a) == multiset(b)
    ensures multiset(Items(a)) == multiset(Items(b))
    decreases |a|
  {
    hide Items, Without;
    SameMembers(a, b);
    if a == [] {
      assert b == [];
    } else {
      assert a[0] in a && a[0] in b;
      var k :| 0 <= k < |b| && b[k] == a[0];
      OneLess(a, 0);
      OneLess(b, k);
      assert multiset(Without(a, 0)) == multiset(a) - multiset{a[0]};
      assert multiset(Without(b, k)) == multiset(b) - multiset{a[0]};
      SameItems(Without(a, 0), Without(b, k));
    }
  }

  /** What a caller can see of the head: preferred first, and no leap over a much better match. */
  ghost predicate WellOrdered(items: seq<Resource>) {
    forall i, j :: 0 <= i < j < |items| ==>
      && (items[j].preferred ==> items[i].preferred)
      && (items[i].preferred == items[j].preferred ==> items[j].score - items[i].score < 20)
  }

  lemma BoostedIsOrdered(rows: seq<Row>)
    ensures multiset(Boosted(rows)) == multiset(rows) && WellOrdered(Items(Boosted(rows)))
  {
    hide Reordered, Chosen, HistoryLeq;
    var p, o := Chosen(rows, true), Chosen(rows, false);
    var a, b := Reordered(p), Reordered(o);
    ReorderedKeeps(p);
    ReorderedKeeps(o);
    ChosenSplits(rows);
    SameMembers(a, p);
    SameMembers(b, o);
    forall i | 0 <= i < |a| ensures a[i].item.preferred { assert a[i] in a && a[i] in p; }
    forall i | 0 <= i < |b| ensures !b[i].item.preferred { assert b[i] in b && b[i] in o; }
  }

  /** History reordering is a permutation that leaves the tail alone, keeps preferred-rail items
      first in its window, and never puts an item before another one of the same preference group
      whose need score is at least 20 higher. */
  lemma BoostIsCareful(ranked: seq<Resource>, hints: map<string, Hint>, now: int)
    requires |ranked| > 1 && |hints| > 0
    ensures var r := Boost(ranked, hints, now);
            var n := if |ranked| < 14 then |ranked| else 14;
            && multiset(r) == multiset(ranked) && |r| == |ranked|
            && r[n..] == ranked[n..] && WellOrdered(r[..n])
  {
    hide WellOrdered, Boosted;
    var n := if |ranked| < WINDOW then |ranked| else WINDOW;
    var head := ranked[..n];
    var rows := Rows(head, hints, now);
    BoostedIsOrdered(rows);
    SameItems(Boosted(rows), rows);
    SameMembers(Boosted(rows), rows);
    assert Items(rows) == head;
    assert ranked == head + ranked[n..];
    assert Boost(ranked, hints, now)[..n] == Items(Boosted(rows));
  }

  /** Within a preference group, items of equal need score stand by history, then as ranked. */
  lemma EqualScoresByHistory(rows: seq<Row>, i: nat, j: nat)
    requires i < j < |Boosted(rows)|
    requires var r := Boosted(rows);
             r[i].item.preferred == r[j].item.preferred && r[i].item.score == r[j].item.score
    ensures HistoryLeq(Boosted(rows)[i], Boosted(rows)[j])
  {
    hide Reordered, Chosen, HistoryLeq;
    var p, o := Chosen(rows, true), Chosen(rows, false);
    var a, b := Reordered(p), Reordered(o);
    ReorderedKeeps(p);
    ReorderedKeeps(o);
    SameMembers(a, p);
    SameMembers(b, o);
    forall k | 0 <= k < |a| ensures a[k].item.preferred { assert a[k] in a && a[k] in p; }
    forall k | 0 <= k < |b| ensures !b[k].item.preferred { assert b[k] in b && b[k] in o; }
    if j < |a| {
      assert Boosted(rows)[i] == a[i] && Boosted(rows)[j] == a[j];
    } else {
      assert i >= |a| && Boosted(rows)[i] == b[i - |a|] && Boosted(rows)[j] == b[j - |a|];
    }
  }
}
