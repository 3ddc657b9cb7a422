/** Python's list sort on short lists (fewer than 64 items: one run, then binary insertion) with a
    comparator that need not be transitive. Whatever it does among ties, a leading order that the
    comparator respects comes out sorted. */
module StableSort {

  /** The sign of a comparison, and the next criterion when one is a tie. */
  function Sign(less: bool, more: bool): int {
    if less then -1 else if more then 1 else 0
  }

  function Or(c: int, d: int): int {
    if c != 0 then c else d
  }

  /** How far the first run goes: strictly descending, or not descending. */
  function RunEnd<C>(cmp: (C, C) -> int, xs: seq<C>, n: nat, down: bool): (r: nat)
    requires 1 <= n <= |xs|
    ensures n <= r <= |xs|
    decreases |xs| - n
  {
    if n < |xs| && (cmp(xs[n], xs[n - 1]) < 0) == down then RunEnd(cmp, xs, n + 1, down) else n
  }

  function Reversed<C>(xs: seq<C>): (r: seq<C>)
    ensures |r| == |xs| && forall i :: 0 <= i < |xs| ==> r[i] == xs[|xs| - 1 - i]
    ensures multiset(r) == multiset(xs)
  {
    if xs == [] then []
    else
      var n := |xs| - 1;
      assert xs == xs[..n] + [xs[n]];
      [xs[n]] + Reversed(xs[..n])
  }

  /** Where binary insertion puts x: before the first place, in halving steps, that x is less than. */
  function Slot<C>(cmp: (C, C) -> int, s: seq<C>, x: C, lo: nat, hi: nat): (r: nat)
    requires lo <= hi <= |s|
    ensures lo <= r <= hi
    decreases hi - lo
  {
    if lo == hi then lo
    else
      var mid := lo + (hi - lo) / 2;
      if cmp(x, s[mid]) < 0 then Slot(cmp, s, x, lo, mid) else Slot(cmp, s, x, mid + 1, hi)
  }

  function Inserted<C>(cmp: (C, C) -> int, s: seq<C>, x: C): (r: seq<C>)
    ensures multiset(r) == multiset(s) + multiset{x}
  {
    var p := Slot(cmp, s, x, 0, |s|);
    assert s == s[..p] + s[p..];
    s[..p] + [x] + s[p..]
  }

  function InsertAll<C>(cmp: (C, C) -> int, s: seq<C>, rest: seq<C>): (r: seq<C>)
    ensures multiset(r) == multiset(s) + multiset(rest)
    decreases |rest|
  {
    if rest == [] then s
    else
      assert rest == rest[..|rest| - 1] + [rest[|rest| - 1]];
      Inserted(cmp, InsertAll(cmp, s, rest[..|rest| - 1]), rest[|rest| - 1])
  }

  /** sorted(xs, key=cmp_to_key(cmp)) */
  function Sort<C>(cmp: (C, C) -> int, xs: seq<C>): (r: seq<C>)
    ensures multiset(r) == multiset(xs)
  {
    if |xs| < 2 then xs
    else
      var down := cmp(xs[1], xs[0]) < 0;
      var n := RunEnd(cmp, xs, 2, down);
      assert xs == xs[..n] + xs[n..];
      InsertAll(cmp, if down then Reversed(xs[..n]) else xs[..n], xs[n..])
  }

  // ---- a leading order ----------------------------------------------------------------------

  /** On these items `leq` is a total preorder, and the comparator decides as it does whenever one
      item is strictly better. Among ties the comparator may say anything. */
  ghost predicate Leads<C>(leq: (C, C) -> bool, cmp: (C, C) -> int, items: set<C>) {
    && (forall a, b :: a in items && b in items ==> leq(a, b) || leq(b, a))
    && (forall a, b, c :: a in items && b in items && c in items && leq(a, b) && leq(b, c) ==> leq(a, c))
    && forall a, b :: a in items && b in items && !leq(b, a) ==> cmp(a, b) < 0 && cmp(b, a) >= 0
  }

  ghost predicate SortedBy<C>(leq: (C, C) -> bool, s: seq<C>) {
    forall i, j :: 0 <= i < j < |s| ==> leq(s[i], s[j])
  }

  ghost predicate Among<C>(s: seq<C>, items: set<C>) {
    forall i :: 0 <= i < |s| ==> s[i] in items
  }

  lemma Chain<C>(leq: (C, C) -> bool, cmp: (C, C) -> int, items: set<C>, a: C, b: C, c: C)
    requires Leads(leq, cmp, items) && a in items && b in items && c in items && leq(a, b) && leq(b, c)
    ensures leq(a, c)
  {
  }

  /** What a comparison says about the leading order. */
  lemma Compared<C>(leq: (C, C) -> bool, cmp: (C, C) -> int, items: set<C>, x: C, y: C)
    requires Leads(leq, cmp, items) && x in items && y in items
    ensures if cmp(x, y) < 0 then leq(x, y) else leq(y, x)
  {
  }

  /** Everything before an item that is at most x is at most x; everything after an item that x is
      at most, too. */
  lemma Extremes<C>(leq: (C, C) -> bool, cmp: (C, C) -> int, items: set<C>, s: seq<C>, x: C, k: nat)
    requires Leads(leq, cmp, items) && Among(s, items) && x in items && SortedBy(leq, s) && k < |s|
    ensures leq(s[k], x) ==> forall i :: 0 <= i <= k ==> leq(s[i], x)
    ensures leq(x, s[k]) ==> forall i :: k <= i < |s| ==> leq(x, s[i])
  {
    hide Leads;
    if leq(s[k], x) {
      forall i | 0 <= i <= k ensures leq(s[i], x) {
        if i < k { Chain(leq, cmp, items, s[i], s[k], x); }
      }
    }
    if leq(x, s[k]) {
      forall i | k <= i < |s| ensures leq(x, s[i]) {
        if i > k { Chain(leq, cmp, items, x, s[k], s[i]); }
      }
    }
  }

  lemma InsertSorted<C>(leq: (C, C) -> bool, s: seq<C>, x: C, p: nat)
    requires SortedBy(leq, s) && p <= |s|
    requires forall k :: 0 <= k < p ==> leq(s[k], x)
    requires forall k :: p <= k < |s| ==> leq(x, s[k])
    ensures SortedBy(leq, s[..p] + [x] + s[p..])
  {
    var r := s[..p] + [x] + s[p..];
    forall i, j | 0 <= i < j < |r| ensures leq(r[i], r[j]) {
      assert r[i] == if i < p then s[i] else if i == p then x else s[i - 1];
      assert r[j] == if j < p then s[j] else if j == p then x else s[j - 1];
    }
  }

  lemma RunUp<C>(leq: (C, C) -> bool, cmp: (C, C) -> int, items: set<C>, s: seq<C>, x: C)
    requires Leads(leq, cmp, items) && Among(s, items) && x in items && s != [] && SortedBy(leq, s)
    requires leq(s[|s| - 1], x)
    ensures SortedBy(leq, s + [x])
  {
    hide Leads, SortedBy;
    Extremes(leq, cmp, items, s, x, |s| - 1);
    InsertSorted(leq, s, x, |s|);
    assert s[..|s|] + [x] + s[|s|..] == s + [x];
  }

  lemma RunDown<C>(leq: (C, C) -> bool, cmp: (C, C) -> int, items: set<C>, s: seq<C>, x: C)
    requires Leads(leq, cmp, items) && Among(s, items) && x in items && s != [] && SortedBy(leq, s)
    requires leq(x, s[0])
    ensures SortedBy(leq, [x] + s)
  {
    hide Leads, SortedBy;
    Extremes(leq, cmp, items, s, x, 0);
    InsertSorted(leq, s, x, 0);
    assert s[..0] + [x] + s[0..] == [x] + s;
  }

  lemma ReversedMore<C>(xs: seq<C>, n: nat, items: set<C>)
    requires 1 <= n < |xs| && Among(xs, items)
    ensures Reversed(xs[..n + 1]) == [xs[n]] + Reversed(xs[..n]) && Reversed(xs[..n])[0] == xs[n - 1]
    ensures Among(Reversed(xs[..n]), items) && Among(xs[..n], items)
    ensures xs[..n + 1] == xs[..n] + [xs[n]] && xs[..n][n - 1] == xs[n - 1]
  {
  }

  lemma RunStep<C>(leq: (C, C) -> bool, cmp: (C, C) -> int, items: set<C>, xs: seq<C>, n: nat, down: bool)
    requires Leads(leq, cmp, items) && Among(xs, items) && 1 <= n < |xs|
    requires SortedBy(leq, if down then Reversed(xs[..n]) else xs[..n])
    requires (cmp(xs[n], xs[n - 1]) < 0) == down
    ensures SortedBy(leq, if down then Reversed(xs[..n + 1]) else xs[..n + 1])
  {
    hide Leads, SortedBy, Reversed;
    Compared(leq, cmp, items, xs[n], xs[n - 1]);
    ReversedMore(xs, n, items);
    if down {
      RunDown(leq, cmp, items, Reversed(xs[..n]), xs[n]);
    } else {
      RunUp(leq, cmp, items, xs[..n], xs[n]);
    }
  }

  lemma {:induction false} RunLeads<C>(leq: (C, C) -> bool, cmp: (C, C) -> int, items: set<C>, xs: seq<C>, n: nat,
                                       down: bool)
    requires Leads(leq, cmp, items) && Among(xs, items) && 1 <= n <= |xs|
    requires SortedBy(leq, if down then Reversed(xs[..n]) else xs[..n])
    ensures var end := RunEnd(cmp, xs, n, down); SortedBy(leq, if down then Reversed(xs[..end]) else xs[..end])
    decreases |xs| - n
  {
    hide Leads, SortedBy, Reversed;
    if n < |xs| && (cmp(xs[n], xs[n - 1]) < 0) == down {
      RunStep(leq, cmp, items, xs, n, down);
      RunLeads(leq, cmp, items, xs, n + 1, down);
    }
  }

  lemma {:induction false} SlotLeads<C>(leq: (C, C) -> bool, cmp: (C, C) -> int, items: set<C>, s: seq<C>, x: C,
                                        lo: nat, hi: nat)
    requires Leads(leq, cmp, items) && Among(s, items) && x in items && SortedBy(leq, s) && lo <= hi <= |s|
    requires forall k :: 0 <= k < lo ==> leq(s[k], x)
    requires forall k :: hi <= k < |s| ==> leq(x, s[k])
    ensures var p := Slot(cmp, s, x, lo, hi);
            (forall k :: 0 <= k < p ==> leq(s[k], x)) && (forall k :: p <= k < |s| ==> leq(x, s[k]))
    decreases hi - lo
  {
    hide Leads, SortedBy;
    if lo < hi {
      var mid := lo + (hi - lo) / 2;
      Compared(leq, cmp, items, x, s[mid]);
      Extremes(leq, cmp, items, s, x, mid);
      if cmp(x, s[mid]) < 0 {
        SlotLeads(leq, cmp, items, s, x, lo, mid);
      } else {
        SlotLeads(leq, cmp, items, s, x, mid + 1, hi);
      }
    }
  }

  lemma InsertedLeads<C>(leq: (C, C) -> bool, cmp: (C, C) -> int, items: set<C>, s: seq<C>, x: C)
    requires Leads(leq, cmp, items) && Among(s, items) && x in items && SortedBy(leq, s)
    ensures SortedBy(leq, Inserted(cmp, s, x)) && Among(Inserted(cmp, s, x), items)
  {
    hide Leads, SortedBy, Slot;
    SlotLeads(leq, cmp, items, s, x, 0, |s|);
    InsertSorted(leq, s, x, Slot(cmp, s, x, 0, |s|));
  }

  lemma {:induction false} InsertLeads<C>(leq: (C, C) -> bool, cmp: (C, C) -> int, items: set<C>, s: seq<C>,
                                          rest: seq<C>)
    requires Leads(leq, cmp, items) && Among(s, items) && Among(rest, items) && SortedBy(leq, s)
    ensures SortedBy(leq, InsertAll(cmp, s, rest)) && Among(InsertAll(cmp, s, rest), items)
    decreases |rest|
  {
    hide Leads, SortedBy, Inserted;
    if rest != [] {
      var n := |rest| - 1;
      InsertLeads(leq, cmp, items, s, rest[..n]);
      InsertedLeads(leq, cmp, items, InsertAll(cmp, s, rest[..n]), rest[n]);
    }
  }

  lemma SameMembers<C>(a: seq<C>, b: seq<C>)
    requires multiset(a) == multiset(b)
    ensures |a| == |b| && forall x :: x in a <==> x in b
  {
    assert |multiset(a)| == |multiset(b)|;
    forall x ensures x in a <==> x in b {
      assert x in a <==> x in multiset(a);
      assert x in b <==> x in multiset(b);
    }
  }

  /** The sort's result is ordered by every leading order of the comparator. */
  lemma SortLeads<C>(leq: (C, C) -> bool, cmp: (C, C) -> int, items: set<C>, xs: seq<C>)
    requires Leads(leq, cmp, items) && Among(xs, items)
    ensures SortedBy(leq, Sort(cmp, xs)) && Among(Sort(cmp, xs), items)
  {
    hide Leads, InsertAll, RunEnd;
    if |xs| >= 2 {
      var down := cmp(xs[1], xs[0]) < 0;
      RunStep(leq, cmp, items, xs, 1, down);
      RunLeads(leq, cmp, items, xs, 2, down);
      var n := RunEnd(cmp, xs, 2, down);
      InsertLeads(leq, cmp, items, if down then Reversed(xs[..n]) else xs[..n], xs[n..]);
    }
  }
}
