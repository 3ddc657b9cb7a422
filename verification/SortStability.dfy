/** The sort is stable: with a comparator that is a weak order, items that compare equal keep their order. */
module SortStability {
  import opened StableSort

  /** Antisymmetric in sign and transitive, so that ties are an equivalence. */
  ghost predicate WeakOrder<C>(cmp: (C, C) -> int, items: set<C>) {
    && (forall a, b :: a in items && b in items ==> (cmp(a, b) < 0 <==> cmp(b, a) > 0))
    && (forall a, b, c :: a in items && b in items && c in items && cmp(a, b) <= 0 && cmp(b, c) <= 0 ==> cmp(a, c) <= 0)
  }

  /** The items that compare equal to z, in order. */
  function Tied<C>(cmp: (C, C) -> int, z: C, s: seq<C>): seq<C>
    decreases |s|
  {
    if s == [] then [] else (if cmp(s[0], z) == 0 then [s[0]] else []) + Tied(cmp, z, s[1..])
  }

  function Below<C>(cmp: (C, C) -> int): (C, C) -> bool {
    (a, b) => cmp(a, b) <= 0
  }

  lemma BelowLeads<C>(cmp: (C, C) -> int, items: set<C>)
    requires WeakOrder(cmp, items)
    ensures Leads(Below(cmp), cmp, items)
  {
  }

  lemma TiedFirst<C>(cmp: (C, C) -> int, z: C, x: C, rest: seq<C>)
    ensures Tied(cmp, z, [x] + rest) == (if cmp(x, z) == 0 then [x] else []) + Tied(cmp, z, rest)
  {
    assert ([x] + rest)[1..] == rest;
  }

  lemma {:induction false} TiedOfBoth<C>(cmp: (C, C) -> int, z: C, a: seq<C>, b: seq<C>)
    ensures Tied(cmp, z, a + b) == Tied(cmp, z, a) + Tied(cmp, z, b)
    decreases |a|
  {
    hide Tied;
    if a == [] {
      assert a + b == b;
      TiedNone(cmp, z, a);
    } else {
      var x, rest := a[0], a[1..];
      TiedOfBoth(cmp, z, rest, b);
      TiedFirst(cmp, z, x, rest);
      TiedFirst(cmp, z, x, rest + b);
      assert a == [x] + rest && a + b == [x] + (rest + b);
    }
  }

  lemma {:induction false} TiedNone<C>(cmp: (C, C) -> int, z: C, s: seq<C>)
    requires forall i :: 0 <= i < |s| ==> cmp(s[i], z) != 0
    ensures Tied(cmp, z, s) == []
    decreases |s|
  {
    if s != [] { TiedNone(cmp, z, s[1..]); }
  }

  lemma StrictThrough<C>(cmp: (C, C) -> int, items: set<C>, x: C, y: C, z: C)
    requires WeakOrder(cmp, items) && x in items && y in items && z in items
    ensures cmp(x, y) < 0 && cmp(y, z) <= 0 ==> cmp(x, z) < 0
    ensures cmp(x, y) <= 0 && cmp(y, z) < 0 ==> cmp(x, z) < 0
    ensures cmp(x, z) == 0 ==> cmp(z, x) == 0
  {
  }

  /** Binary insertion puts x before exactly those it is strictly less than. */
  lemma {:induction false} SlotIsLast<C>(cmp: (C, C) -> int, items: set<C>, s: seq<C>, x: C, lo: nat, hi: nat)
    requires WeakOrder(cmp, items) && Among(s, items) && x in items && SortedBy(Below(cmp), s) && lo <= hi <= |s|
    requires forall k :: hi <= k < |s| ==> cmp(x, s[k]) < 0
    ensures forall k :: Slot(cmp, s, x, lo, hi) <= k < |s| ==> cmp(x, s[k]) < 0
    decreases hi - lo
  {
    hide WeakOrder;
    if lo < hi {
      var mid := lo + (hi - lo) / 2;
      if cmp(x, s[mid]) < 0 {
        forall k | mid <= k < |s| ensures cmp(x, s[k]) < 0 {
          if k > mid { StrictThrough(cmp, items, x, s[mid], s[k]); }
        }
        SlotIsLast(cmp, items, s, x, lo, mid);
      } else {
        SlotIsLast(cmp, items, s, x, mid + 1, hi);
      }
    }
  }

  lemma InsertedIsLast<C>(cmp: (C, C) -> int, items: set<C>, s: seq<C>, x: C, z: C)
    requires WeakOrder(cmp, items) && Among(s, items) && x in items && z in items && SortedBy(Below(cmp), s)
    ensures Tied(cmp, z, Inserted(cmp, s, x)) == Tied(cmp, z, s + [x])
  {
    hide WeakOrder, Tied, SortedBy, Slot;
    SlotIsLast(cmp, items, s, x, 0, |s|);
    var p := Slot(cmp, s, x, 0, |s|);
    assert s == s[..p] + s[p..];
    TiedOfBoth(cmp, z, s[..p] + [x], s[p..]);
    TiedOfBoth(cmp, z, s[..p], [x]);
    TiedOfBoth(cmp, z, s, [x]);
    TiedOfBoth(cmp, z, s[..p], s[p..]);
    if cmp(x, z) == 0 {
      forall i | 0 <= i < |s[p..]| ensures cmp(s[p..][i], z) != 0 {
        StrictThrough(cmp, items, x, s[p + i], z);
        StrictThrough(cmp, items, x, z, z);
      }
      TiedNone(cmp, z, s[p..]);
    } else {
      TiedNone(cmp, z, [x]);
    }
  }

  lemma {:induction false} InsertAllKeeps<C>(cmp: (C, C) -> int, items: set<C>, s: seq<C>, rest: seq<C>, z: C)
    requires WeakOrder(cmp, items) && Among(s, items) && Among(rest, items) && z in items && SortedBy(Below(cmp), s)
    ensures Tied(cmp, z, InsertAll(cmp, s, rest)) == Tied(cmp, z, s + rest)
    decreases |rest|
  {
    hide WeakOrder, Tied, SortedBy, Inserted;
    if rest == [] {
      assert s + rest == s;
    } else {
      var n := |rest| - 1;
      BelowLeads(cmp, items);
      InsertLeads(Below(cmp), cmp, items, s, rest[..n]);
      InsertAllKeeps(cmp, items, s, rest[..n], z);
      InsertedIsLast(cmp, items, InsertAll(cmp, s, rest[..n]), rest[n], z);
      TiedOfBoth(cmp, z, InsertAll(cmp, s, rest[..n]), [rest[n]]);
      TiedOfBoth(cmp, z, s + rest[..n], [rest[n]]);
      assert s + rest == s + rest[..n] + [rest[n]];
    }
  }

  /** The items of a strictly descending run differ pairwise. */
  ghost predicate Descending<C>(cmp: (C, C) -> int, s: seq<C>) {
    forall i, j :: 0 <= i < j < |s| ==> cmp(s[j], s[i]) < 0
  }

  /** An item below all of them may go to the other end. */
  lemma OtherEnd<C>(cmp: (C, C) -> int, items: set<C>, front: seq<C>, back: seq<C>, y: C, z: C)
    requires WeakOrder(cmp, items) && Among(front, items) && y in items && z in items
    requires forall i :: 0 <= i < |front| ==> cmp(y, front[i]) < 0
    requires Tied(cmp, z, back) == Tied(cmp, z, front)
    ensures Tied(cmp, z, [y] + back) == Tied(cmp, z, front + [y])
  {
    hide WeakOrder, Tied;
    TiedOfBoth(cmp, z, front, [y]);
    TiedOfBoth(cmp, z, [y], back);
    if cmp(y, z) == 0 {
      forall i | 0 <= i < |front| ensures cmp(front[i], z) != 0 {
        StrictThrough(cmp, items, y, front[i], z);
        StrictThrough(cmp, items, y, z, z);
      }
      TiedNone(cmp, z, front);
    } else {
      TiedNone(cmp, z, [y]);
    }
  }

  lemma ReversedSplit<C>(front: seq<C>, y: C)
    ensures Reversed(front + [y]) == [y] + Reversed(front)
  {
    hide Reversed;
    var s := front + [y];
    var r, rest := Reversed(s), [y] + Reversed(front);
    forall i | 0 <= i < |r| ensures r[i] == rest[i] {
      if i > 0 { assert rest[i] == Reversed(front)[i - 1] == front[|front| - i] == s[|front| - i]; }
    }
  }

  lemma {:induction false} ReversedKeeps<C>(cmp: (C, C) -> int, items: set<C>, s: seq<C>, z: C)
    requires WeakOrder(cmp, items) && Among(s, items) && z in items && Descending(cmp, s)
    ensures Tied(cmp, z, Reversed(s)) == Tied(cmp, z, s)
    decreases |s|
  {
    hide WeakOrder, Tied, Reversed;
    if s == [] {
      assert Reversed(s) == s;
    } else {
      var n := |s| - 1;
      assert s == s[..n] + [s[n]];
      ReversedKeeps(cmp, items, s[..n], z);
      ReversedSplit(s[..n], s[n]);
      OtherEnd(cmp, items, s[..n], Reversed(s[..n]), s[n], z);
    }
  }

  lemma {:induction false} RunDescends<C>(cmp: (C, C) -> int, items: set<C>, xs: seq<C>, n: nat)
    requires WeakOrder(cmp, items) && Among(xs, items) && 1 <= n <= |xs| && Descending(cmp, xs[..n])
    ensures Descending(cmp, xs[..RunEnd(cmp, xs, n, true)])
    decreases |xs| - n
  {
    hide WeakOrder;
    if n < |xs| && cmp(xs[n], xs[n - 1]) < 0 {
      var longer := xs[..n + 1];
      forall i, j | 0 <= i < j < |longer| ensures cmp(longer[j], longer[i]) < 0 {
        if j < n {
          assert xs[..n][j] == longer[j] && xs[..n][i] == longer[i];
        } else if i < n - 1 {
          assert cmp(xs[..n][n - 1], xs[..n][i]) < 0;
          StrictThrough(cmp, items, xs[n], xs[n - 1], xs[i]);
        }
      }
      RunDescends(cmp, items, xs, n + 1);
    }
  }

  lemma PartsAmong<C>(xs: seq<C>, n: nat, items: set<C>)
    requires Among(xs, items) && n <= |xs|
    ensures Among(xs[..n], items) && Among(xs[n..], items) && Among(Reversed(xs[..n]), items)
    ensures xs == xs[..n] + xs[n..]
  {
  }

  lemma RunKeeps<C>(cmp: (C, C) -> int, items: set<C>, xs: seq<C>, z: C, n: nat, run: seq<C>)
    requires WeakOrder(cmp, items) && Among(xs, items) && z in items && n <= |xs|
    requires Among(run, items) && SortedBy(Below(cmp), run) && Tied(cmp, z, run) == Tied(cmp, z, xs[..n])
    ensures Tied(cmp, z, InsertAll(cmp, run, xs[n..])) == Tied(cmp, z, xs)
  {
    hide WeakOrder, Tied, InsertAll, SortedBy, Among;
    PartsAmong(xs, n, items);
    InsertAllKeeps(cmp, items, run, xs[n..], z);
    TiedOfBoth(cmp, z, run, xs[n..]);
    TiedOfBoth(cmp, z, xs[..n], xs[n..]);
  }

  /** Items that compare equal come out in the order they went in. */
  lemma SortIsStable<C>(cmp: (C, C) -> int, items: set<C>, xs: seq<C>, z: C)
    requires WeakOrder(cmp, items) && Among(xs, items) && z in items
    ensures Tied(cmp, z, Sort(cmp, xs)) == Tied(cmp, z, xs)
  {
    hide WeakOrder, Tied, InsertAll, RunEnd, SortedBy, Leads, Reversed, Among, Descending;
    if |xs| >= 2 {
      var down := cmp(xs[1], xs[0]) < 0;
      BelowLeads(cmp, items);
      FirstTwo(cmp, items, xs, down);
      RunLeads(Below(cmp), cmp, items, xs, 2, down);
      var n := RunEnd(cmp, xs, 2, down);
      PartsAmong(xs, n, items);
      if down {
        RunDescends(cmp, items, xs, 2);
        ReversedKeeps(cmp, items, xs[..n], z);
      }
      RunKeeps(cmp, items, xs, z, n, if down then Reversed(xs[..n]) else xs[..n]);
    }
  }

  lemma FirstTwo<C>(cmp: (C, C) -> int, items: set<C>, xs: seq<C>, down: bool)
    requires WeakOrder(cmp, items) && Among(xs, items) && |xs| >= 2 && down == (cmp(xs[1], xs[0]) < 0)
    ensures SortedBy(Below(cmp), if down then Reversed(xs[..2]) else xs[..2])
    ensures down ==> Descending(cmp, xs[..2])
  {
    assert Reversed(xs[..2])[0] == xs[1] && Reversed(xs[..2])[1] == xs[0];
  }
}
