/** Table rows in the order (timestamp, id), and the newest k of them: the ORDER BY ... LIMIT
    clauses of the history store. */
module Recency {
  import opened Collections

  /** Row ids with their timestamps. */
  type Stamps = map<nat, int>

  predicate Newer(ts: Stamps, i: nat, j: nat)
    requires i in ts && j in ts
  {
    ts[i] > ts[j] || (ts[i] == ts[j] && i > j)
  }

  function NewerThan(ts: Stamps, rows: set<nat>, i: nat): set<nat>
    requires i in ts && forall r :: r in rows ==> r in ts
  {
    set j | j in rows && Newer(ts, j, i)
  }

  /** The first k rows of ORDER BY ts DESC, id DESC. */
  function Newest(ts: Stamps, rows: set<nat>, k: nat): set<nat>
    requires forall r :: r in rows ==> r in ts
  {
    set i | i in rows && |NewerThan(ts, rows, i)| < k
  }

  predicate IsOldest(ts: Stamps, rows: set<nat>, i: nat)
    requires forall r :: r in rows ==> r in ts
  {
    i in rows && forall j :: j in rows && j != i ==> Newer(ts, j, i)
  }

  lemma {:induction false} OldestExists(ts: Stamps, rows: set<nat>)
    requires rows != {} && forall r :: r in rows ==> r in ts
    ensures exists i :: IsOldest(ts, rows, i)
  {
    var x :| x in rows;
    if rows == {x} {
      assert IsOldest(ts, rows, x);
    } else {
      OldestExists(ts, rows - {x});
      var i :| IsOldest(ts, rows - {x}, i);
      if Newer(ts, x, i) {
        assert IsOldest(ts, rows, i);
      } else {
        assert Newer(ts, i, x);
        forall j | j in rows && j != x ensures Newer(ts, j, x) {
          assert j != i ==> Newer(ts, j, i);
        }
        assert IsOldest(ts, rows, x);
      }
    }
  }

  function Oldest(ts: Stamps, rows: set<nat>): (i: nat)
    requires rows != {} && forall r :: r in rows ==> r in ts
    ensures IsOldest(ts, rows, i)
  {
    OldestExists(ts, rows);
    var i :| IsOldest(ts, rows, i);
    i
  }

  /** ORDER BY ts ASC, id ASC */
  function OldestFirst(ts: Stamps, rows: set<nat>): (r: seq<nat>)
    requires forall x :: x in rows ==> x in ts
    ensures forall x :: x in r <==> x in rows
    ensures |r| == |rows|
    ensures forall i, j :: 0 <= i < j < |r| ==> Newer(ts, r[j], r[i])
    decreases |rows|
  {
    if rows == {} then []
    else
      var first := Oldest(ts, rows);
      [first] + OldestFirst(ts, rows - {first})
  }

  /** LIMIT k keeps exactly k rows when there are that many, and all of them otherwise. */
  lemma {:induction false} NewestCount(ts: Stamps, rows: set<nat>, k: nat)
    requires forall r :: r in rows ==> r in ts
    ensures |Newest(ts, rows, k)| == if |rows| <= k then |rows| else k
    ensures |rows| <= k ==> Newest(ts, rows, k) == rows
    decreases |rows|
  {
    if rows == {} {
      assert Newest(ts, rows, k) == {};
    } else {
      OldestExists(ts, rows);
      var m :| IsOldest(ts, rows, m);
      var rest := rows - {m};
      NewestCount(ts, rest, k);
      assert NewerThan(ts, rows, m) == rest;
      forall i | i in rest ensures NewerThan(ts, rows, i) == NewerThan(ts, rest, i) {
        assert Newer(ts, i, m) && !Newer(ts, m, i);
      }
      if |rows| <= k {
        assert Newest(ts, rows, k) == Newest(ts, rest, k) + {m};
      } else {
        assert Newest(ts, rows, k) == Newest(ts, rest, k);
      }
    }
  }

  /** A dropped row is older than every kept one. */
  lemma DroppedIsOlder(ts: Stamps, rows: set<nat>, k: nat, kept: nat, dropped: nat)
    requires forall r :: r in rows ==> r in ts
    requires kept in Newest(ts, rows, k) && dropped in rows && dropped !in Newest(ts, rows, k)
    ensures Newer(ts, kept, dropped)
  {
    if !Newer(ts, kept, dropped) {
      assert NewerThan(ts, rows, dropped) <= NewerThan(ts, rows, kept);
      SubsetSize(NewerThan(ts, rows, dropped), NewerThan(ts, rows, kept));
    }
  }

  /** The oldest row is among the newest k only when there are no more than k. */
  lemma {:induction false} NewestWithoutOldest(ts: Stamps, rows: set<nat>, k: nat)
    requires forall r :: r in rows ==> r in ts
    requires k < |rows|
    ensures var m := Oldest(ts, rows);
            m !in Newest(ts, rows, k) && Newest(ts, rows, k) == Newest(ts, rows - {m}, k)
  {
    var m := Oldest(ts, rows);
    var rest := rows - {m};
    assert NewerThan(ts, rows, m) == rest;
    forall i | i in rest ensures NewerThan(ts, rows, i) == NewerThan(ts, rest, i) {
      assert Newer(ts, i, m) && !Newer(ts, m, i);
    }
  }

  lemma PrefixStep(first: nat, tail: seq<nat>, n: nat)
    requires n <= |tail|
    ensures Members(([first] + tail)[..n + 1]) == {first} + Members(tail[..n])
  {
    assert ([first] + tail)[..n + 1] == [first] + tail[..n];
  }

  lemma OldestFirstIs(ts: Stamps, rows: set<nat>)
    requires rows != {} && forall r :: r in rows ==> r in ts
    ensures OldestFirst(ts, rows) == [Oldest(ts, rows)] + OldestFirst(ts, rows - {Oldest(ts, rows)})
  {
  }

  lemma Dropped(rows: set<nat>, m: nat, tail: seq<nat>, kept: set<nat>, k: nat)
    requires m in rows && |tail| == |rows| - 1 && k <= |tail|
    requires kept <= rows - {m} && Members(tail[..|tail| - k]) == rows - {m} - kept
    ensures Members(([m] + tail)[..|rows| - k]) == rows - kept
  {
    hide Members;
    PrefixStep(m, tail, |tail| - k);
    assert rows - kept == {m} + (rows - {m} - kept);
  }

  lemma OldestStep(ts: Stamps, rows: set<nat>, k: nat)
    requires forall r :: r in rows ==> r in ts
    requires k < |rows|
    requires var rest := rows - {Oldest(ts, rows)};
             Members(OldestFirst(ts, rest)[..|rest| - k]) == rest - Newest(ts, rest, k)
    ensures Members(OldestFirst(ts, rows)[..|rows| - k]) == rows - Newest(ts, rows, k)
  {
    hide *;
    var m := Oldest(ts, rows);
    var tail := OldestFirst(ts, rows - {m});
    OldestIsRow(ts, rows, m);
    NewestWithoutOldest(ts, rows, k);
    NewestAreRows(ts, rows - {m}, k);
    OldestFirstIs(ts, rows);
    Dropped(rows, m, tail, Newest(ts, rows - {m}, k), k);
  }

  /** Dropping the first rows of ORDER BY ts ASC, id ASC until k are left keeps the newest k. */
  lemma {:induction false} OldestAreNotNewest(ts: Stamps, rows: set<nat>, k: nat)
    requires forall r :: r in rows ==> r in ts
    requires k <= |rows|
    ensures Members(OldestFirst(ts, rows)[..|rows| - k]) == rows - Newest(ts, rows, k)
    decreases |rows|
  {
    hide Newest, NewerThan, IsOldest, OldestFirst, Newer, Members;
    if k == |rows| {
      NewestCount(ts, rows, k);
      NoMembers(OldestFirst(ts, rows));
    } else {
      var m := Oldest(ts, rows);
      OldestIsRow(ts, rows, m);
      OldestAreNotNewest(ts, rows - {m}, k);
      OldestStep(ts, rows, k);
    }
  }

  lemma NoMembers(s: seq<nat>)
    ensures Members(s[..0]) == {}
  {
  }

  lemma OldestIsRow(ts: Stamps, rows: set<nat>, m: nat)
    requires (forall r :: r in rows ==> r in ts) && IsOldest(ts, rows, m)
    ensures m in rows
  {
  }

  lemma NewestAreRows(ts: Stamps, rows: set<nat>, k: nat)
    requires forall r :: r in rows ==> r in ts
    ensures Newest(ts, rows, k) <= rows
  {
  }

  lemma {:induction false} SubsetSize<T>(a: set<T>, b: set<T>)
    requires a <= b
    ensures |a| <= |b|
  {
    if a != {} {
      var x :| x in a;
      SubsetSize(a - {x}, b - {x});
    }
  }
}
