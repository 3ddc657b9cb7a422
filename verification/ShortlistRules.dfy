/** When history does reorder a shortlist (live402/probe.py), stated on what the store knows of each URL. */
module ShortlistRules {
  import opened Collections
  import opened StableSort
  import opened Shortlist

  // ---- what a row says ----------------------------------------------------------------------

  /** The last success is less than so many seconds old. */
  predicate SucceededWithin(hint: Hint, now: int, seconds: int) {
    hint.lastOk.Some? && now - hint.lastOk.value < seconds
  }

  /** The bands are five minutes, an hour and a day; ten checks make a mature history and three a weak one. */
  lemma RowSays(items: seq<Resource>, hints: map<string, Hint>, now: int, i: nat)
    requires i < |items|
    ensures var r := RowOf(items, hints, now, i);
            var hint := if items[i].url in hints then hints[items[i].url] else Hint(None, 0);
            && r.idx == i && r.item == items[i] && r.checks == hint.checks
            && (r.mature <==> hint.checks >= 10) && (r.weak <==> hint.checks >= 3)
            && (r.band >= 3 <==> SucceededWithin(hint, now, 300))
            && (r.band >= 2 <==> SucceededWithin(hint, now, 3600))
            && (r.band >= 1 <==> SucceededWithin(hint, now, 86400))
            && 0 <= r.band <= 3
  {
  }

  /** The better history: the fresher success, then a mature and then a weak record, then more checks where the
      record counts; on a tie the one that was ranked first. */
  predicate BetterHistory(a: Row, b: Row) {
    || a.band > b.band
    || (a.band == b.band && a.mature && !b.mature)
    || (a.band == b.band && a.mature == b.mature && a.weak && !b.weak)
    || (a.band == b.band && a.mature == b.mature && a.weak == b.weak && (a.mature || a.weak) && a.checks > b.checks)
    || (a.band == b.band && a.mature == b.mature && a.weak == b.weak
        && ((a.mature || a.weak) ==> a.checks == b.checks) && a.idx < b.idx)
  }

  lemma HistoryIff(a: Row, b: Row)
    ensures ByHistory(a, b) < 0 <==> BetterHistory(a, b)
    ensures ByHistory(a, b) > 0 <==> BetterHistory(b, a)
  {
  }

  // ---- clusters -----------------------------------------------------------------------------

  /** The earlier row has no worse history, or a row of its group whose score is at least 20 above that of the later
      one, and not below that of the earlier one, keeps them apart. */
  ghost predicate Justified(group: seq<Row>, x: Row, y: Row) {
    !BetterHistory(y, x)
    || exists z :: z in group && z.item.score >= x.item.score && z.item.score - y.item.score >= 20
  }

  lemma {:induction false} ClustersJustify(group: seq<Row>)
    requires Descending(group)
    ensures multiset(Clustered(group)) == multiset(group) && |Clustered(group)| == |group|
    ensures forall i, j :: 0 <= i < j < |Clustered(group)| ==>
              Justified(group, Clustered(group)[i], Clustered(group)[j])
    decreases |group|
  {
    hide Sort, BetterHistory, ByHistory;
    ClusteredKeeps(group);
    SameMembers(Clustered(group), group);
    if group != [] {
      var n := ClusterEnd(group, 1);
      var first, rest := Sort(ByHistory, group[..n]), Clustered(group[n..]);
      TailFalls(group, n);
      ClustersJustify(group[n..]);
      SortedByHistory(group[..n]);
      SameMembers(rest, group[n..]);
      ClusterStops(group, 1);
      var r := Clustered(group);
      assert r == first + rest;
      forall i, j | 0 <= i < j < |r| ensures Justified(group, r[i], r[j]) {
        if j < |first| {
          assert HistoryLeq(first[i], first[j]);
          HistoryIff(r[i], r[j]);
        } else if i < |first| {
          assert r[i] in first && r[i] in group[..n] && r[j] == rest[j - |first|];
          assert r[j] in rest && r[j] in group[n..];
          Apart(group, n, r[i], r[j]);
        } else {
          assert r[i] == rest[i - |first|] && r[j] == rest[j - |first|];
          assert Justified(group[n..], r[i], r[j]);
          Wider(group, n, r[i], r[j]);
        }
      }
    }
  }

  lemma Wider(group: seq<Row>, n: nat, x: Row, y: Row)
    requires n <= |group| && Justified(group[n..], x, y)
    ensures Justified(group, x, y)
  {
    hide BetterHistory;
    if z :| z in group[n..] && z.item.score >= x.item.score && z.item.score - y.item.score >= 20 {
      assert z in group;
    }
  }

  /** Rows of different clusters are kept apart by the first row of the earlier one. */
  lemma Apart(group: seq<Row>, n: nat, x: Row, y: Row)
    requires Descending(group) && group != [] && n == ClusterEnd(group, 1)
    requires x in group[..n] && y in group[n..]
    ensures Justified(group, x, y)
  {
    hide BetterHistory;
    ClusterStops(group, 1);
    var i :| 0 <= i < n && group[i] == x;
    var j :| n <= j < |group| && group[j] == y;
    if i > 0 { Falls(group, 0, i); }
    if n > 0 { Falls(group, 0, n); }
    if j > n { Falls(group, n, j); }
    assert group[0] in group;
  }

  /** History is followed wherever it may be: in the reordered head an item stands before another one of its preference
      group with a better history only when some item of the group, scoring no less than the first of the two, scores
      at least 20 more than the second. */
  lemma HistoryIsFollowed(rows: seq<Row>, i: nat, j: nat)
    requires i < j < |Boosted(rows)| && Boosted(rows)[i].item.preferred == Boosted(rows)[j].item.preferred
    ensures Justified(rows, Boosted(rows)[i], Boosted(rows)[j])
  {
    hide Reordered, BetterHistory;
    var p, o := Chosen(rows, true), Chosen(rows, false);
    var a, b := Reordered(p), Reordered(o);
    GroupJustifies(rows, true);
    GroupJustifies(rows, false);
    assert forall k :: 0 <= k < |a| ==> a[k].item.preferred;
    assert forall k :: 0 <= k < |b| ==> !b[k].item.preferred;
    if j < |a| {
      assert Boosted(rows)[i] == a[i] && Boosted(rows)[j] == a[j];
    } else {
      assert Boosted(rows)[j] == b[j - |a|];
      assert i >= |a| && Boosted(rows)[i] == b[i - |a|];
    }
  }

  predicate AllPreferred(rows: seq<Row>, preferred: bool) {
    forall i :: 0 <= i < |rows| ==> rows[i].item.preferred == preferred
  }

  lemma GroupJustifies(rows: seq<Row>, preferred: bool)
    ensures AllPreferred(Reordered(Chosen(rows, preferred)), preferred)
    ensures var r := Reordered(Chosen(rows, preferred));
            forall i, j :: 0 <= i < j < |r| ==> Justified(rows, r[i], r[j])
  {
    hide Chosen, BetterHistory, Clustered, Sort;
    var group := Chosen(rows, preferred);
    var sorted := Sort(ByScore, group);
    SortedByScore(group);
    SameMembers(sorted, group);
    ClustersJustify(sorted);
    var r := Reordered(group);
    SameMembers(r, sorted);
    forall i | 0 <= i < |r| ensures r[i].item.preferred == preferred { assert r[i] in r && r[i] in sorted; }
    forall i, j | 0 <= i < j < |r| ensures Justified(rows, r[i], r[j]) {
      assert Justified(sorted, r[i], r[j]);
      if z :| z in sorted && z.item.score >= r[i].item.score && z.item.score - r[j].item.score >= 20 {
        assert z in rows;
      }
    }
  }
}
