/** Values shared by the other modules: optional values and insertion-ordered dictionaries. */
module Collections {

  datatype Option<+T> = None | Some(value: T)

  /** One entry of an insertion-ordered dictionary. */
  datatype Item<K, V> = Item(key: K, value: V)

  /** An insertion-ordered dictionary: a Python dict or OrderedDict, oldest entry first. */
  type Odict<K, V> = seq<Item<K, V>>

  function Members<T>(s: seq<T>): set<T> {
    set x | x in s
  }

  predicate Has<K(==), V>(d: Odict<K, V>, k: K) {
    exists i :: 0 <= i < |d| && d[i].key == k
  }

  function Get<K(==), V>(d: Odict<K, V>, k: K): (r: Option<V>)
    ensures r.Some? <==> Has(d, k)
    ensures r.Some? ==> Item(k, r.value) in d
  {
    if d == [] then None
    else if d[0].key == k then Some(d[0].value)
    else
      var rest := Get(d[1..], k);
      assert forall i :: 1 <= i < |d| ==> d[i] == d[1..][i - 1];
      rest
  }

  /** Assignment: an existing key keeps its place, a new key goes to the end. */
  function Put<K(==), V>(d: Odict<K, V>, k: K, v: V): (r: Odict<K, V>)
    ensures forall x :: x in r ==> x == Item(k, v) || x in d
    ensures Item(k, v) in r
    ensures |r| == if Has(d, k) then |d| else |d| + 1
  {
    if d == [] then [Item(k, v)]
    else if d[0].key == k then [Item(k, v)] + d[1..]
    else
      var rest := Put(d[1..], k, v);
      assert forall i :: 1 <= i < |d| ==> d[i] == d[1..][i - 1];
      assert Item(k, v) == ([d[0]] + rest)[1..][0] || Item(k, v) in rest;
      [d[0]] + rest
  }

  function Del<K(==), V>(d: Odict<K, V>, k: K): (r: Odict<K, V>)
    ensures forall x :: x in r ==> x in d && x.key != k
    ensures forall x :: x in d && x.key != k ==> x in r
    ensures |r| <= |d|
    ensures !Has(d, k) ==> r == d
  {
    if d == [] then []
    else
      var rest := Del(d[1..], k);
      assert forall i :: 1 <= i < |d| ==> d[i] == d[1..][i - 1];
      if d[0].key == k then rest else [d[0]] + rest
  }

  ghost predicate UniqueKeys<K, V>(d: Odict<K, V>) {
    forall i, j :: 0 <= i < j < |d| ==> d[i].key != d[j].key
  }

  lemma HasTail<K, V>(d: Odict<K, V>, k: K)
    requires d != []
    ensures Has(d, k) <==> d[0].key == k || Has(d[1..], k)
  {
    if Has(d[1..], k) {
      var i :| 0 <= i < |d[1..]| && d[1..][i].key == k;
      assert d[i + 1].key == k;
    }
    if Has(d, k) {
      var i :| 0 <= i < |d| && d[i].key == k;
      assert i > 0 ==> d[1..][i - 1].key == k;
    }
  }

  /** Deleting a key removes its entry and leaves the others. */
  lemma {:induction false} DelFacts<K(!new), V>(d: Odict<K, V>, k: K)
    requires UniqueKeys(d)
    ensures UniqueKeys(Del(d, k)) && !Has(Del(d, k), k)
    ensures |Del(d, k)| == if Has(d, k) then |d| - 1 else |d|
    ensures forall j :: j != k ==> Get(Del(d, k), j) == Get(d, j)
    decreases |d|
  {
    if d != [] {
      var rest := d[1..];
      assert forall i :: 0 <= i < |rest| ==> rest[i] == d[i + 1];
      DelFacts(rest, k);
      HasTail(d, k);
      var gone := Del(rest, k);
      if d[0].key == k {
        assert !Has(rest, k);
      } else {
        forall j | 0 <= j < |gone| ensures gone[j].key != d[0].key {
          assert gone[j] in gone && gone[j] in rest;
        }
        assert ([d[0]] + gone)[1..] == gone;
        HasTail([d[0]] + gone, k);
      }
    }
  }

  /** A new last entry is found under its key and leaves the others. */
  lemma {:induction false} AppendFacts<K(!new), V>(d: Odict<K, V>, k: K, v: V)
    requires UniqueKeys(d) && !Has(d, k)
    ensures UniqueKeys(d + [Item(k, v)])
    ensures Get(d + [Item(k, v)], k) == Some(v)
    ensures forall j :: j != k ==> Get(d + [Item(k, v)], j) == Get(d, j)
    decreases |d|
  {
    var r := d + [Item(k, v)];
    if d == [] {
      assert r == [Item(k, v)] && r[1..] == [];
    } else {
      HasTail(d, k);
      AppendFacts(d[1..], k, v);
      assert r[1..] == d[1..] + [Item(k, v)];
    }
  }
}
