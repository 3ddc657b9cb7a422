/** The order of Python strings and sorted sets of them. */
module TextOrder {

  /** Order of Python strings: by code point. */
  predicate Less(a: string, b: string) {
    b != "" && (a == "" || a[0] < b[0] || (a[0] == b[0] && Less(a[1..], b[1..])))
  }

  lemma {:induction false} LessTotal(a: string, b: string)
    ensures Less(a, b) || Less(b, a) || a == b
    ensures !(Less(a, b) && Less(b, a)) && !(Less(a, b) && a == b)
  {
    if a != "" && b != "" {
      LessTotal(a[1..], b[1..]);
      if a[0] == b[0] { assert a == [a[0]] + a[1..] && b == [b[0]] + b[1..]; }
    }
  }

  lemma {:induction false} LessTransitive(a: string, b: string, c: string)
    requires Less(a, b) && Less(b, c)
    ensures Less(a, c)
  {
    if a != "" && a[0] == b[0] == c[0] { LessTransitive(a[1..], b[1..], c[1..]); }
  }

  predicate IsLeast(k: string, ks: set<string>) {
    k in ks && forall x :: x in ks && x != k ==> Less(k, x)
  }

  lemma {:induction false} LeastExists(ks: set<string>)
    requires ks != {}
    ensures exists k :: IsLeast(k, ks)
  {
    var x :| x in ks;
    if ks == {x} {
      assert IsLeast(x, ks);
    } else {
      LeastExists(ks - {x});
      var k :| IsLeast(k, ks - {x});
      LessTotal(x, k);
      if Less(x, k) {
        forall y | y in ks && y != x ensures Less(x, y) {
          if y != k { LessTransitive(x, k, y); }
        }
        assert IsLeast(x, ks);
      } else {
        assert IsLeast(k, ks);
      }
    }
  }

  lemma LeastIsUnique(ks: set<string>)
    ensures forall k, l :: IsLeast(k, ks) && IsLeast(l, ks) ==> k == l
  {
    forall k, l | IsLeast(k, ks) && IsLeast(l, ks) ensures k == l { LessTotal(k, l); }
  }

  function Least(ks: set<string>): (k: string)
    requires ks != {}
    ensures IsLeast(k, ks)
  {
    LeastExists(ks);
    LeastIsUnique(ks);
    var k :| IsLeast(k, ks);
    k
  }

  /** sorted(d.keys()) */
  function Sorted(ks: set<string>): (r: seq<string>)
    ensures forall k :: k in r <==> k in ks
    ensures forall i :: 0 < i < |r| ==> Less(r[i - 1], r[i])
    ensures |r| == |ks|
    decreases |ks|
  {
    if ks == {} then [] else
      var k := Least(ks);
      var rest := Sorted(ks - {k});
      assert rest != [] ==> rest[0] in rest;
      [k] + rest
  }
}
