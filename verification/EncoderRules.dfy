/** Which dictionaries the encoder takes and what it writes for those that cannot be read back as they are
    (live402/algo_tx.py, msgpack_encode): entries that are None are left out, and a bool in a list is a number. */
module EncoderRules {
  import opened Collections
  import opened TextOrder
  import opened Utf8
  import opened MsgPack
  import opened AlgoTx

  // ---- what can be encoded ------------------------------------------------------------------

  predicate Word(n: int) {
    0 <= n < 0x1_0000_0000_0000_0000
  }

  predicate EncodableItem(x: Val) {
    match x
    case VInt(n) => Word(n)
    case VBytes(b) => |b| < 0x1_0000_0000
    case VBool(_) => true
    case _ => false
  }

  /** The entries that are not None. */
  function Present(m: map<string, Val>): set<string> {
    set k | k in m && !m[k].VNone?
  }

  /** Numbers of 64 bits, texts and keys of less than 256 bytes, byte strings of less than 2^32, and lists and
      dictionaries of less than 65536 of these; lists hold numbers, bools and byte strings only. */
  predicate Encodable(v: Val) {
    match v
    case VInt(n) => Word(n)
    case VText(t) => |Encode(t)| < 256
    case VBytes(b) => |b| < 0x1_0000_0000
    case VBool(_) => true
    case VNone => false
    case VList(xs) => |xs| < 65536 && forall x :: x in xs ==> EncodableItem(x)
    case VDict(m) =>
      |Present(m)| < 65536 && forall k :: k in m && !m[k].VNone? ==> |Encode(k)| < 256 && Encodable(m[k])
  }

  lemma UintIff(n: int)
    requires n >= 0
    ensures MpUint(n).Some? <==> Word(n)
  {
    hide BigEndian;
  }

  lemma {:induction false} ItemsIff(xs: seq<Val>)
    ensures EncodeItems(xs).Some? <==> forall x :: x in xs ==> EncodableItem(x)
    decreases |xs|
  {
    if xs != [] {
      ItemsIff(xs[1..]);
      ItemIff(xs[0]);
      hide EncodeItem, EncodableItem;
      assert xs == [xs[0]] + xs[1..];
    }
  }

  lemma ItemIff(x: Val)
    ensures EncodeItem(x).Some? <==> EncodableItem(x)
  {
    hide BigEndian;
  }

  lemma {:induction false} PairsIff(v: Val, keys: seq<string>)
    requires v.VDict? && forall k :: k in keys ==> k in v.fields
    ensures EncodePairs(v, keys).Some?
            <==> forall k :: k in keys && !v.fields[k].VNone? ==> |Encode(k)| < 256 && EncodeVal(v.fields[k]).Some?
    decreases |keys|
  {
    hide EncodeVal, Encode;
    if keys != [] {
      PairsIff(v, keys[1..]);
      assert keys == [keys[0]] + keys[1..];
    }
  }

  lemma {:induction false} KeptCount(v: Val, ks: set<string>)
    requires v.VDict? && ks <= v.fields.Keys
    ensures Kept(v, Sorted(ks)) == |set k | k in ks && !v.fields[k].VNone?|
    decreases |ks|
  {
    hide Sorted;
    if ks != {} {
      var k := Least(ks);
      var rest := Sorted(ks - {k});
      KeptCount(v, ks - {k});
      LeastOfPart(ks, ks);
      assert ([k] + rest)[1..] == rest;
      var all, some := set x | x in ks && !v.fields[x].VNone?, set x | x in ks - {k} && !v.fields[x].VNone?;
      assert some == all - {k};
    } else {
      NothingSorted();
    }
  }

  /** Exactly these are encoded. */
  lemma {:induction false} EncodesIff(v: Val)
    ensures EncodeVal(v).Some? <==> Encodable(v)
    decreases v
  {
    match v
    case VInt(n) => if n >= 0 { UintIff(n); }
    case VList(xs) => ListIff(xs);
    case VDict(m) =>
      forall k | k in m ensures EncodeVal(m[k]).Some? <==> Encodable(m[k]) { EncodesIff(m[k]); }
      DictIff(m);
    case _ => LeafIff(v);
  }

  lemma LeafIff(v: Val)
    requires v.VText? || v.VBytes? || v.VBool? || v.VNone?
    ensures EncodeVal(v).Some? <==> Encodable(v)
  {
    hide BigEndian, Encode;
  }

  lemma ListIff(xs: seq<Val>)
    ensures EncodeVal(VList(xs)).Some? <==> Encodable(VList(xs))
  {
    hide EncodeItems, EncodableItem, BigEndian;
    ItemsIff(xs);
  }

  lemma DictIff(m: map<string, Val>)
    requires forall k :: k in m ==> (EncodeVal(m[k]).Some? <==> Encodable(m[k]))
    ensures EncodeVal(VDict(m)).Some? <==> Encodable(VDict(m))
  {
    hide EncodePairs, Kept, Sorted, BigEndian, Encode;
    var keys := Sorted(m.Keys);
    PairsIff(VDict(m), keys);
    KeptCount(VDict(m), m.Keys);
    assert Present(m) == set k | k in m.Keys && !m[k].VNone?;
    assert EncodeVal(VDict(m)) == EncodeDict(VDict(m));
  }

  // ---- what is written ----------------------------------------------------------------------

  function Number(x: Val): Val {
    if x.VBool? then VInt(if x.flag then 1 else 0) else x
  }

  function Numbers(xs: seq<Val>): (r: seq<Val>)
    ensures |r| == |xs| && forall i :: 0 <= i < |r| ==> r[i] == Number(xs[i])
  {
    seq(|xs|, i requires 0 <= i < |xs| => Number(xs[i]))
  }

  /** Without the entries that are None, and with numbers for the bools of a list. */
  function Normal(v: Val): (r: Val)
    ensures v.VDict? ==> r.VDict? && r.fields.Keys == Present(v.fields)
    ensures r.VNone? <==> v.VNone?
  {
    match v
    case VList(xs) => VList(Numbers(xs))
    case VDict(m) => VDict(map k | k in m && !m[k].VNone? :: Normal(m[k]))
    case _ => v
  }

  lemma {:induction false} ItemsNormal(xs: seq<Val>)
    ensures EncodeItems(Numbers(xs)) == EncodeItems(xs)
    decreases |xs|
  {
    if xs != [] {
      ItemsNormal(xs[1..]);
      assert Numbers(xs)[1..] == Numbers(xs[1..]);
    }
  }

  /** The least key of a set is the least of every part that it is in. */
  lemma LeastOfPart(ks: set<string>, part: set<string>)
    requires ks != {} && part <= ks && Least(ks) in part
    ensures Least(part) == Least(ks) && Sorted(part) == [Least(ks)] + Sorted(part - {Least(ks)})
  {
    assert IsLeast(Least(ks), part);
    LeastIsUnique(part);
  }

  lemma {:induction false} PairsNormal(v: Val, n: Val, ks: set<string>)
    requires v.VDict? && n.VDict? && ks <= v.fields.Keys && n.fields.Keys == Present(v.fields)
    requires forall k :: k in n.fields ==> !n.fields[k].VNone? && EncodeVal(n.fields[k]) == EncodeVal(v.fields[k])
    ensures var some := ks * Present(v.fields);
            && EncodePairs(n, Sorted(some)) == EncodePairs(v, Sorted(ks))
            && Kept(n, Sorted(some)) == Kept(v, Sorted(ks))
    decreases |ks|
  {
    hide EncodeVal, Encode, MpStr, Sorted;
    if ks != {} {
      var k, some := Least(ks), ks * Present(v.fields);
      PairsNormal(v, n, ks - {k});
      LeastOfPart(ks, ks);
      assert (ks - {k}) * Present(v.fields) == some - {k};
      var rest := Sorted(ks - {k});
      assert Sorted(ks) == [k] + rest && ([k] + rest)[1..] == rest;
      if v.fields[k].VNone? {
        assert some - {k} == some;
      } else {
        LeastOfPart(ks, some);
        var others := Sorted(some - {k});
        assert Sorted(some) == [k] + others && ([k] + others)[1..] == others;
      }
    } else {
      NothingSorted();
      assert ks * Present(v.fields) == {};
    }
  }

  lemma NothingSorted()
    ensures Sorted({}) == []
  {
  }

  /** A value and its normal form are written alike. */
  lemma {:induction false} NormalIsWritten(v: Val)
    ensures EncodeVal(Normal(v)) == EncodeVal(v)
    decreases v
  {
    match v
    case VList(xs) => ItemsNormal(xs);
    case VDict(m) =>
      forall k | k in m && !m[k].VNone? ensures EncodeVal(Normal(m[k])) == EncodeVal(m[k]) { NormalIsWritten(m[k]); }
      DictNormal(m);
    case _ =>
  }

  lemma DictNormal(m: map<string, Val>)
    requires forall k :: k in m && !m[k].VNone? ==> EncodeVal(Normal(m[k])) == EncodeVal(m[k])
    ensures EncodeVal(Normal(VDict(m))) == EncodeVal(VDict(m))
  {
    hide EncodePairs, Kept, Sorted;
    var v, n := VDict(m), Normal(VDict(m));
    PairsNormal(v, n, m.Keys);
    assert m.Keys * Present(m) == n.fields.Keys;
    assert EncodeVal(v) == EncodeDict(v) && EncodeVal(n) == EncodeDict(n);
  }

  /** What strict reading gives back of any dictionary that can be encoded is its normal form, exactly when that holds
      no bool and no empty key, nests at most eight deep, and the bytes are at most 8192. */
  lemma NormalIsReadBack(d: map<string, Val>)
    requires Encodable(VDict(d))
    ensures var n := Normal(VDict(d));
            && EncodeDict(VDict(d)).Some?
            && (MsgpackDecode(EncodeDict(VDict(d)).value) == Some(n.fields)
                <==> Plain(n) && Nested(n, 9) && |EncodeDict(VDict(d)).value| <= 8192)
  {
    hide EncodeDict, Normal, Plain, Nested, MsgpackDecode, Encodable;
    var v, n := VDict(d), Normal(VDict(d));
    EncodesIff(v);
    NormalIsWritten(v);
    assert EncodeVal(v) == EncodeDict(v) && EncodeVal(n) == EncodeDict(n);
    DecodeEncodedIff(n.fields);
  }
}
