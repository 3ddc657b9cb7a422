/** The sorted-map encoder, the unsigned payment group and its group id (live402/algo_tx.py).
    The hash is any function; base64 around the group members is not modelled. */
module AlgoTx {
  import opened Collections
  import opened TextOrder
  import opened Utf8
  import opened MsgPack
  import opened MsgPackStrict

  /** The Python values the encoder accepts. */
  datatype Val =
    | VInt(number: int)
    | VText(text: string)
    | VBytes(bytes: Bytes)
    | VBool(flag: bool)
    | VNone
    | VList(items: seq<Val>)
    | VDict(fields: map<string, Val>)

  // ---- msgpack_encode ----------------------------------------------------------------------

  function Append(a: Option<Bytes>, b: Option<Bytes>): Option<Bytes> {
    if a.Some? && b.Some? then Some(a.value + b.value) else None
  }

  /** A list element: bytes as bin, anything else through int(). */
  function EncodeItem(x: Val): Option<Bytes> {
    match x
    case VBytes(b) => MpBin(b)
    case VInt(n) => if n < 0 then None else MpUint(n)
    case VBool(f) => MpUint(if f then 1 else 0)
    case _ => None
  }

  function EncodeItems(xs: seq<Val>): Option<Bytes> {
    if xs == [] then Some([]) else Append(EncodeItem(xs[0]), EncodeItems(xs[1..]))
  }

  /** The encoding of one value of a map; None stands for the exception. */
  function EncodeVal(v: Val): Option<Bytes>
    decreases v, 1, 0
  {
    match v
    case VInt(n) => if n < 0 then None else MpUint(n)
    case VText(t) => MpStr(Encode(t))
    case VBytes(b) => MpBin(b)
    case VBool(f) => Some([if f then 0xC3 else 0xC2])
    case VNone => None
    case VList(xs) => Append(ArrayHead(|xs|), EncodeItems(xs))
    case VDict(m) => EncodeDict(v)
  }

  /** The pairs of a map for some of its keys, in that order; entries that are None are skipped. */
  function EncodePairs(v: Val, keys: seq<string>): Option<Bytes>
    requires v.VDict? && forall k :: k in keys ==> k in v.fields
    decreases v, 0, |keys|
  {
    if keys == [] then Some([])
    else
      var rest := EncodePairs(v, keys[1..]);
      if v.fields[keys[0]].VNone? then rest
      else Append(Append(MpStr(Encode(keys[0])), EncodeVal(v.fields[keys[0]])), rest)
  }

  function Kept(v: Val, keys: seq<string>): nat
    requires v.VDict? && forall k :: k in keys ==> k in v.fields
  {
    if keys == [] then 0 else (if v.fields[keys[0]].VNone? then 0 else 1) + Kept(v, keys[1..])
  }

  /** msgpack_encode */
  function EncodeDict(v: Val): Option<Bytes>
    requires v.VDict?
    decreases v, 0, |v.fields| + 1
  {
    assert |Sorted(v.fields.Keys)| == |v.fields|;
    var keys := Sorted(v.fields.Keys);
    Append(MapHead(Kept(v, keys)), EncodePairs(v, keys))
  }

  lemma AppendTurn(a: Bytes, p: Bytes, rest: Option<Bytes>)
    ensures Append(Some(a), Append(Some(p), rest)) == Append(Some(a + p), rest)
    ensures rest.Some? ==> [] + rest.value == rest.value
  {
    if rest.Some? { assert a + (p + rest.value) == (a + p) + rest.value; }
  }

  /** One turn of the encoder's loop. */
  lemma PairsTurn(v: Val, keys: seq<string>, i: nat)
    requires v.VDict? && (forall k :: k in keys ==> k in v.fields) && i <= |keys|
    ensures i == |keys| ==> EncodePairs(v, keys[i..]) == Some([]) && Kept(v, keys[i..]) == 0
    ensures i < |keys| ==>
      var x := v.fields[keys[i]];
      && EncodePairs(v, keys[i..]) ==
         (if x.VNone? then EncodePairs(v, keys[i + 1..])
          else Append(Append(MpStr(Encode(keys[i])), EncodeVal(x)), EncodePairs(v, keys[i + 1..])))
      && Kept(v, keys[i..]) == (if x.VNone? then 0 else 1) + Kept(v, keys[i + 1..])
      && (x.VDict? ==> EncodeVal(x) == EncodeDict(x))
  {
    if i < |keys| { assert keys[i..][0] == keys[i] && keys[i..][1..] == keys[i + 1..]; }
  }

  method MsgpackEncode(v: Val) returns (out: Option<Bytes>)
    requires v.VDict?
    ensures out == EncodeDict(v)
    decreases v
  {
    hide MpStr, MapHead, EncodeVal, Encode, Sorted, EncodePairs, Kept;
    var keys := Sorted(v.fields.Keys);
    var pairs: Bytes := [];
    var n := 0;
    var i := 0;
    assert keys[0..] == keys;
    AppendTurn([], [], EncodePairs(v, keys));
    while i < |keys|
      invariant 0 <= i <= |keys|
      invariant EncodePairs(v, keys) == Append(Some(pairs), EncodePairs(v, keys[i..]))
      invariant Kept(v, keys) == n + Kept(v, keys[i..])
    {
      PairsTurn(v, keys, i);
      var key := keys[i];
      var val := v.fields[key];
      i := i + 1;
      if val.VNone? { continue; }
      var encoded;
      if val.VDict? {
        encoded := MsgpackEncode(val);
      } else {
        encoded := EncodeVal(val);
      }
      var pair := Append(MpStr(Encode(key)), encoded);
      if pair.None? { return None; }
      AppendTurn(pairs, pair.value, EncodePairs(v, keys[i..]));
      pairs := pairs + pair.value;
      n := n + 1;
    }
    PairsTurn(v, keys, i);
    assert pairs + [] == pairs;
    return Append(MapHead(n), Some(pairs));
  }

  // ---- encoder and strict reader -----------------------------------------------------------

  /** Forgetting str versus bin: the Python value. */
  function Erase(n: Node): Val {
    match n
    case Int(k) => VInt(k)
    case Text(t) => VText(t)
    case Raw(b, _) => VBytes(b)
    case List(xs) => VList(seq(|xs|, i requires 0 <= i < |xs| => Erase(xs[i])))
    case Dict(es) => VDict(EraseAll(es))
  }

  function EraseAll(es: seq<Entry>): map<string, Val> {
    if es == [] then map[] else EraseAll(es[1..])[es[0].key := Erase(es[0].value)]
  }

  /** msgpack_decode(raw, strict=True) as a Python dict. */
  function MsgpackDecode(raw: Bytes): Option<map<string, Val>> {
    match DecodeStrict(raw)
    case None => None
    case Some(es) => Some(EraseAll(es))
  }

  /** Values that strict reading can give back: no bools, no nils, no empty keys; lists of bytes and integers. */
  predicate Plain(v: Val) {
    match v
    case VInt(_) => true
    case VText(_) => true
    case VBytes(_) => true
    case VBool(_) => false
    case VNone => false
    case VList(xs) => forall x :: x in xs ==> x.VInt? || x.VBytes?
    case VDict(m) => "" !in m && forall k :: k in m ==> Plain(m[k])
  }

  /** Containers nest no deeper than k levels, counting a leaf as one. */
  predicate Nested(v: Val, k: int) {
    k >= 1 &&
    match v
    case VList(xs) => xs == [] || k >= 2
    case VDict(m) => forall x :: x in m ==> k >= 2 && Nested(m[x], k - 1)
    case _ => true
  }

  /** Byte strings of less than 65536 bytes, which have a wire form that strict reading accepts. */
  predicate Narrow(v: Val) {
    match v
    case VBytes(b) => |b| < 65536
    case VList(xs) => forall x :: x in xs ==> Narrow(x)
    case VDict(m) => forall k :: k in m ==> Narrow(m[k])
    case _ => true
  }

  /** The wire value the encoder writes. */
  function NodeOf(v: Val): Node
    decreases v, 1, 0
  {
    match v
    case VInt(n) => Int(n)
    case VText(t) => Text(t)
    case VBytes(b) => Raw(b, false)
    case VList(xs) => List(seq(|xs|, i requires 0 <= i < |xs| => NodeOf(xs[i])))
    case VDict(m) => Dict(EntriesOf(v, Sorted(m.Keys)))
    case _ => Int(0)
  }

  function EntriesOf(v: Val, keys: seq<string>): (r: seq<Entry>)
    requires v.VDict? && forall k :: k in keys ==> k in v.fields
    ensures |r| == |keys| && forall i :: 0 <= i < |r| ==> r[i].key == keys[i]
    decreases v, 0, |keys|
  {
    if keys == [] then [] else [Entry(keys[0], NodeOf(v.fields[keys[0]]))] + EntriesOf(v, keys[1..])
  }

  lemma {:induction false} ItemsAreErased(xs: seq<Val>)
    requires forall x :: x in xs ==> x.VInt? || x.VBytes?
    ensures Erase(NodeOf(VList(xs))) == VList(xs)
  {
    var n := NodeOf(VList(xs));
    forall i | 0 <= i < |xs| ensures Erase(n.items[i]) == xs[i] {
      assert xs[i] in xs && n.items[i] == NodeOf(xs[i]);
    }
    assert Erase(n).items == xs;
  }

  /** The wire value stands for the value it was written from. */
  lemma {:induction false} NodeIsErased(v: Val)
    requires Plain(v)
    ensures Erase(NodeOf(v)) == v
    decreases v, 1, 0
  {
    match v
    case VList(xs) => ItemsAreErased(xs);
    case VDict(m) =>
      EntriesAreErased(v, Sorted(m.Keys));
      DictIsErased(v);
    case _ =>
  }

  lemma DictIsErased(v: Val)
    requires v.VDict?
    requires var es := EntriesOf(v, Sorted(v.fields.Keys));
             && (forall x :: x in EraseAll(es) <==> x in v.fields)
             && (forall x :: x in v.fields ==> EraseAll(es)[x] == v.fields[x])
    ensures Erase(NodeOf(v)) == v
  {
    hide Sorted, EntriesOf, EraseAll;
    assert EraseAll(EntriesOf(v, Sorted(v.fields.Keys))) == v.fields;
  }

  lemma {:induction false} EntriesAreErased(v: Val, keys: seq<string>)
    requires Plain(v) && v.VDict? && forall k :: k in keys ==> k in v.fields
    ensures forall x :: x in EraseAll(EntriesOf(v, keys)) <==> x in keys
    ensures forall x :: x in keys ==> EraseAll(EntriesOf(v, keys))[x] == v.fields[x]
    decreases v, 0, |keys|
  {
    if keys != [] {
      var k := keys[0];
      NodeIsErased(v.fields[k]);
      EntriesAreErased(v, keys[1..]);
      hide Erase, NodeOf, Plain;
      var es := EntriesOf(v, keys);
      assert es[0] == Entry(k, NodeOf(v.fields[k])) && es[1..] == EntriesOf(v, keys[1..]);
      assert EraseAll(es) == EraseAll(es[1..])[k := v.fields[k]];
    }
  }

  lemma {:induction false} ItemsArePrinted(xs: seq<Val>, b: Bytes)
    requires forall x :: x in xs ==> (x.VInt? || x.VBytes?) && Narrow(x)
    requires EncodeItems(xs) == Some(b)
    ensures PrintAll(NodeOf(VList(xs)).items) == b
    ensures forall n :: n in NodeOf(VList(xs)).items ==> Wf(n) && Leaf(n)
  {
    if xs != [] {
      hide MpUint, MpBin;
      var ns := NodeOf(VList(xs)).items;
      var rest := EncodeItems(xs[1..]).value;
      ItemsArePrinted(xs[1..], rest);
      assert ns[1..] == NodeOf(VList(xs[1..])).items;
      assert xs[0] in xs;
      assert ns[0] == NodeOf(xs[0]);
      LeafIsPrinted(xs[0], EncodeItem(xs[0]).value);
      assert forall n :: n in ns ==> n == ns[0] || n in ns[1..];
    }
  }

  lemma LeafIsPrinted(v: Val, b: Bytes)
    requires v.VInt? || v.VText? || v.VBytes?
    requires EncodeVal(v) == Some(b) && Narrow(v)
    ensures Wf(NodeOf(v)) && Leaf(NodeOf(v)) && Print(NodeOf(v)) == b
  {
    hide BigEndian, Encode;
  }

  lemma ListIsPrinted(xs: seq<Val>, b: Bytes, k: int)
    requires Plain(VList(xs)) && Nested(VList(xs), k) && EncodeVal(VList(xs)) == Some(b) && Narrow(VList(xs))
    ensures var n := NodeOf(VList(xs)); Wf(n) && Fits(n, k) && Print(n) == b
  {
    var n := NodeOf(VList(xs));
    ItemsArePrinted(xs, EncodeItems(xs).value);
    forall x | x in n.items ensures Fits(x, k - 1) { assert Leaf(x); }
    hide BigEndian, EncodeItems, PrintAll;
  }

  lemma DictIsPrinted(v: Val, b: Bytes, k: int, es: seq<Entry>)
    requires v.VDict? && EncodeVal(v) == Some(b) && k >= 1
    requires es == EntriesOf(v, Sorted(v.fields.Keys)) && Ascending(es) && Kept(v, Sorted(v.fields.Keys)) == |es|
    requires EncodePairs(v, Sorted(v.fields.Keys)) == Some(PrintEntries(es))
    requires forall e :: e in es ==> Wf(e.value) && |Encode(e.key)| < 256 && k >= 2 && Fits(e.value, k - 1)
    ensures Wf(NodeOf(v)) && Fits(NodeOf(v), k) && Print(NodeOf(v)) == b
  {
    hide BigEndian, EncodePairs, PrintEntries, Ascending, EntriesOf, Sorted, Encode;
    assert NodeOf(v) == Dict(es);
  }

  /** What the encoder writes for a plain value is the canonical form of its wire value. */
  lemma {:induction false} EncodedIsPrinted(v: Val, b: Bytes, k: int)
    requires Plain(v) && Nested(v, k) && EncodeVal(v) == Some(b) && Narrow(v)
    ensures Wf(NodeOf(v)) && Fits(NodeOf(v), k) && Print(NodeOf(v)) == b
    decreases v, 1, 0
  {
    match v
    case VList(xs) => ListIsPrinted(xs, b, k);
    case VDict(m) =>
      var keys := Sorted(m.Keys);
      PairsArePrinted(v, keys, EncodePairs(v, keys).value, k);
      NothingIsSkipped(v, keys);
      SortedIsAscending(v);
      DictIsPrinted(v, b, k, EntriesOf(v, keys));
    case _ => LeafIsPrinted(v, b);
  }

  lemma {:induction false} NothingIsSkipped(v: Val, keys: seq<string>)
    requires Plain(v) && v.VDict? && forall k :: k in keys ==> k in v.fields
    ensures Kept(v, keys) == |keys|
  {
    if keys != [] {
      assert Plain(v.fields[keys[0]]);
      NothingIsSkipped(v, keys[1..]);
    }
  }

  lemma KeysMakeAscending(es: seq<Entry>, keys: seq<string>)
    requires |es| == |keys| && (forall i :: 0 <= i < |es| ==> es[i].key == keys[i]) && "" !in keys
    requires forall i :: 0 < i < |keys| ==> Less(keys[i - 1], keys[i])
    ensures Ascending(es)
  {
    hide Less;
    forall i | 0 <= i < |es| ensures es[i].key != "" { assert keys[i] in keys; }
  }

  lemma SortedIsAscending(v: Val)
    requires Plain(v) && v.VDict?
    ensures Ascending(EntriesOf(v, Sorted(v.fields.Keys)))
  {
    hide Less, Sorted, Ascending;
    KeysMakeAscending(EntriesOf(v, Sorted(v.fields.Keys)), Sorted(v.fields.Keys));
  }

  lemma {:induction false} PairsArePrinted(v: Val, keys: seq<string>, b: Bytes, k: int)
    requires Plain(v) && v.VDict? && Nested(v, k) && Narrow(v) && forall x :: x in keys ==> x in v.fields
    requires EncodePairs(v, keys) == Some(b)
    ensures PrintEntries(EntriesOf(v, keys)) == b
    ensures forall e :: e in EntriesOf(v, keys) ==>
              Wf(e.value) && |Encode(e.key)| < 256 && k >= 2 && Fits(e.value, k - 1)
    decreases v, 0, |keys|
  {
    if keys != [] {
      var x := keys[0];
      assert Plain(v.fields[x]) && Nested(v.fields[x], k - 1) && Narrow(v.fields[x]);
      var key, val := MpStr(Encode(x)).value, EncodeVal(v.fields[x]).value;
      var rest := EncodePairs(v, keys[1..]).value;
      EncodedIsPrinted(v.fields[x], val, k - 1);
      PairsArePrinted(v, keys[1..], rest, k);
      hide Encode, Print, Wf, Fits, EncodeVal, Plain, Nested, Narrow, NodeOf;
      var es := EntriesOf(v, keys);
      assert es[1..] == EntriesOf(v, keys[1..]);
      assert es[0] == Entry(x, NodeOf(v.fields[x]));
      assert forall e :: e in es ==> e == es[0] || e in es[1..];
    }
  }

  /** Round trip with suffix: strict reading of an encoded dict, whatever follows it, consumes the
      encoding exactly and gives the dict back. */
  lemma EncodeThenRead(d: map<string, Val>, rest: Bytes)
    requires Plain(VDict(d)) && Nested(VDict(d), Room(0)) && Narrow(VDict(d)) && EncodeDict(VDict(d)).Some?
    ensures var b := EncodeDict(VDict(d)).value;
            var r := ReadNode(b + rest, 0, 0);
            r.Got? && r.next == |b| && r.value.Dict? && EraseAll(r.value.entries) == d
  {
    var b := EncodeDict(VDict(d)).value;
    var n := NodeOf(VDict(d));
    EncodedIsPrinted(VDict(d), b, Room(0));
    NodeIsErased(VDict(d));
    hide *;
    assert (b + rest)[0..|b|] == b;
    PrintNotEmpty(n);
    StrictReadingIffCanonical(b + rest, 0, 0, n, |b|);
    ErasedDict(d, n);
  }

  lemma ErasedDict(d: map<string, Val>, n: Node)
    requires n == NodeOf(VDict(d)) && Erase(n) == VDict(d)
    ensures n.Dict? && EraseAll(n.entries) == d
  {
  }

  /** Two dictionaries with one encoding are equal. */
  lemma EncodingIsInjective(c: map<string, Val>, d: map<string, Val>)
    requires Plain(VDict(c)) && Nested(VDict(c), Room(0)) && Narrow(VDict(c))
    requires Plain(VDict(d)) && Nested(VDict(d), Room(0)) && Narrow(VDict(d))
    requires EncodeDict(VDict(c)).Some? && EncodeDict(VDict(c)) == EncodeDict(VDict(d))
    ensures c == d
  {
    hide *;
    EncodeThenRead(c, []);
    EncodeThenRead(d, []);
  }

  // ---- exactly when an encoding reads back ---------------------------------------------------

  /** Values of the shapes that strict reading delivers. */
  predicate Clean(v: Val) {
    match v
    case VBool(_) => false
    case VNone => false
    case VList(xs) => forall x :: x in xs ==> Clean(x)
    case VDict(m) => "" !in m && forall k :: k in m ==> Clean(m[k])
    case _ => true
  }

  lemma {:induction false} ReadIsClean(n: Node, k: int)
    requires Wf(n) && Fits(n, k)
    ensures Clean(Erase(n)) && Nested(Erase(n), k) && Narrow(Erase(n))
    decreases n, 0
  {
    match n
    case List(xs) =>
      forall x | x in xs ensures Clean(Erase(x)) && Narrow(Erase(x)) && k >= 2 { ReadIsClean(x, k - 1); }
      forall x | x in Erase(n).items ensures Clean(x) && Narrow(x) {
        var i :| 0 <= i < |xs| && x == Erase(xs[i]);
        assert xs[i] in xs;
      }
      if xs != [] { assert xs[0] in xs; }
    case Dict(es) =>
      forall e | e in es
        ensures Clean(Erase(e.value)) && Nested(Erase(e.value), k - 1) && Narrow(Erase(e.value))
        ensures k >= 2 && e.key != ""
      {
        ReadIsClean(e.value, k - 1);
      }
      ErasedEntry(es);
    case _ =>
  }

  lemma {:induction false} ErasedEntry(es: seq<Entry>)
    ensures forall x :: x in EraseAll(es) ==> exists e :: e in es && e.key == x && EraseAll(es)[x] == Erase(e.value)
  {
    hide Erase;
    if es != [] {
      ErasedEntry(es[1..]);
      forall x | x in EraseAll(es)
        ensures exists e :: e in es && e.key == x && EraseAll(es)[x] == Erase(e.value)
      {
        if x == es[0].key {
          assert es[0] in es;
        } else {
          assert x in EraseAll(es[1..]);
          var e :| e in es[1..] && e.key == x && EraseAll(es[1..])[x] == Erase(e.value);
          assert e in es;
        }
      }
    }
  }

  /** Within the size limit every byte string is narrow. */
  lemma {:induction false} ShortIsNarrow(v: Val)
    requires EncodeVal(v).Some? && |EncodeVal(v).value| <= MAX_BYTES
    ensures Narrow(v)
    decreases v, 1, 0
  {
    match v
    case VList(xs) => ShortItemsAreNarrow(xs);
    case VDict(m) => ShortPairsAreNarrow(v, Sorted(m.Keys));
    case _ =>
  }

  lemma {:induction false} ShortItemsAreNarrow(xs: seq<Val>)
    requires EncodeItems(xs).Some? && |EncodeItems(xs).value| <= MAX_BYTES
    ensures forall x :: x in xs ==> Narrow(x)
  {
    if xs != [] { ShortItemsAreNarrow(xs[1..]); }
  }

  lemma {:induction false} ShortPairsAreNarrow(v: Val, keys: seq<string>)
    requires v.VDict? && (forall k :: k in keys ==> k in v.fields)
    requires EncodePairs(v, keys).Some? && |EncodePairs(v, keys).value| <= MAX_BYTES
    ensures forall k :: k in keys ==> Narrow(v.fields[k])
    decreases v, 0, |keys|
  {
    if keys != [] {
      if !v.fields[keys[0]].VNone? { ShortIsNarrow(v.fields[keys[0]]); }
      ShortPairsAreNarrow(v, keys[1..]);
    }
  }

  lemma {:induction false} EncodedCleanIsPlain(v: Val)
    requires Clean(v) && EncodeVal(v).Some?
    ensures Plain(v)
    decreases v, 1, 0
  {
    match v
    case VList(xs) => EncodedItemsAreFlat(xs);
    case VDict(m) =>
      EncodedPairsArePlain(v, Sorted(m.Keys));
    case _ =>
  }

  lemma {:induction false} EncodedItemsAreFlat(xs: seq<Val>)
    requires EncodeItems(xs).Some? && forall x :: x in xs ==> Clean(x)
    ensures forall x :: x in xs ==> x.VInt? || x.VBytes?
  {
    if xs != [] { EncodedItemsAreFlat(xs[1..]); }
  }

  lemma {:induction false} EncodedPairsArePlain(v: Val, keys: seq<string>)
    requires v.VDict? && Clean(v) && (forall k :: k in keys ==> k in v.fields) && EncodePairs(v, keys).Some?
    ensures forall k :: k in keys ==> Plain(v.fields[k])
    decreases v, 0, |keys|
  {
    if keys != [] {
      assert Clean(v.fields[keys[0]]);
      EncodedCleanIsPlain(v.fields[keys[0]]);
      EncodedPairsArePlain(v, keys[1..]);
    }
  }

  /** msgpack_decode(msgpack_encode(d), strict=True) == d exactly when d holds no bool, nil or empty
      key and no list of anything but bytes and integers, nests at most eight deep, and is not too long. */
  lemma DecodeEncodedIff(d: map<string, Val>)
    requires EncodeDict(VDict(d)).Some?
    ensures MsgpackDecode(EncodeDict(VDict(d)).value) == Some(d)
            <==> Plain(VDict(d)) && Nested(VDict(d), 9) && |EncodeDict(VDict(d)).value| <= 8192
  {
    var b := EncodeDict(VDict(d)).value;
    if MsgpackDecode(b) == Some(d) {
      var r := ReadNode(b, 0, 0);
      ReadIsPrinted(b, 0, 0);
      assert NodeOk(b, 0, 0, r.value, r.next);
      ReadIsClean(r.value, Room(0));
      assert Erase(r.value) == VDict(d);
      EncodedCleanIsPlain(VDict(d));
    }
    if Plain(VDict(d)) && Nested(VDict(d), Room(0)) && |b| <= MAX_BYTES {
      ShortIsNarrow(VDict(d));
      EncodeThenRead(d, []);
      assert b + [] == b;
    }
  }

  const FLAG: map<string, Val> := map["a" := VBool(true)]
  const FLAG_BYTES: Bytes := [0x81, 0xA1, 0x61, 0xC3]

  lemma FlagReadsNothing()
    ensures DecodeStrict(FLAG_BYTES) == None
  {
    hide KeyFits, StrPayload;
    assert ReadNode(FLAG_BYTES, 3, 1) == Bad;
    assert ReadNode(FLAG_BYTES, 1, 1) == Got(StrPayload(FLAG_BYTES[2..3]), 3);
    MsgPack.MapTurn(FLAG_BYTES, 1, 1, 0, []);
  }

  lemma OneKey(k: string)
    ensures Sorted({k}) == [k]
  {
    assert Sorted({k})[0] in Sorted({k});
  }

  /** A bool is written and never read back: the encoding of {"a": true} is refused. */
  lemma BoolIsNotReadBack()
    ensures EncodeDict(VDict(FLAG)) == Some(FLAG_BYTES)
    ensures MsgpackDecode(FLAG_BYTES) == None
  {
    hide Sorted, DecodeStrict, EncodePairs, MpStr, Encode, Append, MapHead, Kept;
    var v := VDict(FLAG);
    assert v.fields.Keys == {"a"};
    OneKey("a");
    var keys := ["a"];
    assert keys[1..] == [] && keys[0..] == keys;
    assert Sorted(v.fields.Keys) == keys;
    PairsTurn(v, keys, 1);
    PairsTurn(v, keys, 0);
    FlagPieces();
    FlagReadsNothing();
    assert EncodePairs(v, keys) == Append(Append(MpStr(Encode("a")), EncodeVal(VBool(true))), Some([]));
    assert Kept(v, keys) == 1;
  }

  lemma FlagPieces()
    ensures Append(MapHead(1), Append(Append(MpStr(Encode("a")), EncodeVal(VBool(true))), Some([]))) == Some(FLAG_BYTES)
  {
    var raw: Bytes := [0x61];
    var yes: Bytes := [0xC3];
    assert Encode("a") == raw;
    var key: Bytes := [0xA0 + 1] + raw;
    assert MpStr(raw) == Some(key);
    assert key + yes + [] == [0xA1, 0x61, 0xC3];
    var head: Bytes := [0x80 + 1];
    assert head + (key + yes + []) == FLAG_BYTES;
  }

  // ---- the unsigned group ------------------------------------------------------------------

  type Hasher = Bytes -> Bytes
  type Txn = map<string, Val>

  /** sha512_256(b"TX" + encode_unsigned(txn)) */
  function TxDigest(hash: Hasher, txn: Txn): Option<Bytes> {
    match EncodeDict(VDict(txn))
    case None => None
    case Some(raw) => Some(hash([0x54, 0x58] + raw))
  }

  function TxDigests(hash: Hasher, txns: seq<Txn>): Option<seq<Val>> {
    if txns == [] then Some([])
    else
      match (TxDigest(hash, txns[0]), TxDigests(hash, txns[1..]))
      case (Some(d), Some(ds)) => Some([VBytes(d)] + ds)
      case _ => None
  }

  /** calculate_group_id */
  function GroupId(hash: Hasher, txns: seq<Txn>): Option<Bytes> {
    match TxDigests(hash, txns)
    case None => None
    case Some(ds) =>
      match EncodeDict(VDict(map["txlist" := VList(ds)]))
      case None => None
      case Some(raw) => Some(hash([0x54, 0x47] + raw))
  }

  /** Fields both transaction kinds share; zero amounts and empty values are left out. */
  function CommonFields(fee: int, first: int, last: int, gen: string, gh: Bytes, note: Bytes): Txn {
    var d0: Txn := map["lv" := VInt(last)];
    var d1 := if fee != 0 then d0["fee" := VInt(fee)] else d0;
    var d2 := if first != 0 then d1["fv" := VInt(first)] else d1;
    var d3 := if gen != "" then d2["gen" := VText(gen)] else d2;
    var d4 := if gh != [] then d3["gh" := VBytes(gh)] else d3;
    if note != [] then d4["note" := VBytes(note)] else d4
  }

  function PayTxn(sender: Bytes, receiver: Bytes, amount: int, fee: int, first: int, last: int,
                  gen: string, gh: Bytes, note: Bytes): Txn
  {
    var d := CommonFields(fee, first, last, gen, gh, note);
    (if amount != 0 then d["amt" := VInt(amount)] else d)
      ["rcv" := VBytes(receiver)]["snd" := VBytes(sender)]["type" := VText("pay")]
  }

  function AxferTxn(sender: Bytes, receiver: Bytes, amount: int, asset: int, fee: int, first: int, last: int,
                    gen: string, gh: Bytes, note: Bytes): Txn
  {
    var d := CommonFields(fee, first, last, gen, gh, note);
    var d1 := if amount != 0 then d["aamt" := VInt(amount)] else d;
    var d2 := if asset != 0 then d1["xaid" := VInt(asset)] else d1;
    d2["arcv" := VBytes(receiver)]["snd" := VBytes(sender)]["type" := VText("axfer")]
  }

  /** The two members before they carry the group id, and the encodings of the members that do.
      Addresses come decoded; NOTE_FEE_PAYER and NOTE_PAYMENT are the two notes. */
  datatype Group = Group(fee: Txn, pay: Txn, id: Bytes, members: seq<Bytes>)

  function BuildUnsignedGroup(hash: Hasher, sender: Bytes, feePayer: Bytes, payTo: Bytes, amount: int, asset: int,
                              first: int, last: int, gen: string, gh: Bytes, minFee: int): Option<Group>
  {
    var feePayerFee := (if minFee > 1000 then minFee else 1000) * 2;
    var fee := PayTxn(feePayer, feePayer, 0, feePayerFee, first, last, gen, gh, Encode("x402-fee-payer"));
    var pay := AxferTxn(sender, payTo, amount, asset, 0, first, last, gen, gh, Encode("x402-payment-v2"));
    match GroupId(hash, [fee, pay])
    case None => None
    case Some(id) =>
      match (EncodeDict(VDict(fee["grp" := VBytes(id)])), EncodeDict(VDict(pay["grp" := VBytes(id)])))
      case (Some(a), Some(b)) => Some(Group(fee, pay, id, [a, b]))
      case _ => None
  }

  /** Flat dictionaries of integers, texts and bytes under non-empty keys. */
  predicate Flat(d: Txn) {
    "" !in d && forall k :: k in d ==> d[k].VInt? || d[k].VText? || d[k].VBytes?
  }

  lemma FlatReadsBack(d: Txn)
    requires Flat(d) && EncodeDict(VDict(d)).Some? && |EncodeDict(VDict(d)).value| <= MAX_BYTES
    ensures MsgpackDecode(EncodeDict(VDict(d)).value) == Some(d)
  {
    forall k | k in d ensures Plain(d[k]) && Nested(d[k], Room(0) - 1) {}
    assert Plain(VDict(d)) && Nested(VDict(d), Room(0));
    hide *;
    DecodeEncodedIff(d);
  }

  lemma TxnsAreFlat(sender: Bytes, receiver: Bytes, amount: int, asset: int, fee: int, first: int, last: int,
                    gen: string, gh: Bytes, note: Bytes)
    ensures var d := PayTxn(sender, receiver, amount, fee, first, last, gen, gh, note); Flat(d) && "grp" !in d
    ensures var d := AxferTxn(sender, receiver, amount, asset, fee, first, last, gen, gh, note); Flat(d) && "grp" !in d
  {
    var d := CommonFields(fee, first, last, gen, gh, note);
    assert Flat(d) && "grp" !in d;
  }

  /** Every member of a built group, within the size limit, strict-decodes to a dictionary that carries
      the group id; with it removed, the two members give that same group id again. */
  lemma GroupMembersCarryTheirId(hash: Hasher, sender: Bytes, feePayer: Bytes, payTo: Bytes, amount: int, asset: int,
                                 first: int, last: int, gen: string, gh: Bytes, minFee: int)
    ensures var g := BuildUnsignedGroup(hash, sender, feePayer, payTo, amount, asset, first, last, gen, gh, minFee);
            g.Some? && |g.value.members[0]| <= MAX_BYTES && |g.value.members[1]| <= MAX_BYTES ==>
              var a, b := MsgpackDecode(g.value.members[0]), MsgpackDecode(g.value.members[1]);
              && a.Some? && b.Some? && "grp" in a.value && "grp" in b.value
              && a.value["grp"] == b.value["grp"] == VBytes(g.value.id)
              && GroupId(hash, [a.value - {"grp"}, b.value - {"grp"}]) == Some(g.value.id)
  {
    var g := BuildUnsignedGroup(hash, sender, feePayer, payTo, amount, asset, first, last, gen, gh, minFee);
    if g.Some? && |g.value.members[0]| <= MAX_BYTES && |g.value.members[1]| <= MAX_BYTES {
      BuiltGroup(hash, sender, feePayer, payTo, amount, asset, first, last, gen, gh, minFee);
      hide *;
      MemberReadsBack(g.value.fee, g.value.id, g.value.members[0]);
      MemberReadsBack(g.value.pay, g.value.id, g.value.members[1]);
    }
  }

  // ---- how long a member gets ----------------------------------------------------------------

  /** Integers, texts, and byte strings of less than 256 bytes. */
  predicate SmallValue(v: Val) {
    v.VInt? || v.VText? || (v.VBytes? && |v.bytes| < 256)
  }

  predicate Small(d: Txn) {
    forall k :: k in d ==> SmallValue(d[k])
  }

  lemma SmallValueFits(v: Val)
    requires SmallValue(v) && EncodeVal(v).Some?
    ensures |EncodeVal(v).value| <= 257
  {
  }

  lemma {:induction false} SmallPairsFit(v: Val, keys: seq<string>)
    requires v.VDict? && Small(v.fields) && (forall k :: k in keys ==> k in v.fields)
    requires EncodePairs(v, keys).Some?
    ensures |EncodePairs(v, keys).value| <= 514 * |keys|
    decreases |keys|
  {
    hide EncodeVal, Encode;
    if keys != [] {
      SmallPairsFit(v, keys[1..]);
      SmallValueFits(v.fields[keys[0]]);
    }
  }

  /** At most 15 small fields stay within the size limit. */
  lemma SmallDictFits(d: Txn)
    requires Small(d) && |d| <= 15 && EncodeDict(VDict(d)).Some?
    ensures |EncodeDict(VDict(d)).value| <= MAX_BYTES
  {
    hide EncodePairs, Kept, Small;
    var keys := Sorted(d.Keys);
    assert |keys| == |d|;
    SmallPairsFit(VDict(d), keys);
  }

  /** At most n fields, all small. */
  predicate Few(d: Txn, n: nat) {
    Small(d) && |d| <= n
  }

  lemma Put(d: Txn, k: string, v: Val, n: nat)
    requires Few(d, n) && SmallValue(v)
    ensures Few(d[k := v], n + 1)
  {
    assert d[k := v].Keys == d.Keys + {k};
    assert |d[k := v]| == |d[k := v].Keys| && |d| == |d.Keys|;
  }

  lemma More(d: Txn, n: nat, m: nat)
    requires Few(d, n) && n <= m
    ensures Few(d, m)
  {
  }

  lemma CommonIsFew(fee: int, first: int, last: int, gen: string, gh: Bytes, note: Bytes)
    requires |gh| < 256 && |note| < 256
    ensures Few(CommonFields(fee, first, last, gen, gh, note), 6)
  {
    hide Few;
    var d0: Txn := map["lv" := VInt(last)];
    assert Few(d0, 1) by { OneIsFew("lv", VInt(last)); }
    var d1 := if fee != 0 then d0["fee" := VInt(fee)] else d0;
    Put(d0, "fee", VInt(fee), 1);
    More(d0, 1, 2);
    var d2 := if first != 0 then d1["fv" := VInt(first)] else d1;
    Put(d1, "fv", VInt(first), 2);
    More(d1, 2, 3);
    var d3 := if gen != "" then d2["gen" := VText(gen)] else d2;
    Put(d2, "gen", VText(gen), 3);
    More(d2, 3, 4);
    var d4 := if gh != [] then d3["gh" := VBytes(gh)] else d3;
    Put(d3, "gh", VBytes(gh), 4);
    More(d3, 4, 5);
    Put(d4, "note", VBytes(note), 5);
    More(d4, 5, 6);
  }

  lemma OneIsFew(k: string, v: Val)
    requires SmallValue(v)
    ensures Few(map[k := v], 1)
  {
    assert map[k := v].Keys == {k};
    assert |map[k := v]| == |map[k := v].Keys|;
  }

  lemma PayIsFew(sender: Bytes, receiver: Bytes, amount: int, fee: int, first: int, last: int,
                 gen: string, gh: Bytes, note: Bytes, id: Bytes)
    requires |sender| == |receiver| == |id| == 32 && |gh| < 256 && |note| < 256
    ensures Few(PayTxn(sender, receiver, amount, fee, first, last, gen, gh, note)["grp" := VBytes(id)], 11)
  {
    CommonIsFew(fee, first, last, gen, gh, note);
    hide Few, CommonFields;
    var d := CommonFields(fee, first, last, gen, gh, note);
    var d1 := if amount != 0 then d["amt" := VInt(amount)] else d;
    Put(d, "amt", VInt(amount), 6);
    More(d, 6, 7);
    Put(d1, "rcv", VBytes(receiver), 7);
    var d2 := d1["rcv" := VBytes(receiver)];
    Put(d2, "snd", VBytes(sender), 8);
    var d3 := d2["snd" := VBytes(sender)];
    Put(d3, "type", VText("pay"), 9);
    Put(d3["type" := VText("pay")], "grp", VBytes(id), 10);
  }

  lemma AxferIsFew(sender: Bytes, receiver: Bytes, amount: int, asset: int, fee: int, first: int, last: int,
                   gen: string, gh: Bytes, note: Bytes, id: Bytes)
    requires |sender| == |receiver| == |id| == 32 && |gh| < 256 && |note| < 256
    ensures Few(AxferTxn(sender, receiver, amount, asset, fee, first, last, gen, gh, note)["grp" := VBytes(id)], 12)
  {
    CommonIsFew(fee, first, last, gen, gh, note);
    hide Few, CommonFields;
    var d := CommonFields(fee, first, last, gen, gh, note);
    var d1 := if amount != 0 then d["aamt" := VInt(amount)] else d;
    Put(d, "aamt", VInt(amount), 6);
    More(d, 6, 7);
    var d2 := if asset != 0 then d1["xaid" := VInt(asset)] else d1;
    Put(d1, "xaid", VInt(asset), 7);
    More(d1, 7, 8);
    Put(d2, "arcv", VBytes(receiver), 8);
    var d3 := d2["arcv" := VBytes(receiver)];
    Put(d3, "snd", VBytes(sender), 9);
    var d4 := d3["snd" := VBytes(sender)];
    Put(d4, "type", VText("axfer"), 10);
    Put(d4["type" := VText("axfer")], "grp", VBytes(id), 11);
  }

  lemma FewFits(d: Txn, n: nat)
    requires Few(d, n) && n <= 15 && EncodeDict(VDict(d)).Some?
    ensures |EncodeDict(VDict(d)).value| <= MAX_BYTES
  {
    hide EncodeDict;
    SmallDictFits(d);
  }

  lemma BuiltGroup(hash: Hasher, sender: Bytes, feePayer: Bytes, payTo: Bytes, amount: int, asset: int,
                   first: int, last: int, gen: string, gh: Bytes, minFee: int)
    ensures var g := BuildUnsignedGroup(hash, sender, feePayer, payTo, amount, asset, first, last, gen, gh, minFee);
            g.Some? ==>
              && |g.value.members| == 2 && Flat(g.value.fee) && Flat(g.value.pay)
              && "grp" !in g.value.fee && "grp" !in g.value.pay
              && GroupId(hash, [g.value.fee, g.value.pay]) == Some(g.value.id)
              && EncodeDict(VDict(g.value.fee["grp" := VBytes(g.value.id)])) == Some(g.value.members[0])
              && EncodeDict(VDict(g.value.pay["grp" := VBytes(g.value.id)])) == Some(g.value.members[1])
  {
    hide PayTxn, AxferTxn, Encode, EncodeDict, Flat, GroupId;
    var feePayerFee := (if minFee > 1000 then minFee else 1000) * 2;
    TxnsAreFlat(feePayer, feePayer, 0, asset, feePayerFee, first, last, gen, gh, Encode("x402-fee-payer"));
    TxnsAreFlat(sender, payTo, amount, asset, 0, first, last, gen, gh, Encode("x402-payment-v2"));
  }

  lemma MemberReadsBack(txn: Txn, id: Bytes, raw: Bytes)
    requires Flat(txn) && "grp" !in txn
    requires EncodeDict(VDict(txn["grp" := VBytes(id)])) == Some(raw) && |raw| <= MAX_BYTES
    ensures MsgpackDecode(raw) == Some(txn["grp" := VBytes(id)])
    ensures txn["grp" := VBytes(id)] - {"grp"} == txn
  {
    hide EncodeDict, MsgpackDecode;
    assert "grp" != "";
    FlatReadsBack(txn["grp" := VBytes(id)]);
  }

  lemma NotesAreShort()
    ensures |Encode("x402-fee-payer")| < 256 && |Encode("x402-payment-v2")| < 256
  {
    hide Encode;
    EncodedLength("x402-fee-payer");
    EncodedLength("x402-payment-v2");
  }

  /** With addresses and hashes of 32 bytes every member stays within the size limit, whatever the
      amounts, rounds and texts are: texts that are too long do not encode at all. */
  lemma MembersFit(hash: Hasher, sender: Bytes, feePayer: Bytes, payTo: Bytes, amount: int, asset: int,
                   first: int, last: int, gen: string, gh: Bytes, minFee: int)
    requires |sender| == |feePayer| == |payTo| == 32 && |gh| < 256 && forall b :: |hash(b)| == 32
    ensures var g := BuildUnsignedGroup(hash, sender, feePayer, payTo, amount, asset, first, last, gen, gh, minFee);
            g.Some? ==> |g.value.members[0]| <= MAX_BYTES && |g.value.members[1]| <= MAX_BYTES
  {
    hide PayTxn, AxferTxn, Encode, EncodeDict, TxDigests, Few;
    var g := BuildUnsignedGroup(hash, sender, feePayer, payTo, amount, asset, first, last, gen, gh, minFee);
    if g.Some? {
      var feePayerFee := (if minFee > 1000 then minFee else 1000) * 2;
      NotesAreShort();
      PayIsFew(feePayer, feePayer, 0, feePayerFee, first, last, gen, gh, Encode("x402-fee-payer"), g.value.id);
      AxferIsFew(sender, payTo, amount, asset, 0, first, last, gen, gh, Encode("x402-payment-v2"), g.value.id);
      FewFits(g.value.fee["grp" := VBytes(g.value.id)], 11);
      FewFits(g.value.pay["grp" := VBytes(g.value.id)], 12);
    }
  }

  /** Every group that is built from 32-byte addresses: both members strict-decode to dictionaries
      that carry the group id, and without it they give that same id again. */
  lemma BuiltGroupCarriesItsId(hash: Hasher, sender: Bytes, feePayer: Bytes, payTo: Bytes, amount: int, asset: int,
                               first: int, last: int, gen: string, gh: Bytes, minFee: int)
    requires |sender| == |feePayer| == |payTo| == 32 && |gh| < 256 && forall b :: |hash(b)| == 32
    ensures var g := BuildUnsignedGroup(hash, sender, feePayer, payTo, amount, asset, first, last, gen, gh, minFee);
            g.Some? ==>
              var a, b := MsgpackDecode(g.value.members[0]), MsgpackDecode(g.value.members[1]);
              && a.Some? && b.Some? && "grp" in a.value && "grp" in b.value
              && a.value["grp"] == b.value["grp"] == VBytes(g.value.id)
              && GroupId(hash, [a.value - {"grp"}, b.value - {"grp"}]) == Some(g.value.id)
  {
    hide GroupId, MsgpackDecode, EncodeDict, PayTxn, AxferTxn, Encode;
    MembersFit(hash, sender, feePayer, payTo, amount, asset, first, last, gen, gh, minFee);
    GroupMembersCarryTheirId(hash, sender, feePayer, payTo, amount, asset, first, last, gen, gh, minFee);
  }
}
