/** Exactly when a payment group can be built, and what its id is the hash of
    (live402/algo_tx.py, build_unsigned_group and calculate_group_id). */
module GroupBuilds {
  import opened Collections
  import opened TextOrder
  import opened Utf8
  import opened MsgPack
  import opened MsgPackStrict
  import opened AlgoTx
  import opened GroupPays

  /** A field value that has a wire form: 64-bit numbers, short texts, byte strings and lists of hashes. */
  predicate Writable(v: Val) {
    match v
    case VInt(n) => 0 <= n < 0x1_0000_0000_0000_0000
    case VText(t) => |Encode(t)| < 256
    case VBytes(b) => |b| < 0x1_0000_0000
    case VList(xs) => |xs| <= 2 && forall x :: x in xs ==> x.VBytes? && |x.bytes| < 256
    case _ => false
  }

  predicate FieldValue(v: Val) {
    v.VInt? || v.VText? || v.VBytes?
    || (v.VList? && |v.items| <= 2 && forall x :: x in v.items ==> x.VBytes? && |x.bytes| < 256)
  }

  lemma ListEncodes(xs: seq<Val>)
    requires |xs| <= 2 && forall x :: x in xs ==> x.VBytes? && |x.bytes| < 256
    ensures EncodeVal(VList(xs)).Some?
  {
    if xs != [] {
      assert xs[0] in xs && EncodeItem(xs[0]).Some?;
      if |xs| == 2 {
        assert xs[1] in xs && xs[1..] == [xs[1]] && xs[1..][1..] == [];
        assert EncodeItems(xs[1..]).Some?;
      } else {
        assert xs[1..] == [] && EncodeItems(xs[1..]) == Some([]);
      }
    }
  }

  lemma ValueEncodesIff(v: Val)
    requires FieldValue(v)
    ensures EncodeVal(v).Some? <==> Writable(v)
  {
    if v.VList? { ListEncodes(v.items); }
  }

  lemma {:induction false} PairsEncodeIff(d: Txn, keys: seq<string>)
    requires forall k :: k in keys ==> k in d && FieldValue(d[k]) && |Encode(k)| < 256
    ensures EncodePairs(VDict(d), keys).Some? <==> forall k :: k in keys ==> Writable(d[k])
    ensures Kept(VDict(d), keys) == |keys|
    decreases |keys|
  {
    hide Encode, Writable, EncodeVal, MpStr;
    if keys != [] {
      PairsEncodeIff(d, keys[1..]);
      ValueEncodesIff(d[keys[0]]);
      KeyEncodes(keys[0]);
      assert keys == [keys[0]] + keys[1..];
    }
  }

  lemma KeyEncodes(k: string)
    ensures |Encode(k)| < 256 ==> MpStr(Encode(k)).Some?
  {
    hide Encode;
  }

  /** A dictionary of at most 15 such fields encodes exactly if each of its values does. */
  lemma DictEncodesIff(d: Txn)
    requires |d| <= 15 && forall k :: k in d ==> FieldValue(d[k]) && |Encode(k)| < 256
    ensures EncodeDict(VDict(d)).Some? <==> forall k :: k in d ==> Writable(d[k])
  {
    hide EncodePairs, Kept, Writable, Encode, FieldValue;
    var keys := Sorted(d.Keys);
    assert |keys| == |d| && forall k :: k in keys <==> k in d;
    PairsEncodeIff(d, keys);
  }

  // ---- the two members ----------------------------------------------------------------------

  /** The rounds are 64-bit numbers and the network's name is short. */
  predicate RoundsFit(first: int, last: int, gen: string) {
    0 <= first < 0x1_0000_0000_0000_0000 && 0 <= last < 0x1_0000_0000_0000_0000 && |Encode(gen)| < 256
  }

  predicate FeeFits(minFee: int) {
    2 * (if minFee >= 1000 then minFee else 1000) < 0x1_0000_0000_0000_0000
  }

  predicate ShortKeys(d: Txn) {
    forall k :: k in d ==> |Encode(k)| < 256 && FieldValue(d[k])
  }

  predicate NetworkKey(k: string) {
    k in {"fv", "lv", "gen", "gh", "note"}
  }

  lemma NetworkWritable(d: Txn, first: int, last: int, gen: string, gh: Bytes, note: Bytes)
    requires OnNetwork(d, first, last, gen, gh, note) && |gh| < 256 && |note| < 256
    ensures (forall k :: k in d && NetworkKey(k) ==> Writable(d[k])) <==> RoundsFit(first, last, gen)
    ensures forall k :: k in d && NetworkKey(k) ==> FieldValue(d[k])
  {
    assert "lv" in d && d["lv"] == VInt(last);
    assert gen == "" ==> Encode(gen) == [];
    assert gen != "" ==> "gen" in d && d["gen"] == VText(gen);
    assert first != 0 ==> "fv" in d && d["fv"] == VInt(first);
  }

  lemma KindWritable(t: string)
    requires t in {"pay", "axfer"}
    ensures Writable(VText(t))
  {
    hide Encode;
    AsciiEncodes(t);
  }

  lemma NamesAreShort(k: string)
    requires k in {"type", "snd", "rcv", "arcv", "aamt", "xaid", "fee", "fv", "lv", "gen", "gh", "note", "grp",
                  "txlist"}
    ensures |Encode(k)| < 256
  {
    hide Encode;
    AsciiEncodes(k);
  }

  lemma FeeWritableIff(d: Txn, feePayer: Bytes, minFee: int, first: int, last: int, gen: string, gh: Bytes, note: Bytes,
                       id: Bytes)
    requires PaysFee(d, feePayer, minFee) && OnNetwork(d, first, last, gen, gh, note) && Shows(d, "grp", VBytes(id))
    requires |feePayer| == |id| == 32 && |gh| < 256 && |note| < 256
    ensures (forall k :: k in d ==> Writable(d[k])) <==> RoundsFit(first, last, gen) && FeeFits(minFee)
    ensures ShortKeys(d)
  {
    hide Encode, OnNetwork, RoundsFit, FeeFits, NetworkKey, PaysFee, Writable, FieldValue, Shows;
    NetworkWritable(d, first, last, gen, gh, note);
    FeeParts(d, feePayer, minFee, id);
  }

  /** The own fields of the fee payment: only the fee may not fit. */
  lemma FeeParts(d: Txn, feePayer: Bytes, minFee: int, id: Bytes)
    requires PaysFee(d, feePayer, minFee) && Shows(d, "grp", VBytes(id)) && |feePayer| == |id| == 32
    ensures (forall k :: k in d && !NetworkKey(k) ==> Writable(d[k])) <==> FeeFits(minFee)
    ensures forall k :: k in d && !NetworkKey(k) ==> FieldValue(d[k])
    ensures forall k :: k in d ==> |Encode(k)| < 256
  {
    hide Encode;
    KindWritable("pay");
    FeeIsOwn();
    forall k | k in d ensures |Encode(k)| < 256 { NamesAreShort(k); }
    assert !NetworkKey("fee") && "fee" in d && Writable(d["fee"]) <==> FeeFits(minFee);
  }

  lemma FeeIsOwn()
    ensures !NetworkKey("fee") && !NetworkKey("aamt") && !NetworkKey("xaid")
  {
  }

  lemma PaymentWritableIff(d: Txn, sender: Bytes, payTo: Bytes, amount: int, asset: int, first: int, last: int,
                           gen: string, gh: Bytes, note: Bytes, id: Bytes)
    requires Pays(d, sender, payTo, amount, asset) && OnNetwork(d, first, last, gen, gh, note)
    requires Shows(d, "grp", VBytes(id)) && |sender| == |payTo| == |id| == 32 && |gh| < 256 && |note| < 256
    ensures (forall k :: k in d ==> Writable(d[k])) <==> RoundsFit(first, last, gen) && AmountsFit(amount, asset)
    ensures ShortKeys(d)
  {
    hide Encode, OnNetwork, RoundsFit, AmountsFit, NetworkKey, Pays, Writable, FieldValue, Shows;
    NetworkWritable(d, first, last, gen, gh, note);
    PaymentParts(d, sender, payTo, amount, asset, id);
  }

  predicate AmountsFit(amount: int, asset: int) {
    0 <= amount < 0x1_0000_0000_0000_0000 && 0 <= asset < 0x1_0000_0000_0000_0000
  }

  /** The own fields of the transfer: only the amount and the asset may not fit. */
  lemma PaymentParts(d: Txn, sender: Bytes, payTo: Bytes, amount: int, asset: int, id: Bytes)
    requires Pays(d, sender, payTo, amount, asset) && Shows(d, "grp", VBytes(id)) && |sender| == |payTo| == |id| == 32
    ensures (forall k :: k in d && !NetworkKey(k) ==> Writable(d[k])) <==> AmountsFit(amount, asset)
    ensures forall k :: k in d && !NetworkKey(k) ==> FieldValue(d[k])
    ensures forall k :: k in d ==> |Encode(k)| < 256
  {
    hide Encode;
    KindWritable("axfer");
    FeeIsOwn();
    forall k | k in d ensures |Encode(k)| < 256 { NamesAreShort(k); }
    assert amount != 0 ==> "aamt" in d && d["aamt"] == VInt(amount);
    assert asset != 0 ==> "xaid" in d && d["xaid"] == VInt(asset);
  }

  /** A transaction encodes with its group id exactly if it does without. */
  lemma WithoutGroup(d: Txn, id: Bytes)
    requires "grp" !in d && |id| == 32 && ShortKeys(d["grp" := VBytes(id)]) && |d["grp" := VBytes(id)]| <= 15
    ensures var withId := d["grp" := VBytes(id)];
            && (EncodeDict(VDict(withId)).Some? <==> forall k :: k in withId ==> Writable(withId[k]))
            && (EncodeDict(VDict(d)).Some? <==> forall k :: k in withId ==> Writable(withId[k]))
  {
    hide EncodeDict, Encode;
    var withId := d["grp" := VBytes(id)];
    assert withId.Keys == d.Keys + {"grp"};
    assert |withId.Keys| == |withId| && |d.Keys| == |d|;
    assert Writable(VBytes(id));
    forall k | k in d ensures |Encode(k)| < 256 && FieldValue(d[k]) { assert k in withId; }
    DictEncodesIff(d);
    DictEncodesIff(withId);
    assert forall k :: k in withId <==> k in d || k == "grp";
  }

  lemma FewKeys(sender: Bytes, feePayer: Bytes, payTo: Bytes, amount: int, asset: int, first: int, last: int,
                gen: string, gh: Bytes, minFee: int, id: Bytes)
    requires |sender| == |feePayer| == |payTo| == |id| == 32 && |gh| < 256
    ensures |FeeNote()| < 256 && |PayNote()| < 256
    ensures var pooled := 2 * (if minFee >= 1000 then minFee else 1000);
            |PayTxn(feePayer, feePayer, 0, pooled, first, last, gen, gh, FeeNote())["grp" := VBytes(id)]| <= 15
    ensures |AxferTxn(sender, payTo, amount, asset, 0, first, last, gen, gh, PayNote())["grp" := VBytes(id)]| <= 15
  {
    hide Encode, PayTxn, AxferTxn;
    assert |FeeNote()| < 256 && |PayNote()| < 256;
    hide FeeNote, PayNote;
    var pooled := 2 * (if minFee >= 1000 then minFee else 1000);
    PayIsFew(feePayer, feePayer, 0, pooled, first, last, gen, gh, FeeNote(), id);
    AxferIsFew(sender, payTo, amount, asset, 0, first, last, gen, gh, PayNote(), id);
  }

  /** The fee payment encodes, with any group id or none, exactly if the rounds, the name and the fee fit. */
  lemma FeeEncodesIff(feePayer: Bytes, first: int, last: int, gen: string, gh: Bytes, minFee: int, id: Bytes)
    requires |feePayer| == |id| == 32 && |gh| < 256
    ensures var pooled := 2 * (if minFee >= 1000 then minFee else 1000);
            var d := PayTxn(feePayer, feePayer, 0, pooled, first, last, gen, gh, FeeNote());
            && (EncodeDict(VDict(d)).Some? <==> RoundsFit(first, last, gen) && FeeFits(minFee))
            && (EncodeDict(VDict(d["grp" := VBytes(id)])).Some? <==> RoundsFit(first, last, gen) && FeeFits(minFee))
  {
    Notes();
    var pooled := 2 * (if minFee >= 1000 then minFee else 1000);
    FewKeys(feePayer, feePayer, feePayer, 0, 0, first, last, gen, gh, minFee, id);
    TxnsAreFlat(feePayer, feePayer, 0, 0, pooled, first, last, gen, gh, FeeNote());
    PayShows(feePayer, minFee, first, last, gen, gh, FeeNote(), id);
    hide PayTxn, AxferTxn, FeeNote, PayNote, EncodeDict, PaysFee, OnNetwork, Flat, Encode, RoundsFit, ShortKeys,
         Writable;
    var d := PayTxn(feePayer, feePayer, 0, pooled, first, last, gen, gh, FeeNote());
    FeeWritableIff(d["grp" := VBytes(id)], feePayer, minFee, first, last, gen, gh, FeeNote(), id);
    WithoutGroup(d, id);
  }

  lemma PaymentEncodesIff(sender: Bytes, payTo: Bytes, amount: int, asset: int, first: int, last: int, gen: string,
                          gh: Bytes, id: Bytes)
    requires |sender| == |payTo| == |id| == 32 && |gh| < 256
    ensures var d := AxferTxn(sender, payTo, amount, asset, 0, first, last, gen, gh, PayNote());
            var fits := RoundsFit(first, last, gen) && AmountsFit(amount, asset);
            && (EncodeDict(VDict(d)).Some? <==> fits)
            && (EncodeDict(VDict(d["grp" := VBytes(id)])).Some? <==> fits)
  {
    Notes();
    FewKeys(sender, sender, payTo, amount, asset, first, last, gen, gh, 0, id);
    TxnsAreFlat(sender, payTo, amount, asset, 0, first, last, gen, gh, PayNote());
    AxferShows(sender, payTo, amount, asset, first, last, gen, gh, PayNote(), id);
    hide PayTxn, AxferTxn, FeeNote, PayNote, EncodeDict, Pays, OnNetwork, Flat, Encode, RoundsFit, ShortKeys, Writable;
    var d := AxferTxn(sender, payTo, amount, asset, 0, first, last, gen, gh, PayNote());
    PaymentWritableIff(d["grp" := VBytes(id)], sender, payTo, amount, asset, first, last, gen, gh, PayNote(), id);
    WithoutGroup(d, id);
  }

  /** The dictionary that the group id is the hash of. */
  function TxList(a: Bytes, b: Bytes): Txn {
    map["txlist" := VList([VBytes(a), VBytes(b)])]
  }

  lemma TxListEncodes(a: Bytes, b: Bytes)
    requires |a| == |b| == 32
    ensures EncodeDict(VDict(TxList(a, b))).Some?
  {
    hide EncodeDict, Encode;
    NamesAreShort("txlist");
    assert TxList(a, b).Keys == {"txlist"};
    assert |TxList(a, b).Keys| == |TxList(a, b)|;
    DictEncodesIff(TxList(a, b));
  }

  lemma TwoDigests(hash: Hasher, fee: Txn, pay: Txn)
    ensures TxDigests(hash, [fee, pay]) ==
            (match (EncodeDict(VDict(fee)), EncodeDict(VDict(pay)))
             case (Some(a), Some(b)) => Some([VBytes(hash([0x54, 0x58] + a)), VBytes(hash([0x54, 0x58] + b))])
             case _ => None)
  {
    hide EncodeDict;
    assert [fee, pay][1..] == [pay] && [pay][1..] == [];
    assert TxDigests(hash, []) == Some([]);
    if EncodeDict(VDict(pay)).Some? {
      var b := VBytes(hash([0x54, 0x58] + EncodeDict(VDict(pay)).value));
      assert [b] + [] == [b];
      assert TxDigests(hash, [pay]) == Some([b]);
      if EncodeDict(VDict(fee)).Some? {
        var a := VBytes(hash([0x54, 0x58] + EncodeDict(VDict(fee)).value));
        assert [a] + [b] == [a, b];
      }
    }
  }

  /** The id is the hash of "TG" and the list of the hashes of "TX" and each member's encoding. */
  lemma IdOfTwo(hash: Hasher, fee: Txn, pay: Txn)
    requires forall b :: |hash(b)| == 32
    ensures GroupId(hash, [fee, pay]).Some? <==> EncodeDict(VDict(fee)).Some? && EncodeDict(VDict(pay)).Some?
    ensures GroupId(hash, [fee, pay]).Some? ==>
              var a, b := EncodeDict(VDict(fee)).value, EncodeDict(VDict(pay)).value;
              var list := TxList(hash([0x54, 0x58] + a), hash([0x54, 0x58] + b));
              EncodeDict(VDict(list)).Some?
              && GroupId(hash, [fee, pay]) == Some(hash([0x54, 0x47] + EncodeDict(VDict(list)).value))
  {
    hide EncodeDict, TxDigests;
    TwoDigests(hash, fee, pay);
    if EncodeDict(VDict(fee)).Some? && EncodeDict(VDict(pay)).Some? {
      TxListEncodes(hash([0x54, 0x58] + EncodeDict(VDict(fee)).value),
                    hash([0x54, 0x58] + EncodeDict(VDict(pay)).value));
    }
  }

  /** With addresses and hashes of 32 bytes a group is built exactly if the amount, the asset, the rounds and
      the pooled fee are 64-bit numbers and the network's name has less than 256 bytes. */
  lemma BuildsIff(hash: Hasher, sender: Bytes, feePayer: Bytes, payTo: Bytes, amount: int, asset: int,
                  first: int, last: int, gen: string, gh: Bytes, minFee: int)
    requires |sender| == |feePayer| == |payTo| == 32 && |gh| < 256 && forall b :: |hash(b)| == 32
    ensures BuildUnsignedGroup(hash, sender, feePayer, payTo, amount, asset, first, last, gen, gh, minFee).Some? <==>
              && 0 <= amount < 0x1_0000_0000_0000_0000 && 0 <= asset < 0x1_0000_0000_0000_0000
              && 0 <= first < 0x1_0000_0000_0000_0000 && 0 <= last < 0x1_0000_0000_0000_0000
              && 2 * (if minFee >= 1000 then minFee else 1000) < 0x1_0000_0000_0000_0000
              && |Encode(gen)| < 256
  {
    hide PayTxn, AxferTxn, FeeNote, PayNote, Encode, EncodeDict, GroupId;
    Notes();
    var pooled := 2 * (if minFee >= 1000 then minFee else 1000);
    var fee := PayTxn(feePayer, feePayer, 0, pooled, first, last, gen, gh, FeeNote());
    var pay := AxferTxn(sender, payTo, amount, asset, 0, first, last, gen, gh, PayNote());
    IdOfTwo(hash, fee, pay);
    var id := match GroupId(hash, [fee, pay]) case Some(i) => i case None => hash([]);
    FeeEncodesIff(feePayer, first, last, gen, gh, minFee, id);
    PaymentEncodesIff(sender, payTo, amount, asset, first, last, gen, gh, id);
  }

  /** What the id of a built group is the hash of, read back: "TG" and the list of two hashes, each of "TX" and
      a text that reads as one member without its group id. */
  lemma GroupIdIs(hash: Hasher, sender: Bytes, feePayer: Bytes, payTo: Bytes, amount: int, asset: int,
                  first: int, last: int, gen: string, gh: Bytes, minFee: int, g: Group)
    requires |sender| == |feePayer| == |payTo| == 32 && |gh| < 256 && forall b :: |hash(b)| == 32
    requires BuildUnsignedGroup(hash, sender, feePayer, payTo, amount, asset, first, last, gen, gh, minFee) == Some(g)
    ensures |g.members| == 2 && MsgpackDecode(g.members[0]).Some? && MsgpackDecode(g.members[1]).Some?
    ensures exists a, b, list ::
              && MsgpackDecode(a) == Some(MsgpackDecode(g.members[0]).value - {"grp"})
              && MsgpackDecode(b) == Some(MsgpackDecode(g.members[1]).value - {"grp"})
              && MsgpackDecode(list) == Some(TxList(hash([0x54, 0x58] + a), hash([0x54, 0x58] + b)))
              && g.id == hash([0x54, 0x47] + list)
  {
    hide BuildUnsignedGroup, MsgpackDecode, GroupId, EncodeDict, Flat, Few, TxList;
    BuiltGroup(hash, sender, feePayer, payTo, amount, asset, first, last, gen, gh, minFee);
    MembersFit(hash, sender, feePayer, payTo, amount, asset, first, last, gen, gh, minFee);
    FewFields(hash, sender, feePayer, payTo, amount, asset, first, last, gen, gh, minFee, g);
    MemberReadsBack(g.fee, g.id, g.members[0]);
    MemberReadsBack(g.pay, g.id, g.members[1]);
    IdOfTwo(hash, g.fee, g.pay);
    var a, b := EncodeDict(VDict(g.fee)).value, EncodeDict(VDict(g.pay)).value;
    var txlist := TxList(hash([0x54, 0x58] + a), hash([0x54, 0x58] + b));
    FewFits(g.fee, 12);
    FewFits(g.pay, 12);
    FlatReadsBack(g.fee);
    FlatReadsBack(g.pay);
    TxListReadsBack(hash([0x54, 0x58] + a), hash([0x54, 0x58] + b));
    var list := EncodeDict(VDict(txlist)).value;
    assert MsgpackDecode(list) == Some(txlist);
  }

  lemma FewFields(hash: Hasher, sender: Bytes, feePayer: Bytes, payTo: Bytes, amount: int, asset: int,
                  first: int, last: int, gen: string, gh: Bytes, minFee: int, g: Group)
    requires |sender| == |feePayer| == |payTo| == 32 && |gh| < 256 && forall b :: |hash(b)| == 32
    requires BuildUnsignedGroup(hash, sender, feePayer, payTo, amount, asset, first, last, gen, gh, minFee) == Some(g)
    ensures Few(g.fee, 12) && Few(g.pay, 12)
  {
    hide PayTxn, AxferTxn, Encode, EncodeDict, GroupId, Few, FeeNote, PayNote;
    NotesAreShort();
    var pooled := (if minFee > 1000 then minFee else 1000) * 2;
    var id := hash([]);
    TxnsAreFlat(feePayer, feePayer, 0, asset, pooled, first, last, gen, gh, Encode("x402-fee-payer"));
    TxnsAreFlat(sender, payTo, amount, asset, 0, first, last, gen, gh, Encode("x402-payment-v2"));
    PayIsFew(feePayer, feePayer, 0, pooled, first, last, gen, gh, Encode("x402-fee-payer"), id);
    AxferIsFew(sender, payTo, amount, asset, 0, first, last, gen, gh, Encode("x402-payment-v2"), id);
    Fewer(g.fee, id, 11);
    Fewer(g.pay, id, 12);
  }

  lemma Fewer(d: Txn, id: Bytes, n: nat)
    requires "grp" !in d && Few(d["grp" := VBytes(id)], n) && n <= 12
    ensures Few(d, 12)
  {
    var withId := d["grp" := VBytes(id)];
    assert withId.Keys == d.Keys + {"grp"};
    assert |withId.Keys| == |withId| && |d.Keys| == |d|;
    assert forall k :: k in d ==> k in withId && withId[k] == d[k];
  }

  lemma TxListIsPlain(a: Bytes, b: Bytes)
    ensures Plain(VDict(TxList(a, b))) && Nested(VDict(TxList(a, b)), Room(0))
  {
    var v := VList([VBytes(a), VBytes(b)]);
    assert Plain(v) && Nested(v, Room(0) - 1);
    assert "txlist" != "";
  }

  lemma TxListReadsBack(a: Bytes, b: Bytes)
    requires |a| == |b| == 32
    ensures EncodeDict(VDict(TxList(a, b))).Some?
    ensures MsgpackDecode(EncodeDict(VDict(TxList(a, b))).value) == Some(TxList(a, b))
  {
    hide EncodeDict, Plain, Nested, MsgpackDecode, TxList;
    TxListEncodes(a, b);
    TxListIsShort(a, b);
    TxListIsPlain(a, b);
    DecodeEncodedIff(TxList(a, b));
  }

  lemma TxListIsShort(a: Bytes, b: Bytes)
    requires |a| == |b| == 32 && EncodeDict(VDict(TxList(a, b))).Some?
    ensures |EncodeDict(VDict(TxList(a, b))).value| <= 8192
  {
    hide Encode, EncodeVal, MpStr, MapHead, Sorted, EncodePairs, Kept;
    var d := TxList(a, b);
    OneKey("txlist");
    assert d.Keys == {"txlist"};
    var pair := Append(MpStr(Encode("txlist")), EncodeVal(d["txlist"]));
    OnePair(d, "txlist");
    NamesAreShort("txlist");
    HeadIsShort(1);
    KeyIsShort("txlist");
    ListIsShort([VBytes(a), VBytes(b)]);
  }

  lemma OnePair(d: Txn, k: string)
    requires k in d && !d[k].VNone?
    ensures EncodePairs(VDict(d), [k]) == Append(Append(MpStr(Encode(k)), EncodeVal(d[k])), Some([]))
    ensures Kept(VDict(d), [k]) == 1
  {
    hide Encode, EncodeVal, MpStr, Append;
    assert [k][1..] == [];
    assert EncodePairs(VDict(d), []) == Some([]) && Kept(VDict(d), []) == 0;
  }

  lemma HeadIsShort(n: nat)
    ensures MapHead(n).Some? ==> |MapHead(n).value| <= 3
  {
  }

  lemma KeyIsShort(k: string)
    ensures MpStr(Encode(k)).Some? ==> |MpStr(Encode(k)).value| <= 258
  {
    hide Encode;
  }

  lemma ListIsShort(xs: seq<Val>)
    requires |xs| == 2 && (forall x :: x in xs ==> x.VBytes? && |x.bytes| == 32)
    ensures EncodeVal(VList(xs)).Some? ==> |EncodeVal(VList(xs)).value| <= 100
  {
    assert xs[0] in xs && xs[1] in xs && xs[1..] == [xs[1]] && xs[1..][1..] == [];
    assert EncodeItems(xs[1..]) == Append(EncodeItem(xs[1]), Some([]));
  }
}
