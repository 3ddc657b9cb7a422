/** What a built payment group pays, read off its encoded members (live402/algo_tx.py, build_unsigned_group). */
module GroupPays {
  import opened Collections
  import opened Utf8
  import opened MsgPack
  import opened MsgPackStrict
  import opened AlgoTx

  predicate Shows(d: Txn, key: string, value: Val) {
    key in d && d[key] == value
  }

  /** A number is written unless it is zero, and a text or byte string unless it is empty. */
  predicate ShowsNumber(d: Txn, key: string, n: int) {
    if n == 0 then key !in d else Shows(d, key, VInt(n))
  }

  predicate Ascii(t: string) {
    forall i :: 0 <= i < |t| ==> (t[i] as int) < 128
  }

  /** The bytes of an ASCII text. */
  function AsciiBytes(t: string): Bytes
    requires Ascii(t)
  {
    seq(|t|, i requires 0 <= i < |t| => t[i] as int)
  }

  lemma {:induction false} AsciiEncodes(t: string)
    requires Ascii(t)
    ensures Encode(t) == AsciiBytes(t)
    decreases |t|
  {
    if t != "" {
      assert forall i :: 0 <= i < |t[1..]| ==> t[1..][i] == t[i + 1];
      AsciiEncodes(t[1..]);
    }
  }

  function FeeNote(): Bytes {
    AsciiBytes("x402-fee-payer")
  }

  function PayNote(): Bytes {
    AsciiBytes("x402-payment-v2")
  }

  lemma Notes()
    ensures FeeNote() == Encode("x402-fee-payer") && FeeNote() != []
    ensures PayNote() == Encode("x402-payment-v2") && PayNote() != []
  {
    hide Encode;
    NoteIs("x402-fee-payer");
    NoteIs("x402-payment-v2");
  }

  lemma NoteIs(t: string)
    requires Ascii(t) && t != ""
    ensures Encode(t) == AsciiBytes(t) && AsciiBytes(t) != []
  {
    hide Encode;
    AsciiEncodes(t);
    assert |AsciiBytes(t)| == |t|;
  }

  /** What both members say: the rounds, the network and the note. */
  predicate OnNetwork(d: Txn, first: int, last: int, gen: string, gh: Bytes, note: Bytes) {
    && ShowsNumber(d, "fv", first) && Shows(d, "lv", VInt(last))
    && (if gen == "" then "gen" !in d else Shows(d, "gen", VText(gen)))
    && (if gh == [] then "gh" !in d else Shows(d, "gh", VBytes(gh)))
    && Shows(d, "note", VBytes(note))
  }

  /** The transfer of the asset from the sender to the payee, without a fee of its own. */
  predicate Pays(d: Txn, sender: Bytes, payTo: Bytes, amount: int, asset: int) {
    && Shows(d, "type", VText("axfer")) && Shows(d, "snd", VBytes(sender)) && Shows(d, "arcv", VBytes(payTo))
    && ShowsNumber(d, "aamt", amount) && ShowsNumber(d, "xaid", asset) && "fee" !in d
    && forall k :: k in d ==>
         k in {"type", "snd", "arcv", "aamt", "xaid", "fv", "lv", "gen", "gh", "note", "grp"}
  }

  /** The fee payer's payment of nothing to itself, with the pooled fee for both members. */
  predicate PaysFee(d: Txn, feePayer: Bytes, minFee: int) {
    && Shows(d, "type", VText("pay")) && Shows(d, "snd", VBytes(feePayer)) && Shows(d, "rcv", VBytes(feePayer))
    && "amt" !in d && Shows(d, "fee", VInt(2 * (if minFee >= 1000 then minFee else 1000)))
    && forall k :: k in d ==> k in {"type", "snd", "rcv", "fee", "fv", "lv", "gen", "gh", "note", "grp"}
  }

  lemma CommonShows(fee: int, first: int, last: int, gen: string, gh: Bytes, note: Bytes)
    requires note != []
    ensures var d := CommonFields(fee, first, last, gen, gh, note);
            && OnNetwork(d, first, last, gen, gh, note) && ShowsNumber(d, "fee", fee)
            && forall k :: k in d ==> k in {"fee", "fv", "lv", "gen", "gh", "note"}
  {
    assert "lv" != "fee" && "lv" != "fv" && "lv" != "gen" && "lv" != "gh" && "lv" != "note";
    assert "fee" != "fv" && "fee" != "gen" && "fee" != "gh" && "fee" != "note";
    assert "fv" != "gen" && "fv" != "gh" && "fv" != "note" && "gen" != "gh" && "gen" != "note" && "gh" != "note";
  }

  /** Fields of the transaction's own leave what both members say alone. */
  lemma StaysOnNetwork(d: Txn, first: int, last: int, gen: string, gh: Bytes, note: Bytes, k: string, v: Val)
    requires OnNetwork(d, first, last, gen, gh, note)
    requires k in {"rcv", "snd", "type", "grp", "aamt", "xaid", "arcv", "amt"}
    ensures OnNetwork(d[k := v], first, last, gen, gh, note)
  {
    OtherNames(k);
  }

  lemma PayShows(feePayer: Bytes, minFee: int, first: int, last: int, gen: string, gh: Bytes, note: Bytes, id: Bytes)
    requires note != []
    ensures var fee := 2 * (if minFee >= 1000 then minFee else 1000);
            var d := PayTxn(feePayer, feePayer, 0, fee, first, last, gen, gh, note)["grp" := VBytes(id)];
            PaysFee(d, feePayer, minFee) && OnNetwork(d, first, last, gen, gh, note) && Shows(d, "grp", VBytes(id))
  {
    var fee := 2 * (if minFee >= 1000 then minFee else 1000);
    CommonShows(fee, first, last, gen, gh, note);
    hide CommonFields, OnNetwork;
    var d := CommonFields(fee, first, last, gen, gh, note);
    StaysOnNetwork(d, first, last, gen, gh, note, "rcv", VBytes(feePayer));
    var d1 := d["rcv" := VBytes(feePayer)];
    StaysOnNetwork(d1, first, last, gen, gh, note, "snd", VBytes(feePayer));
    var d2 := d1["snd" := VBytes(feePayer)];
    StaysOnNetwork(d2, first, last, gen, gh, note, "type", VText("pay"));
    StaysOnNetwork(d2["type" := VText("pay")], first, last, gen, gh, note, "grp", VBytes(id));
    OtherNames("rcv");
    OtherNames("snd");
    OtherNames("type");
    OtherNames("grp");
    OwnNames();
  }

  lemma AxferShows(sender: Bytes, payTo: Bytes, amount: int, asset: int, first: int, last: int, gen: string, gh: Bytes,
                   note: Bytes, id: Bytes)
    requires note != []
    ensures var d := AxferTxn(sender, payTo, amount, asset, 0, first, last, gen, gh, note)["grp" := VBytes(id)];
            Pays(d, sender, payTo, amount, asset) && OnNetwork(d, first, last, gen, gh, note)
            && Shows(d, "grp", VBytes(id))
  {
    CommonShows(0, first, last, gen, gh, note);
    AxferOnNetwork(CommonFields(0, first, last, gen, gh, note), sender, payTo, amount, asset, first, last, gen,
                   gh, note, id);
    AxferOwn(CommonFields(0, first, last, gen, gh, note), sender, payTo, amount, asset, id);
    hide CommonFields, OnNetwork, Pays;
  }

  /** The own fields of a transfer, on top of those both members have. */
  function Own(d: Txn, sender: Bytes, payTo: Bytes, amount: int, asset: int, id: Bytes): Txn {
    var d1 := if amount != 0 then d["aamt" := VInt(amount)] else d;
    var d2 := if asset != 0 then d1["xaid" := VInt(asset)] else d1;
    d2["arcv" := VBytes(payTo)]["snd" := VBytes(sender)]["type" := VText("axfer")]["grp" := VBytes(id)]
  }

  lemma AxferOwn(d: Txn, sender: Bytes, payTo: Bytes, amount: int, asset: int, id: Bytes)
    requires forall k :: k in d ==> k in {"fv", "lv", "gen", "gh", "note"}
    ensures Pays(Own(d, sender, payTo, amount, asset, id), sender, payTo, amount, asset)
    ensures Shows(Own(d, sender, payTo, amount, asset, id), "grp", VBytes(id))
  {
    OtherNames("aamt");
    OtherNames("xaid");
    OwnNames();
  }

  lemma AxferOnNetwork(d: Txn, sender: Bytes, payTo: Bytes, amount: int, asset: int, first: int, last: int, gen: string,
                       gh: Bytes, note: Bytes, id: Bytes)
    requires OnNetwork(d, first, last, gen, gh, note)
    ensures OnNetwork(Own(d, sender, payTo, amount, asset, id), first, last, gen, gh, note)
  {
    hide OnNetwork;
    StaysOnNetwork(d, first, last, gen, gh, note, "aamt", VInt(amount));
    var d1 := if amount != 0 then d["aamt" := VInt(amount)] else d;
    StaysOnNetwork(d1, first, last, gen, gh, note, "xaid", VInt(asset));
    var d2 := if asset != 0 then d1["xaid" := VInt(asset)] else d1;
    StaysOnNetwork(d2, first, last, gen, gh, note, "arcv", VBytes(payTo));
    var d3 := d2["arcv" := VBytes(payTo)];
    StaysOnNetwork(d3, first, last, gen, gh, note, "snd", VBytes(sender));
    var d4 := d3["snd" := VBytes(sender)];
    StaysOnNetwork(d4, first, last, gen, gh, note, "type", VText("axfer"));
    StaysOnNetwork(d4["type" := VText("axfer")], first, last, gen, gh, note, "grp", VBytes(id));
  }

  lemma OtherNames(k: string)
    requires k in {"rcv", "snd", "type", "grp", "aamt", "xaid", "arcv", "amt"}
    ensures k !in {"fee", "fv", "lv", "gen", "gh", "note"}
  {
  }

  lemma OwnNames()
    ensures "snd" != "type" && "snd" != "grp" && "snd" != "rcv" && "snd" != "arcv" && "snd" != "aamt" && "snd" != "xaid"
    ensures "type" != "grp" && "type" != "rcv" && "type" != "arcv" && "type" != "aamt" && "type" != "xaid"
    ensures "grp" != "rcv" && "grp" != "arcv" && "grp" != "aamt" && "grp" != "xaid"
    ensures "arcv" != "aamt" && "arcv" != "xaid" && "aamt" != "xaid"
    ensures "amt" !in {"rcv", "snd", "type", "grp"}
  {
  }

  /** The members of a built group, read back. */
  predicate ReadsAsFee(raw: Bytes, feePayer: Bytes, minFee: int, first: int, last: int, gen: string, gh: Bytes,
                       id: Bytes)
  {
    var a := MsgpackDecode(raw);
    && a.Some? && PaysFee(a.value, feePayer, minFee) && OnNetwork(a.value, first, last, gen, gh, FeeNote())
    && Shows(a.value, "grp", VBytes(id))
  }

  predicate ReadsAsPayment(raw: Bytes, sender: Bytes, payTo: Bytes, amount: int, asset: int, first: int, last: int,
                           gen: string, gh: Bytes, id: Bytes)
  {
    var b := MsgpackDecode(raw);
    && b.Some? && Pays(b.value, sender, payTo, amount, asset) && OnNetwork(b.value, first, last, gen, gh, PayNote())
    && Shows(b.value, "grp", VBytes(id))
  }

  lemma FeeReads(fee: Txn, raw: Bytes, feePayer: Bytes, minFee: int, first: int, last: int, gen: string, gh: Bytes,
                 id: Bytes)
    requires fee == PayTxn(feePayer, feePayer, 0, 2 * (if minFee >= 1000 then minFee else 1000), first, last, gen, gh,
                           FeeNote())
    requires EncodeDict(VDict(fee["grp" := VBytes(id)])) == Some(raw) && |raw| <= 8192
    ensures ReadsAsFee(raw, feePayer, minFee, first, last, gen, gh, id)
  {
    Notes();
    var pooled := 2 * (if minFee >= 1000 then minFee else 1000);
    TxnsAreFlat(feePayer, feePayer, 0, 0, pooled, first, last, gen, gh, FeeNote());
    PayShows(feePayer, minFee, first, last, gen, gh, FeeNote(), id);
    hide PayTxn, AxferTxn, FeeNote, EncodeDict, MsgpackDecode, PaysFee, OnNetwork, Flat;
    MemberReadsBack(fee, id, raw);
  }

  lemma PaymentReads(pay: Txn, raw: Bytes, sender: Bytes, payTo: Bytes, amount: int, asset: int, first: int, last: int,
                     gen: string, gh: Bytes, id: Bytes)
    requires pay == AxferTxn(sender, payTo, amount, asset, 0, first, last, gen, gh, PayNote())
    requires EncodeDict(VDict(pay["grp" := VBytes(id)])) == Some(raw) && |raw| <= 8192
    ensures ReadsAsPayment(raw, sender, payTo, amount, asset, first, last, gen, gh, id)
  {
    Notes();
    TxnsAreFlat(sender, payTo, amount, asset, 0, first, last, gen, gh, PayNote());
    AxferShows(sender, payTo, amount, asset, first, last, gen, gh, PayNote(), id);
    hide PayTxn, AxferTxn, PayNote, EncodeDict, MsgpackDecode, Pays, OnNetwork, Flat;
    MemberReadsBack(pay, id, raw);
  }

  /** Every group that is built, read back from its two members: the second transfers the amount of the asset
      from the sender to the payee without a fee, the first is the fee payer's payment of nothing to itself
      that carries both fees, and both name the given rounds and network, their note and the group id. */
  lemma BuiltGroupPays(hash: Hasher, sender: Bytes, feePayer: Bytes, payTo: Bytes, amount: int, asset: int,
                       first: int, last: int, gen: string, gh: Bytes, minFee: int, g: Group)
    requires BuildUnsignedGroup(hash, sender, feePayer, payTo, amount, asset, first, last, gen, gh, minFee) == Some(g)
    ensures |g.members| == 2
    ensures |g.members[0]| <= 8192 ==> ReadsAsFee(g.members[0], feePayer, minFee, first, last, gen, gh, g.id)
    ensures |g.members[1]| <= 8192 ==>
              ReadsAsPayment(g.members[1], sender, payTo, amount, asset, first, last, gen, gh, g.id)
  {
    hide PayTxn, AxferTxn, FeeNote, PayNote, Encode, EncodeDict, ReadsAsFee, ReadsAsPayment, GroupId;
    Notes();
    if |g.members[0]| <= 8192 { FeeReads(g.fee, g.members[0], feePayer, minFee, first, last, gen, gh, g.id); }
    if |g.members[1]| <= 8192 {
      PaymentReads(g.pay, g.members[1], sender, payTo, amount, asset, first, last, gen, gh, g.id);
    }
  }

  /** ... and with addresses and hashes of 32 bytes both members are within the limit and do read back. */
  lemma BuiltGroupReads(hash: Hasher, sender: Bytes, feePayer: Bytes, payTo: Bytes, amount: int, asset: int,
                        first: int, last: int, gen: string, gh: Bytes, minFee: int, g: Group)
    requires |sender| == |feePayer| == |payTo| == 32 && |gh| < 256 && forall b :: |hash(b)| == 32
    requires BuildUnsignedGroup(hash, sender, feePayer, payTo, amount, asset, first, last, gen, gh, minFee) == Some(g)
    ensures |g.members| == 2
    ensures ReadsAsFee(g.members[0], feePayer, minFee, first, last, gen, gh, g.id)
    ensures ReadsAsPayment(g.members[1], sender, payTo, amount, asset, first, last, gen, gh, g.id)
  {
    hide BuildUnsignedGroup, ReadsAsFee, ReadsAsPayment;
    MembersFit(hash, sender, feePayer, payTo, amount, asset, first, last, gen, gh, minFee);
    BuiltGroupPays(hash, sender, feePayer, payTo, amount, asset, first, last, gen, gh, minFee, g);
  }
}
