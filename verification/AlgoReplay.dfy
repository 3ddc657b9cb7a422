/** The economic authorization of an Algorand payment group (live402/replay.py): the ids of its
    unsigned transactions, which no signature wrapper can change. Base64 and the hash are not
    modelled: a member is its decoded bytes, an id the hash of the unsigned encoding. */
module AlgoReplay {
  import opened Collections
  import opened Utf8
  import opened MsgPack
  import opened MsgPackStrict
  import opened AlgoTx

  const MAX_GROUP: nat := 16
  const WRAPPER_KEYS: set<string> := {"sig", "msig", "lsig", "sgnr", "pqsig"}

  datatype Authorization = Authorization(index: nat, txids: seq<Bytes>)

  /** The transaction inside a decoded member: under "txn", or the member itself when nothing in it
      belongs to a signature. */
  function Unwrapped(obj: Txn): Option<Txn> {
    if "txn" in obj then
      match obj["txn"]
      case VDict(txn) => if txn == map[] then None else Some(txn)
      case _ => None
    else if obj == map[] || exists k :: k in WRAPPER_KEYS && k in obj then None
    else Some(obj)
  }

  /** ... inside the member's bytes. */
  function TxnIn(raw: Bytes): Option<Txn> {
    match MsgpackDecode(raw)
    case None => None
    case Some(obj) => Unwrapped(obj)
  }

  /** txid_from_unsigned, before base32. */
  function TxidIn(hash: Hasher, raw: Bytes): Option<Bytes> {
    match TxnIn(raw)
    case None => None
    case Some(txn) => TxDigest(hash, txn)
  }

  function Txids(hash: Hasher, group: seq<Bytes>): Option<seq<Bytes>>
    decreases |group|
  {
    if group == [] then Some([])
    else
      var n := |group| - 1;
      match (Txids(hash, group[..n]), TxidIn(hash, group[n]))
      case (Some(before), Some(last)) => Some(before + [last])
      case _ => None
  }

  /** _algorand_authorization; None stands for its errors. */
  function AuthorizationOf(hash: Hasher, group: seq<Bytes>, index: int): Option<Authorization> {
    if group == [] || |group| > MAX_GROUP || index < 0 || index >= |group| then None
    else
      match Txids(hash, group)
      case None => None
      case Some(txids) => Some(Authorization(index, txids))
  }

  lemma {:induction false} OneFails(hash: Hasher, group: seq<Bytes>, i: nat)
    requires i < |group| && TxidIn(hash, group[i]).None?
    ensures Txids(hash, group).None?
    decreases |group|
  {
    hide TxidIn;
    if i < |group| - 1 { OneFails(hash, group[..|group| - 1], i); }
  }

  /** ... as the source runs it. */
  method AlgorandAuthorization(hash: Hasher, group: seq<Bytes>, index: int) returns (r: Option<Authorization>)
    ensures r == AuthorizationOf(hash, group, index)
  {
    hide MsgpackDecode, EncodeDict;
    if group == [] || |group| > MAX_GROUP || index < 0 || index >= |group| { return None; }
    var txids: seq<Bytes> := [];
    for i := 0 to |group|
      invariant Txids(hash, group[..i]) == Some(txids)
    {
      assert group[..i + 1][..i] == group[..i];
      var txid := None;
      var obj := MsgpackDecode(group[i]);
      if obj.Some? {
        var txn := Unwrapped(obj.value);
        if txn.Some? { txid := TxDigest(hash, txn.value); }
      }
      assert txid == TxidIn(hash, group[i]);
      if txid.None? {
        OneFails(hash, group, i);
        return None;
      }
      txids := txids + [txid.value];
    }
    assert group[..|group|] == group;
    return Some(Authorization(index, txids));
  }

  // ---- when there is an authorization ---------------------------------------------------------

  /** A member holds a transaction exactly if its bytes read as a dictionary that is not empty and either has it
      under "txn", or is it and has no field of a signature. */
  lemma TxnInIff(raw: Bytes, txn: Txn)
    ensures TxnIn(raw) == Some(txn) <==>
              && txn != map[] && MsgpackDecode(raw).Some?
              && (var obj := MsgpackDecode(raw).value;
                  if "txn" in obj then obj["txn"] == VDict(txn)
                  else obj == txn && "sig" !in obj && "msig" !in obj && "lsig" !in obj && "sgnr" !in obj
                       && "pqsig" !in obj)
  {
    hide MsgpackDecode;
    if MsgpackDecode(raw).Some? {
      var obj := MsgpackDecode(raw).value;
      assert (exists k :: k in WRAPPER_KEYS && k in obj) <==>
        "sig" in obj || "msig" in obj || "lsig" in obj || "sgnr" in obj || "pqsig" in obj;
    }
  }

  lemma {:induction false} TxidsIff(hash: Hasher, group: seq<Bytes>)
    ensures Txids(hash, group).Some? <==> forall i :: 0 <= i < |group| ==> TxidIn(hash, group[i]).Some?
    decreases |group|
  {
    hide TxidIn;
    if group != [] { TxidsIff(hash, group[..|group| - 1]); }
  }

  /** Exactly groups of 1 to 16 members, each with a transaction that encodes, have an authorization for an index
      into them: the index, and of each member the hash of "TX" and the encoding of its transaction. */
  lemma AuthorizationIff(hash: Hasher, group: seq<Bytes>, index: int)
    ensures AuthorizationOf(hash, group, index).Some? <==>
              && 1 <= |group| <= 16 && 0 <= index < |group|
              && forall i :: 0 <= i < |group| ==>
                   TxnIn(group[i]).Some? && EncodeDict(VDict(TxnIn(group[i]).value)).Some?
    ensures AuthorizationOf(hash, group, index).Some? ==>
              var a := AuthorizationOf(hash, group, index).value;
              && a.index == index && |a.txids| == |group|
              && forall i :: 0 <= i < |group| ==>
                   && TxnIn(group[i]).Some? && EncodeDict(VDict(TxnIn(group[i]).value)).Some?
                   && a.txids[i] == hash([0x54, 0x58] + EncodeDict(VDict(TxnIn(group[i]).value)).value)
  {
    hide TxnIn, EncodeDict, Txids;
    TxidsIff(hash, group);
    if AuthorizationOf(hash, group, index).Some? { TxidsAre(hash, group); }
  }

  // ---- what decides an authorization ----------------------------------------------------------

  lemma {:induction false} TxidsAre(hash: Hasher, group: seq<Bytes>)
    requires Txids(hash, group).Some?
    ensures var txids := Txids(hash, group).value;
            |txids| == |group| && forall i :: 0 <= i < |group| ==> TxidIn(hash, group[i]) == Some(txids[i])
    decreases |group|
  {
    hide TxidIn;
    if group != [] { TxidsAre(hash, group[..|group| - 1]); }
  }

  lemma {:induction false} SameTxids(hash: Hasher, group: seq<Bytes>, others: seq<Bytes>)
    requires |group| == |others| && forall i :: 0 <= i < |group| ==> TxidIn(hash, group[i]) == TxidIn(hash, others[i])
    ensures Txids(hash, group) == Txids(hash, others)
    decreases |group|
  {
    hide TxidIn;
    if group != [] {
      var n := |group| - 1;
      SameTxids(hash, group[..n], others[..n]);
    }
  }

  /** What a member decodes to nests no deeper than the reader allows. */
  lemma {:induction false} DeeperIsNested(v: Val, k: int)
    requires Nested(v, k)
    ensures Nested(v, k + 1)
    decreases v
  {
    match v
    case VDict(m) => forall x | x in m ensures Nested(m[x], k) { DeeperIsNested(m[x], k - 1); }
    case _ =>
  }

  lemma DecodedShape(raw: Bytes, obj: Txn)
    requires MsgpackDecode(raw) == Some(obj)
    ensures Clean(VDict(obj)) && Nested(VDict(obj), Room(0)) && Narrow(VDict(obj))
  {
    var r := ReadNode(raw, 0, 0);
    ReadIsPrinted(raw, 0, 0);
    assert NodeOk(raw, 0, 0, r.value, r.next);
    ReadIsClean(r.value, Room(0));
    assert Erase(r.value) == VDict(obj);
  }

  lemma UnwrappedShape(obj: Txn, txn: Txn)
    requires Clean(VDict(obj)) && Nested(VDict(obj), Room(0)) && Narrow(VDict(obj)) && Unwrapped(obj) == Some(txn)
    ensures Clean(VDict(txn)) && Nested(VDict(txn), Room(0)) && Narrow(VDict(txn))
  {
    if "txn" in obj {
      assert obj["txn"] == VDict(txn) && Clean(obj["txn"]) && Narrow(obj["txn"]);
      assert Nested(obj["txn"], Room(0) - 1);
      DeeperIsNested(obj["txn"], Room(0) - 1);
    }
  }

  /** The unsigned transaction of a member is one that encodes injectively. */
  lemma TxnShape(raw: Bytes)
    requires TxnIn(raw).Some? && EncodeDict(VDict(TxnIn(raw).value)).Some?
    ensures var v := VDict(TxnIn(raw).value); Plain(v) && Nested(v, Room(0)) && Narrow(v)
  {
    hide MsgpackDecode, Unwrapped, EncodeDict, Clean, Nested, Narrow, Plain;
    var obj := MsgpackDecode(raw).value;
    var txn := Unwrapped(obj).value;
    DecodedShape(raw, obj);
    UnwrappedShape(obj, txn);
    assert EncodeVal(VDict(txn)) == EncodeDict(VDict(txn));
    EncodedCleanIsPlain(VDict(txn));
  }

  ghost predicate NoCollisions(hash: Hasher) {
    forall a, b :: hash(a) == hash(b) ==> a == b
  }

  /** Two members have one id exactly when they hold the same transaction. */
  lemma TxidIff(hash: Hasher, a: Bytes, b: Bytes)
    requires NoCollisions(hash) && TxidIn(hash, a).Some? && TxidIn(hash, b).Some?
    ensures TxidIn(hash, a) == TxidIn(hash, b) <==> TxnIn(a) == TxnIn(b)
  {
    hide TxnIn, EncodeDict, Plain, Nested, Narrow;
    if TxidIn(hash, a) == TxidIn(hash, b) {
      var c, d := TxnIn(a).value, TxnIn(b).value;
      TxnShape(a);
      TxnShape(b);
      var x, y := EncodeDict(VDict(c)).value, EncodeDict(VDict(d)).value;
      var tag: Bytes := [0x54, 0x58];
      assert hash(tag + x) == hash(tag + y);
      assert x == (tag + x)[2..] && y == (tag + y)[2..];
      EncodingIsInjective(c, d);
    }
  }

  /** With a hash without collisions two groups have the same authorization exactly when the payment
      index and all unsigned transactions are the same: signatures and the spelling of the members do
      not count, and everything else does. */
  lemma WrappersDoNotCount(hash: Hasher, group: seq<Bytes>, index: int, others: seq<Bytes>, other: int)
    requires NoCollisions(hash)
    requires AuthorizationOf(hash, group, index).Some? && AuthorizationOf(hash, others, other).Some?
    ensures AuthorizationOf(hash, group, index) == AuthorizationOf(hash, others, other)
            <==> && index == other && |group| == |others|
                 && forall i :: 0 <= i < |group| ==> TxnIn(group[i]) == TxnIn(others[i])
  {
    hide TxnIn, TxidIn, Txids, NoCollisions;
    TxidsAre(hash, group);
    TxidsAre(hash, others);
    if |group| == |others| {
      forall i | 0 <= i < |group|
        ensures TxidIn(hash, group[i]) == TxidIn(hash, others[i]) <==> TxnIn(group[i]) == TxnIn(others[i])
      {
        TxidIff(hash, group[i], others[i]);
      }
      if forall i :: 0 <= i < |group| ==> TxnIn(group[i]) == TxnIn(others[i]) { SameTxids(hash, group, others); }
    }
  }

  // ---- spellings of one transaction -----------------------------------------------------------

  /** A transaction with a signature wrapper of any fields around it. */
  function Wrapped(txn: Txn, wrapper: Txn): Txn {
    wrapper["txn" := VDict(txn)]
  }

  /** The member's bytes for a dictionary that reads back. */
  ghost predicate Spells(raw: Bytes, d: Txn) {
    && EncodeDict(VDict(d)) == Some(raw) && |raw| <= MAX_BYTES
    && Plain(VDict(d)) && Nested(VDict(d), Room(0))
  }

  /** Whatever is wrapped around a transaction, and without a wrapper, the member holds it. */
  lemma WrappedHolds(raw: Bytes, txn: Txn, wrapper: Txn)
    requires txn != map[]
    ensures Spells(raw, Wrapped(txn, wrapper)) ==> TxnIn(raw) == Some(txn)
    ensures Spells(raw, txn) && "txn" !in txn && (forall k :: k in WRAPPER_KEYS ==> k !in txn) ==>
              TxnIn(raw) == Some(txn)
  {
    hide EncodeDict, MsgpackDecode, Plain, Nested;
    if Spells(raw, Wrapped(txn, wrapper)) { DecodeEncodedIff(Wrapped(txn, wrapper)); }
    if Spells(raw, txn) { DecodeEncodedIff(txn); }
  }

  /** Signing a member again, or stripping its signature, leaves the authorization of the group. */
  lemma ResigningChangesNothing(hash: Hasher, group: seq<Bytes>, index: int, i: nat, txn: Txn,
                                wrapper: Txn, wrapper': Txn, raw: Bytes)
    requires i < |group| && txn != map[]
    requires Spells(group[i], Wrapped(txn, wrapper)) && Spells(raw, Wrapped(txn, wrapper'))
    ensures AuthorizationOf(hash, group[i := raw], index) == AuthorizationOf(hash, group, index)
  {
    hide Spells, Txids, TxnIn;
    WrappedHolds(group[i], txn, wrapper);
    WrappedHolds(raw, txn, wrapper');
    SameTxids(hash, group[i := raw], group);
  }
}
