/** The strict MessagePack reader and the encoder for Algorand transactions (live402/algo_tx.py). */
module MsgPack {
  import opened Collections
  import opened TextOrder
  import opened Utf8

  // ---- big-endian integers -----------------------------------------------------------------

  function Pow256(k: nat): (r: nat)
    ensures r >= 1
  {
    if k == 0 then 1 else 256 * Pow256(k - 1)
  }

  /** n.to_bytes(k, "big") */
  function BigEndian(n: nat, k: nat): (r: Bytes)
    ensures |r| == k
  {
    if k == 0 then [] else BigEndian(n / 256, k - 1) + [n % 256]
  }

  /** int.from_bytes(s, "big") */
  function FromBig(s: Bytes): nat {
    if s == [] then 0 else FromBig(s[..|s| - 1]) * 256 + s[|s| - 1]
  }

  lemma {:induction false} FromBigEndian(n: nat, k: nat)
    requires n < Pow256(k)
    ensures FromBig(BigEndian(n, k)) == n
  {
    if k > 0 {
      FromBigEndian(n / 256, k - 1);
      assert BigEndian(n, k)[..k - 1] == BigEndian(n / 256, k - 1);
    }
  }

  lemma {:induction false} BigEndianFrom(s: Bytes)
    ensures FromBig(s) < Pow256(|s|) && BigEndian(FromBig(s), |s|) == s
  {
    if s != [] {
      BigEndianFrom(s[..|s| - 1]);
      assert s == s[..|s| - 1] + [s[|s| - 1]];
    }
  }

  lemma Powers()
    ensures Pow256(1) == 256 && Pow256(2) == 65536 && Pow256(4) == 0x1_0000_0000 && Pow256(8) == 0x1_0000_0000_0000_0000
  {
    assert Pow256(3) == 16777216 && Pow256(5) == 0x100_0000_0000 && Pow256(6) == 0x1_0000_0000_0000;
    assert Pow256(7) == 0x100_0000_0000_0000;
  }

  // ---- wire values -------------------------------------------------------------------------

  /** A decoded value that still remembers whether bytes came as str or as bin.
      Forgetting that gives the Python value. */
  datatype Node =
    | Int(number: int)
    | Text(text: string)
    | Raw(bytes: Bytes, str: bool)
    | List(items: seq<Node>)
    | Dict(entries: seq<Entry>)

  datatype Entry = Entry(key: string, value: Node)

  const MAX_DEPTH := 8
  const MAX_BYTES := 8192

  // ---- writers -----------------------------------------------------------------------------

  function MpUint(n: nat): Option<Bytes> {
    if n < 128 then Some([n])
    else if n < 256 then Some([0xCC] + BigEndian(n, 1))
    else if n < 65536 then Some([0xCD] + BigEndian(n, 2))
    else if n < 0x1_0000_0000 then Some([0xCE] + BigEndian(n, 4))
    else if n < 0x1_0000_0000_0000_0000 then Some([0xCF] + BigEndian(n, 8))
    else None
  }

  /** _mp_str on the encoded text. */
  function MpStr(raw: Bytes): Option<Bytes> {
    var n := |raw|;
    if n < 32 then Some([0xA0 + n] + raw)
    else if n < 256 then Some([0xD9, n] + raw)
    else None
  }

  function MpBin(b: Bytes): Option<Bytes> {
    var n := |b|;
    if n < 256 then Some([0xC4, n] + b)
    else if n < 65536 then Some([0xC5] + BigEndian(n, 2) + b)
    else if n < 0x1_0000_0000 then Some([0xC6] + BigEndian(n, 4) + b)
    else None
  }

  function ArrayHead(n: nat): Option<Bytes> {
    if n < 16 then Some([0x90 + n]) else if n < 65536 then Some([0xDC] + BigEndian(n, 2)) else None
  }

  function MapHead(n: nat): Option<Bytes> {
    if n < 16 then Some([0x80 + n]) else if n < 65536 then Some([0xDE] + BigEndian(n, 2)) else None
  }

  // ---- the strict reader -------------------------------------------------------------------

  /** A ValueError, or a value and the index after it. */
  datatype Read<+T> = Bad | Got(value: T, next: nat)

  function Need(buf: Bytes, i: nat, n: nat): bool {
    i + n <= |buf|
  }

  function ReadUint(buf: Bytes, i: nat): (r: Read<int>)
    ensures r.Got? ==> i < r.next <= |buf|
  {
    if i >= |buf| then Bad
    else
      var b := buf[i];
      if b < 128 then Got(b, i + 1)
      else if b == 0xCC && Need(buf, i, 2) && FromBig(buf[i + 1..i + 2]) >= 128 then
        Got(FromBig(buf[i + 1..i + 2]), i + 2)
      else if b == 0xCD && Need(buf, i, 3) && FromBig(buf[i + 1..i + 3]) >= 256 then
        Got(FromBig(buf[i + 1..i + 3]), i + 3)
      else if b == 0xCE && Need(buf, i, 5) && FromBig(buf[i + 1..i + 5]) >= 65536 then
        Got(FromBig(buf[i + 1..i + 5]), i + 5)
      else if b == 0xCF && Need(buf, i, 9) && FromBig(buf[i + 1..i + 9]) >= 0x1_0000_0000 then
        Got(FromBig(buf[i + 1..i + 9]), i + 9)
      else Bad
  }

  /** _mp_str_payload: text when it is valid UTF-8, the raw bytes otherwise. */
  function StrPayload(raw: Bytes): Node {
    match Decode(raw)
    case Some(t) => Text(t)
    case None => Raw(raw, true)
  }

  /** The str and bin forms of the reader. */
  function ReadBlob(buf: Bytes, i: nat): (r: Read<Node>)
    requires i < |buf|
    ensures r.Got? ==> i < r.next <= |buf|
  {
    var b := buf[i];
    if 0xA0 <= b <= 0xBF then
      var n := b - 0xA0;
      if Need(buf, i + 1, n) then Got(StrPayload(buf[i + 1..i + 1 + n]), i + 1 + n) else Bad
    else if b == 0xD9 then
      if !Need(buf, i, 2) || buf[i + 1] < 32 || !Need(buf, i + 2, buf[i + 1]) then Bad
      else Got(StrPayload(buf[i + 2..i + 2 + buf[i + 1]]), i + 2 + buf[i + 1])
    else if b == 0xDA then
      if !Need(buf, i, 3) then Bad
      else
        var n := FromBig(buf[i + 1..i + 3]);
        if n < 256 || !Need(buf, i + 3, n) then Bad else Got(Raw(buf[i + 3..i + 3 + n], true), i + 3 + n)
    else if b == 0xC4 then
      if !Need(buf, i, 2) || !Need(buf, i + 2, buf[i + 1]) then Bad
      else Got(Raw(buf[i + 2..i + 2 + buf[i + 1]], false), i + 2 + buf[i + 1])
    else if b == 0xC5 then
      if !Need(buf, i, 3) then Bad
      else
        var n := FromBig(buf[i + 1..i + 3]);
        if n < 256 || !Need(buf, i + 3, n) then Bad else Got(Raw(buf[i + 3..i + 3 + n], false), i + 3 + n)
    else Bad
  }

  /** The head of a map or an array: its size. */
  function ReadSize(buf: Bytes, i: nat, fix: int, wide: int): (r: Read<nat>)
    requires i < |buf|
    ensures r.Got? ==> i < r.next <= |buf|
  {
    var b := buf[i];
    if fix <= b < fix + 16 then Got(b - fix, i + 1)
    else if b == wide && Need(buf, i, 3) && FromBig(buf[i + 1..i + 3]) >= 16 then Got(FromBig(buf[i + 1..i + 3]), i + 3)
    else Bad
  }

  predicate IsUintByte(b: Byte) { b < 128 || 0xCC <= b <= 0xCF }
  predicate IsMapByte(b: Byte) { 0x80 <= b <= 0x8F || b == 0xDE }
  predicate IsArrayByte(b: Byte) { 0x90 <= b <= 0x9F || b == 0xDC }

  predicate HasKey(acc: seq<Entry>, key: string) {
    exists e :: e in acc && e.key == key
  }

  /** The strict checks on one more key of a map: text, not empty, not seen, not descending. */
  predicate KeyFits(acc: seq<Entry>, key: Node) {
    && key.Text? && key.text != ""
    && !HasKey(acc, key.text)
    && (acc != [] ==> !Less(key.text, acc[|acc| - 1].key))
  }

  /** _mp_read with strict=True. */
  function ReadNode(buf: Bytes, i: nat, depth: nat): (r: Read<Node>)
    ensures r.Got? ==> i < r.next <= |buf|
    decreases if i < |buf| then |buf| - i else 0, 0
  {
    if depth > MAX_DEPTH || i >= |buf| then Bad
    else
      var b := buf[i];
      if IsUintByte(b) then
        match ReadUint(buf, i)
        case Bad => Bad
        case Got(n, j) => Got(Int(n), j)
      else if IsMapByte(b) then
        match ReadSize(buf, i, 0x80, 0xDE)
        case Bad => Bad
        case Got(n, j) =>
          match ReadMap(buf, j, n, depth, [])
          case Bad => Bad
          case Got(es, k) => Got(Dict(es), k)
      else if IsArrayByte(b) then
        match ReadSize(buf, i, 0x90, 0xDC)
        case Bad => Bad
        case Got(n, j) =>
          match ReadArray(buf, j, n, depth, [])
          case Bad => Bad
          case Got(xs, k) => Got(List(xs), k)
      else ReadBlob(buf, i)
  }

  /** The loop of _mp_read_map, from an accumulated prefix. */
  function ReadMap(buf: Bytes, i: nat, n: nat, depth: nat, acc: seq<Entry>): (r: Read<seq<Entry>>)
    requires i <= |buf|
    ensures r.Got? ==> i <= r.next <= |buf|
    decreases |buf| - i, 1, n
  {
    if n == 0 then Got(acc, i)
    else
      match ReadNode(buf, i, depth + 1)
      case Bad => Bad
      case Got(key, j) =>
        match ReadNode(buf, j, depth + 1)
        case Bad => Bad
        case Got(value, k) =>
          if !KeyFits(acc, key) then Bad
          else ReadMap(buf, k, n - 1, depth, acc + [Entry(key.text, value)])
  }

  /** The loop of _mp_read_array, from an accumulated prefix. */
  function ReadArray(buf: Bytes, i: nat, n: nat, depth: nat, acc: seq<Node>): (r: Read<seq<Node>>)
    requires i <= |buf|
    ensures r.Got? ==> i <= r.next <= |buf|
    decreases |buf| - i, 1, n
  {
    if n == 0 then Got(acc, i)
    else
      match ReadNode(buf, i, depth + 1)
      case Bad => Bad
      case Got(x, j) => ReadArray(buf, j, n - 1, depth, acc + [x])
  }

  lemma MapTurn(buf: Bytes, i: nat, n: nat, depth: nat, acc: seq<Entry>)
    requires i <= |buf| && n > 0
    ensures ReadMap(buf, i, n, depth, acc) ==
            match ReadNode(buf, i, depth + 1)
            case Bad => Bad
            case Got(key, j) =>
              match ReadNode(buf, j, depth + 1)
              case Bad => Bad
              case Got(value, k) =>
                if !KeyFits(acc, key) then Bad
                else ReadMap(buf, k, n - 1, depth, acc + [Entry(key.text, value)])
  {
  }

  lemma MapDone(buf: Bytes, i: nat, depth: nat, acc: seq<Entry>)
    requires i <= |buf|
    ensures ReadMap(buf, i, 0, depth, acc) == Got(acc, i)
  {
  }

  /** msgpack_decode with strict=True. */
  function DecodeStrict(raw: Bytes): Option<seq<Entry>> {
    if |raw| > MAX_BYTES then None
    else
      match ReadNode(raw, 0, 0)
      case Bad => None
      case Got(v, end) => if end == |raw| && v.Dict? then Some(v.entries) else None
  }

  // ---- the reader as it runs ---------------------------------------------------------------

  method MpRead(buf: Bytes, i: nat, depth: nat) returns (r: Read<Node>)
    ensures r == ReadNode(buf, i, depth)
    decreases if i < |buf| then |buf| - i else 0, 0
  {
    if depth > MAX_DEPTH || i >= |buf| { return Bad; }
    var b := buf[i];
    if IsUintByte(b) {
      var u := ReadUint(buf, i);
      return if u.Bad? then Bad else Got(Int(u.value), u.next);
    }
    if IsMapByte(b) {
      var size := ReadSize(buf, i, 0x80, 0xDE);
      if size.Bad? { return Bad; }
      var es := MpReadMap(buf, size.next, size.value, depth);
      return if es.Bad? then Bad else Got(Dict(es.value), es.next);
    }
    if IsArrayByte(b) {
      var size := ReadSize(buf, i, 0x90, 0xDC);
      if size.Bad? { return Bad; }
      var xs := MpReadArray(buf, size.next, size.value, depth);
      return if xs.Bad? then Bad else Got(List(xs.value), xs.next);
    }
    return ReadBlob(buf, i);
  }

  method MpReadMap(buf: Bytes, i: nat, n: nat, depth: nat) returns (r: Read<seq<Entry>>)
    requires i <= |buf|
    ensures r == ReadMap(buf, i, n, depth, [])
    decreases |buf| - i, 1
  {
    hide ReadMap, ReadNode, HasKey, Less;
    var out: seq<Entry> := [];
    var j := i;
    var left := n;
    while left > 0
      invariant i <= j <= |buf|
      invariant ReadMap(buf, i, n, depth, []) == ReadMap(buf, j, left, depth, out)
      decreases left
    {
      MapTurn(buf, j, left, depth, out);
      var key := MpRead(buf, j, depth + 1);
      if key.Bad? { return Bad; }
      var value := MpRead(buf, key.next, depth + 1);
      if value.Bad? { return Bad; }
      if !KeyFits(out, key.value) { return Bad; }
      out := out + [Entry(key.value.text, value.value)];
      j := value.next;
      left := left - 1;
    }
    MapDone(buf, j, depth, out);
    return Got(out, j);
  }

  method MpReadArray(buf: Bytes, i: nat, n: nat, depth: nat) returns (r: Read<seq<Node>>)
    requires i <= |buf|
    ensures r == ReadArray(buf, i, n, depth, [])
    decreases |buf| - i, 1
  {
    var items: seq<Node> := [];
    var j := i;
    var left := n;
    while left > 0
      invariant i <= j <= |buf|
      invariant ReadArray(buf, i, n, depth, []) == ReadArray(buf, j, left, depth, items)
      decreases left
    {
      var x := MpRead(buf, j, depth + 1);
      if x.Bad? { return Bad; }
      items := items + [x.value];
      j := x.next;
      left := left - 1;
    }
    return Got(items, j);
  }
}
