/** Strict reading and canonical printing are inverse: the reader accepts exactly one byte string
    for each wire value, and that string read with anything after it gives the value back. */
module MsgPackStrict {
  import opened Collections
  import opened TextOrder
  import opened Utf8
  import opened MsgPack

  // ---- the canonical form of a wire value --------------------------------------------------

  function OrEmpty(o: Option<Bytes>): Bytes {
    if o.Some? then o.value else []
  }

  function PrintStr(raw: Bytes): Bytes {
    if |raw| < 256 then OrEmpty(MpStr(raw)) else [0xDA] + BigEndian(|raw|, 2) + raw
  }

  function Print(v: Node): Bytes {
    match v
    case Int(n) => if n < 0 then [] else OrEmpty(MpUint(n))
    case Text(t) => PrintStr(Encode(t))
    case Raw(b, str) => if str then PrintStr(b) else OrEmpty(MpBin(b))
    case List(xs) => OrEmpty(ArrayHead(|xs|)) + PrintAll(xs)
    case Dict(es) => OrEmpty(MapHead(|es|)) + PrintEntries(es)
  }

  function PrintAll(xs: seq<Node>): Bytes {
    if xs == [] then [] else Print(xs[0]) + PrintAll(xs[1..])
  }

  function PrintEntries(es: seq<Entry>): Bytes {
    if es == [] then [] else PrintStr(Encode(es[0].key)) + Print(es[0].value) + PrintEntries(es[1..])
  }

  /** Keys strictly ascending and not empty. */
  predicate Ascending(es: seq<Entry>) {
    && (forall i :: 0 <= i < |es| ==> es[i].key != "")
    && (forall i :: 0 < i < |es| ==> Less(es[i - 1].key, es[i].key))
  }

  /** What a strict reading can deliver, nesting apart. */
  predicate Wf(v: Node) {
    match v
    case Int(n) => 0 <= n < 0x1_0000_0000_0000_0000
    case Text(t) => |Encode(t)| < 256
    case Raw(b, str) => |b| < 65536 && (str && |b| < 256 ==> Decode(b) == None)
    case List(xs) => |xs| < 65536 && forall x :: x in xs ==> Wf(x)
    case Dict(es) => |es| < 65536 && Ascending(es) && forall e :: e in es ==> Wf(e.value) && |Encode(e.key)| < 256
  }

  /** Containers nest no deeper than k levels, counting a leaf as one. */
  predicate Fits(v: Node, k: int) {
    k >= 1 &&
    match v
    case List(xs) => forall x :: x in xs ==> Fits(x, k - 1)
    case Dict(es) => forall e :: e in es ==> k >= 2 && Fits(e.value, k - 1)
    case _ => true
  }

  /** The levels left for a value read at this depth. */
  function Room(depth: nat): int {
    9 - depth
  }

  // ---- order of keys -----------------------------------------------------------------------

  lemma {:induction false} AscendingIsSorted(es: seq<Entry>, i: nat, j: nat)
    requires Ascending(es) && i < j < |es|
    ensures Less(es[i].key, es[j].key)
    decreases j
  {
    if i < j - 1 {
      AscendingIsSorted(es, i, j - 1);
      LessTransitive(es[i].key, es[j - 1].key, es[j].key);
    }
  }

  lemma AppendAscends(acc: seq<Entry>, e: Entry)
    requires Ascending(acc) && e.key != "" && (acc != [] ==> Less(acc[|acc| - 1].key, e.key))
    ensures Ascending(acc + [e])
  {
  }

  /** The keys before the last of an ascending list are other keys, all less than it. */
  lemma LastIsNew(acc: seq<Entry>, e: Entry)
    requires Ascending(acc + [e])
    ensures forall x :: x in acc ==> x.key != e.key
    ensures e.key != "" && (acc != [] ==> Less(acc[|acc| - 1].key, e.key))
  {
    var next := acc + [e];
    forall x | x in acc ensures x.key != e.key {
      var i :| 0 <= i < |acc| && acc[i] == x;
      AscendingIsSorted(next, i, |acc|);
      LessTotal(next[i].key, e.key);
    }
    assert next[|acc|] == e;
    if acc != [] { AscendingIsSorted(next, |acc| - 1, |acc|); }
  }

  /** After an ascending prefix, the reader's checks mean strictly greater than the last key. */
  lemma KeyFitsMeansAscending(acc: seq<Entry>, key: string, value: Node)
    requires Ascending(acc)
    ensures KeyFits(acc, Text(key)) <==> Ascending(acc + [Entry(key, value)])
  {
    hide Less, Ascending;
    var e := Entry(key, value);
    if acc != [] {
      assert acc[|acc| - 1] in acc;
      LessTotal(key, acc[|acc| - 1].key);
    }
    if key != "" && (acc != [] ==> Less(acc[|acc| - 1].key, key)) { AppendAscends(acc, e); }
    if Ascending(acc + [e]) { LastIsNew(acc, e); }
  }

  // ---- leaves ------------------------------------------------------------------------------

  lemma UintReadIsPrinted(buf: Bytes, i: nat)
    requires ReadUint(buf, i).Got?
    ensures var r := ReadUint(buf, i);
            0 <= r.value < 0x1_0000_0000_0000_0000 && MpUint(r.value) == Some(buf[i..r.next])
  {
    Powers();
    hide BigEndian, FromBig, Pow256;
    var r := ReadUint(buf, i);
    if buf[i] < 128 {
      assert buf[i..i + 1] == [buf[i]];
    } else {
      BigEndianFrom(buf[i + 1..r.next]);
      assert buf[i..r.next] == [buf[i]] + buf[i + 1..r.next];
    }
  }

  lemma UintPrintedIsRead(buf: Bytes, i: nat, n: nat)
    requires n < 0x1_0000_0000_0000_0000
    requires i + |MpUint(n).value| <= |buf| && buf[i..i + |MpUint(n).value|] == MpUint(n).value
    ensures ReadUint(buf, i) == Got(n, i + |MpUint(n).value|) && IsUintByte(buf[i])
  {
    Powers();
    hide BigEndian, FromBig, Pow256;
    var w := MpUint(n).value;
    var k := |w| - 1;
    assert buf[i] == buf[i..i + |w|][0] == w[0];
    assert buf[i + 1..i + |w|] == buf[i..i + |w|][1..];
    if n >= 128 {
      assert w[1..] == BigEndian(n, k);
      FromBigEndian(n, k);
    }
  }

  lemma SizeReadIsPrinted(buf: Bytes, i: nat)
    requires i < |buf|
    ensures var r := ReadSize(buf, i, 0x80, 0xDE); r.Got? ==> MapHead(r.value) == Some(buf[i..r.next])
    ensures var r := ReadSize(buf, i, 0x90, 0xDC); r.Got? ==> ArrayHead(r.value) == Some(buf[i..r.next])
  {
    Powers();
    hide BigEndian, FromBig, Pow256;
    if i + 3 <= |buf| {
      BigEndianFrom(buf[i + 1..i + 3]);
      assert buf[i..i + 3] == [buf[i]] + buf[i + 1..i + 3];
    }
    assert buf[i..i + 1] == [buf[i]];
  }

  /** The head of a container of either kind. */
  function Head(n: nat, fix: Byte, wide: Byte): (r: Bytes)
    requires n < 65536 && fix < 240
  {
    if n < 16 then [fix + n] else [wide] + BigEndian(n, 2)
  }

  lemma HeadPrintedIsRead(buf: Bytes, i: nat, n: nat, fix: Byte, wide: Byte)
    requires n < 65536 && fix < 240 && !(fix <= wide < fix + 16)
    requires var w := Head(n, fix, wide); i + |w| <= |buf| && buf[i..i + |w|] == w
    ensures ReadSize(buf, i, fix, wide) == Got(n, i + |Head(n, fix, wide)|)
    ensures buf[i] == if n < 16 then fix + n else wide
  {
    var w := Head(n, fix, wide);
    assert buf[i] == buf[i..i + |w|][0] == w[0];
    if n >= 16 {
      Powers();
      hide BigEndian, FromBig, Pow256;
      FromBigEndian(n, 2);
      assert buf[i + 1..i + 3] == buf[i..i + 3][1..] == w[1..] == BigEndian(n, 2);
    }
  }

  predicate Leaf(v: Node) { v.Int? || v.Text? || v.Raw? }

  lemma PayloadPrints(raw: Bytes)
    requires |raw| < 256
    ensures Wf(StrPayload(raw)) && Leaf(StrPayload(raw)) && Print(StrPayload(raw)) == PrintStr(raw)
  {
    if Decode(raw).Some? { EncodeDecode(raw); }
  }

  lemma BlobReadIsPrinted(buf: Bytes, i: nat)
    requires i < |buf| && ReadBlob(buf, i).Got?
    ensures var r := ReadBlob(buf, i); Wf(r.value) && Leaf(r.value) && buf[i..r.next] == Print(r.value)
  {
    hide Decode, Encode;
    if 0xA0 <= buf[i] <= 0xBF || buf[i] == 0xD9 {
      ShortStrIsPrinted(buf, i);
    } else if buf[i] == 0xC4 {
      var r := ReadBlob(buf, i);
      assert buf[i..r.next] == [buf[i], buf[i + 1]] + buf[i + 2..r.next];
    } else {
      Powers();
      hide BigEndian, FromBig, Pow256;
      var r := ReadBlob(buf, i);
      BigEndianFrom(buf[i + 1..i + 3]);
      assert buf[i..r.next] == [buf[i]] + buf[i + 1..i + 3] + buf[i + 3..r.next];
    }
  }

  lemma ShortStrIsPrinted(buf: Bytes, i: nat)
    requires i < |buf| && ReadBlob(buf, i).Got? && (0xA0 <= buf[i] <= 0xBF || buf[i] == 0xD9)
    ensures var r := ReadBlob(buf, i); Wf(r.value) && Leaf(r.value) && buf[i..r.next] == Print(r.value)
  {
    hide StrPayload, Wf, Print;
    var r := ReadBlob(buf, i);
    if buf[i] == 0xD9 {
      PayloadPrints(buf[i + 2..r.next]);
      assert buf[i..r.next] == [buf[i], buf[i + 1]] + buf[i + 2..r.next];
    } else {
      PayloadPrints(buf[i + 1..r.next]);
      assert buf[i..r.next] == [buf[i]] + buf[i + 1..r.next];
    }
  }

  lemma ByteOf(buf: Bytes, i: nat, w: Bytes, k: nat)
    requires i + |w| <= |buf| && buf[i..i + |w|] == w && k < |w|
    ensures buf[i + k] == w[k]
  {
    var part := buf[i..i + |w|];
    assert part[k] == buf[i + k];
  }

  /** Parts of what is printed are found where it is printed. */
  lemma PartOf(buf: Bytes, i: nat, w: Bytes, a: nat, b: nat)
    requires i + |w| <= |buf| && buf[i..i + |w|] == w && a <= b <= |w|
    ensures buf[i + a..i + b] == w[a..b]
  {
    var x, y := buf[i + a..i + b], w[a..b];
    assert |x| == |y|;
    forall k | 0 <= k < |x| ensures x[k] == y[k] {
      ByteOf(buf, i, w, a + k);
      assert x[k] == buf[i + a + k] && y[k] == w[a + k];
    }
  }

  /** A head of h bytes and the raw bytes after it. */
  lemma HeadAndRaw(head: Bytes, raw: Bytes)
    ensures var w := head + raw;
            w[|head|..|w|] == raw && w[..|head|] == head && forall k :: 0 <= k < |head| ==> w[k] == head[k]
  {
  }

  lemma ShortStrIsRead(buf: Bytes, i: nat, raw: Bytes)
    requires |raw| < 32 && i + |PrintStr(raw)| <= |buf| && buf[i..i + |PrintStr(raw)|] == PrintStr(raw)
    ensures buf[i] == 0xA0 + |raw| && ReadBlob(buf, i) == Got(StrPayload(raw), i + |PrintStr(raw)|)
  {
    hide StrPayload;
    var w := PrintStr(raw);
    HeadAndRaw([0xA0 + |raw|], raw);
    ByteOf(buf, i, w, 0);
    PartOf(buf, i, w, 1, |w|);
  }

  lemma MiddleStrIsRead(buf: Bytes, i: nat, raw: Bytes)
    requires 32 <= |raw| < 256 && i + |PrintStr(raw)| <= |buf| && buf[i..i + |PrintStr(raw)|] == PrintStr(raw)
    ensures buf[i] == 0xD9 && ReadBlob(buf, i) == Got(StrPayload(raw), i + |PrintStr(raw)|)
  {
    hide StrPayload;
    var w := PrintStr(raw);
    HeadAndRaw([0xD9, |raw|], raw);
    ByteOf(buf, i, w, 0);
    ByteOf(buf, i, w, 1);
    PartOf(buf, i, w, 2, |w|);
  }

  lemma LongStrIsRead(buf: Bytes, i: nat, raw: Bytes)
    requires 256 <= |raw| < 65536 && i + |PrintStr(raw)| <= |buf| && buf[i..i + |PrintStr(raw)|] == PrintStr(raw)
    ensures buf[i] == 0xDA && ReadBlob(buf, i) == Got(Raw(raw, true), i + |PrintStr(raw)|)
  {
    Powers();
    hide BigEndian, FromBig, Pow256;
    var w := PrintStr(raw);
    HeadAndRaw([0xDA] + BigEndian(|raw|, 2), raw);
    ByteOf(buf, i, w, 0);
    PartOf(buf, i, w, 1, 3);
    PartOf(buf, i, w, 3, |w|);
    assert w[1..3] == BigEndian(|raw|, 2);
    FromBigEndian(|raw|, 2);
  }

  lemma StrPrintedIsRead(buf: Bytes, i: nat, raw: Bytes)
    requires |raw| < 65536
    requires i + |PrintStr(raw)| <= |buf| && buf[i..i + |PrintStr(raw)|] == PrintStr(raw)
    ensures ReadBlob(buf, i) == Got(if |raw| < 256 then StrPayload(raw) else Raw(raw, true), i + |PrintStr(raw)|)
    ensures !IsUintByte(buf[i]) && !IsMapByte(buf[i]) && !IsArrayByte(buf[i])
  {
    if |raw| < 32 {
      ShortStrIsRead(buf, i, raw);
    } else if |raw| < 256 {
      MiddleStrIsRead(buf, i, raw);
    } else {
      LongStrIsRead(buf, i, raw);
    }
    hide ReadBlob, StrPayload;
  }

  lemma BinPrintedIsRead(buf: Bytes, i: nat, raw: Bytes)
    requires |raw| < 65536
    requires i + |MpBin(raw).value| <= |buf| && buf[i..i + |MpBin(raw).value|] == MpBin(raw).value
    ensures ReadBlob(buf, i) == Got(Raw(raw, false), i + |MpBin(raw).value|)
    ensures !IsUintByte(buf[i]) && !IsMapByte(buf[i]) && !IsArrayByte(buf[i])
  {
    Powers();
    hide BigEndian, FromBig, Pow256;
    var w := MpBin(raw).value;
    var h := |w| - |raw|;
    HeadAndRaw(w[..h], raw);
    assert w == w[..h] + raw;
    ByteOf(buf, i, w, 0);
    ByteOf(buf, i, w, 1);
    PartOf(buf, i, w, h, |w|);
    if h == 3 {
      assert w[1..3] == BigEndian(|raw|, 2);
      PartOf(buf, i, w, 1, 3);
      FromBigEndian(|raw|, 2);
    }
  }

  // ---- what is read is what is printed -----------------------------------------------------

  ghost predicate NodeOk(buf: Bytes, i: nat, depth: nat, v: Node, j: nat) {
    i < j <= |buf| && Wf(v) && Fits(v, Room(depth)) && buf[i..j] == Print(v)
  }

  ghost predicate EntryOk(e: Entry, depth: nat) {
    Wf(e.value) && |Encode(e.key)| < 256 && Room(depth) >= 2 && Fits(e.value, Room(depth) - 1)
  }

  ghost predicate EntriesOk(buf: Bytes, i: nat, depth: nat, es: seq<Entry>, j: nat) {
    i <= j <= |buf| && (forall e :: e in es ==> EntryOk(e, depth)) && buf[i..j] == PrintEntries(es)
  }

  ghost predicate ItemsOk(buf: Bytes, i: nat, depth: nat, xs: seq<Node>, j: nat) {
    i <= j <= |buf| && (forall x :: x in xs ==> Wf(x) && Fits(x, Room(depth) - 1)) && buf[i..j] == PrintAll(xs)
  }

  lemma DictOk(buf: Bytes, i: nat, h: nat, depth: nat, es: seq<Entry>, j: nat)
    requires depth <= MAX_DEPTH && i < h && EntriesOk(buf, h, depth, es, j) && Ascending(es)
    requires MapHead(|es|) == Some(buf[i..h])
    ensures NodeOk(buf, i, depth, Dict(es), j)
  {
    hide Ascending, PrintEntries, BigEndian;
    assert buf[i..j] == buf[i..h] + buf[h..j];
  }

  lemma ListOk(buf: Bytes, i: nat, h: nat, depth: nat, xs: seq<Node>, j: nat)
    requires depth <= MAX_DEPTH && i < h && ItemsOk(buf, h, depth, xs, j)
    requires ArrayHead(|xs|) == Some(buf[i..h])
    ensures NodeOk(buf, i, depth, List(xs), j)
  {
    hide PrintAll, BigEndian;
    assert buf[i..j] == buf[i..h] + buf[h..j];
  }

  lemma EntriesExtend(buf: Bytes, i: nat, j: nat, k: nat, end: nat, depth: nat, e: Entry, rest: seq<Entry>)
    requires NodeOk(buf, i, depth + 1, Text(e.key), j) && NodeOk(buf, j, depth + 1, e.value, k)
    requires EntriesOk(buf, k, depth, rest, end)
    ensures EntriesOk(buf, i, depth, [e] + rest, end)
  {
    hide PrintStr, Encode;
    assert Room(depth + 1) == Room(depth) - 1;
    assert ([e] + rest)[1..] == rest;
    assert buf[i..end] == buf[i..j] + buf[j..k] + buf[k..end];
  }

  lemma ItemsExtend(buf: Bytes, i: nat, j: nat, end: nat, depth: nat, x: Node, rest: seq<Node>)
    requires NodeOk(buf, i, depth + 1, x, j) && ItemsOk(buf, j, depth, rest, end)
    ensures ItemsOk(buf, i, depth, [x] + rest, end)
  {
    hide Print, Wf, Fits;
    assert Room(depth + 1) == Room(depth) - 1;
    assert ([x] + rest)[1..] == rest;
    assert buf[i..end] == buf[i..j] + buf[j..end];
  }

  /** Every successful strict reading consumes exactly the canonical form of what it returns. */
  lemma {:induction false} ReadIsPrinted(buf: Bytes, i: nat, depth: nat)
    requires ReadNode(buf, i, depth).Got?
    ensures NodeOk(buf, i, depth, ReadNode(buf, i, depth).value, ReadNode(buf, i, depth).next)
    decreases if i < |buf| then |buf| - i else 0, 0
  {
    var b := buf[i];
    if IsUintByte(b) {
      hide ReadUint, MpUint;
      UintReadIsPrinted(buf, i);
    } else if IsMapByte(b) {
      hide ReadSize, ReadMap, NodeOk, EntriesOk, Ascending, MapHead, ArrayHead;
      SizeReadIsPrinted(buf, i);
      var size := ReadSize(buf, i, 0x80, 0xDE);
      var es := MapReadIsPrinted(buf, size.next, size.value, depth, []);
      assert [] + es == es;
      DictOk(buf, i, size.next, depth, es, ReadNode(buf, i, depth).next);
    } else if IsArrayByte(b) {
      hide ReadSize, ReadArray, NodeOk, ItemsOk, MapHead, ArrayHead;
      SizeReadIsPrinted(buf, i);
      var size := ReadSize(buf, i, 0x90, 0xDC);
      var xs := ArrayReadIsPrinted(buf, size.next, size.value, depth, []);
      assert [] + xs == xs;
      ListOk(buf, i, size.next, depth, xs, ReadNode(buf, i, depth).next);
    } else {
      hide ReadBlob, Print, Wf;
      BlobReadIsPrinted(buf, i);
    }
  }

  /** One turn of the map loop. */
  lemma MapTurn(buf: Bytes, i: nat, n: nat, depth: nat, acc: seq<Entry>) returns (e: Entry, j: nat, k: nat)
    requires i <= |buf| && Ascending(acc) && n > 0 && ReadMap(buf, i, n, depth, acc).Got?
    ensures ReadNode(buf, i, depth + 1) == Got(Text(e.key), j) && i < j <= |buf|
    ensures ReadNode(buf, j, depth + 1) == Got(e.value, k) && j < k <= |buf|
    ensures Ascending(acc + [e])
    ensures ReadMap(buf, i, n, depth, acc) == ReadMap(buf, k, n - 1, depth, acc + [e])
  {
    hide ReadNode;
    var key := ReadNode(buf, i, depth + 1);
    var value := ReadNode(buf, key.next, depth + 1);
    e, j, k := Entry(key.value.text, value.value), key.next, value.next;
    KeyFitsMeansAscending(acc, key.value.text, value.value);
  }

  lemma ArrayTurn(buf: Bytes, i: nat, n: nat, depth: nat, acc: seq<Node>) returns (x: Read<Node>)
    requires i <= |buf| && n > 0 && ReadArray(buf, i, n, depth, acc).Got?
    ensures x == ReadNode(buf, i, depth + 1) && x.Got? && i < x.next <= |buf|
    ensures ReadArray(buf, i, n, depth, acc) == ReadArray(buf, x.next, n - 1, depth, acc + [x.value])
  {
    hide ReadNode;
    x := ReadNode(buf, i, depth + 1);
  }

  lemma NothingLeft(buf: Bytes, i: nat, depth: nat, es: seq<Entry>, xs: seq<Node>)
    requires i <= |buf|
    ensures ReadMap(buf, i, 0, depth, es) == Got(es, i) && EntriesOk(buf, i, depth, [], i)
    ensures ReadArray(buf, i, 0, depth, xs) == Got(xs, i) && ItemsOk(buf, i, depth, [], i)
  {
  }

  lemma {:induction false} MapReadIsPrinted(buf: Bytes, i: nat, n: nat, depth: nat, acc: seq<Entry>)
    returns (es: seq<Entry>)
    requires i <= |buf| && Ascending(acc) && ReadMap(buf, i, n, depth, acc).Got?
    ensures ReadMap(buf, i, n, depth, acc).value == acc + es && |es| == n && Ascending(acc + es)
    ensures EntriesOk(buf, i, depth, es, ReadMap(buf, i, n, depth, acc).next)
    decreases |buf| - i, 1, n
  {
    hide *;
    if n == 0 {
      es := [];
      assert acc + es == acc;
      NothingLeft(buf, i, depth, acc, []);
    } else {
      var e, j, k := MapTurn(buf, i, n, depth, acc);
      ReadIsPrinted(buf, i, depth + 1);
      ReadIsPrinted(buf, j, depth + 1);
      var rest := MapReadIsPrinted(buf, k, n - 1, depth, acc + [e]);
      es := [e] + rest;
      assert (acc + [e]) + rest == acc + es;
      EntriesExtend(buf, i, j, k, ReadMap(buf, i, n, depth, acc).next, depth, e, rest);
    }
  }

  lemma {:induction false} ArrayReadIsPrinted(buf: Bytes, i: nat, n: nat, depth: nat, acc: seq<Node>)
    returns (xs: seq<Node>)
    requires i <= |buf| && ReadArray(buf, i, n, depth, acc).Got?
    ensures ReadArray(buf, i, n, depth, acc).value == acc + xs && |xs| == n
    ensures ItemsOk(buf, i, depth, xs, ReadArray(buf, i, n, depth, acc).next)
    decreases |buf| - i, 1, n
  {
    hide *;
    if n == 0 {
      xs := [];
      assert acc + xs == acc;
      NothingLeft(buf, i, depth, [], acc);
    } else {
      var x := ArrayTurn(buf, i, n, depth, acc);
      ReadIsPrinted(buf, i, depth + 1);
      var rest := ArrayReadIsPrinted(buf, x.next, n - 1, depth, acc + [x.value]);
      xs := [x.value] + rest;
      assert (acc + [x.value]) + rest == acc + xs;
      ItemsExtend(buf, i, x.next, ReadArray(buf, i, n, depth, acc).next, depth, x.value, rest);
    }
  }

  // ---- what is printed is read -------------------------------------------------------------

  lemma Cut(buf: Bytes, i: nat, end: nat, a: Bytes, b: Bytes, c: Bytes)
    requires i <= end <= |buf| && buf[i..end] == a + b + c
    ensures var j, k := i + |a|, i + |a| + |b|; k <= end && buf[i..j] == a && buf[j..k] == b && buf[k..end] == c
  {
    var w := buf[i..end];
    assert w[..|a|] == a && w[|a|..|a| + |b|] == b && w[|a| + |b|..] == c;
    assert forall x :: 0 <= x < |w| ==> w[x] == buf[i + x];
  }

  lemma DictSplit(buf: Bytes, i: nat, depth: nat, es: seq<Entry>, j: nat) returns (h: nat)
    requires NodeOk(buf, i, depth, Dict(es), j)
    ensures i < h && EntriesOk(buf, h, depth, es, j) && Ascending(es) && depth <= MAX_DEPTH
    ensures ReadSize(buf, i, 0x80, 0xDE) == Got(|es|, h) && IsMapByte(buf[i]) && !IsUintByte(buf[i])
  {
    hide Ascending, PrintEntries, BigEndian, FromBig, ReadSize;
    var w := MapHead(|es|).value;
    h := i + |w|;
    Cut(buf, i, j, w, [], PrintEntries(es));
    HeadPrintedIsRead(buf, i, |es|, 0x80, 0xDE);
  }

  lemma ListSplit(buf: Bytes, i: nat, depth: nat, xs: seq<Node>, j: nat) returns (h: nat)
    requires NodeOk(buf, i, depth, List(xs), j)
    ensures i < h && ItemsOk(buf, h, depth, xs, j) && depth <= MAX_DEPTH
    ensures ReadSize(buf, i, 0x90, 0xDC) == Got(|xs|, h)
    ensures IsArrayByte(buf[i]) && !IsUintByte(buf[i]) && !IsMapByte(buf[i])
  {
    hide PrintAll, BigEndian, FromBig, ReadSize;
    var w := ArrayHead(|xs|).value;
    h := i + |w|;
    Cut(buf, i, j, w, [], PrintAll(xs));
    HeadPrintedIsRead(buf, i, |xs|, 0x90, 0xDC);
  }

  lemma StrNotEmpty(raw: Bytes)
    ensures PrintStr(raw) != []
  {
  }

  lemma PrintNotEmpty(v: Node)
    requires Wf(v)
    ensures Print(v) != []
  {
    hide BigEndian, Encode, PrintAll, PrintEntries;
    if v.Text? { StrNotEmpty(Encode(v.text)); }
    if v.Raw? { StrNotEmpty(v.bytes); }
  }

  lemma EntriesSplit(buf: Bytes, i: nat, depth: nat, es: seq<Entry>, end: nat) returns (j: nat, k: nat)
    requires es != [] && EntriesOk(buf, i, depth, es, end)
    ensures NodeOk(buf, i, depth + 1, Text(es[0].key), j) && NodeOk(buf, j, depth + 1, es[0].value, k)
    ensures EntriesOk(buf, k, depth, es[1..], end)
  {
    hide PrintStr, Encode;
    var a, b := PrintStr(Encode(es[0].key)), Print(es[0].value);
    assert EntryOk(es[0], depth);
    StrNotEmpty(Encode(es[0].key));
    PrintNotEmpty(es[0].value);
    j, k := i + |a|, i + |a| + |b|;
    assert Room(depth + 1) == Room(depth) - 1;
    Cut(buf, i, end, a, b, PrintEntries(es[1..]));
  }

  lemma ItemsSplit(buf: Bytes, i: nat, depth: nat, xs: seq<Node>, end: nat) returns (j: nat)
    requires xs != [] && ItemsOk(buf, i, depth, xs, end)
    ensures NodeOk(buf, i, depth + 1, xs[0], j) && ItemsOk(buf, j, depth, xs[1..], end)
  {
    hide PrintStr, Encode, Wf, Fits, Print;
    assert xs[0] in xs;
    PrintNotEmpty(xs[0]);
    j := i + |Print(xs[0])|;
    assert Room(depth + 1) == Room(depth) - 1;
    Cut(buf, i, end, Print(xs[0]), [], PrintAll(xs[1..]));
  }

  lemma LeafPrintedIsRead(buf: Bytes, i: nat, depth: nat, v: Node, j: nat)
    requires Leaf(v) && NodeOk(buf, i, depth, v, j)
    ensures ReadNode(buf, i, depth) == Got(v, j)
  {
    hide ReadUint, ReadBlob, BigEndian, FromBig, Decode, Encode;
    assert depth <= MAX_DEPTH;
    match v
    case Int(n) => UintPrintedIsRead(buf, i, n);
    case Text(t) =>
      DecodeEncode(t);
      StrPrintedIsRead(buf, i, Encode(t));
    case Raw(b, str) => if str { StrPrintedIsRead(buf, i, b); } else { BinPrintedIsRead(buf, i, b); }
  }

  lemma MapRound(buf: Bytes, i: nat, n: nat, depth: nat, acc: seq<Entry>, e: Entry, j: nat, k: nat)
    requires i <= |buf| && n > 0 && Ascending(acc + [e])
    requires ReadNode(buf, i, depth + 1) == Got(Text(e.key), j) && ReadNode(buf, j, depth + 1) == Got(e.value, k)
    ensures k <= |buf| && ReadMap(buf, i, n, depth, acc) == ReadMap(buf, k, n - 1, depth, acc + [e])
  {
    hide ReadNode;
    assert forall x :: 0 <= x < |acc| ==> (acc + [e])[x] == acc[x];
    KeyFitsMeansAscending(acc, e.key, e.value);
  }

  lemma AscendingPrefix(a: seq<Entry>, b: seq<Entry>)
    requires Ascending(a + b)
    ensures Ascending(a)
  {
    assert forall i :: 0 <= i < |a| ==> (a + b)[i] == a[i];
  }

  /** The canonical form of a well-formed value, with anything around it, reads back as that value. */
  lemma {:induction false} PrintedIsRead(buf: Bytes, i: nat, depth: nat, v: Node, j: nat)
    requires NodeOk(buf, i, depth, v, j)
    ensures ReadNode(buf, i, depth) == Got(v, j)
    decreases v, 1, 0
  {
    match v
    case Dict(es) =>
      hide NodeOk, EntriesOk, Ascending, ReadSize, ReadMap;
      var h := DictSplit(buf, i, depth, es, j);
      assert [] + es == es;
      RoomIsThere(buf, h, depth, es, [], j);
      EntriesPrintedAreRead(buf, h, depth, [], es, j, v);
    case List(xs) =>
      hide NodeOk, ItemsOk, ReadSize, ReadArray;
      var h := ListSplit(buf, i, depth, xs, j);
      assert [] + xs == xs;
      RoomIsThere(buf, h, depth, [], xs, j);
      ItemsPrintedAreRead(buf, h, depth, [], xs, j, v);
    case _ => LeafPrintedIsRead(buf, i, depth, v, j);
  }

  lemma RoomIsThere(buf: Bytes, h: nat, depth: nat, es: seq<Entry>, xs: seq<Node>, j: nat)
    requires EntriesOk(buf, h, depth, es, j) || ItemsOk(buf, h, depth, xs, j)
    ensures h <= |buf|
  {
  }

  lemma {:induction false} EntriesPrintedAreRead(buf: Bytes, i: nat, depth: nat, acc: seq<Entry>, es: seq<Entry>,
                                                 end: nat, v: Node)
    requires i <= |buf| && Ascending(acc + es) && EntriesOk(buf, i, depth, es, end)
    requires v.Dict? && forall e :: e in es ==> e in v.entries
    ensures ReadMap(buf, i, |es|, depth, acc) == Got(acc + es, end)
    decreases v, 0, |es|
  {
    hide *;
    if es == [] {
      assert acc + es == acc;
      NothingLeft(buf, i, depth, acc, []);
      NothingTaken(buf, i, depth, end);
    } else {
      var rest := es[1..];
      assert es == [es[0]] + rest && acc + es == (acc + [es[0]]) + rest;
      assert es[0] in v.entries && (forall e :: e in rest ==> e in v.entries);
      AscendingPrefix(acc + [es[0]], rest);
      var j, k := EntriesSplit(buf, i, depth, es, end);
      KeyAndValue(buf, i, depth, es[0], j, k, v);
      PrintedIsRead(buf, j, depth + 1, es[0].value, k);
      MapRound(buf, i, |es|, depth, acc, es[0], j, k);
      EntriesPrintedAreRead(buf, k, depth, acc + [es[0]], rest, end, v);
    }
  }

  lemma NothingTaken(buf: Bytes, i: nat, depth: nat, end: nat)
    requires EntriesOk(buf, i, depth, [], end) || ItemsOk(buf, i, depth, [], end)
    ensures i == end
  {
  }

  lemma KeyAndValue(buf: Bytes, i: nat, depth: nat, e: Entry, j: nat, k: nat, v: Node)
    requires v.Dict? && e in v.entries
    requires NodeOk(buf, i, depth + 1, Text(e.key), j) && NodeOk(buf, j, depth + 1, e.value, k)
    ensures ReadNode(buf, i, depth + 1) == Got(Text(e.key), j)
  {
    hide NodeOk, ReadNode;
    LeafPrintedIsRead(buf, i, depth + 1, Text(e.key), j);
  }

  lemma {:induction false} ItemsPrintedAreRead(buf: Bytes, i: nat, depth: nat, acc: seq<Node>, xs: seq<Node>, end: nat,
                                               v: Node)
    requires i <= |buf| && ItemsOk(buf, i, depth, xs, end)
    requires v.List? && forall x :: x in xs ==> x in v.items
    ensures ReadArray(buf, i, |xs|, depth, acc) == Got(acc + xs, end)
    decreases v, 0, |xs|
  {
    if xs == [] {
      assert acc + xs == acc;
    } else {
      var rest := xs[1..];
      assert xs == [xs[0]] + rest && acc + xs == (acc + [xs[0]]) + rest;
      assert xs[0] in v.items && (forall x :: x in rest ==> x in v.items);
      var j := ItemsSplit(buf, i, depth, xs, end);
      PrintedIsRead(buf, i, depth + 1, xs[0], j);
      hide NodeOk, ItemsOk, ReadNode;
      RoomIsThere(buf, j, depth, [], rest, end);
      ItemsPrintedAreRead(buf, j, depth, acc + [xs[0]], rest, end, v);
    }
  }

  // ---- exactly one byte string per wire value ----------------------------------------------

  /** The reader accepts a stretch of bytes as v exactly when v is well formed, fits the nesting
      left at that depth, and the stretch is v's canonical form. */
  lemma StrictReadingIffCanonical(buf: Bytes, i: nat, depth: nat, v: Node, j: nat)
    ensures ReadNode(buf, i, depth) == Got(v, j)
            <==> i < j <= |buf| && Wf(v) && Fits(v, Room(depth)) && buf[i..j] == Print(v)
  {
    if ReadNode(buf, i, depth) == Got(v, j) { ReadIsPrinted(buf, i, depth); }
    if i < j <= |buf| && Wf(v) && Fits(v, Room(depth)) && buf[i..j] == Print(v) {
      assert NodeOk(buf, i, depth, v, j);
      PrintedIsRead(buf, i, depth, v, j);
    }
  }

  /** Two strict readings of one wire value, anywhere, consumed the same bytes. */
  lemma EqualValuesMeanEqualBytes(b1: Bytes, i1: nat, d1: nat, b2: Bytes, i2: nat, d2: nat)
    ensures var r1, r2 := ReadNode(b1, i1, d1), ReadNode(b2, i2, d2);
            r1.Got? && r2.Got? ==> (r1.value == r2.value <==> b1[i1..r1.next] == b2[i2..r2.next])
  {
    var r1, r2 := ReadNode(b1, i1, d1), ReadNode(b2, i2, d2);
    if r1.Got? && r2.Got? {
      ReadIsPrinted(b1, i1, d1);
      ReadIsPrinted(b2, i2, d2);
      if b1[i1..r1.next] == b2[i2..r2.next] {
        var d := if d1 <= d2 then d1 else d2;
        FitsMore(r1.value, Room(d1), Room(d));
        FitsMore(r2.value, Room(d2), Room(d));
        var w := b1[i1..r1.next];
        assert w[0..|w|] == w;
        assert NodeOk(w, 0, d, r1.value, |w|) && NodeOk(w, 0, d, r2.value, |w|);
        PrintedIsRead(w, 0, d, r1.value, |w|);
        PrintedIsRead(w, 0, d, r2.value, |w|);
      }
    }
  }

  lemma {:induction false} FitsMore(v: Node, k: int, l: int)
    requires Fits(v, k) && k <= l
    ensures Fits(v, l)
    decreases v
  {
    match v
    case List(xs) => forall x | x in xs ensures Fits(x, l - 1) { FitsMore(x, k - 1, l - 1); }
    case Dict(es) => forall e | e in es ensures Fits(e.value, l - 1) { FitsMore(e.value, k - 1, l - 1); }
    case _ =>
  }
}
