/** The canonical bytes of a wire value, written out (the formats of the MessagePack specification that
    live402/algo_tx.py uses). */
module WireForms {
  import opened Collections
  import opened Utf8
  import opened MsgPack
  import opened MsgPackStrict

  /** A number in big-endian bytes, digit by digit. */
  function Value(b: Bytes): nat {
    if b == [] then 0 else Value(b[..|b| - 1]) * 256 + b[|b| - 1] as nat
  }

  /** One head byte and the number in so many bytes, as few as it fits in. */
  ghost predicate NumberForm(b: Bytes, n: nat) {
    if n < 128 then b == [n]
    else if n < 256 then |b| == 2 && b[0] == 0xCC && Value(b[1..]) == n
    else if n < 65536 then |b| == 3 && b[0] == 0xCD && Value(b[1..]) == n
    else if n < 0x1_0000_0000 then |b| == 5 && b[0] == 0xCE && Value(b[1..]) == n
    else |b| == 9 && b[0] == 0xCF && Value(b[1..]) == n
  }

  /** A head with the length, and then the bytes. */
  ghost predicate StrForm(b: Bytes, raw: Bytes) {
    if |raw| < 32 then |b| == 1 + |raw| && b[0] == 0xA0 + |raw| && b[1..] == raw
    else if |raw| < 256 then |b| == 2 + |raw| && b[0] == 0xD9 && b[1] == |raw| && b[2..] == raw
    else |b| == 3 + |raw| && b[0] == 0xDA && Value(b[1..3]) == |raw| && b[3..] == raw
  }

  ghost predicate BinForm(b: Bytes, raw: Bytes) {
    if |raw| < 256 then |b| == 2 + |raw| && b[0] == 0xC4 && b[1] == |raw| && b[2..] == raw
    else |b| == 3 + |raw| && b[0] == 0xC5 && Value(b[1..3]) == |raw| && b[3..] == raw
  }

  /** A head with the count, and then the items. */
  ghost predicate CountForm(b: Bytes, n: nat, small: nat, wide: nat, items: Bytes) {
    if n < 16 then |b| == 1 + |items| && b[0] as nat == small + n && b[1..] == items
    else |b| == 3 + |items| && b[0] as nat == wide && Value(b[1..3]) == n && b[3..] == items
  }

  /** The forms of consecutive parts, one after the other. */
  function Joined(parts: seq<Bytes>): Bytes {
    if parts == [] then [] else parts[0] + Joined(parts[1..])
  }

  ghost predicate Form(b: Bytes, v: Node)
    decreases v
  {
    match v
    case Int(n) => n >= 0 && NumberForm(b, n)
    case Text(t) => StrForm(b, Encode(t))
    case Raw(raw, str) => if str then StrForm(b, raw) else BinForm(b, raw)
    case List(xs) =>
      exists parts: seq<Bytes> :: |parts| == |xs| && CountForm(b, |xs|, 0x90, 0xDC, Joined(parts))
                                  && forall i :: 0 <= i < |xs| ==> Form(parts[i], xs[i])
    case Dict(es) =>
      exists keys: seq<Bytes>, values: seq<Bytes> ::
        |keys| == |values| == |es| && CountForm(b, |es|, 0x80, 0xDE, Joined(Paired(keys, values)))
        && forall i :: 0 <= i < |es| ==> StrForm(keys[i], Encode(es[i].key)) && Form(values[i], es[i].value)
  }

  /** Each key before its value. */
  function Paired(keys: seq<Bytes>, values: seq<Bytes>): (r: seq<Bytes>)
    requires |keys| == |values|
    ensures |r| == |keys|
  {
    seq(|keys|, i requires 0 <= i < |keys| => keys[i] + values[i])
  }

  lemma {:induction false} ValueOfBig(n: nat, k: nat)
    requires n < Pow256(k)
    ensures Value(BigEndian(n, k)) == n
    decreases k
  {
    if k > 0 {
      ValueOfBig(n / 256, k - 1);
      assert BigEndian(n, k)[..k - 1] == BigEndian(n / 256, k - 1);
    }
  }

  lemma NumberIs(n: nat)
    requires n < 0x1_0000_0000_0000_0000
    ensures NumberForm(OrEmpty(MpUint(n)), n)
  {
    hide BigEndian, Value, Pow256;
    Powers();
    var k := if n < 256 then 1 else if n < 65536 then 2 else if n < 0x1_0000_0000 then 4 else 8;
    ValueOfBig(n, k);
    if n >= 128 {
      var b := OrEmpty(MpUint(n));
      assert b[1..] == BigEndian(n, k);
    }
  }

  lemma StrIs(raw: Bytes)
    requires |raw| < 65536
    ensures StrForm(PrintStr(raw), raw)
  {
    hide BigEndian, Value, Pow256;
    Powers();
    ValueOfBig(|raw|, 2);
    var b := PrintStr(raw);
    if |raw| >= 256 { assert b[1..3] == BigEndian(|raw|, 2); }
  }

  lemma BinIs(raw: Bytes)
    requires |raw| < 65536
    ensures BinForm(OrEmpty(MpBin(raw)), raw)
  {
    hide BigEndian, Value, Pow256;
    Powers();
    ValueOfBig(|raw|, 2);
    var b := OrEmpty(MpBin(raw));
    if |raw| >= 256 { assert b[1..3] == BigEndian(|raw|, 2); }
  }

  lemma CountIs(n: nat, items: Bytes)
    requires n < 65536
    ensures CountForm(OrEmpty(ArrayHead(n)) + items, n, 0x90, 0xDC, items)
    ensures CountForm(OrEmpty(MapHead(n)) + items, n, 0x80, 0xDE, items)
  {
    hide BigEndian, Value, Pow256;
    Powers();
    ValueOfBig(n, 2);
    if n >= 16 {
      assert (OrEmpty(ArrayHead(n)) + items)[1..3] == BigEndian(n, 2);
      assert (OrEmpty(MapHead(n)) + items)[1..3] == BigEndian(n, 2);
    }
  }

  function Printed(xs: seq<Node>): (r: seq<Bytes>)
    ensures |r| == |xs|
  {
    seq(|xs|, i requires 0 <= i < |xs| => Print(xs[i]))
  }

  lemma {:induction false} ListJoins(xs: seq<Node>)
    ensures Joined(Printed(xs)) == PrintAll(xs)
    decreases |xs|
  {
    hide Print;
    if xs != [] {
      ListJoins(xs[1..]);
      assert Printed(xs)[1..] == Printed(xs[1..]);
    }
  }

  function KeysOf(es: seq<Entry>): (r: seq<Bytes>)
    ensures |r| == |es|
  {
    seq(|es|, i requires 0 <= i < |es| => PrintStr(Encode(es[i].key)))
  }

  function ValuesOf(es: seq<Entry>): (r: seq<Bytes>)
    ensures |r| == |es|
  {
    seq(|es|, i requires 0 <= i < |es| => Print(es[i].value))
  }

  lemma {:induction false} DictJoins(es: seq<Entry>)
    ensures Joined(Paired(KeysOf(es), ValuesOf(es))) == PrintEntries(es)
    decreases |es|
  {
    hide Print, PrintStr, Encode;
    if es != [] {
      DictJoins(es[1..]);
      assert Paired(KeysOf(es), ValuesOf(es))[1..] == Paired(KeysOf(es[1..]), ValuesOf(es[1..]));
    }
  }

  /** The canonical form of every well-formed wire value has the head bytes, the big-endian lengths and numbers of as
      few bytes as they fit in, and the parts in their order; so that, with StrictReadingIffCanonical, exactly these
      bytes are read. */
  lemma {:induction false} CanonicalForm(v: Node)
    requires Wf(v)
    ensures Form(Print(v), v)
    decreases v
  {
    match v
    case Int(n) => NumberIs(n);
    case Text(t) => StrIs(Encode(t));
    case Raw(b, str) =>
      StrIs(b);
      BinIs(b);
    case List(xs) =>
      forall i | 0 <= i < |xs| ensures Form(Printed(xs)[i], xs[i]) {
        assert xs[i] in xs;
        CanonicalForm(xs[i]);
      }
      ListJoins(xs);
      CountIs(|xs|, PrintAll(xs));
    case Dict(es) =>
      forall i | 0 <= i < |es|
        ensures StrForm(KeysOf(es)[i], Encode(es[i].key)) && Form(ValuesOf(es)[i], es[i].value)
      {
        assert es[i] in es;
        StrIs(Encode(es[i].key));
        CanonicalForm(es[i].value);
      }
      DictJoins(es);
      CountIs(|es|, PrintEntries(es));
  }
}
