/** UTF-8 as Python's strict codec implements it (section 3 of RFC 3629).
    A Dafny string holds Unicode scalar values, so it has no lone surrogates. */
module Utf8 {
  import opened Collections

  type Byte = b: int | 0 <= b < 256
  type Bytes = seq<Byte>

  function EncodeChar(c: char): (r: Bytes)
    ensures 1 <= |r| <= 4
  {
    var n := c as int;
    if n < 0x80 then [n]
    else if n < 0x800 then [0xC0 + n / 64, 0x80 + n % 64]
    else if n < 0x1_0000 then [0xE0 + n / 64 / 64, 0x80 + n / 64 % 64, 0x80 + n % 64]
    else [0xF0 + n / 64 / 64 / 64, 0x80 + n / 64 / 64 % 64, 0x80 + n / 64 % 64, 0x80 + n % 64]
  }

  predicate Tail(b: Byte) { 0x80 <= b < 0xC0 }

  predicate IsScalar(n: int) { 0 <= n < 0xD800 || 0xE000 <= n < 0x11_0000 }

  /** The six payload bits of the k-th byte. */
  function Bits(s: Bytes, k: nat): int
    requires k < |s|
  {
    (s[k] as int) - 0x80
  }

  /** The first character of a byte string and how many bytes it takes. */
  function DecodeChar(s: Bytes): (r: Option<(char, nat)>)
    requires s != []
    ensures r.Some? ==> 1 <= r.value.1 <= |s|
  {
    var b: int := s[0];
    if b < 0x80 then Some((b as char, 1))
    else if 0xC2 <= b < 0xE0 then
      if |s| >= 2 && Tail(s[1]) then Some((((b - 0xC0) * 64 + Bits(s, 1)) as char, 2)) else None
    else if 0xE0 <= b < 0xF0 then
      if |s| >= 3 && Tail(s[1]) && Tail(s[2]) then
        var n := ((b - 0xE0) * 64 + Bits(s, 1)) * 64 + Bits(s, 2);
        if n >= 0x800 && IsScalar(n) then Some((n as char, 3)) else None
      else None
    else if 0xF0 <= b < 0xF5 then
      if |s| >= 4 && Tail(s[1]) && Tail(s[2]) && Tail(s[3]) then
        var n := (((b - 0xF0) * 64 + Bits(s, 1)) * 64 + Bits(s, 2)) * 64 + Bits(s, 3);
        if n >= 0x1_0000 && IsScalar(n) then Some((n as char, 4)) else None
      else None
    else None
  }

  function Encode(t: string): (r: Bytes)
    ensures |t| <= |r|
  {
    if t == "" then [] else EncodeChar(t[0]) + Encode(t[1..])
  }

  function Decode(s: Bytes): Option<string>
    decreases |s|
  {
    if s == [] then Some("")
    else
      match DecodeChar(s)
      case None => None
      case Some((c, n)) =>
        match Decode(s[n..])
        case None => None
        case Some(rest) => Some([c] + rest)
  }

  lemma {:induction false} EncodedLength(t: string)
    ensures |Encode(t)| <= 4 * |t|
  {
    if t != "" { EncodedLength(t[1..]); }
  }

  lemma DecodeEncodedChar(c: char, rest: Bytes)
    ensures DecodeChar(EncodeChar(c) + rest) == Some((c, |EncodeChar(c)|))
  {
    var n := c as int;
    var s := EncodeChar(c) + rest;
    assert n == n / 64 * 64 + n % 64 && n / 64 == n / 64 / 64 * 64 + n / 64 % 64
        && n / 64 / 64 == n / 64 / 64 / 64 * 64 + n / 64 / 64 % 64;
    assert forall k :: 0 <= k < |EncodeChar(c)| ==> s[k] == EncodeChar(c)[k];
  }

  lemma Join(a: nat, x: nat)
    requires x < 64
    ensures (a * 64 + x) / 64 == a && (a * 64 + x) % 64 == x
  {
  }

  lemma EncodeDecodedTwo(s: Bytes)
    requires s != [] && DecodeChar(s).Some? && DecodeChar(s).value.1 == 2
    ensures EncodeChar(DecodeChar(s).value.0) == s[..2]
  {
    Join(s[0] as int - 0xC0, Bits(s, 1));
  }

  lemma EncodeDecodedThree(s: Bytes)
    requires s != [] && DecodeChar(s).Some? && DecodeChar(s).value.1 == 3
    ensures EncodeChar(DecodeChar(s).value.0) == s[..3]
  {
    var a := (s[0] as int - 0xE0) * 64 + Bits(s, 1);
    Join(s[0] as int - 0xE0, Bits(s, 1));
    Join(a, Bits(s, 2));
  }

  lemma EncodeDecodedFour(s: Bytes)
    requires s != [] && DecodeChar(s).Some? && DecodeChar(s).value.1 == 4
    ensures EncodeChar(DecodeChar(s).value.0) == s[..4]
  {
    var a := (s[0] as int - 0xF0) * 64 + Bits(s, 1);
    Join(s[0] as int - 0xF0, Bits(s, 1));
    Join(a, Bits(s, 2));
    Join(a * 64 + Bits(s, 2), Bits(s, 3));
  }

  lemma EncodeDecodedChar(s: Bytes)
    requires s != [] && DecodeChar(s).Some?
    ensures EncodeChar(DecodeChar(s).value.0) == s[..DecodeChar(s).value.1]
  {
    var k := DecodeChar(s).value.1;
    if k == 2 {
      EncodeDecodedTwo(s);
    } else if k == 3 {
      EncodeDecodedThree(s);
    } else if k == 4 {
      EncodeDecodedFour(s);
    }
  }

  lemma DecodeMore(c: char, rest: Bytes)
    ensures Decode(EncodeChar(c) + rest) == if Decode(rest).None? then None else Some([c] + Decode(rest).value)
  {
    hide DecodeChar, EncodeChar;
    var s := EncodeChar(c) + rest;
    DecodeEncodedChar(c, rest);
    assert s[|EncodeChar(c)|..] == rest;
  }

  lemma {:induction false} DecodeEncode(t: string)
    ensures Decode(Encode(t)) == Some(t)
  {
    hide DecodeChar, EncodeChar, Decode;
    if t == "" {
      NothingDecodes();
    } else {
      DecodeEncode(t[1..]);
      DecodeMore(t[0], Encode(t[1..]));
      assert [t[0]] + t[1..] == t;
    }
  }

  lemma NothingDecodes()
    ensures Decode([]) == Some("")
  {
  }

  lemma Decoded(s: Bytes)
    requires s != [] && Decode(s).Some?
    ensures DecodeChar(s).Some?
    ensures var (c, n) := DecodeChar(s).value; Decode(s[n..]).Some? && Decode(s).value == [c] + Decode(s[n..]).value
  {
    hide DecodeChar;
  }

  lemma EncodeMore(c: char, t: string)
    ensures Encode([c] + t) == EncodeChar(c) + Encode(t)
  {
    hide EncodeChar;
    assert ([c] + t)[1..] == t;
  }

  lemma {:induction false} EncodeDecode(s: Bytes)
    requires Decode(s).Some?
    ensures Encode(Decode(s).value) == s
    decreases |s|
  {
    hide DecodeChar, EncodeChar;
    if s != [] {
      var (c, n) := DecodeChar(s).value;
      Decoded(s);
      EncodeDecodedChar(s);
      EncodeDecode(s[n..]);
      EncodeMore(c, Decode(s[n..]).value);
      assert s == s[..n] + s[n..];
    }
  }
}
