/** The signature count of a Solana transaction and the economic authorization behind it
    (live402/replay.py): a strict reader of compact-u16 numbers, and the hash of the message, which
    no signature can change. Base64 and the hash itself are not modelled. */
module ShortVec {
  import opened Collections
  import opened Utf8

  datatype Count = Count(value: nat, used: nat)

  /** The byte's seven low bits, shifted by seven bits per byte before it. */
  function Part(b: Byte, index: nat): nat {
    (b as nat % 128) * (if index == 0 then 1 else if index == 1 then 128 else 16384)
  }

  /** What the loop has read after `index` bytes that all had their high bit set. */
  function ReadFrom(buf: Bytes, index: nat, value: nat): Option<Count>
    decreases 3 - index
  {
    if index >= 3 || index >= |buf| then None
    else
      var sum := value + Part(buf[index], index);
      if buf[index] >= 128 then ReadFrom(buf, index + 1, sum)
      else if (index > 0 && buf[index] == 0) || sum > 0xFFFF then None
      else Some(Count(sum, index + 1))
  }

  /** _shortvec; None stands for its errors. */
  method ReadShortvec(buf: Bytes) returns (r: Option<Count>)
    ensures r == ReadFrom(buf, 0, 0)
  {
    var value: nat := 0;
    var shift: nat := 1;
    for index := 0 to 3
      invariant shift == if index == 0 then 1 else if index == 1 then 128 else if index == 2 then 16384 else 2097152
      invariant ReadFrom(buf, index, value) == ReadFrom(buf, 0, 0)
    {
      if index >= |buf| { return None; }
      var b := buf[index];
      value := value + (b as nat % 128) * shift;
      if b < 128 {
        if index > 0 && b == 0 { return None; }
        if value > 0xFFFF { return None; }
        return Some(Count(value, index + 1));
      }
      shift := shift * 128;
    }
    return None;
  }

  /** The shortest compact-u16 form. */
  function Write(n: nat): (r: Bytes)
    requires n <= 0xFFFF
    ensures 1 <= |r| <= 3
  {
    if n < 128 then [n]
    else if n < 16384 then [n % 128 + 128, n / 128]
    else [n % 128 + 128, n / 128 % 128 + 128, n / 16384]
  }

  lemma Digits(n: nat)
    requires n <= 0xFFFF
    ensures n == n % 128 + n / 128 % 128 * 128 + n / 16384 * 16384
    ensures n / 16384 == n / 128 / 128 && n / 16384 < 4 && n / 128 < 512
  {
  }

  /** Writing and then reading, with anything after it. */
  lemma WriteThenRead(n: nat, rest: Bytes)
    requires n <= 0xFFFF
    ensures ReadFrom(Write(n) + rest, 0, 0) == Some(Count(n, |Write(n)|))
  {
    Digits(n);
    var buf := Write(n) + rest;
    assert forall i :: 0 <= i < |Write(n)| ==> buf[i] == Write(n)[i];
    if n < 128 {
    } else if n < 16384 {
      assert ReadFrom(buf, 1, n % 128) == Some(Count(n, 2));
    } else {
      assert ReadFrom(buf, 2, n % 128 + n / 128 % 128 * 128) == Some(Count(n, 3));
      assert ReadFrom(buf, 1, n % 128) == Some(Count(n, 3));
    }
  }

  lemma TwoBytes(a: nat, b: nat)
    requires a < 128 && 0 < b < 128
    ensures var n := a + b * 128; 128 <= n < 16384 && n % 128 == a && n / 128 == b
  {
  }

  lemma ThreeBytes(a: nat, b: nat, c: nat)
    requires a < 128 && b < 128 && 0 < c < 128
    ensures var n := a + b * 128 + c * 16384; 16384 <= n && n % 128 == a && n / 128 % 128 == b && n / 16384 == c
  {
    var n := a + b * 128 + c * 16384;
    assert n == a + 128 * (b + 128 * c);
    assert n / 128 == b + 128 * c;
  }

  /** The bytes begin with the shortest form of the count. */
  ghost predicate Written(buf: Bytes, c: Count) {
    c.value <= 0xFFFF && c.used == |Write(c.value)| && c.used <= |buf| && buf[..c.used] == Write(c.value)
  }

  lemma ReadTwo(buf: Bytes, a: nat)
    requires |buf| >= 2 && buf[0] >= 128 && buf[1] < 128 && a == buf[0] as nat % 128
    requires ReadFrom(buf, 1, a).Some?
    ensures Written(buf, ReadFrom(buf, 1, a).value)
  {
    TwoBytes(a, buf[1] as nat);
    assert buf[..2] == [buf[0], buf[1]];
  }

  lemma ReadThree(buf: Bytes, a: nat, b: nat)
    requires |buf| >= 3 && buf[0] >= 128 && buf[1] >= 128 && a == buf[0] as nat % 128 && b == buf[1] as nat % 128
    requires ReadFrom(buf, 2, a + b * 128).Some?
    ensures Written(buf, ReadFrom(buf, 2, a + b * 128).value)
  {
    assert buf[2] < 128 && buf[2] > 0;
    ThreeBytes(a, b, buf[2] as nat);
    assert buf[..3] == [buf[0], buf[1], buf[2]];
  }

  /** Everything that is read was written in the shortest form: other forms are refused. */
  lemma ReadIsWritten(buf: Bytes)
    requires ReadFrom(buf, 0, 0).Some?
    ensures Written(buf, ReadFrom(buf, 0, 0).value)
  {
    hide Write, Written;
    var a := buf[0] as nat % 128;
    if buf[0] < 128 {
      ReadOne(buf);
    } else {
      assert ReadFrom(buf, 0, 0) == ReadFrom(buf, 1, a);
      if buf[1] < 128 {
        ReadTwo(buf, a);
      } else {
        var b := buf[1] as nat % 128;
        assert ReadFrom(buf, 1, a) == ReadFrom(buf, 2, a + b * 128);
        ReadThree(buf, a, b);
      }
    }
  }

  lemma ReadOne(buf: Bytes)
    requires buf != [] && buf[0] < 128 && ReadFrom(buf, 0, 0).Some?
    ensures Written(buf, ReadFrom(buf, 0, 0).value)
  {
    assert buf[..1] == [buf[0]];
  }

  /** The reader is the two-sided inverse of the shortest form, for every count up to 65535. */
  lemma ReadIffWritten(buf: Bytes, c: Count)
    ensures ReadFrom(buf, 0, 0) == Some(c) <==> Written(buf, c)
  {
    if ReadFrom(buf, 0, 0) == Some(c) { ReadIsWritten(buf); }
    if Written(buf, c) {
      assert buf == Write(c.value) + buf[c.used..];
      WriteThenRead(c.value, buf[c.used..]);
    }
  }

  // ---- authorization ------------------------------------------------------------------------

  /** _solana_authorization on the decoded transaction bytes. */
  function Authorization(raw: Bytes, hash: Bytes -> string): Option<string> {
    var count := ReadFrom(raw, 0, 0);
    if count.None? || count.value.value < 1 || count.value.value > 32 then None
    else
      var at := count.value.used + count.value.value * 64;
      if at >= |raw| then None else Some(hash(raw[at..]))
  }

  /** A transaction: 1 to 32 signatures of 64 bytes and a message. */
  predicate IsTransaction(raw: Bytes, count: nat, signatures: Bytes, message: Bytes) {
    1 <= count <= 32 && |signatures| == 64 * count && message != [] && raw == Write(count) + signatures + message
  }

  lemma AuthorizationOf(raw: Bytes, count: nat, signatures: Bytes, message: Bytes, hash: Bytes -> string)
    requires IsTransaction(raw, count, signatures, message)
    ensures Authorization(raw, hash) == Some(hash(message))
  {
    assert raw == Write(count) + (signatures + message);
    WriteThenRead(count, signatures + message);
    assert raw[|Write(count)| + count * 64..] == message;
  }

  /** The authorization is that of the message: exactly transactions have one, and it is the hash of
      the message, whatever the signatures are and however many. */
  lemma AuthorizationIff(raw: Bytes, hash: Bytes -> string, id: string)
    ensures Authorization(raw, hash) == Some(id)
            <==> exists count, signatures, message ::
                   IsTransaction(raw, count, signatures, message) && id == hash(message)
  {
    if Authorization(raw, hash) == Some(id) {
      var c := ReadFrom(raw, 0, 0).value;
      ReadIsWritten(raw);
      var at := c.used + c.value * 64;
      assert IsTransaction(raw, c.value, raw[c.used..at], raw[at..]);
    }
    if count, signatures, message :| IsTransaction(raw, count, signatures, message) && id == hash(message) {
      AuthorizationOf(raw, count, signatures, message, hash);
    }
  }

  /** Replacing any of the signatures, or all of them by another number of them, changes nothing;
      with a hash without collisions, nothing else leaves the authorization as it is. */
  lemma SignaturesDoNotCount(raw: Bytes, count: nat, signatures: Bytes, message: Bytes,
                             raw': Bytes, count': nat, signatures': Bytes, message': Bytes, hash: Bytes -> string)
    requires IsTransaction(raw, count, signatures, message) && IsTransaction(raw', count', signatures', message')
    requires forall a, b :: hash(a) == hash(b) ==> a == b
    ensures Authorization(raw, hash) == Authorization(raw', hash) <==> message == message'
  {
    AuthorizationOf(raw, count, signatures, message, hash);
    AuthorizationOf(raw', count', signatures', message', hash);
  }
}
