/** Wire amounts (live402/payment.py): canonical decimal text, exactly one for each amount. */
module Amounts {
  import opened Collections

  const MAX_AMOUNT: nat := 0x7FFF_FFFF_FFFF_FFFF

  predicate Digit(c: char) {
    '0' <= c <= '9'
  }

  predicate Digits(s: string) {
    forall i :: 0 <= i < |s| ==> Digit(s[i])
  }

  function Value(c: char): (r: nat)
    requires Digit(c)
    ensures r < 10
  {
    c as nat - '0' as nat
  }

  /** int(s) */
  function Number(s: string): nat
    requires Digits(s)
  {
    if s == "" then 0 else 10 * Number(s[..|s| - 1]) + Value(s[|s| - 1])
  }

  /** canonical_atomic_string: decimal digits, not too many, without a leading zero, in range. */
  function Canonical(s: string): Option<nat> {
    if s == "" || !Digits(s) || |s| > 20 || (|s| > 1 && s[0] == '0') || Number(s) > MAX_AMOUNT then None
    else Some(Number(s))
  }

  function Char(d: nat): (c: char)
    requires d < 10
    ensures Digit(c) && Value(c) == d
  {
    ('0' as nat + d) as char
  }

  /** The usual decimal text of a number. */
  function Decimal(n: nat): (s: string)
    ensures s != "" && Digits(s) && Number(s) == n
    ensures n > 0 ==> s[0] != '0'
    decreases n
  {
    if n < 10 then
      assert [Char(n)][..0] == "";
      [Char(n)]
    else
      var rest := Decimal(n / 10);
      assert (rest + [Char(n % 10)])[..|rest|] == rest;
      rest + [Char(n % 10)]
  }

  function Pow10(k: nat): (r: nat)
    ensures r >= 1
  {
    if k == 0 then 1 else 10 * Pow10(k - 1)
  }

  /** Without a leading zero, every digit counts. */
  lemma {:induction false} LongIsLarge(s: string)
    requires s != "" && Digits(s) && s[0] != '0'
    ensures Number(s) >= Pow10(|s| - 1)
    decreases |s|
  {
    if |s| == 1 {
      assert Value(s[0]) >= 1;
    } else {
      LongIsLarge(s[..|s| - 1]);
    }
  }

  lemma {:induction false} PowersGrow(a: nat, b: nat)
    requires a <= b
    ensures Pow10(a) <= Pow10(b)
    decreases b
  {
    if a < b { PowersGrow(a, b - 1); }
  }

  lemma TwentyDigits()
    ensures Pow10(20) > MAX_AMOUNT
  {
    assert Pow10(4) == 10000;
    assert Pow10(8) == 10000 * Pow10(4);
    assert Pow10(12) == 10000 * Pow10(8);
    assert Pow10(16) == 10000 * Pow10(12);
    assert Pow10(20) == 10000 * Pow10(16);
  }

  /** Two texts without leading zeros that read as one number are one text. */
  lemma {:induction false} OneText(s: string, t: string)
    requires s != "" && t != "" && Digits(s) && Digits(t) && Number(s) == Number(t)
    requires (|s| > 1 ==> s[0] != '0') && (|t| > 1 ==> t[0] != '0')
    ensures s == t
    decreases |s|
  {
    var a, b := s[..|s| - 1], t[..|t| - 1];
    assert s == a + [s[|s| - 1]] && t == b + [t[|t| - 1]];
    assert Number(a) == Number(b) && Value(s[|s| - 1]) == Value(t[|t| - 1]);
    if a == "" || b == "" {
      if a != "" { LongIsLarge(a); }
      if b != "" { LongIsLarge(b); }
    } else {
      OneText(a, b);
    }
  }

  /** Exactly one text is read as an amount: its usual decimal one, for every amount in range. */
  lemma CanonicalIff(s: string, n: nat)
    ensures Canonical(s) == Some(n) <==> n <= 9223372036854775807 && s == Decimal(n)
  {
    if Canonical(s) == Some(n) {
      OneDigitZero(n);
      OneText(s, Decimal(n));
    }
    if n <= MAX_AMOUNT && s == Decimal(n) {
      OneDigitZero(n);
      if n > 0 && |s| > 20 {
        LongIsLarge(s);
        PowersGrow(20, |s| - 1);
        TwentyDigits();
      }
    }
  }

  lemma OneDigitZero(n: nat)
    ensures n == 0 ==> |Decimal(n)| == 1
  {
  }
}
