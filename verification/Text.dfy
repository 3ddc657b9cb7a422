/** The parts of Python's str methods that the payment code relies on. */
module Text {

  /** Characters that str.strip() removes. */
  predicate IsSpace(c: char) {
    '\U{9}' <= c <= '\U{D}' || '\U{1C}' <= c <= ' ' || c == '\U{85}' || c == '\U{A0}' || c == '\U{1680}'
    || '\U{2000}' <= c <= '\U{200A}' || c == '\U{2028}' || c == '\U{2029}' || c == '\U{202F}'
    || c == '\U{205F}' || c == '\U{3000}'
  }

  /** str.lower() on one character, exact wherever the result is an ASCII letter:
      U+212A is the only character outside ASCII whose lower case is one. */
  function LowerChar(c: char): char {
    if 'A' <= c <= 'Z' then (c as int + 32) as char
    else if c == '\U{212A}' then 'k'
    else c
  }

  function Lower(s: string): (r: string)
    ensures |r| == |s|
  {
    if s == "" then "" else [LowerChar(s[0])] + Lower(s[1..])
  }

  function LStrip(s: string): string {
    if s != "" && IsSpace(s[0]) then LStrip(s[1..]) else s
  }

  function RStrip(s: string): string {
    if s != "" && IsSpace(s[|s| - 1]) then RStrip(s[..|s| - 1]) else s
  }

  function Strip(s: string): string {
    RStrip(LStrip(s))
  }

  /** str.replace("-", "_") */
  function Underscored(s: string): (r: string)
    ensures |r| == |s|
  {
    if s == "" then "" else [if s[0] == '-' then '_' else s[0]] + Underscored(s[1..])
  }

  lemma {:induction false} LowerAt(s: string, i: nat)
    requires i < |s|
    ensures Lower(s)[i] == LowerChar(s[i])
  {
    if i > 0 { LowerAt(s[1..], i - 1); }
  }

  /** Lower case is taken character by character. */
  lemma LowerIs(s: string, low: string)
    requires |low| == |s|
    ensures Lower(s) == low <==> forall i :: 0 <= i < |s| ==> LowerChar(s[i]) == low[i]
  {
    forall i | 0 <= i < |s| ensures Lower(s)[i] == LowerChar(s[i]) { LowerAt(s, i); }
    if forall i :: 0 <= i < |s| ==> LowerChar(s[i]) == low[i] { assert Lower(s) == low; }
  }

  lemma {:induction false} LStripIs(s: string) returns (lead: string)
    ensures s == lead + LStrip(s) && (forall c :: c in lead ==> IsSpace(c))
    ensures LStrip(s) != "" ==> !IsSpace(LStrip(s)[0])
    decreases |s|
  {
    lead := "";
    if s != "" && IsSpace(s[0]) {
      var rest := LStripIs(s[1..]);
      lead := [s[0]] + rest;
    }
  }

  lemma {:induction false} RStripIs(s: string) returns (trail: string)
    ensures s == RStrip(s) + trail && (forall c :: c in trail ==> IsSpace(c))
    ensures RStrip(s) != "" ==> !IsSpace(RStrip(s)[|RStrip(s)| - 1])
    decreases |s|
  {
    trail := "";
    if s != "" && IsSpace(s[|s| - 1]) {
      var rest := RStripIs(s[..|s| - 1]);
      trail := rest + [s[|s| - 1]];
    }
  }

  /** Stripping takes spaces off both ends, and all of them. */
  lemma StripIs(s: string) returns (lead: string, trail: string)
    ensures s == lead + Strip(s) + trail
    ensures forall c :: c in lead || c in trail ==> IsSpace(c)
    ensures Strip(s) != "" ==> !IsSpace(Strip(s)[0]) && !IsSpace(Strip(s)[|Strip(s)| - 1])
  {
    lead := LStripIs(s);
    trail := RStripIs(LStrip(s));
    if Strip(s) != "" { assert Strip(s)[0] == LStrip(s)[0]; }
  }
}
