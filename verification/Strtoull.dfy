/** Reading a number off stored text, as util.c does with the C library's strtoull. */
module Strtoull {
  import opened Decimals
  import opened Options

  const WRAP := 0x1_0000_0000_0000_0000
  const HALF := 0x8000_0000_0000_0000

  /** isspace. */
  predicate Blank(c: char) {
    c == ' ' || '\t' <= c <= '\r'
  }

  predicate IsDigit(c: char) {
    '0' <= c <= '9'
  }

  function BlanksTo(s: string, i: nat): (e: nat)
    requires i <= |s|
    ensures i <= e <= |s|
    decreases |s| - i
  {
    if i < |s| && Blank(s[i]) then BlanksTo(s, i + 1) else i
  }

  function DigitsTo(s: string, i: nat): (e: nat)
    requires i <= |s|
    ensures i <= e <= |s| && forall k :: i <= k < e ==> IsDigit(s[k])
    decreases |s| - i
  {
    if i < |s| && IsDigit(s[i]) then DigitsTo(s, i + 1) else i
  }

  /** What strtoull makes of a text: the number, where it ends, and whether it fits. Without digits it ends
      at the beginning of the text. */
  function Read(s: string): (nat, nat, bool) {
    var i := BlanksTo(s, 0);
    var j := if i < |s| && (s[i] == '-' || s[i] == '+') then i + 1 else i;
    var e := DigitsTo(s, j);
    if e == j then (0, 0, true)
    else
      var digits := s[j..e];
      assert forall k :: 0 <= k < |digits| ==> digits[k] == s[j + k];
      var n := ValueOf(digits);
      if n >= WRAP then (WRAP - 1, e, false) else (if s[i] == '-' && n > 0 then WRAP - n else n, e, true)
  }

  /** safe_strtoull. */
  function SafeStrtoull(s: string): (n: Option<nat>)
    ensures n.Some? ==> n.value < WRAP
  {
    var (ull, end, fits) := Read(s);
    if !fits || end == 0 then None
    else if end < |s| && !Blank(s[end]) then None
    else if ull >= HALF && '-' in s then None
    else Some(ull)
  }

  /** Memory as a string: up to the first zero byte. */
  function Text(m: string): string {
    if |m| == 0 || m[0] == '\0' then "" else [m[0]] + Text(m[1..])
  }

  lemma {:induction false} DigitsEnd(s: string, i: nat, e: nat)
    requires i <= e <= |s| && (forall k :: i <= k < e ==> IsDigit(s[k])) && (e < |s| ==> !IsDigit(s[e]))
    ensures DigitsTo(s, i) == e
    decreases e - i
  {
    if i < e {
      DigitsEnd(s, i + 1, e);
    }
  }

  lemma {:induction false} TextOn(a: string, b: string)
    requires '\0' !in a
    ensures Text(a + b) == a + Text(b)
  {
    if |a| == 0 {
      assert a + b == b;
    } else {
      assert a[0] in a && (a + b)[1..] == a[1..] + b;
      TextOn(a[1..], b);
      assert a == [a[0]] + a[1..];
    }
  }

  lemma NumberRead(n: nat, rest: string)
    requires n < WRAP && (|rest| > 0 ==> Blank(rest[0]))
    ensures Read(Decimal(n) + rest) == (n, |Decimal(n)|, true)
  {
    var d, s := Decimal(n), Decimal(n) + rest;
    DecimalReadsBack(n);
    assert s[0] == d[0] && s[..|d|] == d;
    DigitsEnd(s, 0, |d|);
  }

  /** The text of a number, and then the end or a blank, reads as the number, unless it is so large that it
      would be negative in 64 bits with a sign and a minus sign stands anywhere behind it. */
  lemma ReadsBack(n: nat, rest: string)
    requires n < WRAP && (|rest| > 0 ==> Blank(rest[0]))
    ensures SafeStrtoull(Decimal(n) + rest) == if n >= HALF && '-' in rest then None else Some(n)
  {
    NumberRead(n, rest);
    DecimalReadsBack(n);
    assert '-' in Decimal(n) + rest <==> '-' in rest;
  }

  /** `s` is a minus sign, the digits `d`, and then nothing or a blank. */
  predicate Signed(s: string, d: string) {
    && 0 < |d| < |s| && s[0] == '-' && s[1..1 + |d|] == d && (forall k :: 0 <= k < |d| ==> IsDigit(d[k]))
    && (1 + |d| < |s| ==> Blank(s[1 + |d|]))
  }

  lemma SignedDigits(s: string, d: string)
    requires Signed(s, d)
    ensures DigitsTo(s, 1) == 1 + |d|
  {
    forall k | 1 <= k < 1 + |d|
      ensures IsDigit(s[k])
    {
      assert s[1..1 + |d|][k - 1] == s[k];
    }
    DigitsEnd(s, 1, 1 + |d|);
  }

  lemma SignedRead(s: string, d: string)
    requires Signed(s, d)
    ensures var n := ValueOf(d);
      n < WRAP ==> Read(s) == (if n == 0 then 0 else WRAP - n, 1 + |d|, true)
  {
    SignedDigits(s, d);
    assert BlanksTo(s, 0) == 0;
  }

  lemma SignedText(d: string, rest: string)
    requires 0 < |d| && (forall k :: 0 <= k < |d| ==> IsDigit(d[k])) && (|rest| > 0 ==> Blank(rest[0]))
    ensures Signed("-" + d + rest, d)
  {
    var s := "-" + d + rest;
    assert s[1..1 + |d|] == d;
  }

  /** With a minus sign in front a number up to 2^63 is refused, but for zero; a larger one is taken for what is
      left to 2^64. */
  lemma SignedReads(n: nat, rest: string, s: string)
    requires n < WRAP && (|rest| > 0 ==> Blank(rest[0])) && s == "-" + Decimal(n) + rest
    ensures SafeStrtoull(s) == if n == 0 then Some(0) else if n <= HALF then None else Some(WRAP - n)
  {
    DecimalReadsBack(n);
    SignedText(Decimal(n), rest);
    SignedRead(s, Decimal(n));
    assert s[0] in s;
  }
}
