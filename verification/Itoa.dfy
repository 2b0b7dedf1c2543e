/** The printers of itoa_ljust.c, writing through a pointer into a buffer. */
module Itoa {
  import opened Decimals

  const U32 := 0x1_0000_0000
  const U64 := 0x1_0000_0000_0000_0000

  lemma PairIs(d: nat)
    requires d < 100
    ensures Padded(d, 2) == [Digit(d / 10), Digit(d % 10)]
  {
    assert Padded(d / 10, 1) == Padded(d / 100, 0) + [Digit(d / 10 % 10)];
  }

  method Out2(d: nat, buf: array<char>, p: nat) returns (p': nat)
    requires d < 100 && p + 2 <= buf.Length
    modifies buf
    ensures p' == p + 2 && buf[..p'] == old(buf[..p]) + Padded(d, 2)
  {
    RowIs(d / 10);
    TensAt(Digit(d / 10), d % 10);
    PairIs(d);
    var row := Row(d / 10);
    buf[p], buf[p + 1] := row[2 * (d % 10)], row[2 * (d % 10) + 1];
    p' := p + 2;
  }

  method Out1(c: char, buf: array<char>, p: nat) returns (p': nat)
    requires p + 1 <= buf.Length
    modifies buf
    ensures p' == p + 1 && buf[..p'] == old(buf[..p]) + [c]
  {
    buf[p] := c;
    p' := p + 1;
  }

  /** The text so far and the last `m` digits of `u` make up the goal. */
  ghost predicate Stage(text: string, u: nat, m: nat, goal: string) {
    text + Padded(u, m) == goal && u < Pow10(m)
  }

  lemma TwoDigits(k: nat, d: nat, r: nat)
    requires k * d + r < 100 * k
    ensures d < 100
  {
    assert d >= 100 ==> k * d >= k * 100;
  }

  lemma NextStage(text: string, u: nat, m: nat, goal: string, d: nat, r: nat)
    requires Stage(text, u, m + 2, goal) && u == Pow10(m) * d + r && r < Pow10(m)
    ensures d < 100 && Stage(text + Padded(d, 2), r, m, goal)
  {
    assert Pow10(m + 2) == 10 * Pow10(m + 1) && Pow10(m + 1) == 10 * Pow10(m);
    TwoDigits(Pow10(m), d, r);
    PaddedSplit(u, 2, m, d, r);
    assert text + (Padded(d, 2) + Padded(r, m)) == text + Padded(d, 2) + Padded(r, m);
  }

  function Div(u: nat, k: nat): nat
    requires k > 0
  {
    u / k
  }

  function Mod(u: nat, k: nat): nat
    requires k > 0
  {
    u % k
  }

  lemma Quotient(u: nat, k: nat)
    requires k > 0
    ensures var d, r := Div(u, k), Mod(u, k); u == k * d + r && r < k && d * k <= u && u - d * k == r
  {
  }

  lemma PairStage(m: nat, k: nat, u: nat, text: string, goal: string)
    requires m >= 2 && k == Pow10(m - 2) && Stage(text, u, m, goal)
    ensures var d := Div(u, k); d < 100 && d * k <= u && Stage(text + Padded(d, 2), u - d * k, m - 2, goal)
  {
    Quotient(u, k);
    NextStage(text, u, m - 2, goal, Div(u, k), Mod(u, k));
  }

  /** What is left of `u` without `d` times `k`. */
  predicate Left(u: nat, d: nat, k: nat, r: nat) {
    d * k <= u && u - d * k == r
  }

  /** Case `m` of the switch in itoa, an even one: two digits. */
  method Pair(m: nat, k: nat, u: nat, buf: array<char>, p: nat, ghost goal: string)
    returns (d: nat, p': nat, ghost r: nat)
    requires m >= 2 && k == Pow10(m - 2) && p + m <= buf.Length && Stage(buf[..p], u, m, goal)
    modifies buf
    ensures p' == p + 2 && Left(u, d, k, r) && Stage(buf[..p'], r, m - 2, goal)
  {
    PairStage(m, k, u, buf[..p], goal);
    d := Div(u, k);
    r := u - d * k;
    p' := Out2(d, buf, p);
  }

  /** Where the switch of itoa comes in: an even case with all digits to go, or an odd one with the
      first digit `d` printed. */
  ghost predicate Entry(n: nat, text: string, u: nat, d: nat, goal: string) {
    && 1 <= n <= 10
    && (n % 2 == 0 ==> Stage(text, u, n, goal))
    && (n % 2 == 1 ==> d * Pow10(n - 1) <= u && Stage(text, u - d * Pow10(n - 1), n - 1, goal))
  }

  /** Before case `m`: the switch has come in above and has `m` digits to go, or has yet to come in. */
  ghost predicate Level(n: nat, m: nat, text: string, u: nat, d: nat, goal: string) {
    if n >= m then Stage(text, u, m, goal) else Entry(n, text, u, d, goal)
  }

  lemma OddDown(n: nat, text: string, u: nat, d: nat, goal: string) returns (r: nat)
    requires n % 2 == 1 && Entry(n, text, u, d, goal)
    ensures Left(u, d, Pow10(n - 1), r) && Level(n, n - 1, text, r, d, goal)
  {
    r := u - d * Pow10(n - 1);
  }

  lemma LowerDown(n: nat, m: nat, text: string, u: nat, d: nat, goal: string)
    requires m >= 2 && m % 2 == 0 && n < m - 1 && Entry(n, text, u, d, goal)
    ensures Level(n, m - 2, text, u, d, goal)
  {}

  /** A product of two ints on 32 bits, wrapped around where it does not fit. */
  function IntTimes(d: nat, k: nat): int {
    var product := d * k % U32;
    if product < U32 / 2 then product else product - U32
  }

  /** Taking an int off an unsigned number of 32 bits. */
  function TakeOff(u: nat, x: int): nat {
    (u - x) % U32
  }

  /** Wrapped or not, the product comes off right. */
  lemma WrappedComesOff(u: nat, d: nat, k: nat)
    requires d * k <= u < U32
    ensures TakeOff(u, IntTimes(d, k)) == u - d * k
  {
    var product := d * k;
    assert product % U32 == product;
    assert (u - (product - U32)) % U32 == u - product;
  }

  /** `u -= d * k`. */
  method Minus(u: nat, d: nat, k: nat, ghost r: nat) returns (u': nat)
    requires Left(u, d, k, r) && u < U32
    ensures u' == r < U32
  {
    WrappedComesOff(u, d, k);
    u' := TakeOff(u, IntTimes(d, k));
  }

  /** In the printing of 32-bit numbers it does not fit from 2200000000 on. */
  lemma ProductFits(u: nat)
    requires u < U32
    ensures IntTimes(u / 100000000, 100000000) == u / 100000000 * 100000000 <==> u < 2200000000
  {
  }

  /** The cases `m` and `m - 1` of the switch in itoa, `k` being ten to the `m - 2`; the second takes
      off what has been printed. */
  method Cases(n: nat, m: nat, k: nat, u: nat, d: nat, buf: array<char>, p: nat, ghost goal: string)
    returns (u': nat, d': nat, p': nat)
    requires m >= 2 && m % 2 == 0 && k == Pow10(m - 2) && p <= buf.Length && (n >= m ==> p + m <= buf.Length)
    requires u < U32 && Level(n, m, buf[..p], u, d, goal)
    modifies buf
    ensures u' < U32 && p' == (if n >= m then p + 2 else p) && Level(n, m - 2, buf[..p'], u', d', goal)
  {
    u', d', p' := u, d, p;
    ghost var r := 0;
    if n >= m {
      d', p', r := Pair(m, k, u, buf, p, goal);
    } else if n == m - 1 {
      r := OddDown(n, buf[..p], u, d, goal);
    } else {
      LowerDown(n, m, buf[..p], u, d, goal);
    }
    if n >= m - 1 {
      u' := Minus(u', d', k, r);
    }
  }

  lemma Powers()
    ensures Pow10(0) == 1 && Pow10(1) == 10 && Pow10(2) == 100 && Pow10(3) == 1000 && Pow10(4) == 10000
      && Pow10(5) == 100000
    ensures Pow10(6) == 1000000 && Pow10(7) == 10000000 && Pow10(8) == 100000000 && Pow10(9) == 1000000000
      && Pow10(10) == 10000000000
  {
    assert Pow10(3) == 10 * Pow10(2) && Pow10(6) == 10 * Pow10(5) && Pow10(8) == 10 * Pow10(7);
  }

  /** itoa: the switch, coming in at case `n`. */
  method Print(u: nat, buf: array<char>, p: nat, d: nat, n: nat, ghost goal: string) returns (p': nat)
    requires u < U32 && p + (n - n % 2) < buf.Length && Entry(n, buf[..p], u, d, goal)
    modifies buf
    ensures p' < buf.Length && buf[..p'] == goal && buf[p'] == '\0'
  {
    Powers();
    var u', d';
    u', d', p' := Cases(n, 10, 100000000, u, d, buf, p, goal);
    u', d', p' := Cases(n, 8, 1000000, u', d', buf, p', goal);
    u', d', p' := Cases(n, 6, 10000, u', d', buf, p', goal);
    u', d', p' := Cases(n, 4, 100, u', d', buf, p', goal);
    u', d', p' := Cases(n, 2, 1, u', d', buf, p', goal);
    buf[p'] := '\0';
  }

  lemma EvenEntry(text: string, u: nat, k: nat, n: nat, d: nat)
    requires 1 < n <= 10 && n % 2 == 0 && k == Pow10(n - 2) && 10 * k <= u < 100 * k
    ensures Entry(n, text, u, d, text + Decimal(u)) && |Decimal(u)| == n
  {
    assert Pow10(n - 1) == 10 * k;
    assert Pow10(n) == 10 * Pow10(n - 1);
    DecimalIsPadded(u, n);
  }

  lemma OneDigit(k: nat, d: nat, r: nat)
    requires k * d + r < 10 * k
    ensures d < 10
  {
    assert d >= 10 ==> k * d >= k * 10;
  }

  lemma FirstDigit(u: nat, m: nat, d: nat, r: nat)
    requires u == Pow10(m) * d + r && r < Pow10(m) && u < 10 * Pow10(m) && (m > 0 ==> Pow10(m) <= u)
    ensures d < 10 && Decimal(u) == [Digit(d)] + Padded(r, m)
  {
    OneDigit(Pow10(m), d, r);
    if d > 0 {
      DecimalSplit(u, m, d, r);
    }
  }

  lemma OddEntry(text: string, u: nat, k: nat, n: nat)
    requires 1 <= n < 10 && n % 2 == 1 && k == Pow10(n - 1) && u < 10 * k && (n == 1 || k <= u)
    ensures Div(u, k) < 10 && Entry(n, text + [Digit(Div(u, k))], u, Div(u, k), text + Decimal(u)) && |Decimal(u)| == n
  {
    var d, r := Div(u, k), Mod(u, k);
    Quotient(u, k);
    FirstDigit(u, n - 1, d, r);
    assert text + ([Digit(d)] + Padded(r, n - 1)) == text + [Digit(d)] + Padded(r, n - 1);
  }

  method OutFirst(u: nat, k: nat, buf: array<char>, p: nat, n: nat) returns (d: nat, p': nat)
    requires 1 <= n < 10 && n % 2 == 1 && k == Pow10(n - 1) && u < 10 * k && (n == 1 || k <= u)
      && p + |Decimal(u)| < buf.Length
    modifies buf
    ensures p' == p + 1 && Entry(n, buf[..p'], u, d, old(buf[..p]) + Decimal(u)) && |Decimal(u)| == n
  {
    OddEntry(buf[..p], u, k, n);
    d := Div(u, k);
    p' := Out1(Digit(d), buf, p);
  }

  /** digits: the first digit alone if there is an odd number of them. */
  method Digits(u: nat, k: nat, buf: array<char>, p: nat, n: nat) returns (n': nat, d: nat, p': nat)
    requires 1 < n <= 10 && n % 2 == 0 && k == Pow10(n - 2) && u < 100 * k && (n == 2 || k <= u)
      && p + |Decimal(u)| < buf.Length
    modifies buf
    ensures p' + (n' - n' % 2) == p + |Decimal(u)| && Entry(n', buf[..p'], u, d, old(buf[..p]) + Decimal(u))
  {
    if u < k * 10 {
      d, p' := OutFirst(u, k, buf, p, n - 1);
      n' := n - 1;
    } else {
      EvenEntry(buf[..p], u, k, n, 0);
      n', d, p' := n, 0, p;
    }
  }

  /** itoa_u32: the canonical text, a NUL after it, and where the NUL is. */
  method ItoaU32(u: nat, buf: array<char>, p: nat) returns (p': nat)
    requires u < U32 && p + |Decimal(u)| < buf.Length
    modifies buf
    ensures p' < buf.Length && buf[..p'] == old(buf[..p]) + Decimal(u) && buf[p'] == '\0'
  {
    Powers();
    ghost var goal := buf[..p] + Decimal(u);
    var n, d;
    if u >= 100000000 {
      n, d, p' := Digits(u, 100000000, buf, p, 10);
    } else if u < 100 {
      n, d, p' := Digits(u, 1, buf, p, 2);
    } else if u < 10000 {
      n, d, p' := Digits(u, 100, buf, p, 4);
    } else if u < 1000000 {
      n, d, p' := Digits(u, 10000, buf, p, 6);
    } else {
      n, d, p' := Digits(u, 1000000, buf, p, 8);
    }
    p' := Print(u, buf, p', d, n, goal);
  }

  lemma Nine(u: nat)
    requires u >= U32
    ensures var upper := u / 1000000000; var lower := u - upper * 1000000000;
      0 <= lower < 1000000000 && 0 < upper < u && Decimal(u) == Decimal(upper) + Padded(lower, 9)
  {
    Powers();
    DecimalSplit(u, 9, u / 1000000000, u % 1000000000);
  }

  lemma NineJoins(text: string, u: nat)
    requires u >= U32
    ensures var upper := u / 1000000000; text + Decimal(upper) + Padded(u - upper * 1000000000, 9) == text + Decimal(u)
  {
    Nine(u);
    var upper := u / 1000000000;
    assert text + (Decimal(upper) + Padded(u - upper * 1000000000, 9)) == text + Decimal(upper)
      + Padded(u - upper * 1000000000, 9);
  }

  lemma NineEntry(text: string, lower: nat)
    requires lower < 1000000000
    ensures lower / 100000000 < 10
    ensures Entry(9, text + [Digit(lower / 100000000)], lower, lower / 100000000, text + Padded(lower, 9))
  {
    Powers();
    var d, r := lower / 100000000, lower % 100000000;
    PaddedSplit(lower, 1, 8, d, r);
    assert Padded(d, 1) == [Digit(d)];
    assert text + ([Digit(d)] + Padded(r, 8)) == text + [Digit(d)] + Padded(r, 8);
  }

  /** itoa_u64: what is above the last nine digits first, by the same means. */
  method ItoaU64(u: nat, buf: array<char>, p: nat) returns (p': nat)
    requires u < U64 && p + |Decimal(u)| < buf.Length
    modifies buf
    ensures p' < buf.Length && buf[..p'] == old(buf[..p]) + Decimal(u) && buf[p'] == '\0'
    decreases u
  {
    if u % U32 == u {
      p' := ItoaU32(u, buf, p);
    } else {
      Nine(u);
      var upper := u / 1000000000;
      p' := ItoaU64(upper, buf, p);
      p' := NineMore(u - upper * 1000000000, buf, p');
      NineJoins(old(buf[..p]), u);
    }
  }

  method NineMore(lower: nat, buf: array<char>, p: nat) returns (p': nat)
    requires lower < 1000000000 && p + 9 < buf.Length
    modifies buf
    ensures p' < buf.Length && buf[..p'] == old(buf[..p]) + Padded(lower, 9) && buf[p'] == '\0'
  {
    var d := lower / 100000000;
    ghost var goal := buf[..p] + Padded(lower, 9);
    NineEntry(buf[..p], lower);
    p' := Out1(Digit(d), buf, p);
    p' := Print(lower, buf, p', d, 9, goal);
  }

  function Signed(i: int): string {
    if i < 0 then "-" + Decimal(-i) else Decimal(i)
  }

  lemma WrappedU32(i: int)
    requires -0x8000_0000 <= i < 0x8000_0000
    ensures if i < 0 then i % U32 == U32 + i && (-(i % U32)) % U32 == -i else i % U32 == i
  {
  }

  lemma WrappedU64(i: int)
    requires -0x8000_0000_0000_0000 <= i < 0x8000_0000_0000_0000
    ensures if i < 0 then i % U64 == U64 + i && (-(i % U64)) % U64 == -i else i % U64 == i
  {
  }

  function Magnitude(i: int): nat {
    if i < 0 then -i else i
  }

  lemma SignJoins(text: string, digits: string)
    ensures text + ['-'] + digits == text + ("-" + digits)
  {}

  method OutSign(i: int, buf: array<char>, p: nat) returns (p': nat)
    requires p + |Signed(i)| < buf.Length
    modifies buf
    ensures p' + |Decimal(Magnitude(i))| < buf.Length && buf[..p'] + Decimal(Magnitude(i)) == old(buf[..p]) + Signed(i)
  {
    p' := p;
    if i < 0 {
      SignJoins(buf[..p], Decimal(-i));
      p' := Out1('-', buf, p);
    }
  }

  /** itoa_32 and itoa_64: the sign, then the magnitude as an unsigned number, which also holds for the
      least value. */
  method Itoa32(i: int, buf: array<char>, p: nat) returns (p': nat)
    requires -0x8000_0000 <= i < 0x8000_0000 && p + |Signed(i)| < buf.Length
    modifies buf
    ensures p' < buf.Length && buf[..p'] == old(buf[..p]) + Signed(i) && buf[p'] == '\0'
  {
    WrappedU32(i);
    var u := i % U32;
    p' := OutSign(i, buf, p);
    p' := ItoaU32(if i < 0 then (-u) % U32 else u, buf, p');
  }

  method Itoa64(i: int, buf: array<char>, p: nat) returns (p': nat)
    requires -0x8000_0000_0000_0000 <= i < 0x8000_0000_0000_0000 && p + |Signed(i)| < buf.Length
    modifies buf
    ensures p' < buf.Length && buf[..p'] == old(buf[..p]) + Signed(i) && buf[p'] == '\0'
  {
    WrappedU64(i);
    var u := i % U64;
    p' := OutSign(i, buf, p);
    p' := ItoaU64(if i < 0 then (-u) % U64 else u, buf, p');
  }

  /** No text is longer than twenty characters, sign included. */
  lemma AtMostTwenty(i: int)
    requires -0x8000_0000_0000_0000 <= i < U64
    ensures |Signed(i)| <= 20
  {
    Powers();
    assert Pow10(19) == 1000000000 * Pow10(10) by {
      assert Pow10(13) == 1000 * Pow10(10) && Pow10(16) == 1000 * Pow10(13) && Pow10(19) == 1000 * Pow10(16);
    }
    if i < 0 {
      DecimalLength(-i, 19);
    } else {
      assert Pow10(20) == 10 * Pow10(19);
      DecimalLength(i, 20);
    }
  }
}
