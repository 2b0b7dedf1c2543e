/** Decimal text, whole and zero-padded, and how it splits. */
module Decimals {

  function Digit(d: nat): char
    requires d < 10
  {
    '0' + d as char
  }

  /** The canonical decimal text of a number. */
  function Decimal(n: nat): string {
    if n < 10 then [Digit(n)] else Decimal(n / 10) + [Digit(n % 10)]
  }

  /** The lookup table, ten pairs of digits to a row. */
  function Row(a: nat): (r: string)
    requires a < 10
    ensures |r| == 20
  {
    match a
    case 0 => "00010203040506070809"
    case 1 => "10111213141516171819"
    case 2 => "20212223242526272829"
    case 3 => "30313233343536373839"
    case 4 => "40414243444546474849"
    case 5 => "50515253545556575859"
    case 6 => "60616263646566676869"
    case 7 => "70717273747576777879"
    case 8 => "80818283848586878889"
    case _ => "90919293949596979899"
  }

  function Tens(c: char): string {
    [c, '0', c, '1', c, '2', c, '3', c, '4', c, '5', c, '6', c, '7', c, '8', c, '9']
  }

  lemma TensAt(c: char, b: nat)
    requires b < 10
    ensures Tens(c)[2 * b] == c && Tens(c)[2 * b + 1] == Digit(b)
  {
  }

  lemma RowIs(a: nat)
    requires a < 10
    ensures Row(a) == Tens(Digit(a))
  {
  }

  // ---- powers of ten ----

  function Pow10(m: nat): (p: nat)
    ensures p > 0
  {
    if m == 0 then 1 else 10 * Pow10(m - 1)
  }

  lemma LastDigit(u: nat, m: nat, q: nat, r: nat)
    requires m > 0 && u == 10 * m * q + r
    ensures u / 10 == m * q + r / 10 && u % 10 == r % 10 && (q > 0 ==> u >= 10)
  {
    var x := m * q;
    assert u == 10 * x + r;
  }

  // ---- text of fixed length ----

  /** The last `m` digits, with zeros in front. */
  function Padded(u: nat, m: nat): (s: string)
    ensures |s| == m
  {
    if m == 0 then "" else Padded(u / 10, m - 1) + [Digit(u % 10)]
  }

  /** A number is its upper digits followed by its `k` lower ones. */
  lemma {:induction false} PaddedSplit(u: nat, j: nat, k: nat, q: nat, r: nat)
    requires u == Pow10(k) * q + r && r < Pow10(k)
    ensures Padded(u, j + k) == Padded(q, j) + Padded(r, k)
    decreases k
  {
    if k > 0 {
      LastDigit(u, Pow10(k - 1), q, r);
      PaddedSplit(u / 10, j, k - 1, q, r / 10);
    }
  }

  lemma {:induction false} DecimalSplit(u: nat, k: nat, q: nat, r: nat)
    requires q > 0 && u == Pow10(k) * q + r && r < Pow10(k)
    ensures Decimal(u) == Decimal(q) + Padded(r, k)
    decreases k
  {
    if k > 0 {
      LastDigit(u, Pow10(k - 1), q, r);
      DecimalSplit(u / 10, k - 1, q, r / 10);
    }
  }

  /** A number that fills `m` digits needs no zeros. */
  lemma {:induction false} DecimalIsPadded(u: nat, m: nat)
    requires m > 0 && Pow10(m - 1) <= u < Pow10(m)
    ensures Decimal(u) == Padded(u, m)
    decreases m
  {
    if m == 1 {
      assert Pow10(1) == 10;
    } else {
      DecimalIsPadded(u / 10, m - 1);
    }
  }

  // ---- reading the text back ----

  function ValueOf(s: string): nat
    requires forall i :: 0 <= i < |s| ==> '0' <= s[i] <= '9'
  {
    if |s| == 0 then 0 else 10 * ValueOf(s[..|s| - 1]) + (s[|s| - 1] - '0') as nat
  }

  /** The text of a number is digits only, has no leading zero, and reads back as the number. */
  lemma {:induction false} DecimalReadsBack(n: nat)
    ensures |Decimal(n)| > 0 && forall i :: 0 <= i < |Decimal(n)| ==> '0' <= Decimal(n)[i] <= '9'
    ensures ValueOf(Decimal(n)) == n && (n > 0 ==> Decimal(n)[0] != '0')
  {
    if n >= 10 {
      DecimalReadsBack(n / 10);
      assert Decimal(n)[..|Decimal(n)| - 1] == Decimal(n / 10);
    } else {
      assert Decimal(n)[..0] == "";
    }
  }

  lemma {:induction false} DecimalLength(n: nat, m: nat)
    requires m > 0
    ensures |Decimal(n)| <= m <==> n < Pow10(m)
    decreases m
  {
    if n >= 10 {
      if m == 1 {
        DecimalReadsBack(n / 10);
        assert Pow10(1) == 10;
      } else {
        DecimalLength(n / 10, m - 1);
      }
    } else {
      PowGrows(m);
    }
  }

  lemma {:induction false} PowGrows(m: nat)
    requires m > 0
    ensures Pow10(m) >= 10
  {
    if m > 1 {
      PowGrows(m - 1);
    } else {
      assert Pow10(1) == 10 * Pow10(0);
    }
  }
}
