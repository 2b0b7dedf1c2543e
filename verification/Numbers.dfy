/** Powers of two, and the low bits of a number: what `x & (2^k - 1)` selects. */
module Numbers {

  function Min(a: int, b: int): int {
    if a < b then a else b
  }

  function Pow2(k: nat): (p: nat)
    ensures p >= 1
  {
    if k == 0 then 1 else 2 * Pow2(k - 1)
  }

  /** The low `k` bits of `a`. */
  function LowBits(a: nat, k: nat): (r: nat)
    ensures r < Pow2(k)
    decreases k
  {
    if k == 0 then 0 else a % 2 + 2 * LowBits(a / 2, k - 1)
  }

  /** One more bit keeps the selection or adds the new bit's weight to it. */
  lemma {:induction false} LowBitsOneMore(a: nat, k: nat)
    ensures LowBits(a, k + 1) == LowBits(a, k) || LowBits(a, k + 1) == LowBits(a, k) + Pow2(k)
    decreases k
  {
    if k > 0 {
      LowBitsOneMore(a / 2, k - 1);
    }
  }

  /** Fewer bits of some low bits are fewer bits of the number. */
  lemma {:induction false} LowBitsOfLowBits(a: nat, j: nat, k: nat)
    requires j <= k
    ensures LowBits(LowBits(a, k), j) == LowBits(a, j)
    decreases j
  {
    if j > 0 {
      var b := LowBits(a, k);
      assert b % 2 == a % 2 && b / 2 == LowBits(a / 2, k - 1);
      LowBitsOfLowBits(a / 2, j - 1, k - 1);
    }
  }

  /** A number below 2^k is its own low bits. */
  lemma {:induction false} LowBitsSmall(a: nat, k: nat)
    requires a < Pow2(k)
    ensures LowBits(a, k) == a
    decreases k
  {
    if k > 0 {
      LowBitsSmall(a / 2, k - 1);
    }
  }

  /** `a` is some number of `m`s. */
  predicate Multiple(a: nat, m: nat)
    requires m > 0
    decreases a
  {
    a == 0 || (a >= m && Multiple(a - m, m))
  }

  lemma {:induction false} MultiplesApart(a: nat, b: nat, m: nat)
    requires m > 0 && Multiple(a, m) && Multiple(b, m) && a < b
    ensures a + m <= b
    decreases a
  {
    if a > 0 {
      MultiplesApart(a - m, b - m, m);
    }
  }

  lemma {:induction false} MultiplesMinus(a: nat, b: nat, m: nat)
    requires m > 0 && Multiple(a, m) && Multiple(b, m) && a <= b
    ensures Multiple(b - a, m)
    decreases a
  {
    if a > 0 {
      MultiplesMinus(a - m, b - m, m);
    }
  }

  // ---- bytes, and two-byte numbers with the high byte first ----

  type Octet = n: nat | n < 256

  function High(n: nat): Octet {
    n / 256 % 256
  }

  function Low(n: nat): Octet {
    n % 256
  }

  function Number(high: Octet, low: Octet): nat {
    high * 256 + low
  }

  /** Two bytes are enough for a number exactly if it is below 2^16. */
  lemma NumberIs(n: nat)
    ensures Number(High(n), Low(n)) == n % 0x10000
    ensures Number(High(n), Low(n)) == n <==> n < 0x10000
  {
    assert n == n / 256 / 256 * 0x10000 + n / 256 % 256 * 256 + n % 256;
  }

  lemma ByteReadsBack(b: bv8)
    ensures (b as nat) as bv8 == b
  {}

  lemma NextByte(b: bv8)
    requires b as nat < 255
    ensures (b + 1) as nat == b as nat + 1
  {}

  lemma {:induction false} OctetReadsBack(n: Octet)
    ensures (n as bv8) as nat == n
  {
    if n > 0 {
      OctetReadsBack(n - 1);
      var b := (n - 1) as bv8;
      NextByte(b);
      ByteReadsBack(b + 1);
    }
  }
}
