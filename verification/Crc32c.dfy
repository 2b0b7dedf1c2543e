/** CRC-32C (Castagnoli, section 12.1 of RFC 3720) one bit at a time, and the algebra
    every fast form rests on: the register is linear over exclusive-or, and feeding
    a byte string splits into "shift the register past it" and "the string itself". */
module Crc32c {
  import Sequences

  /** A 32-bit register. */
  datatype Word = Word(bits: bv32)

  /** The polynomial in reversed bit order. */
  const POLY := Word(0x82f63b78)
  const ZERO := Word(0)
  const ONES := Word(0xffffffff)

  function Xor(a: Word, b: Word): Word {
    Word(a.bits ^ b.bits)
  }

  function OfByte(b: bv8): Word {
    Word(b as bv32)
  }

  function Half(c: Word): Word {
    Word(c.bits >> 1)
  }

  predicate Odd(c: Word) {
    c.bits & 1 == 1
  }

  /** One zero bit through the reflected shift register. */
  function BitStep(c: Word): Word {
    if Odd(c) then Xor(Half(c), POLY) else Half(c)
  }

  /** `n` zero bits through the register. */
  function Bits(c: Word, n: nat): Word
    decreases n, c // listing `c` keeps `Bits(c, 8)` from being unrolled as a constant
  {
    if n == 0 then c else Bits(BitStep(c), n - 1)
  }

  /** One data byte: this is also what the `crc32b` instruction computes. */
  function ByteStep(c: Word, b: bv8): Word {
    Bits(Xor(c, OfByte(b)), 8)
  }

  /** The register after a byte string, with no complementing. */
  function Raw(c: Word, s: seq<bv8>): Word
    decreases |s|
  {
    if |s| == 0 then c else Raw(ByteStep(c, s[0]), s[1..])
  }

  /** The checksum as callers see it: complemented before and after. */
  function Crc(c: Word, s: seq<bv8>): Word {
    Xor(Raw(Xor(c, ONES), s), ONES)
  }

  // ---- the exclusive-or group ----

  lemma XorAssociates(a: Word, b: Word, c: Word)
    ensures Xor(Xor(a, b), c) == Xor(a, Xor(b, c))
  {}

  lemma XorCommutes(a: Word, b: Word)
    ensures Xor(a, b) == Xor(b, a)
  {}

  lemma XorZero(a: Word)
    ensures Xor(a, ZERO) == a && Xor(ZERO, a) == a && Xor(a, a) == ZERO
  {}

  lemma XorLast(a: Word, b: Word, c: Word)
    ensures Xor(Xor(a, b), c) == Xor(Xor(a, c), b)
  {}

  lemma XorMiddle(a: Word, b: Word, c: Word, d: Word)
    ensures Xor(Xor(a, b), Xor(c, d)) == Xor(Xor(a, c), Xor(b, d))
  {
    XorAssociates(Xor(a, b), c, d);
    XorLast(a, b, c);
    XorAssociates(Xor(a, c), b, d);
  }

  lemma XorTwice(a: Word, b: Word)
    ensures Xor(Xor(a, b), b) == a
  {
    XorAssociates(a, b, b);
    XorZero(b);
    XorZero(a);
  }

  // ---- linearity ----

  /** What the feedback adds: the polynomial when a one drops out. */
  function Tap(c: Word): Word {
    if Odd(c) then POLY else ZERO
  }

  lemma BitStepIsHalfPlusTap(c: Word)
    ensures BitStep(c) == Xor(Half(c), Tap(c))
  {
    XorZero(Half(c));
  }

  lemma HalfLinear(a: Word, b: Word)
    ensures Half(Xor(a, b)) == Xor(Half(a), Half(b))
  {}

  lemma OddXor(a: Word, b: Word)
    ensures Odd(Xor(a, b)) <==> Odd(a) != Odd(b)
  {}

  lemma TapLinear(a: Word, b: Word)
    ensures Tap(Xor(a, b)) == Xor(Tap(a), Tap(b))
  {
    OddXor(a, b);
    XorZero(POLY);
    XorZero(ZERO);
  }

  lemma BitStepLinear(a: Word, b: Word)
    ensures BitStep(Xor(a, b)) == Xor(BitStep(a), BitStep(b))
  {
    BitStepIsHalfPlusTap(a);
    BitStepIsHalfPlusTap(b);
    BitStepIsHalfPlusTap(Xor(a, b));
    HalfLinear(a, b);
    TapLinear(a, b);
    XorMiddle(Half(a), Tap(a), Half(b), Tap(b));
  }

  /** Shifting zero bits through the register is linear over GF(2). */
  lemma {:induction false} BitsLinear(a: Word, b: Word, n: nat)
    ensures Bits(Xor(a, b), n) == Xor(Bits(a, n), Bits(b, n))
    decreases n
  {
    if n > 0 {
      BitStepLinear(a, b);
      BitsLinear(BitStep(a), BitStep(b), n - 1);
    }
  }

  lemma {:induction false} BitsAdd(c: Word, m: nat, n: nat)
    ensures Bits(c, m + n) == Bits(Bits(c, m), n)
    decreases m
  {
    if m > 0 {
      BitsAdd(BitStep(c), m - 1, n);
    }
  }

  // ---- strings ----

  /** Feeding a joined string is feeding its parts in turn. */
  lemma {:induction false} RawAppend(c: Word, a: seq<bv8>, b: seq<bv8>)
    ensures Raw(c, a + b) == Raw(Raw(c, a), b)
    decreases |a|
  {
    if |a| == 0 {
      assert a + b == b;
    } else {
      assert (a + b)[1..] == a[1..] + b;
      RawAppend(ByteStep(c, a[0]), a[1..], b);
    }
  }

  /** A checksum taken piece by piece, each piece started from the last result, is the
      checksum of the whole. */
  lemma CrcChains(c: Word, a: seq<bv8>, b: seq<bv8>)
    ensures Crc(Crc(c, a), b) == Crc(c, a + b)
  {
    XorTwice(Raw(Xor(c, ONES), a), ONES);
    RawAppend(Xor(c, ONES), a, b);
  }

  /** What the read callback computes over an iovec list. However a stored item is cut into iovecs on
      the way back, the running checksum is the single-buffer one taken when it was written. */
  method CrcOfPieces(c: Word, pieces: seq<seq<bv8>>) returns (r: Word)
    ensures r == Crc(c, Sequences.Flatten(pieces))
  {
    r := c;
    XorTwice(c, ONES);
    var i := 0;
    while i < |pieces|
      invariant 0 <= i <= |pieces| && r == Crc(c, Sequences.Flatten(pieces[..i]))
    {
      Sequences.FlattenMore(pieces, i);
      CrcChains(c, Sequences.Flatten(pieces[..i]), pieces[i]);
      r := Crc(r, pieces[i]);
      i := i + 1;
    }
    assert pieces[..i] == pieces;
  }

  /** Exclusive-or-ing `d` into the register before a string comes out as `d` shifted past
      the whole string. */
  lemma {:induction false} RawXor(c: Word, d: Word, s: seq<bv8>)
    ensures Raw(Xor(c, d), s) == Xor(Raw(c, s), Bits(d, 8 * |s|))
    decreases |s|
  {
    if |s| > 0 {
      var b := OfByte(s[0]);
      XorLast(c, d, b);
      BitsLinear(Xor(c, b), d, 8);
      RawXor(ByteStep(c, s[0]), Bits(d, 8), s[1..]);
      BitsAdd(d, 8, 8 * |s[1..]|);
      assert 8 + 8 * |s[1..]| == 8 * |s|;
    }
  }

  /** The same with an empty start: register and data separate. */
  lemma RawSplit(c: Word, s: seq<bv8>)
    ensures Raw(c, s) == Xor(Bits(c, 8 * |s|), Raw(ZERO, s))
  {
    XorZero(c);
    RawXor(ZERO, c, s);
    XorCommutes(Raw(ZERO, s), Bits(c, 8 * |s|));
  }

  function ZeroBytes(n: nat): (z: seq<bv8>)
    ensures |z| == n && forall i :: 0 <= i < n ==> z[i] == 0
  {
    seq(n, _ => 0)
  }

  /** Feeding `n` zero bytes is shifting the register by `8n` bits. */
  lemma {:induction false} RawZeroBytes(c: Word, n: nat)
    ensures Raw(c, ZeroBytes(n)) == Bits(c, 8 * n)
    decreases n
  {
    if n > 0 {
      var z := ZeroBytes(n);
      assert z[1..] == ZeroBytes(n - 1);
      XorZero(c);
      assert OfByte(0) == ZERO;
      RawZeroBytes(Bits(c, 8), n - 1);
      BitsAdd(c, 8, 8 * (n - 1));
      assert 8 + 8 * (n - 1) == 8 * n;
    }
  }
}
