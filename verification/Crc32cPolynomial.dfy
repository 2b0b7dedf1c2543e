/** What the checksum means: division of polynomials over GF(2). Nothing here is about shift registers but
    the proof that the register holds the remainder. */
module Crc32cPolynomial {
  import opened Crc32c
  import Gf2

  /** A polynomial, by the exponents of its terms. */
  type Poly = set<nat>

  function Plus(a: Poly, b: Poly): Poly {
    (a - b) + (b - a)
  }

  /** Times x^n. */
  function Shift(p: Poly, n: nat): (r: Poly)
    ensures forall e: nat :: e in r <==> e >= n && e - n in p
  {
    set e | e in p :: e + n
  }

  /** The pairs of terms of `a` and `b` that make up x^e. */
  function Pairs(a: Poly, b: Poly, e: nat): set<nat> {
    set i | i in a && i <= e && e - i in b
  }

  /** `r` is the product: x^e is in it if it comes about an odd number of times. */
  ghost predicate IsProduct(a: Poly, b: Poly, r: Poly) {
    forall e: nat :: e in r <==> |Pairs(a, b, e)| % 2 == 1
  }

  /** x^32 + x^28 + x^27 + x^26 + x^25 + x^23 + x^22 + x^20 + x^19 + x^18 + x^14 + x^13 + x^11 + x^10 + x^9 +
      x^8 + x^6 + 1, of section 12.1 of RFC 3720. */
  const CASTAGNOLI: Poly := {32, 28, 27, 26, 25, 23, 22, 20, 19, 18, 14, 13, 11, 10, 9, 8, 6, 0}

  /** `a` and `b` differ by `q` times the divisor. */
  ghost predicate Differ(a: Poly, b: Poly, q: Poly) {
    IsProduct(q, CASTAGNOLI, Plus(a, b))
  }

  ghost predicate Congruent(a: Poly, b: Poly) {
    exists q: Poly :: Differ(a, b, q)
  }

  /** `r` is what is left when `a` is divided by it. */
  ghost predicate Remainder(a: Poly, r: Poly) {
    Congruent(a, r) && forall e :: e in r ==> e < 32
  }

  // ---- bits as terms ----

  /** The i-th bit, counted from the lowest. */
  predicate Bit(c: Word, i: nat)
    decreases i
  {
    if i == 0 then Odd(c) else Bit(Half(c), i - 1)
  }

  /** The coefficient of x^e: the lowest bit of the register is the highest term. */
  predicate Coefficient(c: Word, e: nat) {
    e < 32 && Bit(c, 31 - e)
  }

  function Terms(c: Word): (p: Poly)
    ensures forall e: nat :: e in p <==> Coefficient(c, e)
  {
    set e: nat | e < 32 && Coefficient(c, e)
  }

  /** The t-th bit sent: every byte from its lowest bit up. */
  predicate Sent(s: seq<bv8>, t: nat)
    requires t < 8 * |s|
  {
    Bit(OfByte(s[t / 8]), t % 8)
  }

  /** The coefficient of x^e in the message: its first bit is the highest term. */
  predicate InMessage(s: seq<bv8>, e: nat) {
    e < 8 * |s| && Sent(s, 8 * |s| - 1 - e)
  }

  function Message(s: seq<bv8>): (p: Poly)
    ensures forall e: nat :: e in p <==> InMessage(s, e)
  {
    set e: nat | e < 8 * |s| && InMessage(s, e)
  }

  // ---- the ring ----

  lemma ShiftPlus(a: Poly, b: Poly, n: nat)
    ensures Shift(Plus(a, b), n) == Plus(Shift(a, n), Shift(b, n))
  {}

  lemma ShiftShift(a: Poly, m: nat, n: nat)
    ensures Shift(Shift(a, m), n) == Shift(a, m + n)
  {}

  lemma PairsPlus(a: Poly, a': Poly, b: Poly, e: nat)
    ensures |Pairs(Plus(a, a'), b, e)| % 2 == (|Pairs(a, b, e)| + |Pairs(a', b, e)|) % 2
  {
    var x, y := Pairs(a, b, e), Pairs(a', b, e);
    assert Pairs(Plus(a, a'), b, e) == (x - y) + (y - x);
    assert |x - y| + |y - x| == |(x - y) + (y - x)|;
    assert |x| == |x - y| + |x * y| && |y| == |y - x| + |x * y|;
  }

  lemma ProductPlus(a: Poly, a': Poly, b: Poly, r: Poly, r': Poly)
    requires IsProduct(a, b, r) && IsProduct(a', b, r')
    ensures IsProduct(Plus(a, a'), b, Plus(r, r'))
  {
    forall e: nat
      ensures e in Plus(r, r') <==> |Pairs(Plus(a, a'), b, e)| % 2 == 1
    {
      PairsPlus(a, a', b, e);
    }
  }

  lemma PairsShift(a: Poly, b: Poly, n: nat, e: nat)
    ensures if e < n then Pairs(Shift(a, n), b, e) == {} else |Pairs(Shift(a, n), b, e)| == |Pairs(a, b, e - n)|
  {
    if e >= n {
      var x := Pairs(a, b, e - n);
      assert Pairs(Shift(a, n), b, e) == Shift(x, n) by {
        forall i: nat
          ensures i in Pairs(Shift(a, n), b, e) <==> i in Shift(x, n)
        {}
      }
      SameSize(x, n);
    }
  }

  lemma {:induction false} SameSize(x: set<nat>, n: nat)
    ensures |Shift(x, n)| == |x|
    decreases |x|
  {
    if x != {} {
      var i :| i in x;
      SameSize(x - {i}, n);
      assert Shift(x, n) == Shift(x - {i}, n) + {i + n};
    }
  }

  lemma ProductShift(a: Poly, b: Poly, r: Poly, n: nat)
    requires IsProduct(a, b, r)
    ensures IsProduct(Shift(a, n), b, Shift(r, n))
  {
    forall e: nat
      ensures e in Shift(r, n) <==> |Pairs(Shift(a, n), b, e)| % 2 == 1
    {
      PairsShift(a, b, n, e);
    }
  }

  lemma ProductNone(b: Poly)
    ensures IsProduct({}, b, {})
  {
    forall e: nat
      ensures Pairs({}, b, e) == {}
    {}
  }

  lemma ProductOne(b: Poly)
    ensures IsProduct({0}, b, b)
  {
    forall e: nat
      ensures e in b <==> |Pairs({0}, b, e)| % 2 == 1
    {
      assert Pairs({0}, b, e) == if e in b then {0} else {};
    }
  }

  // ---- congruence ----

  lemma CongruentSame(a: Poly)
    ensures Congruent(a, a)
  {
    ProductNone(CASTAGNOLI);
    assert Plus(a, a) == {};
    assert Differ(a, a, {});
  }

  lemma CongruentThen(a: Poly, b: Poly, c: Poly)
    requires Congruent(a, b) && Congruent(b, c)
    ensures Congruent(a, c)
  {
    var p: Poly :| Differ(a, b, p);
    var q: Poly :| Differ(b, c, q);
    ProductPlus(p, q, CASTAGNOLI, Plus(a, b), Plus(b, c));
    assert Plus(Plus(a, b), Plus(b, c)) == Plus(a, c);
    assert Differ(a, c, Plus(p, q));
  }

  lemma CongruentShift(a: Poly, b: Poly, n: nat)
    requires Congruent(a, b)
    ensures Congruent(Shift(a, n), Shift(b, n))
  {
    var q: Poly :| Differ(a, b, q);
    ProductShift(q, CASTAGNOLI, Plus(a, b), n);
    ShiftPlus(a, b, n);
    assert Differ(Shift(a, n), Shift(b, n), Shift(q, n));
  }

  lemma CongruentPlus(a: Poly, b: Poly, c: Poly)
    requires Congruent(a, b)
    ensures Congruent(Plus(a, c), Plus(b, c))
  {
    var q: Poly :| Differ(a, b, q);
    assert Plus(Plus(a, c), Plus(b, c)) == Plus(a, b);
    assert Differ(Plus(a, c), Plus(b, c), q);
  }

  /** A multiple of the divisor that is not zero has a term of degree 32 or more. */
  lemma MultipleIsHigh(q: Poly, r: Poly, top: nat)
    requires IsProduct(q, CASTAGNOLI, r) && top in q && forall i :: i in q ==> i <= top
    ensures top + 32 in r
  {
    var e := top + 32;
    forall i | i in Pairs(q, CASTAGNOLI, e)
      ensures i == top
    {
      assert e - i in CASTAGNOLI;
    }
    assert Pairs(q, CASTAGNOLI, e) == {top};
  }

  lemma {:induction false} HasTop(q: Poly) returns (top: nat)
    requires q != {}
    ensures top in q && forall i :: i in q ==> i <= top
    decreases |q|
  {
    top :| top in q;
    if q != {top} {
      var x := top;
      var rest := HasTop(q - {x});
      top := if rest > x then rest else x;
      assert forall i :: i in q ==> i == x || i in q - {x};
    } else {
      assert forall i :: i in q ==> i in {top};
    }
  }

  /** There is one remainder. */
  lemma RemainderIsUnique(a: Poly, r: Poly, r': Poly)
    requires Remainder(a, r) && Remainder(a, r')
    ensures r == r'
  {
    var p: Poly :| Differ(a, r, p);
    var q: Poly :| Differ(a, r', q);
    ProductPlus(p, q, CASTAGNOLI, Plus(a, r), Plus(a, r'));
    assert Plus(Plus(a, r), Plus(a, r')) == Plus(r, r');
    if Plus(p, q) != {} {
      var top := HasTop(Plus(p, q));
      MultipleIsHigh(Plus(p, q), Plus(r, r'), top);
    } else {
      forall e: nat
        ensures e !in Plus(r, r')
      {
        assert Pairs({}, CASTAGNOLI, e) == {};
      }
    }
    assert forall e: nat :: e in r <==> e in r';
  }

  // ---- the register ----

  lemma BitDown(c: Word, half: Word, i: nat)
    requires i > 0 && half == Half(c)
    ensures Bit(c, i) <==> Bit(half, i - 1)
  {}

  lemma {:induction false} BitXor(a: Word, b: Word, c: Word, i: nat)
    requires c == Xor(a, b)
    ensures Bit(c, i) <==> Bit(a, i) != Bit(b, i)
    decreases i
  {
    if i == 0 {
      OddXor(a, b);
    } else {
      var a', b', c' := Half(a), Half(b), Half(c);
      HalfLinear(a, b);
      BitXor(a', b', c', i - 1);
      BitDown(a, a', i);
      BitDown(b, b', i);
      BitDown(c, c', i);
    }
  }

  lemma TermsXor(a: Word, b: Word)
    ensures Terms(Xor(a, b)) == Plus(Terms(a), Terms(b))
  {
    forall e: nat
      ensures e in Terms(Xor(a, b)) <==> e in Plus(Terms(a), Terms(b))
    {
      if e < 32 {
        BitXor(a, b, Xor(a, b), 31 - e);
      }
    }
  }

  /** A register that fits `n` bits has none beyond. */
  lemma {:induction false} NoBits(c: Word, n: nat, i: nat)
    requires n <= i && Gf2.Fits(c, n)
    ensures !Bit(c, i)
    decreases i
  {
    if i == 0 {
      assert !Odd(ZERO);
    } else if n == 0 {
      assert Half(ZERO) == ZERO;
      NoBits(Half(c), 0, i - 1);
    } else {
      NoBits(Half(c), n - 1, i - 1);
    }
  }

  function Halves(c: Word, n: nat): Word
    decreases n
  {
    if n == 0 then c else Halves(Half(c), n - 1)
  }

  lemma {:induction false} BitBeyond(c: Word, n: nat, i: nat)
    ensures Bit(c, n + i) <==> Bit(Halves(c, n), i)
    decreases n
  {
    if n > 0 {
      BitBeyond(Half(c), n - 1, i);
    }
  }

  lemma FourHalves(c: Word, d: Word)
    requires Half(Half(Half(Half(c)))) == d
    ensures Halves(c, 4) == d
  {}

  lemma EightHalves(c: Word, d: Word, e: Word)
    requires Halves(c, 4) == d && Halves(d, 4) == e
    ensures Halves(c, 8) == e
  {
    HalvesThen(c, 4, 4);
  }

  lemma {:induction false} HalvesThen(c: Word, m: nat, n: nat)
    ensures Halves(c, m + n) == Halves(Halves(c, m), n)
    decreases m
  {
    if m > 0 {
      HalvesThen(Half(c), m - 1, n);
    }
  }

  lemma PolyHalves()
    ensures Halves(Word(0x82f63b78), 8) == Word(0x82f63b) && Halves(Word(0x82f63b), 8) == Word(0x82f6)
      && Halves(Word(0x82f6), 8) == Word(0x82)
  {
    FourHalves(Word(0x82f63b78), Word(0x82f63b7));
    FourHalves(Word(0x82f63b7), Word(0x82f63b));
    FourHalves(Word(0x82f63b), Word(0x82f63));
    FourHalves(Word(0x82f63), Word(0x82f6));
    FourHalves(Word(0x82f6), Word(0x82f));
    FourHalves(Word(0x82f), Word(0x82));
    EightHalves(Word(0x82f63b78), Word(0x82f63b7), Word(0x82f63b));
    EightHalves(Word(0x82f63b), Word(0x82f63), Word(0x82f6));
    EightHalves(Word(0x82f6), Word(0x82f), Word(0x82));
  }

  /** Eight bits of the constant are the divisor's terms from x^top down. */
  predicate Matches(c: Word, top: nat) {
    forall i: nat :: i < 8 && i <= top ==> (Bit(c, i) <==> top - i in CASTAGNOLI)
  }

  lemma FirstByte()
    ensures Matches(Word(0x82f63b78), 31)
  {
    assert !Bit(Word(0x82f63b78), 0) && !Bit(Word(0x82f63b78), 1);
    assert !Bit(Word(0x82f63b78), 2) && Bit(Word(0x82f63b78), 3);
    assert Bit(Word(0x82f63b78), 4) && Bit(Word(0x82f63b78), 5);
    assert Bit(Word(0x82f63b78), 6) && !Bit(Word(0x82f63b78), 7);
  }

  lemma SecondByte()
    ensures Matches(Word(0x82f63b), 23)
  {
    assert Bit(Word(0x82f63b), 0) && Bit(Word(0x82f63b), 1) && !Bit(Word(0x82f63b), 2) && Bit(Word(0x82f63b), 3);
    assert Bit(Word(0x82f63b), 4) && Bit(Word(0x82f63b), 5) && !Bit(Word(0x82f63b), 6) && !Bit(Word(0x82f63b), 7);
  }

  lemma ThirdByte()
    ensures Matches(Word(0x82f6), 15)
  {
    assert !Bit(Word(0x82f6), 0) && Bit(Word(0x82f6), 1) && Bit(Word(0x82f6), 2) && !Bit(Word(0x82f6), 3);
    assert Bit(Word(0x82f6), 4) && Bit(Word(0x82f6), 5) && Bit(Word(0x82f6), 6) && Bit(Word(0x82f6), 7);
  }

  lemma FourthByte()
    ensures Matches(Word(0x82), 7)
  {
    assert !Bit(Word(0x82), 0) && Bit(Word(0x82), 1) && !Bit(Word(0x82), 2) && !Bit(Word(0x82), 3);
    assert !Bit(Word(0x82), 4) && !Bit(Word(0x82), 5) && !Bit(Word(0x82), 6) && Bit(Word(0x82), 7);
  }

  lemma PolyBit(i: nat)
    requires i < 32
    ensures Bit(POLY, i) <==> 31 - i in CASTAGNOLI
  {
    PolyHalves();
    if i < 8 {
      FirstByte();
    } else if i < 16 {
      BitBeyond(POLY, 8, i - 8);
      SecondByte();
    } else if i < 24 {
      BitBeyond(POLY, 8, i - 8);
      BitBeyond(Word(0x82f63b), 8, i - 16);
      ThirdByte();
    } else {
      BitBeyond(POLY, 8, i - 8);
      BitBeyond(Word(0x82f63b), 8, i - 16);
      BitBeyond(Word(0x82f6), 8, i - 24);
      FourthByte();
    }
  }

  /** The constant is the divisor without its highest term. */
  lemma PolyTerms()
    ensures Terms(POLY) == CASTAGNOLI - {32}
  {
    forall e: nat
      ensures e in Terms(POLY) <==> e in CASTAGNOLI - {32}
    {
      if e < 32 {
        PolyBit(31 - e);
      }
    }
  }

  /** Halving the register multiplies by x, but for the term that drops out. */
  lemma TermsHalf(c: Word)
    ensures Terms(Half(c)) == Shift(Terms(c), 1) - {32} && (32 in Shift(Terms(c), 1) <==> Odd(c))
  {
    Gf2.FitsAll(c);
    assert Coefficient(c, 31) <==> Odd(c);
    forall e: nat
      ensures e in Terms(Half(c)) <==> e in Shift(Terms(c), 1) - {32}
    {
      if e == 0 {
        NoBits(Half(c), 31, 31);
      } else if e < 32 {
        assert Coefficient(Half(c), e) <==> Coefficient(c, e - 1);
      }
    }
  }

  lemma TopCancels(p: Poly, r: Poly, g: Poly)
    requires 32 in p && 32 in g && r == Plus(p - {32}, g - {32})
    ensures Plus(p, r) == g
  {}

  /** One step of the register multiplies by x, up to the divisor. */
  lemma StepShifts(c: Word)
    ensures Congruent(Shift(Terms(c), 1), Terms(BitStep(c)))
  {
    var p, r := Shift(Terms(c), 1), Terms(BitStep(c));
    TermsHalf(c);
    if Odd(c) {
      TermsXor(Half(c), POLY);
      PolyTerms();
      TopCancels(p, r, CASTAGNOLI);
      ProductOne(CASTAGNOLI);
      assert Differ(p, r, {0});
    } else {
      assert p == r;
      CongruentSame(p);
    }
  }

  lemma {:induction false} BitsShift(c: Word, n: nat)
    ensures Congruent(Shift(Terms(c), n), Terms(Bits(c, n)))
    decreases n
  {
    if n == 0 {
      assert Shift(Terms(c), 0) == Terms(c);
      CongruentSame(Terms(c));
    } else {
      StepShifts(c);
      CongruentShift(Shift(Terms(c), 1), Terms(BitStep(c)), n - 1);
      ShiftShift(Terms(c), 1, n - 1);
      BitsShift(BitStep(c), n - 1);
      CongruentThen(Shift(Terms(c), n), Shift(Terms(BitStep(c)), n - 1), Terms(Bits(c, n)));
    }
  }

  lemma ByteFits(b: bv8)
    ensures Gf2.Fits(OfByte(b), 8)
  {
    assert Gf2.Fits(Word(0xff), 8);
    assert Gf2.AtMost(OfByte(b), Word(0xff));
    Gf2.FitsBelow(OfByte(b), Word(0xff), 8);
  }

  /** A byte in the register is its message in the highest terms. */
  lemma TermsByte(b: bv8)
    ensures Terms(OfByte(b)) == Shift(Message([b]), 24)
  {
    ByteFits(b);
    forall e: nat
      ensures e in Terms(OfByte(b)) <==> e in Shift(Message([b]), 24)
    {
      if e < 24 {
        NoBits(OfByte(b), 8, 31 - e);
      } else if e < 32 {
        assert InMessage([b], e - 24) <==> Sent([b], 31 - e);
        assert Sent([b], 31 - e) <==> Bit(OfByte(b), 31 - e);
      }
    }
  }

  lemma ByteShifts(c: Word, b: bv8)
    ensures Congruent(Head(c, b), Terms(ByteStep(c, b)))
  {
    TermsXor(c, OfByte(b));
    TermsByte(b);
    ShiftPlus(Terms(c), Shift(Message([b]), 24), 8);
    ShiftShift(Message([b]), 24, 8);
    BitsShift(Xor(c, OfByte(b)), 8);
  }

  lemma SentLater(s: seq<bv8>, t: nat)
    requires 8 <= t < 8 * |s|
    ensures Sent(s, t) <==> Sent(s[1..], t - 8)
  {
    assert (t - 8) / 8 == t / 8 - 1 && (t - 8) % 8 == t % 8;
  }

  /** A message is its first byte, in front, and the rest. */
  lemma MessageSplit(s: seq<bv8>)
    requires |s| > 0
    ensures Message(s) == Plus(Shift(Message([s[0]]), 8 * (|s| - 1)), Message(s[1..]))
  {
    var n := 8 * (|s| - 1);
    forall e: nat
      ensures e in Message(s) <==> e in Plus(Shift(Message([s[0]]), n), Message(s[1..]))
    {
      if e < n {
        SentLater(s, 8 * |s| - 1 - e);
      } else if e < n + 8 {
        var t := 8 * |s| - 1 - e;
        assert Sent(s, t) <==> Sent([s[0]], t);
        assert InMessage([s[0]], e - n) <==> Sent([s[0]], t);
      }
    }
  }

  /** What is divided: the register's start, ahead of the message, and the message ahead of 32 zeros. */
  function Dividend(c: Word, s: seq<bv8>): Poly {
    Plus(Shift(Terms(c), 8 * |s|), Shift(Message(s), 32))
  }

  lemma PlusThree(a: Poly, b: Poly, c: Poly)
    ensures Plus(a, Plus(b, c)) == Plus(Plus(a, b), c)
  {}

  /** The first byte taken into the register. */
  function Head(c: Word, b: bv8): Poly {
    Plus(Shift(Terms(c), 8), Shift(Message([b]), 32))
  }

  lemma HeadShift(c: Word, b: bv8, n: nat)
    ensures Shift(Head(c, b), n) == Plus(Shift(Terms(c), n + 8), Shift(Message([b]), n + 32))
  {
    ShiftShift(Message([b]), 32, n);
    ShiftShift(Terms(c), 8, n);
    ShiftPlus(Shift(Terms(c), 8), Shift(Message([b]), 32), n);
  }

  lemma MessageShift(s: seq<bv8>, n: nat)
    requires |s| > 0 && n == 8 * (|s| - 1)
    ensures Shift(Message(s), 32) == Plus(Shift(Message([s[0]]), n + 32), Shift(Message(s[1..]), 32))
  {
    MessageSplit(s);
    ShiftPlus(Shift(Message([s[0]]), n), Message(s[1..]), 32);
    ShiftShift(Message([s[0]]), n, 32);
  }

  lemma DividendSplit(c: Word, s: seq<bv8>, n: nat)
    requires |s| > 0 && n == 8 * (|s| - 1)
    ensures Dividend(c, s) == Plus(Shift(Head(c, s[0]), n), Shift(Message(s[1..]), 32))
  {
    HeadShift(c, s[0], n);
    MessageShift(s, n);
    PlusThree(Shift(Terms(c), n + 8), Shift(Message([s[0]]), n + 32), Shift(Message(s[1..]), 32));
  }

  lemma {:induction false} RawCongruent(c: Word, s: seq<bv8>)
    ensures Congruent(Dividend(c, s), Terms(Raw(c, s)))
    decreases |s|
  {
    if |s| == 0 {
      assert Dividend(c, s) == Terms(c);
      CongruentSame(Terms(c));
    } else {
      var c', n := ByteStep(c, s[0]), 8 * (|s| - 1);
      var head, rest := Head(c, s[0]), Shift(Message(s[1..]), 32);
      ByteShifts(c, s[0]);
      CongruentShift(head, Terms(c'), n);
      CongruentPlus(Shift(head, n), Shift(Terms(c'), n), rest);
      DividendSplit(c, s, n);
      RawCongruent(c', s[1..]);
      CongruentThen(Dividend(c, s), Dividend(c', s[1..]), Terms(Raw(c, s)));
    }
  }

  /** The register after a string is the remainder, and there is no other. */
  lemma RawIsRemainder(c: Word, s: seq<bv8>, r: Poly)
    ensures Remainder(Dividend(c, s), r) <==> r == Terms(Raw(c, s))
  {
    RawCongruent(c, s);
    if Remainder(Dividend(c, s), r) {
      RemainderIsUnique(Dividend(c, s), r, Terms(Raw(c, s)));
    }
  }

  /** All terms below x^32. */
  predicate Low(e: nat) {
    e < 32
  }

  function AllTerms(): (p: Poly)
    ensures forall e: nat :: e in p <==> Low(e)
  {
    set e: nat | e < 32 && Low(e)
  }

  lemma {:induction false} OnesBits(c: Word, n: nat, i: nat)
    requires i < n && Onesided(c, n)
    ensures Bit(c, i)
    decreases i
  {
    if i > 0 {
      OnesBits(Half(c), n - 1, i - 1);
    }
  }

  /** The lowest `n` bits are ones. */
  predicate Onesided(c: Word, n: nat)
    decreases n
  {
    n > 0 ==> Odd(c) && Onesided(Half(c), n - 1)
  }

  lemma TermsOnes()
    ensures Terms(ONES) == AllTerms()
  {
    assert Onesided(Word(0xff), 8) && Onesided(Word(0xffff), 16) && Onesided(Word(0xffffff), 24);
    assert Onesided(Word(0xffffffff), 32);
    forall e: nat | e < 32
      ensures Coefficient(ONES, e)
    {
      OnesBits(ONES, 32, 31 - e);
    }
  }

  /** The checksum: start value and result complemented, it is the remainder of the start value ahead of the
      message, the message ahead of 32 zeros, by the Castagnoli polynomial. */
  lemma CrcIsRemainder(c: Word, s: seq<bv8>, crc: Word)
    ensures crc == Crc(c, s) <==> Remainder(
      Plus(Shift(Plus(Terms(c), AllTerms()), 8 * |s|), Shift(Message(s), 32)), Plus(Terms(crc), AllTerms()))
  {
    TermsOnes();
    TermsXor(c, ONES);
    TermsXor(crc, ONES);
    RawIsRemainder(Xor(c, ONES), s, Terms(Xor(crc, ONES)));
    XorTwice(crc, ONES);
    XorTwice(Raw(Xor(c, ONES), s), ONES);
    if Terms(Xor(crc, ONES)) == Terms(Raw(Xor(c, ONES), s)) {
      SameTerms(Xor(crc, ONES), Raw(Xor(c, ONES), s));
    }
  }

  /** A register is its bits. */
  lemma {:induction false} SameBits(a: Word, n: nat)
    requires Gf2.Fits(a, n) && forall i: nat :: i < n ==> !Bit(a, i)
    ensures a == ZERO
    decreases n
  {
    if n > 0 {
      assert !Bit(a, 0);
      forall i: nat | i < n - 1
        ensures !Bit(Half(a), i)
      {
        assert !Bit(a, i + 1);
      }
      SameBits(Half(a), n - 1);
      EvenAndEmpty(a);
    }
  }

  lemma EvenAndEmpty(a: Word)
    requires !Odd(a) && Half(a) == ZERO
    ensures a == ZERO
  {}

  lemma SameTerms(a: Word, b: Word)
    requires Terms(a) == Terms(b)
    ensures a == b
  {
    forall i: nat | i < 32
      ensures !Bit(Xor(a, b), i)
    {
      BitXor(a, b, Xor(a, b), i);
      assert 31 - i in Terms(a) <==> 31 - i in Terms(b);
    }
    Gf2.FitsAll(Xor(a, b));
    SameBits(Xor(a, b), 32);
    XorIsZero(a, b);
  }

  lemma XorIsZero(a: Word, b: Word)
    requires Xor(a, b) == ZERO
    ensures a == b
  {}
}
