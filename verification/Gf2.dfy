/** 32-by-32 bit matrices over GF(2), rows held as registers, and the operator that
    shifts a CRC register past 2^k zero bytes, built by repeated squaring. */
module Gf2 {
  import opened Crc32c
  import opened Numbers

  const ONE := Word(1)

  /** Matrix times vector: the exclusive-or of the rows whose bit is set in `vec`. */
  function Times(mat: seq<Word>, vec: Word): Word
    decreases |mat|
  {
    if |mat| == 0 then ZERO
    else Xor(if Odd(vec) then mat[0] else ZERO, Times(mat[1..], Half(vec)))
  }

  /** No bit of `v` at position `n` or above. */
  predicate Fits(v: Word, n: nat)
    decreases n
  {
    if n == 0 then v == ZERO else Fits(Half(v), n - 1)
  }

  predicate AtMost(v: Word, w: Word) {
    v.bits <= w.bits
  }

  lemma HalfAtMost(v: Word, w: Word)
    requires AtMost(v, w)
    ensures AtMost(Half(v), Half(w))
  {}

  lemma AtMostZero(v: Word)
    ensures AtMost(v, ZERO) ==> v == ZERO
  {}

  lemma {:induction false} FitsBelow(v: Word, w: Word, n: nat)
    requires AtMost(v, w) && Fits(w, n)
    ensures Fits(v, n)
    decreases n
  {
    AtMostZero(v);
    if n > 0 {
      HalfAtMost(v, w);
      FitsBelow(Half(v), Half(w), n - 1);
    }
  }

  /** Every register fits 32 rows. */
  lemma FitsAll(v: Word)
    ensures Fits(v, 32)
  {
    assert Fits(Word(0xff), 8);
    assert Fits(Word(0xffff), 16);
    assert Fits(Word(0xffffff), 24);
    assert Fits(Word(0xffffffff), 32);
    FitsBelow(v, Word(0xffffffff), 32);
  }

  lemma {:induction false} TimesZero(mat: seq<Word>)
    ensures Times(mat, ZERO) == ZERO
    decreases |mat|
  {
    if |mat| > 0 {
      assert Half(ZERO) == ZERO;
      TimesZero(mat[1..]);
      XorZero(ZERO);
    }
  }

  /** A matrix acts linearly. */
  lemma {:induction false} TimesLinear(mat: seq<Word>, a: Word, b: Word)
    ensures Times(mat, Xor(a, b)) == Xor(Times(mat, a), Times(mat, b))
    decreases |mat|
  {
    if |mat| == 0 {
      XorZero(ZERO);
    } else {
      var ra, rb := if Odd(a) then mat[0] else ZERO, if Odd(b) then mat[0] else ZERO;
      OddXor(a, b);
      XorZero(mat[0]);
      XorZero(ZERO);
      HalfLinear(a, b);
      TimesLinear(mat[1..], Half(a), Half(b));
      XorMiddle(ra, rb, Times(mat[1..], Half(a)), Times(mat[1..], Half(b)));
    }
  }

  /** The matrix whose row `i` is `mat` applied to row `i`. */
  function Square(mat: seq<Word>): (sq: seq<Word>)
    ensures |sq| == |mat|
  {
    seq(|mat|, i requires 0 <= i < |mat| => Times(mat, mat[i]))
  }

  lemma {:induction false} SquareSuffix(mat: seq<Word>, k: nat, v: Word)
    requires k <= |mat|
    ensures Times(Square(mat)[k..], v) == Times(mat, Times(mat[k..], v))
    decreases |mat| - k
  {
    if k == |mat| {
      TimesZero(mat);
    } else {
      var sq := Square(mat);
      assert sq[k..][1..] == sq[k + 1..] && mat[k..][1..] == mat[k + 1..];
      SquareSuffix(mat, k + 1, Half(v));
      TimesZero(mat);
      TimesLinear(mat, if Odd(v) then mat[k] else ZERO, Times(mat[k + 1..], Half(v)));
    }
  }

  /** Squaring a matrix is composing it with itself. */
  lemma SquareComposes(mat: seq<Word>, v: Word)
    ensures Times(Square(mat), v) == Times(mat, Times(mat, v))
  {
    assert Square(mat)[0..] == Square(mat) && mat[0..] == mat;
    SquareSuffix(mat, 0, v);
  }

  // ---- the one-bit operator ----

  function Double(c: Word): Word {
    Word(c.bits << 1)
  }

  function Doubles(c: Word, k: nat): Word
    decreases k
  {
    if k == 0 then c else Doubles(Double(c), k - 1)
  }

  lemma DoubleLinear(a: Word, b: Word)
    ensures Double(Xor(a, b)) == Xor(Double(a), Double(b))
  {}

  lemma {:induction false} DoublesLinear(a: Word, b: Word, k: nat)
    ensures Doubles(Xor(a, b), k) == Xor(Doubles(a, k), Doubles(b, k))
    decreases k
  {
    if k > 0 {
      DoubleLinear(a, b);
      DoublesLinear(Double(a), Double(b), k - 1);
    }
  }

  lemma {:induction false} DoublesZero(k: nat)
    ensures Doubles(ZERO, k) == ZERO
    decreases k
  {
    if k > 0 {
      assert Double(ZERO) == ZERO;
      DoublesZero(k - 1);
    }
  }

  lemma {:induction false} DoublesLast(c: Word, k: nat)
    ensures Doubles(c, k + 1) == Double(Doubles(c, k))
    decreases k
  {
    if k > 0 {
      DoublesLast(Double(c), k - 1);
    }
  }

  lemma SplitLow(v: Word)
    ensures v == Xor(if Odd(v) then ONE else ZERO, Double(Half(v)))
  {}

  /** Rows 1, 2, 4, ... reproduce the vector. */
  lemma {:induction false} UnitRows(rows: seq<Word>, k: nat, v: Word)
    requires k <= |rows| && Fits(v, |rows| - k)
    requires forall i :: 0 <= i < |rows| ==> rows[i] == Doubles(ONE, i)
    ensures Times(rows[k..], v) == Doubles(v, k)
    decreases |rows| - k
  {
    if k == |rows| {
      DoublesZero(k);
    } else {
      assert rows[k..][1..] == rows[k + 1..];
      UnitRows(rows, k + 1, Half(v));
      var low := if Odd(v) then ONE else ZERO;
      DoublesZero(k);
      SplitLow(v);
      DoublesLinear(low, Double(Half(v)), k);
    }
  }

  /** `mat` shifts a register by `n` zero bits. */
  ghost predicate Shifts(mat: seq<Word>, n: nat) {
    |mat| == 32 && forall v: Word :: Times(mat, v) == Bits(v, n)
  }

  /** The operator for one zero bit: the polynomial, then 1, 2, 4, ... */
  function OneBit(): (mat: seq<Word>)
    ensures |mat| == 32
  {
    [POLY] + seq(31, i requires 0 <= i => Doubles(ONE, i))
  }

  lemma OneBitShifts()
    ensures Shifts(OneBit(), 1)
  {
    var mat := OneBit();
    forall v: Word ensures Times(mat, v) == Bits(v, 1) {
      FitsAll(v);
      UnitRows(mat[1..], 0, Half(v));
      assert mat[1..][0..] == mat[1..];
      BitStepIsHalfPlusTap(v);
      XorCommutes(Tap(v), Half(v));
      assert Bits(v, 1) == Bits(BitStep(v), 0);
    }
  }

  lemma SquareShifts(mat: seq<Word>, n: nat)
    requires Shifts(mat, n)
    ensures Shifts(Square(mat), 2 * n)
  {
    forall v: Word ensures Times(Square(mat), v) == Bits(v, 2 * n) {
      SquareComposes(mat, v);
      BitsAdd(v, n, n);
    }
  }

  /** The exponent of the largest power of two not above `len`; 0 counts as 1. */
  function Log2(len: nat): (k: nat)
    ensures len >= 1 ==> Pow2(k) <= len < 2 * Pow2(k)
  {
    if len <= 1 then 0 else 1 + Log2(len / 2)
  }

  lemma {:induction false} Log2OfPow2(k: nat)
    ensures Log2(Pow2(k)) == k
  {
    if k > 0 {
      assert Pow2(k) / 2 == Pow2(k - 1);
      Log2OfPow2(k - 1);
    }
  }

  /** A matrix squared `k` times over. */
  function Squared(mat: seq<Word>, k: nat): (sq: seq<Word>)
    ensures |sq| == |mat|
    decreases k
  {
    if k == 0 then mat else Square(Squared(mat, k - 1))
  }

  lemma {:induction false} SquaredShifts(k: nat)
    ensures Shifts(Squared(OneBit(), k), Pow2(k))
  {
    if k == 0 {
      OneBitShifts();
    } else {
      SquaredShifts(k - 1);
      SquareShifts(Squared(OneBit(), k - 1), Pow2(k - 1));
    }
  }

  /** The operator for 2^k zero bytes. */
  function ZerosMatrix(k: nat): (mat: seq<Word>)
    ensures |mat| == 32
  {
    Squared(OneBit(), 3 + k)
  }

  /** For every k, the one-bit operator squared past three doublings k times maps any register to the one
      obtained by feeding 2^k zero bytes. */
  lemma ZerosMatrixFeedsZeroBytes(k: nat, c: Word)
    ensures Times(ZerosMatrix(k), c) == Raw(c, ZeroBytes(Pow2(k))) == Bits(c, 8 * Pow2(k))
  {
    SquaredShifts(3 + k);
    assert Pow2(3 + k) == 2 * Pow2(2 + k) == 4 * Pow2(1 + k) == 8 * Pow2(k);
    RawZeroBytes(c, Pow2(k));
  }

  // ---- the loops ----

  /** gf2_matrix_times: walks the vector's bits down while any is left. */
  method MatrixTimes(mat: array<Word>, vec: Word) returns (sum: Word)
    requires Fits(vec, mat.Length)
    ensures sum == Times(mat[..], vec)
  {
    sum := ZERO;
    var v, i := vec, 0;
    assert mat[0..] == mat[..];
    XorZero(Times(mat[..], vec));
    while v != ZERO
      invariant 0 <= i <= mat.Length && Fits(v, mat.Length - i)
      invariant Xor(sum, Times(mat[i..], v)) == Times(mat[..], vec)
      decreases mat.Length - i
    {
      assert mat[i..][1..] == mat[i + 1..];
      XorAssociates(sum, if Odd(v) then mat[i] else ZERO, Times(mat[i + 1..], Half(v)));
      XorZero(sum);
      if Odd(v) {
        sum := Xor(sum, mat[i]);
      }
      v := Half(v);
      i := i + 1;
    }
    TimesZero(mat[i..]);
    XorZero(sum);
  }

  /** gf2_matrix_square. */
  method MatrixSquare(square: array<Word>, mat: array<Word>)
    requires square != mat && square.Length == 32 && mat.Length == 32
    modifies square
    ensures square[..] == Square(mat[..])
  {
    for n := 0 to 32
      invariant forall i :: 0 <= i < n ==> square[i] == Times(mat[..], mat[i])
    {
      FitsAll(mat[n]);
      var row := MatrixTimes(mat, mat[n]);
      square[n] := row;
    }
  }

  /** The first loop of crc32c_zeros_op. */
  method OneBitRows(odd: array<Word>)
    requires odd.Length == 32
    modifies odd
    ensures odd[..] == OneBit()
  {
    odd[0] := POLY;
    var row := ONE;
    for n := 1 to 32
      invariant row == Doubles(ONE, n - 1)
      invariant odd[0] == POLY
      invariant forall i :: 1 <= i < n ==> odd[i] == Doubles(ONE, i - 1)
    {
      odd[n] := row;
      DoublesLast(ONE, n - 1);
      row := Double(row);
    }
  }

  /** The squaring loop of crc32c_zeros_op: from `one` squared `k` times in `odd`, one more
      squaring into `even` and then one for each halving of `len`, alternating arrays. */
  method SquareDown(even: array<Word>, odd: array<Word>, len: nat, ghost one: seq<Word>, ghost k0: nat)
    requires even != odd && even.Length == 32 && odd.Length == 32
    requires odd[..] == Squared(one, k0)
    modifies even, odd
    ensures even[..] == Squared(one, k0 + 1 + Log2(len))
  {
    var l := len;
    ghost var k: nat := k0;
    while true
      invariant odd[..] == Squared(one, k)
      invariant k + Log2(l) == k0 + Log2(len)
      decreases l
    {
      MatrixSquare(even, odd);
      assert even[..] == Squared(one, k + 1);
      l := l / 2;
      if l == 0 {
        return;
      }
      MatrixSquare(odd, even);
      k := k + 2;
      l := l / 2;
      if l == 0 {
        break;
      }
    }
    Copy(even, odd);
  }

  method Copy(even: array<Word>, odd: array<Word>)
    requires even != odd && even.Length == 32 && odd.Length == 32
    modifies even
    ensures even[..] == odd[..]
  {
    for n := 0 to 32
      invariant forall i :: 0 <= i < n ==> even[i] == odd[i]
    {
      even[n] := odd[n];
    }
  }

  /** crc32c_zeros_op: the operator for `len` zero bytes when `len` is a power of two, for
      the next lower power otherwise, and for one byte when `len` is zero. */
  method ZerosOp(even: array<Word>, len: nat)
    requires even.Length == 32
    modifies even
    ensures even[..] == ZerosMatrix(Log2(len))
  {
    var odd := new Word[32];
    OneBitRows(odd);
    ghost var one := odd[..];
    MatrixSquare(even, odd);
    MatrixSquare(odd, even);
    SquareDown(even, odd, len, one, 2);
  }
}
