/** The table-driven form: byte-at-a-time at the ends and eight bytes per step in the
    middle, through eight sliced tables and a 64-bit register. */
module Crc32cSoftware {
  import opened Crc32c
  import opened Crc32cHardware

  // ---- eight zero bits by one lookup ----

  function Shift8(c: Word): Word {
    Word(c.bits >> 8)
  }

  /** The register without its low byte. */
  function High(c: Word): Word {
    Word(c.bits & 0xffffff00)
  }

  lemma SplitByte(c: Word)
    ensures c == Xor(OfByte(Byte0(c)), High(c))
  {}

  /** The register without its low byte, shifted down by `i` bits. */
  function HighAt(c: Word, i: bv32): Word
    requires i <= 8
  {
    Word((c.bits & 0xffffff00) >> i)
  }

  lemma HighEven(c: Word, i: bv32)
    requires i < 8
    ensures !Odd(HighAt(c, i))
  {}

  lemma HighHalf(c: Word, i: bv32)
    requires i < 8
    ensures Half(HighAt(c, i)) == HighAt(c, i + 1)
  {}

  lemma HighStep(c: Word, i: bv32)
    requires i < 8
    ensures BitStep(HighAt(c, i)) == HighAt(c, i + 1)
  {
    HighEven(c, i);
    HighHalf(c, i);
  }

  lemma HighBits(c: Word, i: bv32, n: nat)
    requires i < 8
    ensures Bits(HighAt(c, i), n + 1) == Bits(HighAt(c, i + 1), n)
  {
    HighStep(c, i);
  }

  lemma EightSteps(c: Word)
    ensures Bits(c, 8) == BitStep(BitStep(BitStep(BitStep(BitStep(BitStep(BitStep(BitStep(c))))))))
  {
    var c2 := BitStep(BitStep(c));
    var c4 := BitStep(BitStep(c2));
    var c6 := BitStep(BitStep(c4));
    assert Bits(c, 8) == Bits(c2, 6);
    assert Bits(c2, 6) == Bits(c4, 4);
    assert Bits(c4, 4) == Bits(c6, 2);
    assert Bits(c6, 2) == Bits(BitStep(c6), 1) == Bits(BitStep(BitStep(c6)), 0);
  }

  lemma HighIsShifted(c: Word)
    ensures Bits(High(c), 8) == Shift8(c)
  {
    HighBits(c, 0, 7);
    HighBits(c, 1, 6);
    HighBits(c, 2, 5);
    HighBits(c, 3, 4);
    HighBits(c, 4, 3);
    HighBits(c, 5, 2);
    HighBits(c, 6, 1);
    HighBits(c, 7, 0);
    HighEnds(c);
  }

  lemma HighEnds(c: Word)
    ensures HighAt(c, 0) == High(c) && HighAt(c, 8) == Shift8(c)
  {}

  /** A register's next eight zero bits: look up the low byte, shift the rest. */
  lemma LookupStep(c: Word)
    ensures Bits(c, 8) == Xor(Bits(OfByte(Byte0(c)), 8), Shift8(c))
  {
    SplitByte(c);
    BitsLinear(OfByte(Byte0(c)), High(c), 8);
    HighIsShifted(c);
  }

  // ---- slicing ----

  lemma ByteXorLane(c: Word, b: bv8)
    ensures Byte0(Xor(c, OfByte(b))) == Byte0(c) ^ b
  {}

  lemma ShiftDropsByte(c: Word, b: bv8)
    ensures Shift8(Xor(c, OfByte(b))) == Shift8(c)
  {}

  /** A byte step by lookup, the form of the source's head and tail loops. */
  lemma ByteStepByLookup(c: Word, b: bv8)
    ensures ByteStep(c, b) == Xor(Bits(OfByte(Byte0(c) ^ b), 8), Shift8(c))
  {
    LookupStep(Xor(c, OfByte(b)));
    ByteXorLane(c, b);
    ShiftDropsByte(c, b);
  }

  /** A term added in front of a string is pushed past the whole string. */
  lemma PushPast(o: Word, r: Word, s: seq<bv8>)
    ensures Raw(Xor(Bits(o, 8), r), s) == Xor(Bits(o, 8 * (|s| + 1)), Raw(r, s))
  {
    XorCommutes(Bits(o, 8), r);
    RawXor(r, Bits(o, 8), s);
    BitsAdd(o, 8, 8 * |s|);
    assert 8 + 8 * |s| == 8 * (|s| + 1);
    XorCommutes(Raw(r, s), Bits(o, 8 * (|s| + 1)));
  }

  lemma RawByLookup(c: Word, b: bv8, s: seq<bv8>)
    ensures Raw(ByteStep(c, b), s) == Xor(Bits(OfByte(Byte0(c) ^ b), 8 * (|s| + 1)), Raw(Shift8(c), s))
  {
    ByteStepByLookup(c, b);
    PushPast(OfByte(Byte0(c) ^ b), Shift8(c), s);
  }

  /** Exclusive-or of the terms of a sliced step: term `i` of `n` is shifted `8(n - i)` bits. */
  function Terms(x: seq<bv8>): Word
    decreases |x|
  {
    if |x| == 0 then ZERO else Xor(Bits(OfByte(x[0]), 8 * |x|), Terms(x[1..]))
  }

  /** The string's bytes with the register's bytes folded in, low byte first. */
  function Folded(c: Word, s: seq<bv8>): (x: seq<bv8>)
    ensures |x| == |s|
    decreases |s|
  {
    if |s| == 0 then [] else [Byte0(c) ^ s[0]] + Folded(Shift8(c), s[1..])
  }

  function Down(c: Word, n: nat): Word
    decreases n, c
  {
    if n == 0 then c else Down(Shift8(c), n - 1)
  }

  /** Any string through any register, as independent table terms plus what the string is
      too short to reach. */
  lemma {:induction false} RawIsTerms(c: Word, s: seq<bv8>)
    ensures Raw(c, s) == Xor(Terms(Folded(c, s)), Down(c, |s|))
    decreases |s|
  {
    if |s| == 0 {
      XorZero(c);
    } else {
      var x := Folded(c, s);
      assert x[1..] == Folded(Shift8(c), s[1..]);
      RawByLookup(c, s[0], s[1..]);
      RawIsTerms(Shift8(c), s[1..]);
      XorAssociates(Bits(OfByte(x[0]), 8 * |s|), Terms(x[1..]), Down(Shift8(c), |s| - 1));
    }
  }

  // ---- the 64-bit register ----

  datatype Wide = Wide(bits: bv64)

  function Widen(c: Word): Wide {
    Wide(c.bits as bv64)
  }

  /** A little-endian load of eight bytes. */
  function Load(s: seq<bv8>): Wide
    requires |s| == 8
  {
    Wide((s[0] as bv64) | ((s[1] as bv64) << 8) | ((s[2] as bv64) << 16) | ((s[3] as bv64) << 24)
      | ((s[4] as bv64) << 32) | ((s[5] as bv64) << 40) | ((s[6] as bv64) << 48) | ((s[7] as bv64) << 56))
  }

  function WideXor(a: Wide, b: Wide): Wide {
    Wide(a.bits ^ b.bits)
  }

  function LowByte(w: Wide): bv8 {
    (w.bits & 0xff) as bv8
  }

  function WideShift8(w: Wide): Wide {
    Wide(w.bits >> 8)
  }

  /** The eight bytes of the register, as the unrolled step takes them. */
  function BytesOf(w: Wide): (x: seq<bv8>)
    ensures |x| == 8
  {
    [(w.bits & 0xff) as bv8, ((w.bits >> 8) & 0xff) as bv8,
     ((w.bits >> 16) & 0xff) as bv8, ((w.bits >> 24) & 0xff) as bv8,
     ((w.bits >> 32) & 0xff) as bv8, ((w.bits >> 40) & 0xff) as bv8,
     ((w.bits >> 48) & 0xff) as bv8, (w.bits >> 56) as bv8]
  }

  lemma BytesOfLoaded(c: Word, s: seq<bv8>)
    requires |s| == 8
    ensures BytesOf(WideXor(Widen(c), Load(s)))
      == [Byte0(c) ^ s[0], Byte1(c) ^ s[1], Byte2(c) ^ s[2], Byte3(c) ^ s[3], s[4], s[5], s[6], s[7]]
  {}

  lemma DownBytes(c: Word)
    ensures Byte0(Shift8(c)) == Byte1(c)
    ensures Byte0(Shift8(Shift8(c))) == Byte2(c)
    ensures Byte0(Shift8(Shift8(Shift8(c)))) == Byte3(c)
    ensures Shift8(Shift8(Shift8(Shift8(c)))) == ZERO
  {}

  lemma ZeroFolds(b: bv8)
    ensures Byte0(ZERO) ^ b == b && Shift8(ZERO) == ZERO
  {}

  lemma {:induction false} FoldedZero(s: seq<bv8>)
    ensures Folded(ZERO, s) == s && Down(ZERO, |s|) == ZERO
    decreases |s|
  {
    if |s| > 0 {
      ZeroFolds(s[0]);
      FoldedZero(s[1..]);
      assert s == [s[0]] + s[1..];
    }
  }

  /** A register whose bytes run out after `n` shifts leaves the later bytes alone. */
  lemma {:induction false} FoldedRunsOut(c: Word, s: seq<bv8>, n: nat)
    requires n < |s| && Down(c, n) == ZERO
    ensures Folded(c, s)[n..] == s[n..] && Down(c, |s|) == ZERO
    decreases n
  {
    if n == 0 {
      FoldedZero(s);
    } else {
      FoldedRunsOut(Shift8(c), s[1..], n - 1);
      assert Folded(c, s)[n..] == Folded(Shift8(c), s[1..])[n - 1..];
    }
  }

  lemma {:induction false} FoldedAt(c: Word, s: seq<bv8>, i: nat)
    requires i < |s|
    ensures Folded(c, s)[i] == Byte0(Down(c, i)) ^ s[i]
    decreases i
  {
    if i > 0 {
      FoldedAt(Shift8(c), s[1..], i - 1);
    }
  }

  lemma DownFour(c: Word)
    ensures Down(c, 0) == c && Byte0(Down(c, 1)) == Byte1(c) && Byte0(Down(c, 2)) == Byte2(c)
    ensures Byte0(Down(c, 3)) == Byte3(c) && Down(c, 4) == ZERO
  {
    DownBytes(c);
    var c1 := Shift8(c);
    var c2 := Shift8(c1);
    assert Down(c, 1) == Down(c1, 0) == c1;
    assert Down(c, 2) == Down(c1, 1) == Down(c2, 0) == c2;
    assert Down(c, 3) == Down(c1, 2) == Down(c2, 1) == Down(Shift8(c2), 0);
    assert Down(c, 4) == Down(c1, 3) == Down(c2, 2) == Down(Shift8(c2), 1) == Down(Shift8(Shift8(c2)), 0);
  }

  lemma FoldedEight(c: Word, s: seq<bv8>)
    requires |s| == 8
    ensures Folded(c, s) == BytesOf(WideXor(Widen(c), Load(s)))
    ensures Down(c, 8) == ZERO
  {
    BytesOfLoaded(c, s);
    DownFour(c);
    FoldedAt(c, s, 0);
    FoldedAt(c, s, 1);
    FoldedAt(c, s, 2);
    FoldedAt(c, s, 3);
    FoldedRunsOut(c, s, 4);
    SameTail(Folded(c, s), s);
  }

  lemma SameTail(x: seq<bv8>, s: seq<bv8>)
    requires |x| == |s| == 8 && x[4..] == s[4..]
    ensures x == [x[0], x[1], x[2], x[3], s[4], s[5], s[6], s[7]]
  {
    assert x[4..][0] == s[4..][0] && x[4..][1] == s[4..][1] && x[4..][2] == s[4..][2] && x[4..][3] == s[4..][3];
  }

  /** One sliced step: the terms of the loaded register are the bit-serial register after
      the eight bytes. */
  lemma SlicedStep(c: Word, s: seq<bv8>)
    requires |s| == 8
    ensures Terms(BytesOf(WideXor(Widen(c), Load(s)))) == Raw(c, s)
  {
    FoldedEight(c, s);
    RawIsTerms(c, s);
    XorZero(Raw(c, s));
    XorZero(Terms(Folded(c, s)));
  }

  // ---- tables ----

  ghost function SliceEntry(k: nat, n: nat): Word
    requires k < 8 && n < 256
  {
    Bits(OfByte(n as bv8), 8 * (k + 1))
  }

  /** Row `k` shifts a byte past itself and `k` further bytes; rows up to `rows` are filled in. */
  ghost predicate SliceRows(table: array2<Word>, rows: nat)
    requires rows <= 8
    reads table
  {
    && table.Length0 == 8 && table.Length1 == 256
    && forall k: nat, n: nat :: k < rows && n < 256 ==> table[k, n] == SliceEntry(k, n)
  }

  lemma LookupIs(table: array2<Word>, k: nat, b: bv8, rows: nat)
    requires k < rows <= 8 && SliceRows(table, rows)
    ensures 0 <= b as int < 256 && table[k, b as int] == Bits(OfByte(b), 8 * (k + 1))
  {
    ByteRoundTrip(b);
    var n: nat := b as int;
    assert table[k, n] == SliceEntry(k, n);
  }

  /** crc32c_init_sw, first loop: eight bit steps for each byte. */
  method InitFirstRow(table: array2<Word>)
    requires table.Length0 == 8 && table.Length1 == 256
    modifies table
    ensures SliceRows(table, 1)
  {
    for n := 0 to 256
      invariant forall i: nat :: i < n ==> table[0, i] == SliceEntry(0, i)
    {
      var crc := OfByte(n as bv8);
      EightSteps(crc);
      crc := BitStep(crc);
      crc := BitStep(crc);
      crc := BitStep(crc);
      crc := BitStep(crc);
      crc := BitStep(crc);
      crc := BitStep(crc);
      crc := BitStep(crc);
      crc := BitStep(crc);
      table[0, n] := crc;
    }
  }

  /** crc32c_init_sw: every row from the first. */
  method InitTables(table: array2<Word>)
    requires table.Length0 == 8 && table.Length1 == 256
    modifies table
    ensures SliceRows(table, 8)
  {
    InitFirstRow(table);
    for n := 0 to 256
      invariant SliceRows(table, 1)
      invariant forall k: nat, i: nat :: k < 8 && i < n ==> table[k, i] == SliceEntry(k, i)
    {
      InitColumn(table, n);
    }
  }

  method InitColumn(table: array2<Word>, n: nat)
    requires n < 256 && SliceRows(table, 1)
    modifies table
    ensures SliceRows(table, 1)
    ensures forall k: nat :: k < 8 ==> table[k, n] == SliceEntry(k, n)
    ensures forall k: nat, i: nat :: k < 8 && i < 256 && i != n ==> table[k, i] == old(table[k, i])
  {
    var crc := table[0, n];
    for k := 1 to 8
      invariant SliceRows(table, 1) && crc == SliceEntry(k - 1, n)
      invariant forall j: nat :: j < k ==> table[j, n] == SliceEntry(j, n)
      invariant forall j: nat, i: nat :: j < 8 && i < 256 && i != n ==> table[j, i] == old(table[j, i])
    {
      crc := NextRow(table, crc, OfByte(n as bv8), k);
      table[k, n] := crc;
    }
  }

  /** One more byte of shift by lookup in the first row. */
  method NextRow(table: array2<Word>, crc: Word, ghost o: Word, ghost k: nat) returns (r: Word)
    requires SliceRows(table, 1) && crc == Bits(o, 8 * k)
    ensures r == Bits(o, 8 * (k + 1))
  {
    LookupIs(table, 0, Byte0(crc), 1);
    r := Xor(table[0, Byte0(crc) as int], Shift8(crc));
    LookupStep(crc);
    BitsAdd(o, 8 * k, 8);
    assert 8 * k + 8 == 8 * (k + 1);
  }

  // ---- crc32c_sw ----

  lemma WideByte(c: Word, b: bv8)
    ensures LowByte(WideXor(Widen(c), Wide(b as bv64))) == Byte0(c) ^ b
  {}

  lemma WideJoin(t: Word, c: Word)
    ensures WideXor(Widen(t), WideShift8(Widen(c))) == Widen(Xor(t, Shift8(c)))
  {}

  lemma Narrows(c: Word)
    ensures Widen(c).bits <= 0xffffffff && Word(Widen(c).bits as bv32) == c
  {}

  /** The body of the head and tail loops. */
  method ByteLookup(table: array2<Word>, crc: Wide, b: bv8, ghost c: Word) returns (r: Wide)
    requires SliceRows(table, 8) && crc == Widen(c)
    ensures r == Widen(ByteStep(c, b))
  {
    var x := LowByte(WideXor(crc, Wide(b as bv64)));
    LookupIs(table, 0, x, 8);
    r := WideXor(Widen(table[0, x as int]), WideShift8(crc));
    WideByte(c, b);
    WideJoin(table[0, x as int], c);
    ByteStepByLookup(c, b);
  }

  method AddTerm(table: array2<Word>, acc: Word, x: seq<bv8>, i: nat, ghost total: Word) returns (r: Word)
    requires SliceRows(table, 8) && |x| == 8 && i < 8 && Xor(acc, Terms(x[i..])) == total
    ensures Xor(r, Terms(x[i + 1..])) == total
  {
    LookupIs(table, 7 - i, x[i], 8);
    r := Xor(acc, table[7 - i, x[i] as int]);
    assert x[i..][1..] == x[i + 1..];
    XorAssociates(acc, Bits(OfByte(x[i]), 8 * (8 - i)), Terms(x[i + 1..]));
  }

  /** The eight lookups of the middle loop. */
  method Lookups(table: array2<Word>, x: seq<bv8>) returns (acc: Word)
    requires SliceRows(table, 8) && |x| == 8
    ensures acc == Terms(x)
  {
    ghost var total := Terms(x);
    XorZero(total);
    assert x[0..] == x;
    acc := AddTerm(table, ZERO, x, 0, total);
    acc := AddTerm(table, acc, x, 1, total);
    acc := AddTerm(table, acc, x, 2, total);
    acc := AddTerm(table, acc, x, 3, total);
    acc := AddTerm(table, acc, x, 4, total);
    acc := AddTerm(table, acc, x, 5, total);
    acc := AddTerm(table, acc, x, 6, total);
    acc := AddTerm(table, acc, x, 7, total);
    XorZero(acc);
  }

  /** The body of the middle loop: eight bytes at a time. */
  method SliceByEight(table: array2<Word>, crc: Wide, s: seq<bv8>, ghost c: Word) returns (r: Wide)
    requires SliceRows(table, 8) && crc == Widen(c) && |s| == 8
    ensures r == Widen(Raw(c, s))
  {
    var acc := Lookups(table, BytesOf(WideXor(crc, Load(s))));
    SlicedStep(c, s);
    r := Widen(acc);
  }

  /** The three loops of crc32c_sw. */
  method Body(table: array2<Word>, c: Word, buf: seq<bv8>, addr: nat) returns (crc: Wide)
    requires SliceRows(table, 8)
    ensures crc == Widen(Raw(c, buf))
  {
    crc := Widen(c);
    var next: nat, len: nat := 0, |buf|;
    assert buf[..0] == [];
    while len != 0 && (addr + next) % 8 != 0
      invariant next + len == |buf| && crc == Widen(Raw(c, buf[..next]))
    {
      crc := ByteLookup(table, crc, buf[next], Raw(c, buf[..next]));
      Extends(c, buf, next, next + 1);
      next, len := next + 1, len - 1;
    }
    while len >= 8
      invariant next + len == |buf| && crc == Widen(Raw(c, buf[..next]))
    {
      crc := SliceByEight(table, crc, buf[next..next + 8], Raw(c, buf[..next]));
      Extends(c, buf, next, next + 8);
      next, len := next + 8, len - 8;
    }
    while len != 0
      invariant next + len == |buf| && crc == Widen(Raw(c, buf[..next]))
    {
      crc := ByteLookup(table, crc, buf[next], Raw(c, buf[..next]));
      Extends(c, buf, next, next + 1);
      next, len := next + 1, len - 1;
    }
    assert buf[..next] == buf;
  }

  lemma Extends(c: Word, buf: seq<bv8>, i: nat, j: nat)
    requires i <= j <= |buf|
    ensures Raw(Raw(c, buf[..i]), buf[i..j]) == Raw(c, buf[..j])
    ensures j == i + 1 ==> ByteStep(Raw(c, buf[..i]), buf[i]) == Raw(c, buf[..j])
  {
    BlockExtends(c, buf, i, j);
    if j == i + 1 {
      assert buf[i..j] == [buf[i]];
    }
  }

  /** crc32c_sw, tables included: for every buffer, alignment and starting value it returns
      the bit-serial checksum, so it agrees with the hardware form everywhere. */
  method Compute(crc: Word, buf: seq<bv8>, addr: nat) returns (r: Word)
    ensures r == Crc(crc, buf)
  {
    var table := new Word[8, 256];
    InitTables(table);
    var wide := Body(table, Xor(crc, ONES), buf, addr);
    Narrows(Raw(Xor(crc, ONES), buf));
    r := Xor(Word(wide.bits as bv32), ONES);
  }
}
