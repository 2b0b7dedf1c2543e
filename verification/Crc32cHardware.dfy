/** The three-stream form: three registers run over neighbouring blocks at once and are
    joined by tables that shift a register past a block of zero bytes. The `crc32b` and
    `crc32q` instructions are the bit-serial step over 1 and 8 bytes in memory order. */
module Crc32cHardware {
  import opened Crc32c
  import opened Gf2
  import opened Numbers

  const LONG := 8192
  const SHORT := 256

  /** Byte `j` of a register, counted from the low end. */
  function Byte0(c: Word): bv8 { (c.bits & 0xff) as bv8 }
  function Byte1(c: Word): bv8 { ((c.bits >> 8) & 0xff) as bv8 }
  function Byte2(c: Word): bv8 { ((c.bits >> 16) & 0xff) as bv8 }
  function Byte3(c: Word): bv8 { (c.bits >> 24) as bv8 }

  /** A byte placed at position `j`. */
  function Lane(j: nat, b: bv8): Word
    requires j < 4
  {
    if j == 0 then Word(b as bv32) else if j == 1 then Word((b as bv32) << 8)
    else if j == 2 then Word((b as bv32) << 16) else Word((b as bv32) << 24)
  }

  lemma BvLanes(c: bv32)
    ensures c == (((c & 0xff) ^ (((c >> 8) & 0xff) << 8)) ^ (((c >> 16) & 0xff) << 16)) ^ ((c >> 24) << 24)
  {}

  lemma Lanes(c: Word)
    ensures c == Xor(Xor(Xor(Lane(0, Byte0(c)), Lane(1, Byte1(c))), Lane(2, Byte2(c))), Lane(3, Byte3(c)))
  {
    BvLanes(c.bits);
  }

  lemma ByteRoundTrip(b: bv8)
    ensures 0 <= b as int < 256 && (b as int) as bv8 == b
  {}

  /** The register after `bytes` zero bytes, from byte value `n` in lane `j`. */
  ghost function Entry(j: nat, n: nat, bytes: nat): Word
    requires j < 4 && n < 256
  {
    Bits(Lane(j, n as bv8), 8 * bytes)
  }

  /** `z` holds that for each lane and byte. */
  ghost predicate ShiftTable(z: array2<Word>, bytes: nat)
    reads z
  {
    && z.Length0 == 4 && z.Length1 == 256
    && forall j: nat, n: nat :: j < 4 && n < 256 ==> z[j, n] == Entry(j, n, bytes)
  }

  /** crc32c_zeros. */
  method Zeros(z: array2<Word>, len: nat)
    requires z.Length0 == 4 && z.Length1 == 256
    modifies z
    ensures ShiftTable(z, Pow2(Log2(len)))
  {
    var op := new Word[32];
    ZerosOp(op, len);
    ghost var k: nat := Log2(len);
    ghost var bytes := Pow2(k);
    for n := 0 to 256
      modifies z
      invariant forall j: nat, i: nat :: j < 4 && i < n ==> z[j, i] == Entry(j, i, bytes)
    {
      ZerosEntry(z, op, 0, n, k);
      ZerosEntry(z, op, 1, n, k);
      ZerosEntry(z, op, 2, n, k);
      ZerosEntry(z, op, 3, n, k);
    }
  }

  method ZerosEntry(z: array2<Word>, op: array<Word>, j: nat, n: nat, ghost k: nat)
    requires z.Length0 == 4 && z.Length1 == 256 && j < 4 && n < 256
    requires op.Length == 32 && op[..] == ZerosMatrix(k)
    modifies z
    ensures z[j, n] == Entry(j, n, Pow2(k))
    ensures forall j': nat, i: nat :: j' < 4 && i < 256 && (j' != j || i != n) ==> z[j', i] == old(z[j', i])
  {
    var v := Lane(j, n as bv8);
    FitsAll(v);
    var r := MatrixTimes(op, v);
    ZerosMatrixFeedsZeroBytes(k, v);
    z[j, n] := r;
  }

  /** crc32c_shift: four lookups replace the whole matrix product. */
  function Shift(z: array2<Word>, crc: Word): Word
    requires z.Length0 == 4 && z.Length1 == 256
    reads z
  {
    Xor(Xor(Xor(z[0, Byte0(crc) as int], z[1, Byte1(crc) as int]), z[2, Byte2(crc) as int]), z[3, Byte3(crc) as int])
  }

  lemma ShiftIsZeroBytes(z: array2<Word>, crc: Word, bytes: nat)
    requires ShiftTable(z, bytes)
    ensures Shift(z, crc) == Bits(crc, 8 * bytes)
  {
    var b0, b1, b2, b3 := Byte0(crc), Byte1(crc), Byte2(crc), Byte3(crc);
    ByteRoundTrip(b0);
    ByteRoundTrip(b1);
    ByteRoundTrip(b2);
    ByteRoundTrip(b3);
    var n := 8 * bytes;
    Lanes(crc);
    BitsLinear(Xor(Xor(Lane(0, b0), Lane(1, b1)), Lane(2, b2)), Lane(3, b3), n);
    BitsLinear(Xor(Lane(0, b0), Lane(1, b1)), Lane(2, b2), n);
    BitsLinear(Lane(0, b0), Lane(1, b1), n);
  }

  /** Shifting a finished block past the next one and adding the next one's own register
      gives the register over both: how independent streams are joined. */
  lemma JoinStreams(c: Word, s: seq<bv8>, t: seq<bv8>)
    ensures Xor(Bits(Raw(c, s), 8 * |t|), Raw(ZERO, t)) == Raw(c, s + t)
  {
    RawAppend(c, s, t);
    RawSplit(Raw(c, s), t);
  }

  /** The `crc32q` instruction on the eight bytes at `i`; the ghost arguments name the
      string the register has already taken in. */
  method Crc32q(crc: Word, buf: seq<bv8>, i: nat, ghost c: Word, ghost from: nat) returns (r: Word)
    requires from <= i && i + 8 <= |buf| && crc == Raw(c, buf[from..i])
    ensures r == Raw(c, buf[from..i + 8])
  {
    r := Raw(crc, buf[i..i + 8]);
    assert buf[from..i + 8] == buf[from..i] + buf[i..i + 8];
    RawAppend(c, buf[from..i], buf[i..i + 8]);
  }

  /** The `crc32b` instruction on the byte at `i`. */
  method Crc32b(crc: Word, buf: seq<bv8>, i: nat, ghost c: Word) returns (r: Word)
    requires i < |buf| && crc == Raw(c, buf[..i])
    ensures r == Raw(c, buf[..i + 1])
  {
    r := ByteStep(crc, buf[i]);
    assert buf[..i + 1] == buf[..i] + [buf[i]];
    RawAppend(c, buf[..i], [buf[i]]);
  }

  /** Three registers `block` bytes apart have taken in `buf[from..next]` and its two neighbours. */
  ghost predicate InStep(c: Word, buf: seq<bv8>, from: nat, block: nat, next: nat, crc0: Word, crc1: Word, crc2: Word)
    requires from <= next && next + 2 * block <= |buf|
  {
    && crc0 == Raw(c, buf[from..next])
    && crc1 == Raw(ZERO, buf[from + block..next + block])
    && crc2 == Raw(ZERO, buf[from + 2 * block..next + 2 * block])
  }

  /** The three-instruction unit of the inner loop. */
  method Crc32qTriple(p0: Word, p1: Word, p2: Word, buf: seq<bv8>, next: nat, block: nat, ghost c: Word,
    ghost from: nat)
    returns (crc0: Word, crc1: Word, crc2: Word)
    requires from <= next && next + 8 + 2 * block <= |buf|
    requires InStep(c, buf, from, block, next, p0, p1, p2)
    ensures InStep(c, buf, from, block, next + 8, crc0, crc1, crc2)
  {
    crc0 := Crc32q(p0, buf, next, c, from);
    crc1 := Crc32q(p1, buf, next + block, ZERO, from + block);
    crc2 := Crc32q(p2, buf, next + 2 * block, ZERO, from + 2 * block);
  }

  /** The inner loop: three registers over three adjacent blocks, eight bytes at a time. */
  method Streams(c: Word, buf: seq<bv8>, from: nat, block: nat) returns (crc0: Word, crc1: Word, crc2: Word)
    requires block > 0 && block % 8 == 0 && from + 3 * block <= |buf|
    ensures InStep(c, buf, from, block, from + block, crc0, crc1, crc2)
  {
    crc0, crc1, crc2 := c, ZERO, ZERO;
    var next: nat, end := from, from + block;
    ghost var q: nat := 0;
    while next < end
      invariant next == from + 8 * q && q <= block / 8
      invariant InStep(c, buf, from, block, next, crc0, crc1, crc2)
    {
      crc0, crc1, crc2 := Crc32qTriple(crc0, crc1, crc2, buf, next, block, c, from);
      next := next + 8;
      q := q + 1;
    }
  }

  /** One turn of a three-block loop: streams, then two joins. */
  method ThreeBlocks(z: array2<Word>, c: Word, buf: seq<bv8>, from: nat, block: nat) returns (crc0: Word)
    requires block > 0 && block % 8 == 0 && from + 3 * block <= |buf|
    requires ShiftTable(z, block)
    ensures crc0 == Raw(c, buf[from..from + 3 * block])
  {
    var s0, crc1, crc2 := Streams(c, buf, from, block);
    var a, b, d := buf[from..from + block], buf[from + block..from + 2 * block],
      buf[from + 2 * block..from + 3 * block];
    crc0 := Xor(Shift(z, s0), crc1);
    ShiftIsZeroBytes(z, s0, block);
    JoinStreams(c, a, b);
    ShiftIsZeroBytes(z, crc0, block);
    crc0 := Xor(Shift(z, crc0), crc2);
    JoinStreams(c, a + b, d);
    assert buf[from..from + 3 * block] == a + b + d;
  }

  /** The main body of crc32c_hw with its tables in place. `addr` is the buffer's address:
      it decides how many head bytes go one at a time. */
  method Body(long: array2<Word>, short: array2<Word>, c: Word, buf: seq<bv8>, addr: nat) returns (crc0: Word)
    requires ShiftTable(long, LONG) && ShiftTable(short, SHORT)
    ensures crc0 == Raw(c, buf)
  {
    crc0 := c;
    var next: nat, len: nat := 0, |buf|;
    assert buf[..0] == [];
    while len != 0 && (addr + next) % 8 != 0
      invariant next + len == |buf| && crc0 == Raw(c, buf[..next])
    {
      crc0 := Crc32b(crc0, buf, next, c);
      next, len := next + 1, len - 1;
    }
    crc0, next := Blocks(long, crc0, buf, next, LONG, c);
    crc0, next := Blocks(short, crc0, buf, next, SHORT, c);
    len := |buf| - next;
    var end := next + (len - len % 8);
    while next < end
      invariant next <= end <= |buf| && (end - next) % 8 == 0 && crc0 == Raw(c, buf[..next])
    {
      crc0 := Crc32q(crc0, buf, next, c, 0);
      next := next + 8;
    }
    assert end + len % 8 == |buf|;
    len := len % 8;
    while len != 0
      invariant next + len == |buf| && crc0 == Raw(c, buf[..next])
    {
      crc0 := Crc32b(crc0, buf, next, c);
      next, len := next + 1, len - 1;
    }
    assert buf[..next] == buf;
  }

  /** The two middle loops: triples of `block` bytes while they last. */
  method Blocks(z: array2<Word>, crc: Word, buf: seq<bv8>, from: nat, block: nat, ghost c: Word)
    returns (crc0: Word, next: nat)
    requires block > 0 && block % 8 == 0 && ShiftTable(z, block)
    requires from <= |buf| && crc == Raw(c, buf[..from])
    ensures from <= next <= |buf| && |buf| - next < 3 * block
    ensures crc0 == Raw(c, buf[..next])
  {
    crc0, next := crc, from;
    while |buf| - next >= 3 * block
      invariant from <= next <= |buf| && crc0 == Raw(c, buf[..next])
    {
      BlockExtends(c, buf, next, next + 3 * block);
      crc0 := ThreeBlocks(z, crc0, buf, next, block);
      next := next + 3 * block;
    }
  }

  lemma BlockExtends(c: Word, buf: seq<bv8>, i: nat, j: nat)
    requires i <= j <= |buf|
    ensures Raw(Raw(c, buf[..i]), buf[i..j]) == Raw(c, buf[..j])
  {
    assert buf[..j] == buf[..i] + buf[i..j];
    RawAppend(c, buf[..i], buf[i..j]);
  }

  lemma BlockSizes()
    ensures Pow2(Log2(LONG)) == LONG && Pow2(Log2(SHORT)) == SHORT
  {
    assert Pow2(8) == 256 && Pow2(13) == 8192;
    Log2OfPow2(8);
    Log2OfPow2(13);
  }

  /** crc32c_hw, tables included: for every buffer, alignment and starting value it returns
      the bit-serial checksum of the whole buffer. */
  method Compute(crc: Word, buf: seq<bv8>, addr: nat) returns (r: Word)
    ensures r == Crc(crc, buf)
  {
    var long := new Word[4, 256];
    var short := new Word[4, 256];
    BlockSizes();
    Zeros(long, LONG);
    Zeros(short, SHORT);
    var crc0 := Body(long, short, Xor(crc, ONES), buf, addr);
    r := Xor(crc0, ONES);
  }
}
