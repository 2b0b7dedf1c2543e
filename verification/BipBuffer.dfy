/** The bipartite buffer: a byte queue in one array whose free space can always be handed out as
    one stretch. Region A holds the older bytes; when there is more room in front of it than
    behind, new bytes go to region B at the start of the array. */
module BipBuffer {
  import opened Numbers

  type Byte = bv8

  datatype Bip = Bip(data: seq<Byte>, aStart: nat, aEnd: nat, bEnd: nat, bInuse: bool)

  predicate Valid(b: Bip) {
    && b.aStart <= b.aEnd <= |b.data|
    && b.bEnd <= b.aStart
    && (!b.bInuse ==> b.bEnd == 0)
  }

  function RegionA(b: Bip): seq<Byte>
    requires Valid(b)
  {
    b.data[b.aStart..b.aEnd]
  }

  function RegionB(b: Bip): seq<Byte>
    requires Valid(b)
  {
    b.data[..b.bEnd]
  }

  /** The queue the buffer stands for, oldest byte first. */
  function Content(b: Bip): seq<Byte>
    requires Valid(b)
  {
    RegionA(b) + RegionB(b)
  }

  // ---- the operations ----

  function Unused(b: Bip): nat
    requires Valid(b)
  {
    if b.bInuse then b.aStart - b.bEnd else |b.data| - b.aEnd
  }

  function Init(size: nat): (b: Bip)
    ensures Valid(b)
  {
    Bip(seq(size, _ => 0), 0, 0, 0, false)
  }

  /** __check_for_switch_to_b. */
  function Switch(b: Bip): Bip
    requires Valid(b)
  {
    if |b.data| - b.aEnd < b.aStart - b.bEnd then b.(bInuse := true) else b
  }

  /** Where the next bytes go: what bipbuf_request points at. */
  function Slot(b: Bip): nat {
    if b.bInuse then b.bEnd else b.aEnd
  }

  /** bipbuf_push: bytes already written at the slot become part of the queue. */
  function Push(b: Bip, n: nat): (b': Bip)
    requires Valid(b)
    ensures Valid(b')
  {
    if Unused(b) < n then b
    else Switch(if b.bInuse then b.(bEnd := b.bEnd + n) else b.(aEnd := b.aEnd + n))
  }

  /** The caller's writing into the stretch it asked for. */
  function Fill(b: Bip, d: seq<Byte>): Bip
    requires Valid(b) && |d| <= Unused(b)
  {
    b.(data := b.data[..Slot(b)] + d + b.data[Slot(b) + |d|..])
  }

  /** bipbuf_offer. */
  function Offer(b: Bip, d: seq<Byte>): (b': Bip)
    requires Valid(b)
    ensures Valid(b')
  {
    if Unused(b) < |d| then b else Push(Fill(b, d), |d|)
  }

  /** bipbuf_poll, as written: it checks the array's end, not region A's. */
  function Poll(b: Bip, n: nat): Bip
    requires Valid(b)
  {
    if b.aStart == b.aEnd || |b.data| < b.aStart + n then b
    else if b.aStart + n == b.aEnd then
      var b1 := if b.bInuse then b.(aStart := 0, aEnd := b.bEnd, bEnd := 0, bInuse := false)
        else b.(aStart := 0, aEnd := 0);
      Switch(b1)
    else
      var b1 := b.(aStart := b.aStart + n);
      if |b.data| - b1.aEnd < b1.aStart - b1.bEnd then b1.(bInuse := true) else b1
  }

  // ---- a queue ----

  /** Bytes written outside a stretch leave it alone. */
  lemma FillElsewhere(data: seq<Byte>, at: nat, d: seq<Byte>, from: nat, to: nat)
    requires at + |d| <= |data| && from <= to <= |data| && (to <= at || at + |d| <= from)
    ensures (data[..at] + d + data[at + |d|..])[from..to] == data[from..to]
  {
    var x, y := (data[..at] + d + data[at + |d|..])[from..to], data[from..to];
    assert |x| == |y| && forall i :: 0 <= i < |x| ==> x[i] == y[i];
  }

  lemma FillHere(data: seq<Byte>, at: nat, d: seq<Byte>, from: nat)
    requires from <= at && at + |d| <= |data|
    ensures (data[..at] + d + data[at + |d|..])[from..at + |d|] == data[from..at] + d
  {
    var x, y := (data[..at] + d + data[at + |d|..])[from..at + |d|], data[from..at] + d;
    assert |x| == |y| && forall i :: 0 <= i < |x| ==> x[i] == y[i];
  }

  lemma OfferRegions(b: Bip, d: seq<Byte>)
    requires Valid(b) && |d| <= Unused(b)
    ensures RegionA(Offer(b, d)) == if b.bInuse then RegionA(b) else RegionA(b) + d
    ensures RegionB(Offer(b, d)) == if b.bInuse then RegionB(b) + d else RegionB(b)
  {
    if b.bInuse {
      FillElsewhere(b.data, b.bEnd, d, b.aStart, b.aEnd);
      FillHere(b.data, b.bEnd, d, 0);
    } else {
      FillHere(b.data, b.aEnd, d, b.aStart);
      FillElsewhere(b.data, b.aEnd, d, 0, b.bEnd);
    }
  }

  lemma OfferAppends(b: Bip, d: seq<Byte>)
    requires Valid(b)
    ensures Content(Offer(b, d)) == if |d| <= Unused(b) then Content(b) + d else Content(b)
  {
    if |d| <= Unused(b) {
      OfferRegions(b, d);
      if b.bInuse {
        assert RegionA(b) + (RegionB(b) + d) == RegionA(b) + RegionB(b) + d;
      } else {
        assert RegionB(b) == [];
      }
    }
  }

  /** A poll keeps the buffer intact exactly when it is refused or stays inside region A; asking
      for more than region A holds, but within the array, breaks the buffer. */
  lemma PollValid(b: Bip, n: nat)
    requires Valid(b)
    ensures Valid(Poll(b, n)) <==> b.aStart == b.aEnd || |b.data| < b.aStart + n || n <= b.aEnd - b.aStart
  {}

  /** Such a poll takes bytes off the front. */
  lemma PollTakesFront(b: Bip, n: nat)
    requires Valid(b) && n <= b.aEnd - b.aStart
    ensures Valid(Poll(b, n)) && Content(Poll(b, n)) == Content(b)[n..]
  {
    PollValid(b, n);
    if b.aStart < b.aEnd {
      var b' := Poll(b, n);
      if b.aStart + n == b.aEnd {
        assert Content(b') == RegionB(b);
        assert Content(b)[n..] == RegionB(b);
      } else {
        assert RegionA(b') == RegionA(b)[n..] && RegionB(b') == RegionB(b);
      }
    }
  }

  /** A concrete poll that breaks it: two bytes held, three asked for, room for them in the array. */
  lemma PollPastRegion(x: Byte, y: Byte)
    ensures var b := Bip([x, y, 0, 0], 0, 2, 0, false); Valid(b) && !Valid(Poll(b, 3))
  {}

  // ---- promises to writers ----

  /** The stretch handed out is inside the array and outside both regions. */
  lemma SlotIsFree(b: Bip, n: nat)
    requires Valid(b) && n <= Unused(b)
    ensures Slot(b) + n <= |b.data|
    ensures Slot(b) >= b.aEnd || Slot(b) + n <= b.aStart
    ensures Slot(b) >= b.bEnd
  {}

  /** Pushing `n` bytes costs at most `n` bytes of room: the switch to region B only adds some. */
  lemma PushCostsAtMost(b: Bip, n: nat)
    requires Valid(b) && n <= Unused(b)
    ensures Unused(Push(b, n)) >= Unused(b) - n
  {}

  /** The logger's case: room for `total` was confirmed, `k` of it is pushed, and the offer of the
      rest cannot fail. */
  lemma PushThenOfferFits(b: Bip, k: nat, d: seq<Byte>)
    requires Valid(b) && k + |d| <= Unused(b)
    ensures var b1 := Push(b, k); Content(Offer(b1, d)) == Content(b1) + d
  {
    PushCostsAtMost(b, k);
    OfferAppends(Push(b, k), d);
  }

  // ---- promises to the two-phase reader ----

  function Offers(b: Bip, ds: seq<seq<Byte>>): (b': Bip)
    requires Valid(b)
    ensures Valid(b')
    decreases |ds|
  {
    if |ds| == 0 then b else Offers(Offer(b, ds[0]), ds[1..])
  }

  /** Region A of `b` is where it was, unchanged, and perhaps longer. */
  predicate Keeps(b: Bip, b': Bip)
    requires Valid(b) && Valid(b')
  {
    && b'.aStart == b.aStart && b'.aEnd >= b.aEnd && |b'.data| == |b.data|
    && forall i :: b.aStart <= i < b.aEnd ==> b'.data[i] == b.data[i]
  }

  lemma SameStretch(x: seq<Byte>, y: seq<Byte>, from: nat, to: nat)
    requires from <= to <= |x| == |y| && forall i :: from <= i < to ==> x[i] == y[i]
    ensures x[from..to] == y[from..to]
  {
    assert forall i :: 0 <= i < to - from ==> x[from..to][i] == y[from..to][i];
  }

  lemma StretchOfFront(x: seq<Byte>, from: nat, mid: nat, to: nat, rest: seq<Byte>)
    requires from <= mid <= to <= |x|
    ensures (x[from..to] + rest)[..mid - from] == x[from..mid]
  {
    var y, z := (x[from..to] + rest)[..mid - from], x[from..mid];
    assert |y| == |z| && forall i :: 0 <= i < |y| ==> y[i] == z[i];
  }

  lemma KeepsFront(b: Bip, b': Bip)
    requires Valid(b) && Valid(b') && Keeps(b, b')
    ensures var n := b.aEnd - b.aStart;
      b'.data[b.aStart..b.aEnd] == RegionA(b) && n <= |Content(b')| && Content(b')[..n] == RegionA(b)
  {
    SameStretch(b'.data, b.data, b.aStart, b.aEnd);
    StretchOfFront(b'.data, b'.aStart, b.aEnd, b'.aEnd, RegionB(b'));
  }

  lemma OfferKeepsPeeked(b: Bip, d: seq<Byte>)
    requires Valid(b)
    ensures Keeps(b, Offer(b, d))
  {}

  lemma {:induction false} OffersKeepPeeked(b: Bip, ds: seq<seq<Byte>>)
    requires Valid(b)
    ensures Keeps(b, Offers(b, ds))
    decreases |ds|
  {
    if |ds| > 0 {
      OfferKeepsPeeked(b, ds[0]);
      OffersKeepPeeked(Offer(b, ds[0]), ds[1..]);
    }
  }

  /** The reader peeks at region A, writers offer what they like, the reader polls what it peeked
      at: the bytes under its pointer never changed, and they are what leaves the queue. */
  lemma PeekThenPoll(b: Bip, ds: seq<seq<Byte>>)
    requires Valid(b) && b.aStart < b.aEnd
    ensures var n := b.aEnd - b.aStart;
      var b' := Offers(b, ds);
      && b.aEnd <= |b'.data| && b'.data[b.aStart..b.aEnd] == RegionA(b)
      && Valid(Poll(b', n))
      && Content(b') == RegionA(b) + Content(Poll(b', n))
  {
    OffersKeepPeeked(b, ds);
    PolledFront(b, Offers(b, ds));
  }

  lemma PolledFront(b: Bip, b': Bip)
    requires Valid(b) && Valid(b') && Keeps(b, b')
    ensures var n := b.aEnd - b.aStart;
      && b.aEnd <= |b'.data| && b'.data[b.aStart..b.aEnd] == RegionA(b)
      && Valid(Poll(b', n)) && Content(b') == RegionA(b) + Content(Poll(b', n))
  {
    var n := b.aEnd - b.aStart;
    KeepsFront(b, b');
    PollTakesFront(b', n);
    assert Content(b') == Content(b')[..n] + Content(b')[n..];
  }

  // ---- whole records ----

  /** Both regions hold whole records of `r` bytes. */
  predicate Whole(b: Bip, r: nat)
    requires Valid(b) && r > 0
  {
    Multiple(b.aEnd - b.aStart, r) && Multiple(b.bEnd, r)
  }

  lemma OfferCursors(b: Bip, d: seq<Byte>)
    requires Valid(b) && |d| <= Unused(b)
    ensures var b' := Offer(b, d);
      && b'.aStart == b.aStart
      && b'.aEnd == b.aEnd + (if b.bInuse then 0 else |d|) && b'.bEnd == b.bEnd + (if b.bInuse then |d| else 0)
  {}

  /** Records offered one at a time and polled in whole numbers are never split across regions, so
      a reader can walk region A record by record. */
  lemma OfferStaysWhole(b: Bip, d: seq<Byte>, r: nat)
    requires Valid(b) && |d| == r > 0 && Whole(b, r)
    ensures Whole(Offer(b, d), r)
  {
    if r <= Unused(b) {
      OfferCursors(b, d);
    }
  }

  /** How long the regions are after a poll inside region A. */
  lemma PollLengths(b: Bip, n: nat)
    requires Valid(b) && n <= b.aEnd - b.aStart
    ensures var b' := Poll(b, n); var a := b.aEnd - b.aStart;
      && Valid(b')
      && b'.aEnd - b'.aStart == (if n < a || a == 0 then a - n else b.bEnd)
      && b'.bEnd == if n < a || a == 0 then b.bEnd else 0
  {}

  lemma WholeByLength(b: Bip, r: nat, a: nat, z: nat)
    requires Valid(b) && r > 0 && b.aEnd - b.aStart == a && b.bEnd == z && Multiple(a, r) && Multiple(z, r)
    ensures Whole(b, r)
  {}

  lemma LengthsStayWhole(b: Bip, b': Bip, n: nat, r: nat)
    requires Valid(b) && Valid(b') && r > 0 && Whole(b, r) && Multiple(n, r) && n <= b.aEnd - b.aStart
    requires var a := b.aEnd - b.aStart;
      if n < a || a == 0 then b'.aEnd - b'.aStart == a - n && b'.bEnd == b.bEnd
      else b'.aEnd - b'.aStart == b.bEnd && b'.bEnd == 0
    ensures Whole(b', r)
  {
    var a := b.aEnd - b.aStart;
    MultiplesMinus(n, a, r);
    if n < a || a == 0 {
      WholeByLength(b', r, a - n, b.bEnd);
    } else {
      WholeByLength(b', r, b.bEnd, 0);
    }
  }

  lemma PollStaysWhole(b: Bip, n: nat, r: nat)
    requires Valid(b) && r > 0 && Whole(b, r) && Multiple(n, r) && n <= b.aEnd - b.aStart
    ensures Valid(Poll(b, n)) && Whole(Poll(b, n), r)
  {
    PollLengths(b, n);
    LengthsStayWhole(b, Poll(b, n), n, r);
  }

  // ---- whole runs ----

  /** `DoWrite` is a bipbuf_request, the writing, and the bipbuf_push. */
  datatype Op = DoOffer(d: seq<Byte>) | DoWrite(d: seq<Byte>) | DoPoll(n: nat)

  predicate Within(b: Bip, op: Op) {
    op.DoPoll? ==> b.aStart + op.n <= b.aEnd
  }

  function Next(b: Bip, op: Op): (b': Bip)
    requires Valid(b) && Within(b, op)
    ensures Valid(b')
  {
    match op
    case DoOffer(d) => Offer(b, d)
    case DoWrite(d) => if |d| <= Unused(b) then Push(Fill(b, d), |d|) else b
    case DoPoll(n) => PollValid(b, n); Poll(b, n)
  }

  /** What a step puts in... */
  function In(b: Bip, op: Op): seq<Byte>
    requires Valid(b)
  {
    if !op.DoPoll? && |op.d| <= Unused(b) then op.d else []
  }

  /** ... and what it points the reader at. */
  function Out(b: Bip, op: Op): seq<Byte>
    requires Valid(b) && Within(b, op)
  {
    if op.DoPoll? then b.data[b.aStart..b.aStart + op.n] else []
  }

  lemma FrontAndRest(b: Bip, n: nat)
    requires Valid(b) && b.aStart + n <= b.aEnd
    ensures n <= |Content(b)| && b.data[b.aStart..b.aStart + n] + Content(b)[n..] == Content(b)
  {
    assert Content(b)[..n] == b.data[b.aStart..b.aStart + n];
  }

  lemma StepQueues(b: Bip, op: Op)
    requires Valid(b) && Within(b, op)
    ensures Out(b, op) + Content(Next(b, op)) == Content(b) + In(b, op)
  {
    match op
    case DoPoll(n) =>
      PollTakesFront(b, n);
      FrontAndRest(b, n);
    case _ => OfferAppends(b, op.d);
  }

  predicate Runs(b: Bip, ops: seq<Op>)
    requires Valid(b)
    decreases |ops|
  {
    |ops| > 0 ==> Within(b, ops[0]) && Runs(Next(b, ops[0]), ops[1..])
  }

  function After(b: Bip, ops: seq<Op>): (b': Bip)
    requires Valid(b) && Runs(b, ops)
    ensures Valid(b')
    decreases |ops|
  {
    if |ops| == 0 then b else After(Next(b, ops[0]), ops[1..])
  }

  function Accepted(b: Bip, ops: seq<Op>): seq<Byte>
    requires Valid(b) && Runs(b, ops)
    decreases |ops|
  {
    if |ops| == 0 then [] else In(b, ops[0]) + Accepted(Next(b, ops[0]), ops[1..])
  }

  function Polled(b: Bip, ops: seq<Op>): seq<Byte>
    requires Valid(b) && Runs(b, ops)
    decreases |ops|
  {
    if |ops| == 0 then [] else Out(b, ops[0]) + Polled(Next(b, ops[0]), ops[1..])
  }

  lemma {:induction false} RunQueues(b: Bip, ops: seq<Op>)
    requires Valid(b) && Runs(b, ops)
    ensures Polled(b, ops) + Content(After(b, ops)) == Content(b) + Accepted(b, ops)
    decreases |ops|
  {
    if |ops| > 0 {
      var b', rest := Next(b, ops[0]), ops[1..];
      StepQueues(b, ops[0]);
      RunQueues(b', rest);
      Regroup(Out(b, ops[0]), Polled(b', rest), Content(After(b', rest)), Content(b), In(b, ops[0]),
        Accepted(b', rest), Content(b'));
    }
  }

  lemma Regroup(
    out: seq<Byte>, polled: seq<Byte>, left: seq<Byte>, was: seq<Byte>, taken: seq<Byte>, accepted: seq<Byte>,
      now: seq<Byte>)
    requires out + now == was + taken && polled + left == now + accepted
    ensures out + polled + left == was + (taken + accepted)
  {
    assert out + polled + left == out + (polled + left);
    assert out + (now + accepted) == out + now + accepted;
    assert was + taken + accepted == was + (taken + accepted);
  }

  /** Over any mix of offers, writes and polls inside region A, what has been polled and then what the
      buffer holds are the bytes it accepted, in that order. */
  lemma FirstInFirstOut(size: nat, ops: seq<Op>)
    requires Runs(Init(size), ops)
    ensures Polled(Init(size), ops) + Content(After(Init(size), ops)) == Accepted(Init(size), ops)
    ensures Polled(Init(size), ops) <= Accepted(Init(size), ops)
  {
    RunQueues(Init(size), ops);
    assert Content(Init(size)) == [];
    assert [] + Accepted(Init(size), ops) == Accepted(Init(size), ops);
  }
}
