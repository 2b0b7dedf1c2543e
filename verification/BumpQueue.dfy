/** The bump queue: records in a two-region buffer. The maintenance thread looks at what the buffer holds,
    works it off entry by entry with the buffer unlocked, and then takes it out; workers add entries
    meanwhile. A record is laid out in any way that can be read back. */
module BumpQueue {
  import B = BipBuffer
  import opened Numbers

  type Id = nat
  type Byte = bv8

  const RECORD := 16

  /** Items are at 64-bit addresses. */
  const ADDRESSES := 0x1_0000_0000_0000_0000

  /** The layout of a record, and how it is read back. */
  datatype Layout = Layout(write: Id -> seq<Byte>, read: seq<Byte> -> Id)

  ghost predicate Sound(l: Layout) {
    (forall x: Id :: |l.write(x)| == RECORD) && forall x: Id :: x < ADDRESSES ==> l.read(l.write(x)) == x
  }

  predicate Addressed(xs: seq<Id>) {
    forall i :: 0 <= i < |xs| ==> xs[i] < ADDRESSES
  }

  lemma AddressedMore(xs: seq<Id>, x: Id)
    requires Addressed(xs) && x < ADDRESSES
    ensures Addressed(xs + [x])
  {}

  // ---- a layout: the address, lowest byte first, and eight bytes more ----

  /** The `n` lowest bytes of a number, the lowest first. */
  function Little(x: nat, n: nat): (bytes: seq<Byte>)
    ensures |bytes| == n
  {
    if n == 0 then [] else [(x % 256) as Byte] + Little(x / 256, n - 1)
  }

  function Address(bytes: seq<Byte>): nat {
    if |bytes| == 0 then 0 else bytes[0] as nat + 256 * Address(bytes[1..])
  }

  /** 256 to the power `n`. */
  function Bytes(n: nat): nat {
    if n == 0 then 1 else 256 * Bytes(n - 1)
  }

  lemma {:induction false} LittleReadsBack(x: nat, n: nat)
    requires x < Bytes(n)
    ensures Address(Little(x, n)) == x
    decreases n
  {
    if n > 0 {
      LittleReadsBack(x / 256, n - 1);
      OctetReadsBack(x % 256);
      assert Little(x, n)[1..] == Little(x / 256, n - 1);
    }
  }

  lemma EightBytes()
    ensures Bytes(8) == ADDRESSES
  {
    assert Bytes(4) == 256 * Bytes(3) && Bytes(3) == 256 * Bytes(2) && Bytes(2) == 256 * Bytes(1);
    assert Bytes(8) == 256 * Bytes(7) && Bytes(7) == 256 * Bytes(6);
    assert Bytes(6) == 256 * Bytes(5) && Bytes(5) == 256 * Bytes(4);
  }

  /** An lru_bump_entry with its hash value and padding zero. */
  function Plain(): Layout {
    Layout((x: Id) => Little(x, 8) + seq(8, _ => 0), bytes => if |bytes| >= 8 then Address(bytes[..8]) else 0)
  }

  lemma PlainSound()
    ensures Sound(Plain())
  {
    var l := Plain();
    forall x: Id | x < ADDRESSES
      ensures l.read(l.write(x)) == x
    {
      EightBytes();
      LittleReadsBack(x, 8);
      assert l.write(x)[..8] == Little(x, 8);
    }
  }

  // ---- records in a row ----

  function Coded(l: Layout, xs: seq<Id>): seq<Byte> {
    if |xs| == 0 then [] else Coded(l, xs[..|xs| - 1]) + l.write(xs[|xs| - 1])
  }

  lemma {:induction false} CodedLength(l: Layout, xs: seq<Id>)
    requires Sound(l)
    ensures |Coded(l, xs)| == 16 * |xs|
    decreases |xs|
  {
    if |xs| > 0 {
      CodedLength(l, xs[..|xs| - 1]);
    }
  }

  lemma CodedMore(l: Layout, xs: seq<Id>, x: Id)
    ensures Coded(l, xs + [x]) == Coded(l, xs) + l.write(x)
  {
    assert (xs + [x])[..|xs|] == xs;
  }

  lemma {:induction false} CodedPrefix(l: Layout, xs: seq<Id>, n: nat)
    requires Sound(l) && n <= |xs|
    ensures |Coded(l, xs)| >= 16 * n && Coded(l, xs)[..16 * n] == Coded(l, xs[..n])
    decreases |xs| - n
  {
    CodedLength(l, xs);
    if n == |xs| {
      assert xs[..n] == xs;
    } else {
      CodedPrefix(l, xs, n + 1);
      CodedLength(l, xs[..n]);
      assert xs[..n + 1][..n] == xs[..n];
      assert Coded(l, xs)[..16 * n] == Coded(l, xs)[..16 * (n + 1)][..16 * n];
    }
  }

  /** Record `i` is where one expects it. */
  lemma CodedAt(l: Layout, xs: seq<Id>, i: nat)
    requires Sound(l) && i < |xs|
    ensures 16 * i + 16 <= |Coded(l, xs)| && Coded(l, xs)[16 * i..16 * i + 16] == l.write(xs[i])
  {
    CodedPrefix(l, xs, i + 1);
    CodedLength(l, xs[..i]);
    assert xs[..i + 1][..i] == xs[..i];
    assert Coded(l, xs)[16 * i..16 * i + 16] == Coded(l, xs)[..16 * i + 16][16 * i..];
  }

  lemma {:induction false} CodedRest(l: Layout, xs: seq<Id>, n: nat)
    requires Sound(l) && n <= |xs|
    ensures 16 * n <= |Coded(l, xs)| && Coded(l, xs)[16 * n..] == Coded(l, xs[n..])
    decreases |xs|
  {
    CodedLength(l, xs);
    if n == |xs| {
      assert xs[n..] == [];
    } else {
      var m := |xs| - 1;
      CodedRest(l, xs[..m], n);
      CodedLength(l, xs[..m]);
      assert xs[n..][..m - n] == xs[..m][n..];
    }
  }

  // ---- the states ----

  /** What the maintenance thread is doing: nothing, or the entries in `size` bytes at `start`, of which
      `n` are done. */
  datatype Work = Idle | Working(start: nat, size: nat, n: nat)

  /** `accepted` are all entries ever accepted, `polled` how many of them have been taken out. */
  datatype Queue = Queue(buf: B.Bip, accepted: seq<Id>, polled: nat, work: Work)

  /** How many entries have been worked off. */
  function Handled(q: Queue): nat {
    q.polled + if q.work.Working? then q.work.n else 0
  }

  /** The buffer holds the records of the entries that have not been taken out, whole ones in each region. */
  ghost predicate BufferOk(l: Layout, buf: B.Bip, rest: seq<Id>) {
    && B.Valid(buf) && B.Content(buf) == Coded(l, rest)
    && (buf.aEnd - buf.aStart) % 16 == 0 && buf.bEnd % 16 == 0
  }

  /** The thread's entries are still where it saw them. */
  predicate WorkOk(work: Work, buf: B.Bip) {
    work.Working? ==>
      && work.start == buf.aStart && work.start + work.size <= buf.aEnd
      && work.size % 16 == 0 && 0 < work.size && 16 * work.n <= work.size
  }

  /** There is a reference for every entry that has not been worked off, and for no other. */
  ghost predicate RefsMatch(bumps: multiset<Id>, accepted: seq<Id>, handled: nat) {
    handled <= |accepted| && bumps == multiset(accepted[handled..])
  }

  /** `bumps` are the references of the queue. */
  ghost predicate QueueOk(l: Layout, q: Queue, bumps: multiset<Id>) {
    && q.polled <= |q.accepted| && BufferOk(l, q.buf, q.accepted[q.polled..]) && WorkOk(q.work, q.buf)
    && RefsMatch(bumps, q.accepted, Handled(q))
  }

  function Start(size: nat): Queue {
    Queue(B.Init(size), [], 0, Idle)
  }

  lemma StartOk(l: Layout, size: nat)
    ensures QueueOk(l, Start(size), multiset{})
  {}

  // ---- an entry is added ----

  predicate Room(q: Queue)
    requires B.Valid(q.buf)
  {
    RECORD <= B.Unused(q.buf)
  }

  /** The part of lru_bump_async that is about the buffer. */
  function Added(l: Layout, q: Queue, x: Id): Queue
    requires B.Valid(q.buf)
  {
    q.(buf := B.Offer(q.buf, l.write(x)), accepted := q.accepted + [x])
  }

  lemma AddedContent(l: Layout, buf: B.Bip, rest: seq<Id>, x: Id, buf': B.Bip)
    requires |l.write(x)| == RECORD && B.Valid(buf) && B.Content(buf) == Coded(l, rest) && RECORD <= B.Unused(buf)
    requires buf' == B.Offer(buf, l.write(x))
    ensures B.Valid(buf') && B.Content(buf') == Coded(l, rest + [x])
  {
    B.OfferAppends(buf, l.write(x));
    CodedMore(l, rest, x);
  }

  lemma AddedLengths(buf: B.Bip, d: seq<Byte>, buf': B.Bip)
    requires B.Valid(buf) && |d| == RECORD <= B.Unused(buf) && buf' == B.Offer(buf, d)
    requires (buf.aEnd - buf.aStart) % 16 == 0 && buf.bEnd % 16 == 0
    ensures (buf'.aEnd - buf'.aStart) % 16 == 0 && buf'.bEnd % 16 == 0
  {
    B.OfferCursors(buf, d);
  }

  lemma AddedRecord(l: Layout, buf: B.Bip, rest: seq<Id>, x: Id, buf': B.Bip, rest': seq<Id>)
    requires |l.write(x)| == RECORD && BufferOk(l, buf, rest) && RECORD <= B.Unused(buf)
    requires buf' == B.Offer(buf, l.write(x)) && rest' == rest + [x]
    ensures BufferOk(l, buf', rest')
  {
    AddedContent(l, buf, rest, x, buf');
    AddedLengths(buf, l.write(x), buf');
  }

  lemma AddedBeside(work: Work, buf: B.Bip, d: seq<Byte>)
    requires B.Valid(buf) && WorkOk(work, buf) && |d| <= B.Unused(buf)
    ensures WorkOk(work, B.Offer(buf, d))
  {
    B.OfferCursors(buf, d);
  }

  lemma AddedRef(bumps: multiset<Id>, accepted: seq<Id>, h: nat, x: Id)
    requires RefsMatch(bumps, accepted, h)
    ensures RefsMatch(bumps + multiset{x}, accepted + [x], h)
  {
    RestGrows(accepted, h, x);
  }

  lemma RestGrows(accepted: seq<Id>, h: nat, x: Id)
    requires h <= |accepted|
    ensures (accepted + [x])[h..] == accepted[h..] + [x]
  {}

  lemma Assembled(l: Layout, q: Queue, bumps: multiset<Id>, rest: seq<Id>, h: nat)
    requires q.polled <= |q.accepted| && rest == q.accepted[q.polled..] && h == Handled(q)
    requires BufferOk(l, q.buf, rest) && WorkOk(q.work, q.buf) && RefsMatch(bumps, q.accepted, h)
    ensures QueueOk(l, q, bumps)
  {}

  lemma AddedBuffer(l: Layout, work: Work, buf: B.Bip, rest: seq<Id>, x: Id, buf': B.Bip, rest': seq<Id>)
    requires |l.write(x)| == RECORD && BufferOk(l, buf, rest) && WorkOk(work, buf) && RECORD <= B.Unused(buf)
    requires buf' == B.Offer(buf, l.write(x)) && rest' == rest + [x]
    ensures BufferOk(l, buf', rest') && WorkOk(work, buf')
  {
    AddedRecord(l, buf, rest, x, buf', rest');
    AddedBeside(work, buf, l.write(x));
  }

  lemma AddedOk(l: Layout, q: Queue, bumps: multiset<Id>, x: Id)
    requires |l.write(x)| == RECORD && QueueOk(l, q, bumps) && Room(q)
    ensures QueueOk(l, Added(l, q, x), bumps + multiset{x})
  {
    var q', rest := Added(l, q, x), q.accepted[q.polled..] + [x];
    RestGrows(q.accepted, q.polled, x);
    AddedBuffer(l, q.work, q.buf, q.accepted[q.polled..], x, q'.buf, rest);
    AddedRef(bumps, q.accepted, Handled(q), x);
    Assembled(l, q', bumps + multiset{x}, rest, Handled(q));
  }

  // ---- the thread looks, works an entry off, and takes the entries out ----

  function Peeked(q: Queue): Queue {
    if q.buf.aStart < q.buf.aEnd then q.(work := Working(q.buf.aStart, q.buf.aEnd - q.buf.aStart, 0)) else q
  }

  lemma PeekedOk(l: Layout, q: Queue, bumps: multiset<Id>)
    requires QueueOk(l, q, bumps) && q.work.Idle?
    ensures QueueOk(l, Peeked(q), bumps) && Handled(Peeked(q)) == Handled(q)
  {}

  predicate AtEntry(q: Queue) {
    q.work.Working? && 16 * q.work.n < q.work.size
  }

  /** The entry the thread reads. */
  function Entry(l: Layout, q: Queue): Id
    requires q.work.Working? && q.work.start + 16 * q.work.n + 16 <= |q.buf.data|
  {
    l.read(q.buf.data[q.work.start + 16 * q.work.n..q.work.start + 16 * q.work.n + 16])
  }

  function Onward(q: Queue): Queue
    requires q.work.Working?
  {
    q.(work := q.work.(n := q.work.n + 1))
  }

  lemma SliceOfFront(a: seq<Byte>, b: seq<Byte>, from: nat, to: nat)
    requires from <= to <= |a|
    ensures (a + b)[from..to] == a[from..to]
  {
    assert forall i :: 0 <= i < to - from ==> (a + b)[from..to][i] == a[from..to][i];
  }

  lemma SliceOfSlice(data: seq<Byte>, start: nat, end: nat, from: nat, to: nat)
    requires from <= to && start + to <= end <= |data|
    ensures data[start..end][from..to] == data[start + from..start + to]
  {
    assert forall i :: 0 <= i < to - from ==> data[start..end][from..to][i] == data[start + from..start + to][i];
  }

  lemma InRegion(b: B.Bip, from: nat, to: nat)
    requires B.Valid(b) && from <= to && b.aStart + to <= b.aEnd
    ensures to <= |B.Content(b)| && B.Content(b)[from..to] == b.data[b.aStart + from..b.aStart + to]
  {
    SliceOfFront(B.RegionA(b), B.RegionB(b), from, to);
    SliceOfSlice(b.data, b.aStart, b.aEnd, from, to);
  }

  lemma ReadBack(l: Layout, bytes: seq<Byte>, rest: seq<Id>, n: nat, record: seq<Byte>)
    requires Sound(l) && Addressed(rest) && bytes == Coded(l, rest) && 16 * n + 16 <= |bytes|
    requires record == bytes[16 * n..16 * n + 16]
    ensures n < |rest| && l.read(record) == rest[n]
  {
    CodedLength(l, rest);
    CodedAt(l, rest, n);
  }

  lemma RecordIs(l: Layout, buf: B.Bip, rest: seq<Id>, n: nat)
    requires Sound(l) && Addressed(rest)
    requires B.Valid(buf) && B.Content(buf) == Coded(l, rest) && buf.aStart + 16 * n + 16 <= buf.aEnd
    ensures n < |rest| && l.read(buf.data[buf.aStart + 16 * n..buf.aStart + 16 * n + 16]) == rest[n]
  {
    InRegion(buf, 16 * n, 16 * n + 16);
    ReadBack(l, B.Content(buf), rest, n, buf.data[buf.aStart + 16 * n..buf.aStart + 16 * n + 16]);
  }

  /** Whatever has been added since it looked, the thread reads the next entry that was accepted. */
  lemma EntryIs(l: Layout, q: Queue, bumps: multiset<Id>)
    requires Sound(l) && QueueOk(l, q, bumps) && Addressed(q.accepted) && AtEntry(q)
    ensures q.work.start + 16 * q.work.n + 16 <= |q.buf.data| && Handled(q) < |q.accepted|
    ensures Entry(l, q) == q.accepted[Handled(q)]
  {
    RecordIs(l, q.buf, q.accepted[q.polled..], q.work.n);
  }

  lemma NextHasRef(bumps: multiset<Id>, accepted: seq<Id>, h: nat)
    requires RefsMatch(bumps, accepted, h) && h < |accepted|
    ensures accepted[h] in bumps && RefsMatch(bumps - multiset{accepted[h]}, accepted, h + 1)
  {
    assert accepted[h..] == [accepted[h]] + accepted[h + 1..];
  }

  lemma OnwardWork(q: Queue)
    requires WorkOk(q.work, q.buf) && AtEntry(q)
    ensures WorkOk(Onward(q).work, q.buf) && Handled(Onward(q)) == Handled(q) + 1
  {}

  lemma OnwardKeeps(l: Layout, q: Queue, bumps: multiset<Id>, x: Id, q': Queue)
    requires QueueOk(l, q, bumps) && AtEntry(q) && q' == Onward(q)
    requires Handled(q) < |q.accepted| && x == q.accepted[Handled(q)]
    ensures x in bumps && QueueOk(l, q', bumps - multiset{x}) && Handled(q') == Handled(q) + 1
  {
    NextHasRef(bumps, q.accepted, Handled(q));
    OnwardWork(q);
  }

  lemma OnwardOk(l: Layout, q: Queue, bumps: multiset<Id>)
    requires Sound(l) && QueueOk(l, q, bumps) && Addressed(q.accepted) && AtEntry(q)
    ensures q.work.start + 16 * q.work.n + 16 <= |q.buf.data| && Entry(l, q) in bumps
    ensures QueueOk(l, Onward(q), bumps - multiset{Entry(l, q)}) && Handled(Onward(q)) == Handled(q) + 1
  {
    EntryIs(l, q, bumps);
    OnwardKeeps(l, q, bumps, Entry(l, q), Onward(q));
  }

  /** The entry that is read is the next one accepted, and reading it keeps the queue in order. */
  lemma ReadIs(l: Layout, q: Queue, bumps: multiset<Id>, q': Queue)
    requires Sound(l) && QueueOk(l, q, bumps) && Addressed(q.accepted) && AtEntry(q) && q' == Onward(q)
    ensures q.work.start + 16 * q.work.n + 16 <= |q.buf.data| && Handled(q) < |q.accepted|
    ensures Entry(l, q) == q.accepted[Handled(q)] && Entry(l, q) in bumps
    ensures QueueOk(l, q', bumps - multiset{Entry(l, q)})
  {
    EntryIs(l, q, bumps);
    OnwardOk(l, q, bumps);
  }

  function Emptied(q: Queue): Queue
    requires B.Valid(q.buf) && q.work.Working?
  {
    Queue(B.Poll(q.buf, q.work.size), q.accepted, q.polled + q.work.n, Idle)
  }

  lemma PolledLengths(buf: B.Bip, n: nat)
    requires B.Valid(buf) && (buf.aEnd - buf.aStart) % 16 == 0 && buf.bEnd % 16 == 0 && 16 * n <= buf.aEnd - buf.aStart
    ensures var buf' := B.Poll(buf, 16 * n); B.Valid(buf') && (buf'.aEnd - buf'.aStart) % 16 == 0 && buf'.bEnd % 16 == 0
  {
    B.PollLengths(buf, 16 * n);
  }

  lemma PolledBuffer(l: Layout, buf: B.Bip, rest: seq<Id>, n: nat, rest': seq<Id>)
    requires Sound(l) && BufferOk(l, buf, rest) && n <= |rest| && 16 * n <= buf.aEnd - buf.aStart && rest' == rest[n..]
    ensures BufferOk(l, B.Poll(buf, 16 * n), rest')
  {
    PolledLengths(buf, n);
    B.PollTakesFront(buf, 16 * n);
    CodedRest(l, rest, n);
  }

  lemma RestOfRest(accepted: seq<Id>, polled: nat, n: nat)
    requires polled + n <= |accepted|
    ensures accepted[polled..][n..] == accepted[polled + n..]
  {}

  lemma EmptiedOk(l: Layout, q: Queue, bumps: multiset<Id>)
    requires Sound(l) && QueueOk(l, q, bumps) && q.work.Working? && 16 * q.work.n == q.work.size
    ensures QueueOk(l, Emptied(q), bumps) && Handled(Emptied(q)) == Handled(q)
  {
    var n := q.work.n;
    RestOfRest(q.accepted, q.polled, n);
    PolledBuffer(l, q.buf, q.accepted[q.polled..], n, q.accepted[q.polled + n..]);
  }
}
