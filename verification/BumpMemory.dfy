/** The bump queue in place: a worker writes a record into the buffer, and the maintenance thread reads what
    it finds there record by record and takes it out. What is then done with the items is in BumpRuns. */
module BumpMemory {
  import B = BipBuffer
  import opened BipMemory
  import opened BumpQueue

  /** `xs` are the entries accepted from place `polled` on. */
  predicate Got(accepted: seq<Id>, polled: nat, xs: seq<Id>) {
    polled + |xs| <= |accepted| && xs == accepted[polled..polled + |xs|]
  }

  lemma GotMore(accepted: seq<Id>, polled: nat, xs: seq<Id>, x: Id)
    requires Got(accepted, polled, xs) && polled + |xs| < |accepted| && x == accepted[polled + |xs|]
    ensures Got(accepted, polled, xs + [x])
  {}

  lemma LeftLess(bumps: multiset<Id>, left: multiset<Id>, xs: seq<Id>, x: Id)
    requires bumps == left + multiset(xs) && x in left
    ensures bumps == left - multiset{x} + multiset(xs + [x])
  {}

  class Bumper {
    const l: Layout
    const buf: Buffer
    ghost var accepted: seq<Id>
    ghost var polled: nat

    constructor (l: Layout, size: nat)
      ensures View(Idle) == Start(size) && this.l == l
    {
      this.l := l;
      buf := new Buffer(size);
      accepted, polled := [], 0;
    }

    ghost function View(work: Work): Queue
      reads this, buf, buf.data
    {
      Queue(buf.View(), accepted, polled, work)
    }

    /** The buffer part of lru_bump_async, while the maintenance thread does `work`: the record is in
        exactly if there was room. */
    method BumpAsync(x: Id, ghost work: Work, ghost bumps: multiset<Id>) returns (ret: bool)
      requires Sound(l) && Addressed(accepted) && QueueOk(l, View(work), bumps) && x < ADDRESSES
      modifies this`accepted, buf`aEnd, buf`bEnd, buf`bInuse, buf.data
      ensures Addressed(accepted) && (ret <==> old(RECORD <= B.Unused(buf.View())))
      ensures ret ==> accepted == old(accepted) + [x] && QueueOk(l, View(work), bumps + multiset{x})
      ensures !ret ==> View(work) == old(View(work))
    {
      ghost var q := View(work);
      AddressedMore(accepted, x);
      ret := Accept(x, work);
      if ret {
        AddedOk(l, q, bumps, x);
      }
    }

    /** As far as the bytes go. */
    method Accept(x: Id, ghost work: Work) returns (ret: bool)
      requires B.Valid(buf.View()) && |l.write(x)| == RECORD
      modifies this`accepted, buf`aEnd, buf`bEnd, buf`bInuse, buf.data
      ensures ret <==> old(RECORD <= B.Unused(buf.View()))
      ensures ret ==> View(work) == Added(l, old(View(work)), x)
      ensures !ret ==> View(work) == old(View(work))
    {
      ret := Record(l.write(x));
      if ret {
        accepted := accepted + [x];
      }
    }

    method Record(d: seq<Byte>) returns (ret: bool)
      requires B.Valid(buf.View()) && |d| == RECORD
      modifies buf`aEnd, buf`bEnd, buf`bInuse, buf.data
      ensures buf.View() == B.Offer(old(buf.View()), d) && ret == (RECORD <= old(B.Unused(buf.View())))
    {
      var ok, pos := buf.Request(RECORD);
      ret := ok;
      if ok {
        buf.Write(pos, d);
        var r := buf.Push(RECORD);
        ret := r != 0;
      }
    }

    /** The record at hand. */
    method Read(start: nat, n: nat, ghost data: seq<Byte>, ghost x: Id) returns (r: Id)
      requires data == buf.data[..] && start + 16 * n + 16 <= |data|
      requires x == l.read(data[start + 16 * n..start + 16 * n + 16])
      ensures r == x
    {
      r := l.read(buf.data[..][start + 16 * n..start + 16 * n + 16]);
    }

    method ReadNext(start: nat, size: nat, n: nat, ghost bumps: multiset<Id>) returns (x: Id)
      requires Sound(l) && Addressed(accepted) && QueueOk(l, View(Working(start, size, n)), bumps) && 16 * n < size
      ensures polled + n < |accepted| && x == accepted[polled + n] && x in bumps
      ensures QueueOk(l, View(Working(start, size, n + 1)), bumps - multiset{x})
    {
      ghost var q, q' := View(Working(start, size, n)), View(Working(start, size, n + 1));
      ReadIs(l, q, bumps, q');
      x := Read(start, n, q.buf.data, Entry(l, q));
    }

    /** The loop over the records it has peeked at. */
    method ReadAll(start: nat, size: nat, ghost bumps: multiset<Id>) returns (xs: seq<Id>, ghost bumps': multiset<Id>)
      requires Sound(l) && Addressed(accepted) && QueueOk(l, View(Working(start, size, 0)), bumps)
      ensures 16 * |xs| == size && Got(accepted, polled, xs) && bumps == bumps' + multiset(xs)
      ensures QueueOk(l, View(Working(start, size, |xs|)), bumps')
    {
      xs, bumps' := [], bumps;
      while 16 * |xs| < size
        invariant 16 * |xs| <= size && Got(accepted, polled, xs) && bumps == bumps' + multiset(xs)
        invariant QueueOk(l, View(Working(start, size, |xs|)), bumps')
      {
        var x := ReadNext(start, size, |xs|, bumps');
        GotMore(accepted, polled, xs, x);
        LeftLess(bumps, bumps', xs, x);
        xs := xs + [x];
        bumps' := bumps' - multiset{x};
      }
    }

    /** lru_maintainer_bumps over one buffer: the entries that region A held are read in the order they were
        accepted, each with its reference, and then taken out. */
    method Bumps(ghost bumps: multiset<Id>) returns (xs: seq<Id>, ghost bumps': multiset<Id>)
      requires Sound(l) && Addressed(accepted) && QueueOk(l, View(Idle), bumps)
      modifies this`polled, buf
      ensures 16 * |xs| == old(buf.aEnd - buf.aStart) && polled == old(polled) + |xs| && Got(accepted, old(polled), xs)
      ensures QueueOk(l, View(Idle), bumps') && bumps == bumps' + multiset(xs)
    {
      xs, bumps' := [], bumps;
      if buf.aStart < buf.aEnd {
        var start, size := buf.aStart, buf.aEnd - buf.aStart;
        PeekedOk(l, View(Idle), bumps);
        assert View(Working(start, size, 0)) == Peeked(View(Idle));
        xs, bumps' := ReadAll(start, size, bumps);
        TakeOut(start, size, |xs|, bumps');
      }
    }

    /** The bipbuf_poll at the end. */
    method TakeOut(start: nat, size: nat, ghost n: nat, ghost bumps: multiset<Id>)
      requires Sound(l) && QueueOk(l, View(Working(start, size, n)), bumps) && 16 * n == size
      modifies this`polled, buf
      ensures QueueOk(l, View(Idle), bumps) && polled == old(polled) + n && buf.data == old(buf.data)
    {
      ghost var q := View(Working(start, size, n));
      EmptiedOk(l, q, bumps);
      var _ := buf.Poll(size);
      polled := polled + n;
      assert View(Idle) == Emptied(q);
    }
  }
}
