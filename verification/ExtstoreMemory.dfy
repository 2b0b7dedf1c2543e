/** The store engine in memory: page headers and write buffers are arrays that writers, readers and the
    maintenance pass work on in place. The ghost pages say what the memory means; that one page's
    writes do not show in another is because no two pages share a buffer. */
module ExtstoreMemory {
  import opened Extstore
  import opened ExtstoreEngine
  import opened Options
  import opened Sequences

  /** A write buffer without its bytes. */
  datatype Slot = Slot(id: nat, free: nat, offset: nat, full: bool)

  /** A page as the code has it in memory. */
  datatype Head = Head(
    version: nat, refcount: nat, claimed: nat, written: nat, objCount: nat, bytesUsed: nat,
    freeBucket: nat, active: bool, closed: bool, free: bool, wbuf: Option<Slot>)

  function SlotOf(w: Option<Wbuf>): Option<Slot> {
    if w.None? then None else Some(Slot(w.value.id, w.value.free, w.value.offset, w.value.full))
  }

  function HeadOf(pg: Page): Head {
    Head(pg.version, pg.refcount, pg.claimed, pg.written, pg.objCount, pg.bytesUsed,
      pg.freeBucket, pg.active, pg.closed, pg.free, SlotOf(pg.wbuf))
  }

  /** What the memory operations rely on holds in every state of a run. */
  lemma InvIsEnough(s: Engine, p: nat)
    requires Inv(s)
    ensures 0 < |s.lists| && NoAlias(s.pages, s.stack)
    ensures p < |s.pages| ==> s.pages[p].freeBucket < |s.lists| && BufferSane(s.pages[p])
    ensures s.maint.Scan? && s.maint.low.Some? ==> s.maint.low.value < |s.pages|
  {}

  /** A page the maintenance pass takes back. */
  predicate Collectable(pg: Page) {
    !pg.active && !pg.free && (pg.objCount == 0 || pg.closed) && pg.refcount == 0
  }

  /** A page it may evict instead. */
  predicate Candidate(pg: Page) {
    !pg.active && !pg.free && pg.objCount > 0 && !pg.closed && pg.freeBucket == 0
  }

  /** The first of the candidates with the lowest version. */
  ghost predicate Oldest(pages: seq<Page>, n: nat, p: nat) {
    && p < n <= |pages| && Candidate(pages[p])
    && forall q :: 0 <= q < n && Candidate(pages[q]) ==>
      pages[p].version <= pages[q].version && (q < p ==> pages[p].version < pages[q].version)
  }

  ghost predicate NoneCollectable(pages: seq<Page>, n: nat) {
    n <= |pages| && forall p :: 0 <= p < n ==> !Collectable(pages[p])
  }

  function Swept(pg: Page): Page {
    if Collectable(pg) then Freed(pg) else pg
  }

  /** Where a pass has got to: the pages before `n` are swept, and the pass knows what it has seen. */
  ghost predicate Sweeping(was: seq<Page>, now: seq<Page>, n: nat, m: Maint, wanted: bool) {
    && |now| == |was| && n <= |was| && m.Scan? && m.i == n
    && (forall p :: 0 <= p < n ==> now[p] == Swept(was[p]))
    && (forall p :: n <= p < |was| ==> now[p] == was[p])
    && (m.evict <==> wanted && NoneCollectable(was, n))
    && (m.low.None? ==> forall p :: 0 <= p < n ==> !Candidate(was[p]))
    && (m.low.Some? ==> Oldest(was, n, m.low.value) && m.lowVersion == was[m.low.value].version)
  }

  /** The oldest page, and no other, is closed, and taken back unless it is being read. */
  ghost predicate Evicted(was: seq<Page>, now: seq<Page>, p: nat) {
    Oldest(was, |was|, p) && now == was[p := if was[p].refcount == 0 then Freed(was[p]) else was[p].(closed := true)]
  }

  /** A pass is over; `wanted` says that the default free list was empty when it began. */
  ghost predicate Passed(was: seq<Page>, now: seq<Page>, wanted: bool) {
    if wanted && NoneCollectable(was, |was|) && exists p: nat :: Oldest(was, |was|, p)
    then exists p: nat :: Evicted(was, now, p)
    else |now| == |was| && forall p :: 0 <= p < |was| ==> now[p] == Swept(was[p])
  }

  lemma SweptThenEvicted(s: Engine, was: seq<Page>, wanted: bool)
    requires s.maint.Scan? && Sweeping(was, s.pages, |was|, s.maint, wanted)
    requires s.maint.low.Some? ==> s.maint.low.value < |s.pages| && s.pages[s.maint.low.value].freeBucket < |s.lists|
    ensures Passed(was, Evict(s).pages, wanted)
  {
    if s.maint.evict && s.maint.low.Some? {
      assert s.pages == was;
      assert Evicted(was, Evict(s).pages, s.maint.low.value);
    }
  }

  /** One page more. */
  lemma SweepMore(s: Engine, was: seq<Page>, wanted: bool)
    requires s.maint.Scan? && s.maint.i < |s.pages| && s.pages[s.maint.i].freeBucket < |s.lists|
    requires Sweeping(was, s.pages, s.maint.i, s.maint, wanted)
    ensures Sweeping(was, Visit(s).pages, s.maint.i + 1, Visit(s).maint, wanted) && |Visit(s).lists| == |s.lists|
  {}

  function Total(lens: seq<nat>): nat {
    if |lens| == 0 then 0 else Total(lens[..|lens| - 1]) + lens[|lens| - 1]
  }

  lemma {:induction false} TotalPart(lens: seq<nat>, i: nat)
    requires i < |lens|
    ensures Total(lens[..i]) + lens[i] == Total(lens[..i + 1]) <= Total(lens)
    decreases |lens| - i
  {
    assert lens[..i + 1][..i] == lens[..i];
    if i + 1 < |lens| {
      TotalPart(lens, i + 1);
    } else {
      assert lens[..i + 1] == lens;
    }
  }

  /** What has been copied out, and then the next stretch. */
  lemma FilledMore(filled: seq<seq<Byte>>, part: seq<Byte>, buf: seq<Byte>, from: nat, off: nat, end: nat)
    requires from <= off <= end <= |buf| && Flatten(filled) == buf[from..off] && part == buf[off..end]
    ensures Flatten(filled + [part]) == buf[from..end]
  {
    FlattenLast(filled, part);
    assert buf[from..end] == buf[from..off] + buf[off..end];
  }

  class Store {
    const size: Sizes
    const heads: array<Head>
    /** One row for each write buffer. */
    const bufs: array2<Byte>
    var stack: seq<nat>
    var ioFree: int
    var lists: seq<seq<nat>>
    var allocs: nat
    var maint: Maint
    /** The pages with their buffers, their disk and their history. */
    ghost var pages: seq<Page>

    ghost function View(): Engine
      reads this
    {
      Engine(size, pages, bufs.Length0, stack, ioFree, lists, allocs, maint)
    }

    /** Row `id` holds `buf`. */
    ghost predicate Holds(id: nat, buf: seq<Byte>)
      reads bufs
    {
      id < bufs.Length0 && |buf| == bufs.Length1 && forall k :: 0 <= k < bufs.Length1 ==> bufs[id, k] == buf[k]
    }

    /** The first `n` bytes of row `id`. */
    ghost function Row(id: nat, n: nat): (row: seq<Byte>)
      requires id < bufs.Length0 && n <= bufs.Length1
      reads bufs
      ensures |row| == n && forall k :: 0 <= k < n ==> row[k] == bufs[id, k]
    {
      if n == 0 then [] else Row(id, n - 1) + [bufs[id, n - 1]]
    }

    /** The memory has `pg` as page `p`. */
    ghost predicate Kept(p: nat, pg: Page)
      reads heads, bufs
    {
      p < heads.Length && heads[p] == HeadOf(pg) && (pg.wbuf.Some? ==> Holds(pg.wbuf.value.id, pg.wbuf.value.buf))
    }

    ghost predicate Wired()
      reads this, heads, bufs
    {
      && bufs.Length1 == size.wbuf && |pages| == heads.Length
        && (forall p :: 0 <= p < heads.Length ==> Kept(p, pages[p]))
      && forall i :: 0 <= i < |stack| ==> stack[i] < bufs.Length0
    }

    /** extstore_init. */
    constructor (size: Sizes, buckets: seq<nat>, lists: nat, wbufs: nat)
      requires 0 < |buckets| && forall k :: 0 <= k < |buckets| ==> buckets[k] < lists
      ensures Wired() && View() == InitEngine(size, buckets, lists, wbufs)
    {
      this.size, ioFree, allocs, maint := size, wbufs, 0, Idle;
      bufs := new Byte[wbufs, size.wbuf];
      stack := seq(wbufs, i => i);
      this.lists := InitLists(buckets, lists, 1);
      heads := new Head[|buckets|](
        k requires 0 <= k < |buckets| => Head(0, 0, 0, 0, 0, 0, buckets[k], false, false, true, None));
      pages := InitEngine(size, buckets, lists, wbufs).pages;
    }

    /** The memset of _submit_wbuf. */
    method Clear(id: nat, from: nat)
      requires id < bufs.Length0 && from <= bufs.Length1
      modifies bufs
      ensures forall i, k :: 0 <= i < bufs.Length0 && 0 <= k < bufs.Length1 ==>
        bufs[i, k] == if i == id && from <= k then 0 else old(bufs[i, k])
    {
      var n := from;
      while n < bufs.Length1
        invariant from <= n <= bufs.Length1
        invariant forall i, k :: 0 <= i < bufs.Length0 && 0 <= k < bufs.Length1 ==>
          bufs[i, k] == if i == id && from <= k < n then 0 else old(bufs[i, k])
      {
        bufs[id, n] := 0;
        n := n + 1;
      }
    }

    /** The caller's copy of an object into the buffer it was handed. */
    method CopyIn(id: nat, from: nat, data: seq<Byte>)
      requires id < bufs.Length0 && from + |data| <= bufs.Length1
      modifies bufs
      ensures forall i, k :: 0 <= i < bufs.Length0 && 0 <= k < bufs.Length1 ==>
        bufs[i, k] == if i == id && from <= k < from + |data| then data[k - from] else old(bufs[i, k])
    {
      var n := 0;
      while n < |data|
        invariant 0 <= n <= |data|
        invariant forall i, k :: 0 <= i < bufs.Length0 && 0 <= k < bufs.Length1 ==>
          bufs[i, k] == if i == id && from <= k < from + n then data[k - from] else old(bufs[i, k])
      {
        bufs[id, from + n] := data[n];
        n := n + 1;
      }
    }

    /** _submit_wbuf, and the buffer marked full: its tail is zeroed and a request queued for it. */
    method SubmitWbuf(p: nat)
      requires Wired() && NoAlias(pages, stack) && p < heads.Length && pages[p].wbuf.Some? && BufferSane(pages[p])
      modifies this`ioFree, this`pages, heads, bufs
      ensures Wired() && View() == SetPage(old(View()), p, Submitted(old(pages)[p])).(ioFree := old(ioFree) - 1)
    {
      assert Kept(p, pages[p]);
      ioFree := ioFree - 1;
      var w := heads[p].wbuf.value;
      Clear(w.id, bufs.Length1 - w.free);
      heads[p] := heads[p].(wbuf := Some(w.(full := true)));
      pages := pages[p := Submitted(pages[p])];
      forall q | 0 <= q < heads.Length
        ensures Kept(q, pages[q])
      {
        assert old(Kept(q, pages[q]));
      }
    }

    /** _allocate_wbuf: a spare buffer, with whatever it still contains, becomes the page's. */
    method AllocateWbuf(p: nat) returns (ghost contents: seq<Byte>)
      requires Wired() && NoAlias(pages, stack) && p < heads.Length
      modifies this`stack, this`pages, heads
      ensures |contents| == bufs.Length1 && Wired()
      ensures |old(stack)| == 0 ==> View() == old(View())
      ensures |old(stack)| > 0 ==>
        View() == SetPage(old(View()), p, Attached(old(pages)[p], old(stack)[0], contents)).(stack := old(stack)[1..])
    {
      if |stack| == 0 {
        contents := Zeros(bufs.Length1);
      } else {
        assert Kept(p, pages[p]);
        var id := stack[0];
        contents := Row(id, bufs.Length1);
        stack := stack[1..];
        var offset := heads[p].claimed;
        heads[p] := heads[p].(claimed := offset + bufs.Length1, wbuf := Some(Slot(id, bufs.Length1, offset, false)));
        pages := pages[p := Attached(pages[p], id, contents)];
        forall q | 0 <= q < heads.Length
          ensures Kept(q, pages[q])
        {
          assert old(Kept(q, pages[q]));
        }
      }
    }

    /** extstore_write_request on the page of the bucket; `ok` leaves the page locked for Write. */
    method WriteRequest(p: nat, len: nat) returns (ok: bool, ghost contents: seq<Byte>)
      requires Wired() && Inv(View()) && p < heads.Length
      modifies this`ioFree, this`stack, this`pages, heads, bufs
      ensures Wired() && Inv(View()) && |contents| == size.wbuf && BufferSane(old(pages)[p])
      ensures View() == if Spent(old(pages)[p], size) then old(View())
        else AttachIfBare(SubmitIfTight(old(View()), p, len), p, contents)
      ensures ok <==> !Spent(old(pages)[p], size) && Takes(pages[p], len)
    {
      InvIsEnough(View(), p);
      assert Kept(p, pages[p]);
      ok, contents := false, Zeros(size.wbuf);
      var h := heads[p];
      if !h.active || ((h.wbuf.None? || h.wbuf.value.full) && h.claimed >= size.page) {
        return;
      }
      SubmitHere(p, len);
      contents := AttachHere(p);
      h := heads[p];
      ok := h.wbuf.Some? && !h.wbuf.value.full && h.wbuf.value.free >= len;
    }

    /** Its first step: a buffer with too little room is sent off. */
    method SubmitHere(p: nat, len: nat)
      requires Wired() && Inv(View()) && p < heads.Length
      modifies this`ioFree, this`pages, heads, bufs
      ensures Wired() && Inv(View()) && BufferSane(old(pages)[p]) && View() == SubmitIfTight(old(View()), p, len)
    {
      InvIsEnough(View(), p);
      assert Kept(p, pages[p]);
      SubmitKeeps(View(), p, len);
      var w := heads[p].wbuf;
      if w.Some? && w.value.free < len && !w.value.full {
        SubmitWbuf(p);
      }
    }

    /** Its second: a page without a buffer gets one if it has room and there is one. */
    method AttachHere(p: nat) returns (ghost contents: seq<Byte>)
      requires Wired() && Inv(View()) && p < heads.Length && pages[p].active
      modifies this`stack, this`pages, heads
      ensures Wired() && Kept(p, pages[p]) && Inv(View()) && |contents| == size.wbuf
      ensures View() == AttachIfBare(old(View()), p, contents)
    {
      InvIsEnough(View(), p);
      assert Kept(p, pages[p]);
      contents := Zeros(size.wbuf);
      if heads[p].wbuf.None? && heads[p].claimed < size.page {
        contents := AllocateWbuf(p);
        assert Kept(p, pages[p]);
      }
      AttachKeeps(old(View()), p, contents);
    }

    /** extstore_write, the caller's bytes having been copied behind those in the buffer. */
    method Write(p: nat, data: seq<Byte>) returns (at: Read)
      requires Wired() && NoAlias(pages, stack) && p < heads.Length && BufferSane(pages[p]) && Takes(pages[p], |data|)
      modifies this`pages, heads, bufs
      ensures Wired() && View() == SetPage(old(View()), p, Appended(old(pages)[p], data))
        && at == PlaceOf(old(pages)[p], |data|)
    {
      assert Kept(p, pages[p]);
      var h := heads[p];
      var w := h.wbuf.value;
      var pos := bufs.Length1 - w.free;
      CopyIn(w.id, pos, data);
      at := Read(h.version, w.offset + pos, |data|);
      heads[p] := h.(wbuf := Some(w.(free := w.free - |data|)), bytesUsed := h.bytesUsed + |data|,
        objCount := h.objCount + 1);
      pages := pages[p := Appended(pages[p], data)];
      forall q | 0 <= q < heads.Length
        ensures Kept(q, pages[q])
      {
        assert old(Kept(q, pages[q]));
      }
    }

    /** The two together: the object is in the page's log at the place reported. */
    method WriteObject(p: nat, data: seq<Byte>) returns (at: Option<Read>, ghost contents: seq<Byte>)
      requires Wired() && Inv(View()) && p < heads.Length && |data| > 0
      modifies this`ioFree, this`stack, this`pages, heads, bufs
      ensures Wired() && Inv(View()) && |contents| == size.wbuf && BufferSane(old(pages)[p])
      ensures (View(), at) == ExtstoreEngine.WriteObject(old(View()), p, data, contents)
      ensures at.Some? ==> p < |pages| && Record(at.value, data) in pages[p].log
    {
      var ok;
      ok, contents := WriteRequest(p, |data|);
      at := None;
      if ok {
        InvIsEnough(View(), p);
        AppendKeeps(View(), p, data);
        var place := Write(p, data);
        at := Some(place);
      }
    }

    /** _read_from_wbuf over a list of destinations: what they are filled with is, put together, the
        stretch of the buffer asked for. */
    method CopyOut(id: nat, from: nat, lens: seq<nat>, ghost buf: seq<Byte>) returns (filled: seq<seq<Byte>>)
      requires Holds(id, buf) && from + Total(lens) <= bufs.Length1
      ensures |filled| == |lens| && forall i :: 0 <= i < |lens| ==> |filled[i]| == lens[i]
      ensures Flatten(filled) == buf[from..from + Total(lens)]
    {
      filled := [];
      var x, off := 0, from;
      while x < |lens|
        invariant 0 <= x <= |lens| && off == from + Total(lens[..x]) <= bufs.Length1
        invariant |filled| == x && forall i :: 0 <= i < x ==> |filled[i]| == lens[i]
        invariant Flatten(filled) == buf[from..off]
      {
        TotalPart(lens, x);
        var part := CopySome(id, off, lens[x], buf);
        FilledMore(filled, part, buf, from, off, off + lens[x]);
        filled := filled + [part];
        off := off + lens[x];
        x := x + 1;
      }
      assert lens[..x] == lens;
    }

    /** One memcpy of it. */
    method CopySome(id: nat, from: nat, len: nat, ghost buf: seq<Byte>) returns (part: seq<Byte>)
      requires Holds(id, buf) && from + len <= bufs.Length1
      ensures part == buf[from..from + len]
    {
      part := [];
      while |part| < len
        invariant |part| <= len && part == buf[from..from + |part|]
      {
        part := part + [bufs[id, from + |part|]];
      }
    }

    /** The locked half of a read of an object once written, into several destinations: a miss, the object
        itself, or a reference for the transfer. */
    method ReadBegin(p: nat, id: nat, at: Read, lens: seq<nat>, ghost data: seq<Byte>)
      returns (o: Outcome, filled: seq<seq<Byte>>)
      requires Wired() && Inv(View()) && p < heads.Length && Record(at, data) in pages[p].log && Total(lens) == at.len
      modifies this`pages, heads
      ensures Wired() && ReadSane(old(pages)[p], at) && o == ReadOutcome(old(pages)[p], at)
      ensures o.Miss? <==> Gone(old(pages)[p], at.version)
      ensures o.Bytes? ==> Flatten(filled) == data
      ensures o.FromDisk? ==>
        at.offset + at.len <= |old(pages)[p].disk| && DiskBytes(old(pages)[p], at) == data
      ensures View() == if o.FromDisk? then SetPage(old(View()), p, Referenced(old(pages)[p], id, at)) else old(View())
    {
      ReadBeginsRight(pages[p], size, Record(at, data));
      assert Kept(p, pages[p]);
      var h := heads[p];
      o, filled := Miss, [];
      if !h.free && !h.closed && h.version == at.version {
        if h.active && at.offset >= h.written {
          var w := h.wbuf.value;
          filled := CopyOut(w.id, at.offset - w.offset, lens, pages[p].wbuf.value.buf);
          o := Bytes(Flatten(filled));
        } else {
          o := FromDisk;
          heads[p] := h.(refcount := h.refcount + 1);
          pages := pages[p := Referenced(pages[p], id, at)];
          forall q | 0 <= q < heads.Length
            ensures Kept(q, pages[q])
          {
            assert old(Kept(q, pages[q]));
          }
        }
      }
    }

    /** _free_page. */
    method FreePage(p: nat)
      requires Wired() && p < heads.Length && pages[p].freeBucket < |lists|
      modifies this`lists, this`pages, heads
      ensures Wired() && View() == Reclaim(old(View()), p)
    {
      assert Kept(p, pages[p]);
      var h := heads[p];
      heads[p] := Head(0, h.refcount, 0, 0, 0, 0, h.freeBucket, false, false, true, h.wbuf);
      lists := lists[h.freeBucket := [p] + lists[h.freeBucket]];
      pages := pages[p := Freed(pages[p])];
      forall q | 0 <= q < heads.Length
        ensures Kept(q, pages[q])
      {
        assert old(Kept(q, pages[q]));
      }
    }

    /** One page of a maintenance pass. */
    method MaintPage()
      requires Wired() && maint.Scan? && maint.i < heads.Length && pages[maint.i].freeBucket < |lists|
      modifies this`lists, this`maint, this`pages, heads
      ensures Wired() && View() == Visit(old(View()))
    {
      var i := maint.i;
      assert Kept(i, pages[i]);
      var h := heads[i];
      maint := maint.(i := i + 1);
      if h.active || h.free {
        return;
      }
      if h.objCount > 0 && !h.closed && h.freeBucket == 0 && (maint.low.None? || h.version < maint.lowVersion) {
        maint := maint.(low := Some(i), lowVersion := h.version);
      }
      if (h.objCount == 0 || h.closed) && h.refcount == 0 {
        FreePage(i);
        maint := maint.(evict := false);
      }
    }

    /** Its end: the page with the lowest version goes if no page was freed and one is wanted. */
    method MaintEvict()
      requires Wired() && maint.Scan?
      requires maint.low.Some? ==> maint.low.value < heads.Length && pages[maint.low.value].freeBucket < |lists|
      modifies this`lists, this`maint, this`pages, heads
      ensures Wired() && View() == Evict(old(View()))
    {
      var m := maint;
      maint := Idle;
      if m.evict && m.low.Some? {
        var p := m.low.value;
        assert Kept(p, pages[p]);
        if !heads[p].closed {
          Shut(p);
          if heads[p].refcount == 0 {
            FreePage(p);
          }
        }
      }
    }

    method Shut(p: nat)
      requires Wired() && p < heads.Length
      modifies this`pages, heads
      ensures Wired() && Kept(p, pages[p]) && pages == old(pages)[p := old(pages)[p].(closed := true)]
    {
      assert Kept(p, pages[p]);
      heads[p] := heads[p].(closed := true);
      pages := pages[p := pages[p].(closed := true)];
      forall q | 0 <= q < heads.Length
        ensures Kept(q, pages[q])
      {
        assert old(Kept(q, pages[q]));
      }
    }

    method SweepPage(ghost was: seq<Page>, ghost wanted: bool)
      requires Wired() && Inv(View()) && maint.Scan? && maint.i < heads.Length
      requires Sweeping(was, pages, maint.i, maint, wanted)
      modifies this`lists, this`maint, this`pages, heads
      ensures Wired() && Inv(View()) && maint.Scan? && maint.i == old(maint).i + 1
      ensures Sweeping(was, pages, maint.i, maint, wanted)
    {
      InvIsEnough(View(), maint.i);
      SweepMore(View(), was, wanted);
      VisitKeeps(View());
      MaintPage();
    }

    method EndPass(ghost was: seq<Page>, ghost wanted: bool)
      requires Wired() && Inv(View()) && maint.Scan? && maint.i == heads.Length
      requires Sweeping(was, pages, maint.i, maint, wanted)
      modifies this`lists, this`maint, this`pages, heads
      ensures Wired() && Inv(View()) && maint.Idle? && Passed(was, pages, wanted)
    {
      if maint.low.Some? {
        InvIsEnough(View(), maint.low.value);
      }
      SweptThenEvicted(View(), was, wanted);
      EvictKeeps(View());
      MaintEvict();
    }

    /** A maintenance pass that nothing interrupts. Every page that can be taken back is; if there was
        none, and the default list is empty, the oldest page is closed, and taken back unless it is
        being read; nothing else happens to any page. */
    method MaintPass()
      requires Wired() && Inv(View()) && maint.Idle?
      modifies this`lists, this`maint, this`pages, heads
      ensures Wired() && Inv(View()) && maint.Idle? && Passed(old(pages), pages, |old(lists)[0]| == 0)
    {
      ghost var was, wanted := pages, |lists[0]| == 0;
      maint := Scan(0, None, 0, |lists[0]| == 0);
      while maint.i < heads.Length
        invariant Wired() && Inv(View()) && maint.Scan? && Sweeping(was, pages, maint.i, maint, wanted)
      {
        SweepPage(was, wanted);
      }
      EndPass(was, wanted);
    }
  }
}
