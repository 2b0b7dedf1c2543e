/** The external store engine: versioned pages filled through write buffers, flushed to disk
    in the background, read by location, closed, evicted and reused. Each section run under
    a page or engine lock, and each disk transfer, is one step; steps of the writers, the I/O
    threads, the readers and the maintenance thread interleave freely. Disk transfers succeed. */
module Extstore {
  import opened Numbers
  import opened Options

  type Byte = bv8

  /** A write buffer: `free` bytes are left at its end; `offset` is where in the page it goes. */
  datatype Wbuf = Wbuf(id: nat, buf: seq<Byte>, free: nat, offset: nat, full: bool)

  /** A submitted flush of a buffer; `done` once the bytes are on disk, before its callback. */
  datatype Flush = Flush(id: nat, offset: nat, done: bool)

  /** Where an object was put; what a reader later asks for. */
  datatype Read = Read(version: nat, offset: nat, len: nat)

  /** An object written: where, and which bytes. */
  datatype Record = Record(at: Read, data: seq<Byte>)

  /** A page with its stretch of disk, the flushes submitted for it, the disk reads that hold
      a reference to it, and a history of every object ever written to it. */
  datatype Page = Page(
    version: nat, refcount: nat, claimed: nat, written: nat, objCount: nat, bytesUsed: nat,
    freeBucket: nat, active: bool, closed: bool, free: bool, wbuf: Option<Wbuf>,
    disk: seq<Byte>, flushes: seq<Flush>, readers: map<nat, Read>, log: set<Record>)

  datatype Maint = Idle | Scan(i: nat, low: Option<nat>, lowVersion: nat, evict: bool)

  datatype Sizes = Sizes(page: nat, wbuf: nat)

  /** `stack` and `ioFree` are the spare write buffers and request objects, `wbufs` how many of
      each exist; `lists[0]` is the default free list; `allocs` counts page allocations. */
  datatype Engine = Engine(
    size: Sizes, pages: seq<Page>, wbufs: nat, stack: seq<nat>, ioFree: int, lists: seq<seq<nat>>,
    allocs: nat, maint: Maint)

  // ---- versions ----

  /** The engine's version counter is a 32-bit unsigned integer started at 1. */
  const VERSIONS: nat := 0x1_0000_0000

  function VersionAt(allocs: nat): nat {
    (1 + allocs) % VERSIONS
  }

  /** Two allocations get the same version exactly when a multiple of 2^32 apart, and the "page
      is freed" version 0 is handed out exactly at allocation 2^32 and its multiples. */
  lemma VersionsRepeat(n: nat, m: nat)
    ensures VersionAt(n) == VersionAt(m) <==> (n - m) % VERSIONS == 0
    ensures VersionAt(n) == 0 <==> (n + 1) % VERSIONS == 0
  {}

  // ---- what the locked sections do to a page ----

  /** _allocate_page, once a page has been taken off a free list. */
  function Opened(pg: Page, version: nat): Page {
    pg.(active := true, free := false, closed := false, version := version)
  }

  function Zeros(n: nat): (z: seq<Byte>)
    ensures |z| == n
  {
    seq(n, _ => 0)
  }

  /** _submit_wbuf and marking the buffer full: the unused tail is zeroed and the flush queued. */
  function Submitted(pg: Page): Page
    requires pg.wbuf.Some? && pg.wbuf.value.free <= |pg.wbuf.value.buf|
  {
    var b := pg.wbuf.value;
    pg.(flushes := pg.flushes + [Flush(b.id, b.offset, false)],
        wbuf := Some(b.(buf := b.buf[..|b.buf| - b.free] + Zeros(b.free), full := true)))
  }

  /** _allocate_wbuf with buffer `id`, whose old contents are whatever they are. */
  function Attached(pg: Page, id: nat, contents: seq<Byte>): Page {
    pg.(claimed := pg.claimed + |contents|, wbuf := Some(Wbuf(id, contents, |contents|, pg.claimed, false)))
  }

  /** extstore_write: where the object goes... */
  function PlaceOf(pg: Page, len: nat): Read
    requires pg.wbuf.Some? && pg.wbuf.value.free <= |pg.wbuf.value.buf|
  {
    var b := pg.wbuf.value;
    Read(pg.version, b.offset + (|b.buf| - b.free), len)
  }

  /** ... and the page with the object in it. */
  function Appended(pg: Page, data: seq<Byte>): Page
    requires pg.wbuf.Some? && |data| <= pg.wbuf.value.free <= |pg.wbuf.value.buf|
  {
    var b := pg.wbuf.value;
    var pos := |b.buf| - b.free;
    pg.(wbuf := Some(b.(buf := b.buf[..pos] + data + b.buf[pos + |data|..], free := b.free - |data|)),
        bytesUsed := pg.bytesUsed + |data|, objCount := pg.objCount + 1,
        log := pg.log + {Record(PlaceOf(pg, |data|), data)})
  }

  /** The I/O thread's pwrite of flush `k`: the buffer it points to goes to its offset. */
  function Flushed(pg: Page, k: nat): Page
    requires k < |pg.flushes| && pg.wbuf.Some? && pg.flushes[k].offset + |pg.wbuf.value.buf| <= |pg.disk|
  {
    var f, buf := pg.flushes[k], pg.wbuf.value.buf;
    pg.(flushes := pg.flushes[k := f.(done := true)],
        disk := pg.disk[..f.offset] + buf + pg.disk[f.offset + |buf|..])
  }

  /** _wbuf_cb of flush `k`. */
  function Landed(pg: Page, k: nat, size: Sizes): Page
    requires k < |pg.flushes|
  {
    var written := pg.written + size.wbuf;
    pg.(flushes := pg.flushes[..k] + pg.flushes[k + 1..], written := written, wbuf := None,
        active := pg.active && written != size.page)
  }

  predicate Hits(pg: Page, r: Read) {
    !pg.free && !pg.closed && pg.version == r.version
  }

  /** What _read_from_wbuf asserts, and that its copy stays inside the buffer. */
  predicate ReadSane(pg: Page, r: Read) {
    Hits(pg, r) && pg.active && r.offset >= pg.written ==>
      && pg.wbuf.Some?
      && r.offset < pg.written + |pg.wbuf.value.buf|
      && pg.wbuf.value.offset <= r.offset
      && r.offset + r.len <= pg.wbuf.value.offset + |pg.wbuf.value.buf|
  }

  datatype Outcome = Miss | Bytes(data: seq<Byte>) | FromDisk

  /** The locked half of a read in the I/O thread: a miss, the buffer's bytes, or a reference. */
  function ReadOutcome(pg: Page, r: Read): Outcome
    requires ReadSane(pg, r)
  {
    if !Hits(pg, r) then Miss
    else if pg.active && r.offset >= pg.written then
      var b := pg.wbuf.value;
      Bytes(b.buf[r.offset - b.offset..r.offset - b.offset + r.len])
    else FromDisk
  }

  /** The transfer itself, after the lock is gone. */
  function DiskBytes(pg: Page, r: Read): seq<Byte>
    requires r.offset + r.len <= |pg.disk|
  {
    pg.disk[r.offset..r.offset + r.len]
  }

  function Referenced(pg: Page, id: nat, r: Read): Page {
    pg.(refcount := pg.refcount + 1, readers := pg.readers[id := r])
  }

  function Released(pg: Page, id: nat): Page
    requires pg.refcount > 0
  {
    pg.(refcount := pg.refcount - 1, readers := pg.readers - {id})
  }

  function Minus(a: nat, b: nat): nat {
    if a >= b then a - b else 0
  }

  /** extstore_delete. */
  function Deleted(pg: Page, version: nat, count: nat, bytes: nat): Page {
    if !pg.closed && pg.version == version
    then pg.(bytesUsed := Minus(pg.bytesUsed, bytes), objCount := Minus(pg.objCount, count)) else pg
  }

  /** extstore_close_page. */
  function Closed(pg: Page, version: nat): Page {
    if !pg.closed && pg.version == version then pg.(closed := true) else pg
  }

  /** _free_page. */
  function Freed(pg: Page): Page {
    pg.(version := 0, claimed := 0, written := 0, objCount := 0, bytesUsed := 0,
        active := false, closed := false, free := true)
  }

  // ---- the invariant of one page ----

  predicate OnDisk(disk: seq<Byte>, written: nat, r: Record) {
    r.at.offset + r.at.len <= written <= |disk| && disk[r.at.offset..r.at.offset + r.at.len] == r.data
  }

  predicate InBuffer(b: Wbuf, r: Record) {
    && b.offset <= r.at.offset && b.free <= |b.buf| && r.at.offset + r.at.len <= b.offset + |b.buf| - b.free
    && b.buf[r.at.offset - b.offset..r.at.offset - b.offset + r.at.len] == r.data
  }

  /** An object of the current version is whole on disk below `written`, or whole in the buffer. */
  predicate Held(pg: Page, r: Record) {
    OnDisk(pg.disk, pg.written, r)
      || (pg.wbuf.Some? && pg.written == pg.wbuf.value.offset && InBuffer(pg.wbuf.value, r))
  }

  /** The counters: at most one attached buffer, always the next stretch to be written. */
  predicate CountersOk(pg: Page, size: Sizes) {
    && 0 < size.wbuf && Multiple(size.page, size.wbuf)
    && |pg.disk| == size.page && pg.written <= size.page && Multiple(pg.written, size.wbuf)
    && (pg.free ==> !pg.active && pg.wbuf.None? && pg.version == 0 && pg.written == 0 && pg.refcount == 0)
    && (!pg.free ==> (pg.active <==> pg.written < size.page))
    && (pg.wbuf.None? ==> pg.claimed == pg.written)
    && (pg.wbuf.Some? ==>
          && pg.active && pg.wbuf.value.offset == pg.written
          && |pg.wbuf.value.buf| == size.wbuf && pg.wbuf.value.free <= size.wbuf
          && pg.claimed == pg.written + size.wbuf <= size.page)
  }

  /** A flush is under way exactly when the attached buffer is full, and it is of that buffer:
      what the callback asserts. Once done, the bytes are on disk. */
  predicate FlushOk(pg: Page) {
    && (pg.flushes != [] <==> pg.wbuf.Some? && pg.wbuf.value.full)
    && (pg.flushes != [] ==>
          && |pg.flushes| == 1 && pg.flushes[0].id == pg.wbuf.value.id && pg.flushes[0].offset == pg.wbuf.value.offset
          && var b := pg.wbuf.value;
             b.offset + |b.buf| <= |pg.disk| && (pg.flushes[0].done ==> pg.disk[b.offset..b.offset + |b.buf|] == b.buf))
  }

  /** The reference count is the reads in flight, and those pin the version. */
  predicate ReadersOk(pg: Page) {
    && pg.refcount == |pg.readers|
    && forall id :: id in pg.readers ==>
         !pg.free && pg.readers[id].version == pg.version && pg.readers[id].offset < pg.written
  }

  predicate LogOk(pg: Page) {
    forall r :: r in pg.log ==>
      0 < r.at.len == |r.data| && (!pg.free && pg.version == r.at.version ==> Held(pg, r))
  }

  predicate PageOk(pg: Page, size: Sizes) {
    CountersOk(pg, size) && FlushOk(pg) && ReadersOk(pg) && LogOk(pg)
  }

  // ---- the main result, page by page ----

  /** What was put in the page under this version is no longer to be had from it. */
  predicate Gone(pg: Page, version: nat) {
    pg.free || pg.closed || pg.version != version
  }

  /** Asking for an object where it was put meets the reader's assertions. It is a miss exactly if the page
      has been freed, closed or given another version; otherwise the locked half of the read hands out the
      object, or leaves it to a transfer for which it is on disk. */
  lemma ReadBeginsRight(pg: Page, size: Sizes, r: Record)
    requires PageOk(pg, size) && r in pg.log
    ensures ReadSane(pg, r.at)
    ensures ReadOutcome(pg, r.at).Miss? <==> Gone(pg, r.at.version)
    ensures ReadOutcome(pg, r.at).Bytes? ==> ReadOutcome(pg, r.at).data == r.data
    ensures ReadOutcome(pg, r.at).FromDisk? ==>
      r.at.offset + r.at.len <= |pg.disk| && DiskBytes(pg, r.at) == r.data
  {}

  /** Nor does the disk transfer, at any later moment while the read is in flight. */
  lemma DiskReadIsRight(pg: Page, size: Sizes, id: nat, r: Record)
    requires PageOk(pg, size) && id in pg.readers && r in pg.log && pg.readers[id] == r.at
    ensures r.at.offset + r.at.len <= size.page && DiskBytes(pg, r.at) == r.data
  {}

  // ---- each locked section keeps the page invariant ----

  /** The version has not been used by an object of the page. */
  predicate Unused(pg: Page, version: nat) {
    forall r :: r in pg.log ==> r.at.version != version
  }

  lemma OpenedOk(pg: Page, size: Sizes, version: nat)
    requires PageOk(pg, size) && pg.free && Unused(pg, version) && 0 < size.page
    ensures PageOk(Opened(pg, version), size)
  {}

  /** A page given a version one of its objects has fails that object's reader at once: there is no
      buffer to read from. */
  lemma ReusedVersionFails(pg: Page, size: Sizes, r: Record)
    requires PageOk(pg, size) && pg.free && r in pg.log
    ensures !ReadSane(Opened(pg, r.at.version), r.at)
  {}

  /** An object does not lose its bytes while the disk and the buffer stay. */
  lemma SameLog(pg: Page, pg': Page)
    requires LogOk(pg) && pg'.log == pg.log && pg'.version == pg.version && pg'.free == pg.free
    requires pg'.written == pg.written && pg'.disk == pg.disk && pg'.wbuf == pg.wbuf
    ensures LogOk(pg')
  {
    forall r | r in pg'.log && !pg'.free && pg'.version == r.at.version
      ensures Held(pg', r)
    {
      assert Held(pg, r);
    }
  }

  lemma SubmittedHeld(pg: Page, r: Record)
    requires Held(pg, r) && pg.wbuf.Some? && pg.wbuf.value.free <= |pg.wbuf.value.buf|
    ensures Held(Submitted(pg), r)
  {
    var b, b' := pg.wbuf.value, Submitted(pg).wbuf.value;
    if !OnDisk(pg.disk, pg.written, r) {
      var i := r.at.offset - b.offset;
      assert b'.buf[i..i + r.at.len] == b.buf[i..i + r.at.len];
    }
  }

  lemma SubmittedOk(pg: Page, size: Sizes)
    requires PageOk(pg, size) && pg.wbuf.Some? && !pg.wbuf.value.full
    ensures PageOk(Submitted(pg), size)
  {
    assert CountersOk(Submitted(pg), size) && FlushOk(Submitted(pg)) && ReadersOk(Submitted(pg));
    forall r | r in pg.log && !pg.free && pg.version == r.at.version
      ensures Held(Submitted(pg), r)
    {
      SubmittedHeld(pg, r);
    }
  }

  lemma AttachedOk(pg: Page, size: Sizes, id: nat, contents: seq<Byte>)
    requires PageOk(pg, size) && pg.active && pg.wbuf.None? && pg.claimed < size.page && |contents| == size.wbuf
    ensures PageOk(Attached(pg, id, contents), size)
  {
    MultiplesApart(pg.written, size.page, size.wbuf);
  }

  lemma AppendedHeld(pg: Page, data: seq<Byte>, r: Record)
    requires pg.wbuf.Some? && |data| <= pg.wbuf.value.free <= |pg.wbuf.value.buf| && pg.written == pg.wbuf.value.offset
    requires Held(pg, r) || r == Record(PlaceOf(pg, |data|), data)
    ensures Held(Appended(pg, data), r)
  {
    var b, b' := pg.wbuf.value, Appended(pg, data).wbuf.value;
    if !OnDisk(pg.disk, pg.written, r) {
      var i := r.at.offset - b.offset;
      if InBuffer(b, r) {
        assert b'.buf[i..i + r.at.len] == b.buf[i..i + r.at.len];
      } else {
        assert b'.buf[i..i + r.at.len] == data;
      }
    }
  }

  lemma AppendedOk(pg: Page, size: Sizes, data: seq<Byte>)
    requires PageOk(pg, size) && pg.wbuf.Some? && !pg.wbuf.value.full && 0 < |data| <= pg.wbuf.value.free
    ensures PageOk(Appended(pg, data), size)
  {
    var pg' := Appended(pg, data);
    assert CountersOk(pg', size) && FlushOk(pg') && ReadersOk(pg');
    forall r | r in pg'.log && !pg'.free && pg.version == r.at.version
      ensures Held(pg', r)
    {
      AppendedHeld(pg, data, r);
    }
  }

  /** Writing past `end` leaves what lies before it. */
  lemma WrittenPast(disk: seq<Byte>, at: nat, buf: seq<Byte>, from: nat, end: nat)
    requires from <= end <= at && at + |buf| <= |disk|
    ensures var disk' := disk[..at] + buf + disk[at + |buf|..];
      |disk'| == |disk| && disk'[from..end] == disk[from..end] && disk'[at..at + |buf|] == buf
  {}

  lemma FlushedOk(pg: Page, size: Sizes, k: nat)
    requires PageOk(pg, size) && k < |pg.flushes|
    ensures PageOk(Flushed(pg, k), size)
  {
    var pg', b := Flushed(pg, k), pg.wbuf.value;
    WrittenPast(pg.disk, b.offset, b.buf, 0, 0);
    assert CountersOk(pg', size) && FlushOk(pg') && ReadersOk(pg');
    forall r | r in pg.log && !pg.free && pg.version == r.at.version
      ensures Held(pg', r)
    {
      if OnDisk(pg.disk, pg.written, r) {
        WrittenPast(pg.disk, b.offset, b.buf, r.at.offset, r.at.offset + r.at.len);
      }
    }
  }

  lemma LandedCounters(pg: Page, size: Sizes, k: nat)
    requires CountersOk(pg, size) && FlushOk(pg) && ReadersOk(pg) && k < |pg.flushes|
    ensures var pg' := Landed(pg, k, size); CountersOk(pg', size) && FlushOk(pg') && ReadersOk(pg')
  {
    assert Multiple(Landed(pg, k, size).written, size.wbuf);
  }

  lemma SliceOfSlice(s: seq<Byte>, a: nat, b: nat, i: nat, n: nat)
    requires a <= b <= |s| && i + n <= b - a
    ensures s[a..b][i..i + n] == s[a + i..a + i + n]
  {
    var x, y := s[a..b][i..i + n], s[a + i..a + i + n];
    assert |x| == |y| == n && forall k :: 0 <= k < n ==> x[k] == y[k];
  }

  /** An object in the buffer is on disk once the buffer has landed. */
  lemma LandedBuffer(disk: seq<Byte>, b: Wbuf, r: Record)
    requires InBuffer(b, r) && b.offset + |b.buf| <= |disk| && disk[b.offset..b.offset + |b.buf|] == b.buf
    ensures OnDisk(disk, b.offset + |b.buf|, r)
  {
    SliceOfSlice(disk, b.offset, b.offset + |b.buf|, r.at.offset - b.offset, r.at.len);
  }

  /** What is on disk below `end` is there below a higher end too. */
  lemma OnDiskFurther(disk: seq<Byte>, end: nat, more: nat, r: Record)
    requires OnDisk(disk, end, r) && end + more <= |disk|
    ensures OnDisk(disk, end + more, r)
  {}

  lemma LandedHeld(pg: Page, size: Sizes, k: nat, r: Record)
    requires FlushOk(pg) && k < |pg.flushes| && pg.flushes[k].done && Held(pg, r)
    requires |pg.wbuf.value.buf| == size.wbuf && pg.wbuf.value.offset == pg.written
    ensures Held(Landed(pg, k, size), r)
  {
    var pg' := Landed(pg, k, size);
    assert pg'.disk == pg.disk && pg'.written == pg.written + size.wbuf;
    if OnDisk(pg.disk, pg.written, r) {
      OnDiskFurther(pg.disk, pg.written, size.wbuf, r);
    } else {
      LandedBuffer(pg.disk, pg.wbuf.value, r);
    }
  }

  lemma LandedOk(pg: Page, size: Sizes, k: nat)
    requires PageOk(pg, size) && k < |pg.flushes| && pg.flushes[k].done
    ensures PageOk(Landed(pg, k, size), size)
  {
    LandedCounters(pg, size, k);
    forall r | r in pg.log && !pg.free && pg.version == r.at.version
      ensures Held(Landed(pg, k, size), r)
    {
      LandedHeld(pg, size, k, r);
    }
  }

  /** A read that goes to the disk is of bytes already written. */
  lemma ReferencedBelow(pg: Page, r: Record)
    requires Held(pg, r) && 0 < r.at.len && (pg.wbuf.Some? ==> pg.active) && !(pg.active && r.at.offset >= pg.written)
    ensures r.at.offset < pg.written
  {}

  lemma ReferencedOk(pg: Page, size: Sizes, id: nat, r: Record)
    requires PageOk(pg, size) && r in pg.log && ReadSane(pg, r.at) && ReadOutcome(pg, r.at).FromDisk?
      && id !in pg.readers
    ensures PageOk(Referenced(pg, id, r.at), size)
  {
    var pg' := Referenced(pg, id, r.at);
    ReferencedBelow(pg, r);
    assert CountersOk(pg', size) && FlushOk(pg') && ReadersOk(pg');
    SameLog(pg, pg');
  }

  lemma ReleasedOk(pg: Page, size: Sizes, id: nat)
    requires PageOk(pg, size) && id in pg.readers
    ensures pg.refcount > 0 && PageOk(Released(pg, id), size)
  {
    var pg' := Released(pg, id);
    assert CountersOk(pg', size) && FlushOk(pg') && ReadersOk(pg');
    SameLog(pg, pg');
  }

  lemma DeletedOk(pg: Page, size: Sizes, version: nat, count: nat, bytes: nat)
    requires PageOk(pg, size)
    ensures PageOk(Deleted(pg, version, count, bytes), size)
  {
    var pg' := Deleted(pg, version, count, bytes);
    assert CountersOk(pg', size) && FlushOk(pg') && ReadersOk(pg');
    SameLog(pg, pg');
  }

  lemma ClosedOk(pg: Page, size: Sizes, version: nat)
    requires PageOk(pg, size)
    ensures PageOk(Closed(pg, version), size)
  {
    var pg' := Closed(pg, version);
    assert CountersOk(pg', size) && FlushOk(pg') && ReadersOk(pg');
    SameLog(pg, pg');
  }

  lemma FreedOk(pg: Page, size: Sizes)
    requires PageOk(pg, size) && !pg.active && pg.refcount == 0
    ensures PageOk(Freed(pg), size)
  {}
}
