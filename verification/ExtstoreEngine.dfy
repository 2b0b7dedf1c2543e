/** The whole store engine: pages, spare buffers, free lists and the maintenance pass, with any
    interleaving of their steps. Over every run a read of a recorded location yields the
    recorded bytes or a miss. */
module ExtstoreEngine {
  import opened Extstore
  import opened Numbers
  import opened Options

  // ---- steps ----

  datatype Action =
    | AllocPage(freeBucket: nat)
    | Write(page: nat, data: seq<Byte>, contents: seq<Byte>)
    | FlushWrite(page: nat, k: nat)
    | FlushDone(page: nat, k: nat)
    | ReadBegin(page: nat, id: nat, at: Read)
    | ReadEnd(page: nat, id: nat)
    | Delete(page: nat, version: nat, count: nat, bytes: nat)
    | Close(page: nat, version: nat)
    | MaintStart
    | MaintPage
    | MaintEvict

  function SetPage(s: Engine, p: nat, pg: Page): Engine
    requires p < |s.pages|
  {
    s.(pages := s.pages[p := pg])
  }

  /** The free list an allocation is served from: the requested one, failing that the default. */
  function AllocList(s: Engine, freeBucket: nat): (l: Option<nat>)
    ensures l.Some? ==> l.value < |s.lists| && |s.lists[l.value]| > 0
  {
    if 0 < freeBucket < |s.lists| && |s.lists[freeBucket]| > 0 then Some(freeBucket)
    else if 0 < |s.lists| && |s.lists[0]| > 0 then Some(0) else None
  }

  /** _allocate_page. */
  function Allocate(s: Engine, freeBucket: nat): Engine {
    var l := AllocList(s, freeBucket);
    if l.None? || s.lists[l.value][0] >= |s.pages| then s
    else
      var p := s.lists[l.value][0];
      SetPage(s, p, Opened(s.pages[p], VersionAt(s.allocs))).(
        lists := s.lists[l.value := s.lists[l.value][1..]], allocs := s.allocs + 1)
  }

  /** The page takes no more data and has no room for another buffer. */
  predicate Spent(pg: Page, size: Sizes) {
    !pg.active || ((pg.wbuf.None? || pg.wbuf.value.full) && pg.claimed >= size.page)
  }

  /** In extstore_write_request: a buffer too small for the object is sent off. */
  function SubmitIfTight(s: Engine, p: nat, len: nat): Engine
    requires p < |s.pages| && (s.pages[p].wbuf.Some? ==> s.pages[p].wbuf.value.free <= |s.pages[p].wbuf.value.buf|)
  {
    var pg := s.pages[p];
    if pg.wbuf.Some? && pg.wbuf.value.free < len && !pg.wbuf.value.full
    then SetPage(s, p, Submitted(pg)).(ioFree := s.ioFree - 1) else s
  }

  /** Then a page with no buffer gets one, if there is one to get. */
  function AttachIfBare(s: Engine, p: nat, contents: seq<Byte>): Engine
    requires p < |s.pages|
  {
    var pg := s.pages[p];
    if pg.wbuf.None? && pg.claimed < s.size.page && |s.stack| > 0
    then SetPage(s, p, Attached(pg, s.stack[0], contents)).(stack := s.stack[1..]) else s
  }

  predicate BufferSane(pg: Page) {
    pg.wbuf.Some? ==> pg.wbuf.value.free <= |pg.wbuf.value.buf|
  }

  /** The page's buffer has room for `len` bytes. */
  predicate Takes(pg: Page, len: nat) {
    pg.wbuf.Some? && !pg.wbuf.value.full && len <= pg.wbuf.value.free
  }

  /** extstore_write_request followed, if it succeeds, by extstore_write: the page stays locked
      from one to the other. Returns where the object went, if it went anywhere. */
  function WriteObject(s: Engine, p: nat, data: seq<Byte>, contents: seq<Byte>): (Engine, Option<Read>)
    requires p < |s.pages| && BufferSane(s.pages[p])
  {
    if Spent(s.pages[p], s.size) then (s, None)
    else
      var s1 := AttachIfBare(SubmitIfTight(s, p, |data|), p, contents);
      var pg := s1.pages[p];
      if Takes(pg, |data|)
      then (SetPage(s1, p, Appended(pg, data)), Some(PlaceOf(pg, |data|)))
      else (s1, None)
  }

  function Reclaim(s: Engine, p: nat): Engine
    requires p < |s.pages| && s.pages[p].freeBucket < |s.lists|
  {
    var l := s.pages[p].freeBucket;
    SetPage(s, p, Freed(s.pages[p])).(lists := s.lists[l := [p] + s.lists[l]])
  }

  /** One page of the maintenance pass. */
  function Visit(s: Engine): Engine
    requires s.maint.Scan? && s.maint.i < |s.pages| && s.pages[s.maint.i].freeBucket < |s.lists|
  {
    var m := s.maint;
    var pg := s.pages[m.i];
    if pg.active || pg.free then s.(maint := m.(i := m.i + 1))
    else
      var lower := pg.objCount > 0 && !pg.closed && pg.freeBucket == 0 && (m.low.None? || pg.version < m.lowVersion);
      var m1 := if lower then m.(low := Some(m.i), lowVersion := pg.version) else m;
      if (pg.objCount == 0 || pg.closed) && pg.refcount == 0
      then Reclaim(s, m.i).(maint := m1.(i := m.i + 1, evict := false))
      else s.(maint := m1.(i := m.i + 1))
  }

  /** The end of the pass: the oldest page seen is closed, and freed if nobody is reading it. */
  function Evict(s: Engine): Engine
    requires s.maint.Scan?
      && (s.maint.low.Some? ==> s.maint.low.value < |s.pages| && s.pages[s.maint.low.value].freeBucket < |s.lists|)
  {
    var m := s.maint;
    var s1 := s.(maint := Idle);
    if !m.evict || m.low.None? || s.pages[m.low.value].closed then s1
    else
      var p := m.low.value;
      var s2 := SetPage(s1, p, s.pages[p].(closed := true));
      if s.pages[p].refcount == 0 then Reclaim(s2, p) else s2
  }

  // ---- the invariant ----

  ghost predicate PagesOk(pages: seq<Page>, size: Sizes, lists: nat) {
    && 0 < size.page
    && forall p {:trigger pages[p]} :: 0 <= p < |pages| ==> PageOk(pages[p], size) && pages[p].freeBucket < lists
  }

  /** A write buffer is on the stack or attached to one page, never in two places. */
  ghost predicate NoAlias(pages: seq<Page>, stack: seq<nat>) {
    && (forall i, j :: 0 <= i < j < |stack| ==> stack[i] != stack[j])
    && (forall i, p :: 0 <= i < |stack| && 0 <= p < |pages| && pages[p].wbuf.Some? ==>
      pages[p].wbuf.value.id != stack[i])
    && (forall p, q :: 0 <= p < q < |pages| && pages[p].wbuf.Some? && pages[q].wbuf.Some?
          ==> pages[p].wbuf.value.id != pages[q].wbuf.value.id)
  }

  function Buffers(pages: seq<Page>): nat {
    if |pages| == 0 then 0 else (if pages[0].wbuf.Some? then 1 else 0) + Buffers(pages[1..])
  }

  function Flushes(pages: seq<Page>): nat {
    if |pages| == 0 then 0 else |pages[0].flushes| + Flushes(pages[1..])
  }

  /** Buffers and request objects are conserved. */
  ghost predicate Conserved(s: Engine) {
    |s.stack| + Buffers(s.pages) == s.wbufs && s.ioFree + Flushes(s.pages) == s.wbufs
  }

  /** Free lists hold free pages, each once. */
  ghost predicate ListsOk(lists: seq<seq<nat>>, pages: seq<Page>) {
    && 0 < |lists|
    && (forall l, i :: 0 <= l < |lists| && 0 <= i < |lists[l]| ==> lists[l][i] < |pages| && pages[lists[l][i]].free)
    && (forall l, i, j :: 0 <= l < |lists| && 0 <= i < j < |lists[l]| ==> lists[l][i] != lists[l][j])
    && (forall l, k, i, j :: 0 <= l < k < |lists| && 0 <= i < |lists[l]| && 0 <= j < |lists[k]|
          ==> lists[l][i] != lists[k][j])
  }

  /** The page the maintenance pass means to evict is still the one it looked at. */
  ghost predicate MaintOk(m: Maint, pages: seq<Page>) {
    m.Scan? ==>
      && m.i <= |pages|
      && (m.low.Some? ==>
            && m.low.value < m.i
            && !pages[m.low.value].free && !pages[m.low.value].active
            && pages[m.low.value].version == m.lowVersion)
  }

  ghost predicate Inv(s: Engine) {
    && PagesOk(s.pages, s.size, |s.lists|)
    && NoAlias(s.pages, s.stack)
    && Conserved(s)
    && ListsOk(s.lists, s.pages)
    && MaintOk(s.maint, s.pages)
  }

  // ---- what may happen ----

  /** Readers ask for locations that an earlier write reported; objects are not empty; reads in
      flight have distinct names. Everything else can come at any time. */
  predicate Enabled(s: Engine, a: Action) {
    match a
    case AllocPage(_) => true
    case Write(p, data, contents) => p < |s.pages| && |data| > 0 && |contents| == s.size.wbuf
    case FlushWrite(p, k) => p < |s.pages| && k < |s.pages[p].flushes|
    case FlushDone(p, k) => p < |s.pages| && k < |s.pages[p].flushes| && s.pages[p].flushes[k].done
    case ReadBegin(p, id, at) =>
      p < |s.pages| && id !in s.pages[p].readers && exists r :: r in s.pages[p].log && r.at == at
    case ReadEnd(p, id) => p < |s.pages| && id in s.pages[p].readers
    case Delete(p, _, _, _) => p < |s.pages|
    case Close(p, _) => p < |s.pages|
    case MaintStart => s.maint.Idle?
    case MaintPage => s.maint.Scan? && s.maint.i < |s.pages|
    case MaintEvict => s.maint.Scan? && s.maint.i == |s.pages|
  }

  /** What the code asserts or takes for granted when it takes a step. */
  predicate Safe(s: Engine, a: Action)
    requires Enabled(s, a)
  {
    match a
    case Write(p, _, _) => BufferSane(s.pages[p])
    case FlushWrite(p, k) =>
      var pg := s.pages[p];
      pg.wbuf.Some? && pg.flushes[k].id == pg.wbuf.value.id && pg.flushes[k].offset + |pg.wbuf.value.buf| <= |pg.disk|
    case FlushDone(p, k) =>
      var pg := s.pages[p];
      pg.wbuf.Some? && pg.flushes[k].id == pg.wbuf.value.id && pg.written == pg.flushes[k].offset
    case ReadBegin(p, _, at) => ReadSane(s.pages[p], at)
    case ReadEnd(p, _) => s.pages[p].refcount > 0
    case MaintPage => s.pages[s.maint.i].freeBucket < |s.lists|
    case MaintEvict =>
      s.maint.low.Some? ==>
        s.maint.low.value < |s.pages| && s.pages[s.maint.low.value].freeBucket < |s.lists|
    case _ => true
  }

  /** All of it is in order in an invariant state. */
  lemma EnabledIsSafe(s: Engine, a: Action)
    requires Inv(s) && Enabled(s, a)
    ensures Safe(s, a)
  {
    match a
    case ReadBegin(p, id, at) =>
      var r :| r in s.pages[p].log && r.at == at;
      ReadBeginsRight(s.pages[p], s.size, r);
    case ReadEnd(p, id) =>
      ReleasedOk(s.pages[p], s.size, id);
    case _ =>
  }

  ghost function Next(s: Engine, a: Action): Engine
    requires Enabled(s, a) && Safe(s, a)
  {
    match a
    case AllocPage(fb) => Allocate(s, fb)
    case Write(p, data, contents) => WriteObject(s, p, data, contents).0
    case FlushWrite(p, k) => SetPage(s, p, Flushed(s.pages[p], k))
    case FlushDone(p, k) =>
      SetPage(s, p, Landed(s.pages[p], k, s.size)).(stack := [s.pages[p].wbuf.value.id] + s.stack,
        ioFree := s.ioFree + 1)
    case ReadBegin(p, id, at) =>
      if ReadOutcome(s.pages[p], at).FromDisk? then SetPage(s, p, Referenced(s.pages[p], id, at)) else s
    case ReadEnd(p, id) => SetPage(s, p, Released(s.pages[p], id))
    case Delete(p, version, count, bytes) => SetPage(s, p, Deleted(s.pages[p], version, count, bytes))
    case Close(p, version) => SetPage(s, p, Closed(s.pages[p], version))
    case MaintStart => s.(maint := Scan(0, None, 0, 0 < |s.lists| && |s.lists[0]| == 0))
    case MaintPage => Visit(s)
    case MaintEvict => Evict(s)
  }

  // ---- every step keeps it ----

  lemma {:induction false} CountUpdate(pages: seq<Page>, p: nat, pg: Page)
    requires p < |pages|
    ensures Buffers(pages[p := pg]) == Buffers(pages) - (if pages[p].wbuf.Some? then 1 else 0)
      + (if pg.wbuf.Some? then 1 else 0)
    ensures Flushes(pages[p := pg]) == Flushes(pages) - |pages[p].flushes| + |pg.flushes|
    decreases |pages|
  {
    if p > 0 {
      CountUpdate(pages[1..], p - 1, pg);
      assert pages[p := pg][1..] == pages[1..][p - 1 := pg];
    } else {
      assert pages[0 := pg][1..] == pages[1..];
    }
  }

  /** Flushes never outnumber attached buffers, and a page about to submit has one to spare. */
  lemma {:induction false} FlushesFit(pages: seq<Page>, p: nat)
    requires forall i :: 0 <= i < |pages| ==> FlushOk(pages[i])
    ensures Flushes(pages) <= Buffers(pages)
    ensures p < |pages| && pages[p].wbuf.Some? && !pages[p].wbuf.value.full ==> Flushes(pages) < Buffers(pages)
    decreases |pages|
  {
    if |pages| > 0 {
      assert FlushOk(pages[0]);
      FlushesFit(pages[1..], if p > 0 then p - 1 else |pages|);
    }
  }

  /** The request object _submit_wbuf pops is always there. */
  lemma RequestAvailable(s: Engine, p: nat)
    requires Inv(s) && p < |s.pages| && s.pages[p].wbuf.Some? && !s.pages[p].wbuf.value.full
    ensures s.ioFree > 0
  {
    FlushesFit(s.pages, p);
  }

  predicate SameBuffer(a: Page, b: Page) {
    a.wbuf.Some? == b.wbuf.Some? && (a.wbuf.Some? ==> a.wbuf.value.id == b.wbuf.value.id)
  }

  // ---- one page changes ----

  lemma PagesSet(pages: seq<Page>, size: Sizes, lists: nat, p: nat, pg: Page)
    requires PagesOk(pages, size, lists) && p < |pages| && PageOk(pg, size) && pg.freeBucket < lists
    ensures PagesOk(pages[p := pg], size, lists)
  {}

  lemma SameAlias(pages: seq<Page>, stack: seq<nat>, p: nat, pg: Page)
    requires NoAlias(pages, stack) && p < |pages| && SameBuffer(pages[p], pg)
    ensures NoAlias(pages[p := pg], stack)
  {}

  lemma DetachAlias(pages: seq<Page>, stack: seq<nat>, p: nat, pg: Page)
    requires NoAlias(pages, stack) && p < |pages| && pages[p].wbuf.Some? && pg.wbuf.None?
    ensures NoAlias(pages[p := pg], [pages[p].wbuf.value.id] + stack)
  {}

  lemma AttachAlias(pages: seq<Page>, stack: seq<nat>, p: nat, pg: Page)
    requires NoAlias(pages, stack) && p < |pages| && |stack| > 0 && pages[p].wbuf.None? && pg.wbuf.Some?
      && pg.wbuf.value.id == stack[0]
    ensures NoAlias(pages[p := pg], stack[1..])
  {}

  lemma ListsSet(lists: seq<seq<nat>>, pages: seq<Page>, p: nat, pg: Page)
    requires ListsOk(lists, pages) && p < |pages| && pg.free == pages[p].free
    ensures ListsOk(lists, pages[p := pg])
  {}

  /** Taking the first page off a list leaves lists of free pages. */
  lemma PopKeepsLists(lists: seq<seq<nat>>, pages: seq<Page>, l: nat, pg: Page)
    requires ListsOk(lists, pages) && l < |lists| && |lists[l]| > 0
    ensures lists[l][0] < |pages| && ListsOk(lists[l := lists[l][1..]], pages[lists[l][0] := pg])
  {}

  /** Freeing a page that was in use puts it on one list. */
  lemma PushKeepsLists(lists: seq<seq<nat>>, pages: seq<Page>, p: nat, l: nat, pg: Page)
    requires ListsOk(lists, pages) && p < |pages| && !pages[p].free && pg.free && l < |lists|
    ensures ListsOk(lists[l := [p] + lists[l]], pages[p := pg])
  {}

  /** The page keeps its standing in the eyes of the maintenance pass, or is not the one it means. */
  predicate Stands(m: Maint, p: nat, a: Page, b: Page) {
    (m.Scan? && m.low == Some(p)) ==> b.free == a.free && b.active == a.active && b.version == a.version
  }

  lemma MaintSet(m: Maint, pages: seq<Page>, p: nat, pg: Page)
    requires MaintOk(m, pages) && p < |pages| && Stands(m, p, pages[p], pg)
    ensures MaintOk(m, pages[p := pg])
  {}

  /** A change inside one page that keeps its buffer and its standing. */
  lemma PageStepKeeps(s: Engine, p: nat, pg: Page)
    requires Inv(s) && p < |s.pages| && PageOk(pg, s.size)
    requires SameBuffer(s.pages[p], pg) && |pg.flushes| == |s.pages[p].flushes|
    requires pg.freeBucket == s.pages[p].freeBucket && pg.free == s.pages[p].free && Stands(s.maint, p, s.pages[p], pg)
    ensures Inv(SetPage(s, p, pg))
  {
    PagesSet(s.pages, s.size, |s.lists|, p, pg);
    SameAlias(s.pages, s.stack, p, pg);
    CountUpdate(s.pages, p, pg);
    ListsSet(s.lists, s.pages, p, pg);
    MaintSet(s.maint, s.pages, p, pg);
  }

  lemma SubmitKeeps(s: Engine, p: nat, len: nat)
    requires Inv(s) && p < |s.pages|
    ensures BufferSane(s.pages[p]) && Inv(SubmitIfTight(s, p, len))
  {
    var pg := s.pages[p];
    if pg.wbuf.Some? && pg.wbuf.value.free < len && !pg.wbuf.value.full {
      SubmittedOk(pg, s.size);
      var pg' := Submitted(pg);
      PagesSet(s.pages, s.size, |s.lists|, p, pg');
      SameAlias(s.pages, s.stack, p, pg');
      CountUpdate(s.pages, p, pg');
      ListsSet(s.lists, s.pages, p, pg');
      MaintSet(s.maint, s.pages, p, pg');
    }
  }

  lemma AttachKeeps(s: Engine, p: nat, contents: seq<Byte>)
    requires Inv(s) && p < |s.pages| && s.pages[p].active && |contents| == s.size.wbuf
    ensures Inv(AttachIfBare(s, p, contents))
  {
    var pg := s.pages[p];
    if pg.wbuf.None? && pg.claimed < s.size.page && |s.stack| > 0 {
      AttachedOk(pg, s.size, s.stack[0], contents);
      var pg' := Attached(pg, s.stack[0], contents);
      PagesSet(s.pages, s.size, |s.lists|, p, pg');
      AttachAlias(s.pages, s.stack, p, pg');
      CountUpdate(s.pages, p, pg');
      ListsSet(s.lists, s.pages, p, pg');
      MaintSet(s.maint, s.pages, p, pg');
    }
  }

  lemma AppendKeeps(s: Engine, p: nat, data: seq<Byte>)
    requires Inv(s) && p < |s.pages| && |data| > 0 && BufferSane(s.pages[p])
    requires s.pages[p].wbuf.Some? && !s.pages[p].wbuf.value.full && |data| <= s.pages[p].wbuf.value.free
    ensures Inv(SetPage(s, p, Appended(s.pages[p], data)))
  {
    AppendedOk(s.pages[p], s.size, data);
    PageStepKeeps(s, p, Appended(s.pages[p], data));
  }

  lemma WriteKeeps(s: Engine, p: nat, data: seq<Byte>, contents: seq<Byte>)
    requires Inv(s) && p < |s.pages| && |data| > 0 && |contents| == s.size.wbuf
    ensures BufferSane(s.pages[p]) && Inv(WriteObject(s, p, data, contents).0)
  {
    if !Spent(s.pages[p], s.size) {
      SubmitKeeps(s, p, |data|);
      var s0 := SubmitIfTight(s, p, |data|);
      AttachKeeps(s0, p, contents);
      var s1 := AttachIfBare(s0, p, contents);
      var pg := s1.pages[p];
      if Takes(pg, |data|) {
        AppendKeeps(s1, p, data);
      }
    }
  }

  /** The page an allocation takes, if there is one, gets a version none of its objects has. */
  predicate FreshPage(s: Engine, freeBucket: nat) {
    var l := AllocList(s, freeBucket);
    l.Some? && s.lists[l.value][0] < |s.pages| ==> Unused(s.pages[s.lists[l.value][0]], VersionAt(s.allocs))
  }

  lemma AllocateKeeps(s: Engine, fb: nat)
    requires Inv(s) && FreshPage(s, fb)
    ensures Inv(Allocate(s, fb))
  {
    var l := AllocList(s, fb);
    if l.Some? {
      var p := s.lists[l.value][0];
      var pg := Opened(s.pages[p], VersionAt(s.allocs));
      OpenedOk(s.pages[p], s.size, VersionAt(s.allocs));
      PagesSet(s.pages, s.size, |s.lists|, p, pg);
      SameAlias(s.pages, s.stack, p, pg);
      CountUpdate(s.pages, p, pg);
      PopKeepsLists(s.lists, s.pages, l.value, pg);
      MaintSet(s.maint, s.pages, p, pg);
    }
  }

  lemma FlushDoneKeeps(s: Engine, p: nat, k: nat)
    requires Inv(s) && Enabled(s, FlushDone(p, k)) && Safe(s, FlushDone(p, k))
    ensures Inv(Next(s, FlushDone(p, k)))
  {
    var pg := Landed(s.pages[p], k, s.size);
    LandedOk(s.pages[p], s.size, k);
    PagesSet(s.pages, s.size, |s.lists|, p, pg);
    DetachAlias(s.pages, s.stack, p, pg);
    CountUpdate(s.pages, p, pg);
    ListsSet(s.lists, s.pages, p, pg);
    MaintSet(s.maint, s.pages, p, pg);
  }

  lemma ReclaimKeeps(s: Engine, p: nat)
    requires Inv(s) && p < |s.pages| && !s.pages[p].active && !s.pages[p].free && s.pages[p].refcount == 0
    requires s.maint.Scan? ==> s.maint.low != Some(p)
    ensures Inv(Reclaim(s, p))
  {
    var pg := Freed(s.pages[p]);
    FreedOk(s.pages[p], s.size);
    PagesSet(s.pages, s.size, |s.lists|, p, pg);
    SameAlias(s.pages, s.stack, p, pg);
    CountUpdate(s.pages, p, pg);
    PushKeepsLists(s.lists, s.pages, p, pg.freeBucket, pg);
    MaintSet(s.maint, s.pages, p, pg);
  }

  lemma VisitKeeps(s: Engine)
    requires Inv(s) && s.maint.Scan? && s.maint.i < |s.pages|
    ensures Inv(Visit(s))
  {
    var m := s.maint;
    var pg := s.pages[m.i];
    if !pg.active && !pg.free && (pg.objCount == 0 || pg.closed) && pg.refcount == 0 {
      ReclaimKeeps(s, m.i);
    }
  }

  lemma EvictKeeps(s: Engine)
    requires Inv(s) && s.maint.Scan? && s.maint.i == |s.pages|
    ensures Inv(Evict(s))
  {
    var m := s.maint;
    var s1 := s.(maint := Idle);
    if m.evict && m.low.Some? && !s.pages[m.low.value].closed {
      var p := m.low.value;
      var pg := s.pages[p];
      ClosedOk(pg, s.size, pg.version);
      PageStepKeeps(s1, p, Closed(pg, pg.version));
      var s2 := SetPage(s1, p, pg.(closed := true));
      if pg.refcount == 0 {
        ReclaimKeeps(s2, p);
      }
    }
  }

  lemma FlushWriteKeeps(s: Engine, p: nat, k: nat)
    requires Inv(s) && Enabled(s, FlushWrite(p, k)) && Safe(s, FlushWrite(p, k))
    ensures Inv(Next(s, FlushWrite(p, k)))
  {
    FlushedOk(s.pages[p], s.size, k);
    PageStepKeeps(s, p, Flushed(s.pages[p], k));
  }

  lemma ReadBeginKeeps(s: Engine, p: nat, id: nat, at: Read)
    requires Inv(s) && Enabled(s, ReadBegin(p, id, at)) && Safe(s, ReadBegin(p, id, at))
    ensures Inv(Next(s, ReadBegin(p, id, at)))
  {
    EnabledIsSafe(s, ReadBegin(p, id, at));
    if ReadOutcome(s.pages[p], at).FromDisk? {
      var r :| r in s.pages[p].log && r.at == at;
      ReferencedOk(s.pages[p], s.size, id, r);
      PageStepKeeps(s, p, Referenced(s.pages[p], id, at));
    }
  }

  lemma ReadEndKeeps(s: Engine, p: nat, id: nat)
    requires Inv(s) && Enabled(s, ReadEnd(p, id)) && Safe(s, ReadEnd(p, id))
    ensures Inv(Next(s, ReadEnd(p, id)))
  {
    ReleasedOk(s.pages[p], s.size, id);
    PageStepKeeps(s, p, Released(s.pages[p], id));
  }

  lemma DeleteKeeps(s: Engine, p: nat, version: nat, count: nat, bytes: nat)
    requires Inv(s) && p < |s.pages|
    ensures Inv(SetPage(s, p, Deleted(s.pages[p], version, count, bytes)))
  {
    DeletedOk(s.pages[p], s.size, version, count, bytes);
    PageStepKeeps(s, p, Deleted(s.pages[p], version, count, bytes));
  }

  lemma CloseKeeps(s: Engine, p: nat, version: nat)
    requires Inv(s) && p < |s.pages|
    ensures Inv(SetPage(s, p, Closed(s.pages[p], version)))
  {
    ClosedOk(s.pages[p], s.size, version);
    PageStepKeeps(s, p, Closed(s.pages[p], version));
  }

  predicate Fresh(s: Engine, a: Action) {
    a.AllocPage? ==> FreshPage(s, a.freeBucket)
  }

  /** Every step of every thread keeps the invariant, unless it hands a page a version back. */
  lemma StepKeeps(s: Engine, a: Action)
    requires Inv(s) && Enabled(s, a) && Fresh(s, a)
    ensures Safe(s, a) && Inv(Next(s, a))
  {
    EnabledIsSafe(s, a);
    match a
    case AllocPage(fb) => AllocateKeeps(s, fb);
    case Write(p, data, contents) => WriteKeeps(s, p, data, contents);
    case FlushWrite(p, k) => FlushWriteKeeps(s, p, k);
    case FlushDone(p, k) => FlushDoneKeeps(s, p, k);
    case ReadBegin(p, id, at) => ReadBeginKeeps(s, p, id, at);
    case ReadEnd(p, id) => ReadEndKeeps(s, p, id);
    case Delete(p, version, count, bytes) => DeleteKeeps(s, p, version, count, bytes);
    case Close(p, version) => CloseKeeps(s, p, version);
    case MaintStart =>
    case MaintPage => VisitKeeps(s);
    case MaintEvict => EvictKeeps(s);
  }

  /** Page by page, histories only grow. */
  predicate Grows(s: Engine, s': Engine) {
    |s'.pages| == |s.pages| && forall p :: 0 <= p < |s.pages| ==> s.pages[p].log <= s'.pages[p].log
  }

  lemma SetPageGrows(s: Engine, p: nat, pg: Page)
    requires p < |s.pages| && s.pages[p].log <= pg.log
    ensures Grows(s, SetPage(s, p, pg))
  {}

  lemma WriteGrows(s: Engine, p: nat, data: seq<Byte>, contents: seq<Byte>)
    requires p < |s.pages| && BufferSane(s.pages[p])
    ensures Grows(s, WriteObject(s, p, data, contents).0)
  {}

  lemma VisitGrows(s: Engine)
    requires s.maint.Scan? && s.maint.i < |s.pages| && s.pages[s.maint.i].freeBucket < |s.lists|
    ensures Grows(s, Visit(s))
  {}

  lemma EvictGrows(s: Engine)
    requires s.maint.Scan?
      && (s.maint.low.Some? ==> s.maint.low.value < |s.pages| && s.pages[s.maint.low.value].freeBucket < |s.lists|)
    ensures Grows(s, Evict(s))
  {}

  lemma StepGrows(s: Engine, a: Action)
    requires Enabled(s, a) && Safe(s, a)
    ensures Grows(s, Next(s, a))
  {
    match a
    case AllocPage(fb) =>
    case Write(p, data, contents) => WriteGrows(s, p, data, contents);
    case FlushWrite(p, k) => SetPageGrows(s, p, Flushed(s.pages[p], k));
    case FlushDone(p, k) => SetPageGrows(s, p, Landed(s.pages[p], k, s.size));
    case ReadBegin(p, id, at) => SetPageGrows(s, p, Referenced(s.pages[p], id, at));
    case ReadEnd(p, id) => SetPageGrows(s, p, Released(s.pages[p], id));
    case Delete(p, version, count, bytes) => SetPageGrows(s, p, Deleted(s.pages[p], version, count, bytes));
    case Close(p, version) => SetPageGrows(s, p, Closed(s.pages[p], version));
    case MaintStart =>
    case MaintPage => VisitGrows(s);
    case MaintEvict => EvictGrows(s);
  }

  // ---- whole runs ----

  /** Steps that can follow one another, none of them failing an assertion. */
  ghost predicate Runs(s: Engine, acts: seq<Action>)
    decreases |acts|
  {
    |acts| > 0 ==> Enabled(s, acts[0]) && Safe(s, acts[0]) && Runs(Next(s, acts[0]), acts[1..])
  }

  ghost function After(s: Engine, acts: seq<Action>): Engine
    requires Runs(s, acts)
    decreases |acts|
  {
    if |acts| == 0 then s else After(Next(s, acts[0]), acts[1..])
  }

  /** No step of the run hands a page a version that one of its objects has. */
  ghost predicate AllFresh(s: Engine, acts: seq<Action>)
    requires Runs(s, acts)
    decreases |acts|
  {
    |acts| > 0 ==> Fresh(s, acts[0]) && AllFresh(Next(s, acts[0]), acts[1..])
  }

  lemma {:induction false} RunKeeps(s: Engine, acts: seq<Action>)
    requires Inv(s) && Runs(s, acts) && AllFresh(s, acts)
    ensures Inv(After(s, acts))
    decreases |acts|
  {
    if |acts| > 0 {
      StepKeeps(s, acts[0]);
      RunKeeps(Next(s, acts[0]), acts[1..]);
    }
  }

  lemma {:induction false} RunGrows(s: Engine, acts: seq<Action>)
    requires Runs(s, acts)
    ensures Grows(s, After(s, acts))
    decreases |acts|
  {
    if |acts| > 0 {
      StepGrows(s, acts[0]);
      RunGrows(Next(s, acts[0]), acts[1..]);
    }
  }

  // ---- exactly when reads are right ----

  /** Asking for an object trips no assertion and yields nothing but its bytes, now or from disk. */
  ghost predicate ReadsRight(pg: Page, r: Record) {
    && ReadSane(pg, r.at)
    && (ReadOutcome(pg, r.at).Miss? <==> Gone(pg, r.at.version))
    && (ReadOutcome(pg, r.at).Bytes? ==> ReadOutcome(pg, r.at).data == r.data)
    && (ReadOutcome(pg, r.at).FromDisk? ==>
          r.at.offset + r.at.len <= |pg.disk| && DiskBytes(pg, r.at) == r.data)
    && (forall id :: id in pg.readers && pg.readers[id] == r.at ==>
          r.at.offset + r.at.len <= |pg.disk| && DiskBytes(pg, r.at) == r.data)
  }

  ghost predicate Right(s: Engine) {
    forall p, r :: 0 <= p < |s.pages| && r in s.pages[p].log ==> ReadsRight(s.pages[p], r)
  }

  lemma InvIsRight(s: Engine)
    requires Inv(s)
    ensures Right(s)
  {
    forall p, r | 0 <= p < |s.pages| && r in s.pages[p].log
      ensures ReadsRight(s.pages[p], r)
    {
      ReadBeginsRight(s.pages[p], s.size, r);
      forall id | id in s.pages[p].readers && s.pages[p].readers[id] == r.at
        ensures r.at.offset + r.at.len <= |s.pages[p].disk| && DiskBytes(s.pages[p], r.at) == r.data
      {
        DiskReadIsRight(s.pages[p], s.size, id, r);
      }
    }
  }

  lemma StaleIsWrong(s: Engine, a: Action)
    requires Inv(s) && Enabled(s, a) && Safe(s, a) && !Fresh(s, a)
    ensures !Right(Next(s, a))
  {
    var p := s.lists[AllocList(s, a.freeBucket).value][0];
    var r :| r in s.pages[p].log && r.at.version == VersionAt(s.allocs);
    ReusedVersionFails(s.pages[p], s.size, r);
    assert r in Next(s, a).pages[p].log && !ReadsRight(Next(s, a).pages[p], r);
  }

  ghost predicate AlwaysRight(s: Engine, acts: seq<Action>)
    requires Runs(s, acts)
    decreases |acts|
  {
    Right(s) && (|acts| > 0 ==> AlwaysRight(Next(s, acts[0]), acts[1..]))
  }

  /** Over any run, every object ever written is read sanely and rightly, or missed, at every moment
      exactly if no allocation hands a page a version that one of its objects has. */
  lemma {:induction false} RightIffFresh(s: Engine, acts: seq<Action>)
    requires Inv(s) && Runs(s, acts)
    ensures AlwaysRight(s, acts) <==> AllFresh(s, acts)
    decreases |acts|
  {
    InvIsRight(s);
    if |acts| > 0 {
      var next := Next(s, acts[0]);
      if Fresh(s, acts[0]) {
        StepKeeps(s, acts[0]);
        RightIffFresh(next, acts[1..]);
      } else {
        StaleIsWrong(s, acts[0]);
        assert !AlwaysRight(next, acts[1..]);
      }
    }
  }

  /** An allocation takes the first page of the list asked for, or of the default list if that has none, opens it
      under the next version, and touches no other page; without a page it changes nothing. */
  lemma AllocateTakes(s: Engine, fb: nat)
    requires Inv(s)
    ensures var l := if 0 < fb < |s.lists| && |s.lists[fb]| > 0 then fb else 0;
      var s' := Allocate(s, fb);
      if |s.lists[l]| == 0 then s' == s
      else
        var p := s.lists[l][0];
        && p < |s.pages| && s'.pages == s.pages[p := Opened(s.pages[p], (1 + s.allocs) % VERSIONS)]
        && s'.pages[p].active && !s'.pages[p].free && !s'.pages[p].closed
        && s'.lists == s.lists[l := s.lists[l][1..]] && s'.allocs == s.allocs + 1
  {}

  /** A write succeeds exactly if its page is not spent and, with the buffer it has or else gets, has room:
      a buffer attached with as much free, or none attached, one to get, and an object no larger than that. */
  lemma WriteSucceeds(s: Engine, p: nat, data: seq<Byte>, contents: seq<Byte>)
    requires Inv(s) && p < |s.pages| && BufferSane(s.pages[p]) && |contents| == s.size.wbuf
    ensures var pg := s.pages[p];
      WriteObject(s, p, data, contents).1.Some? <==>
        && pg.active && !(pg.wbuf.Some? && pg.wbuf.value.full)
        && if pg.wbuf.Some? then |data| <= pg.wbuf.value.free else |s.stack| > 0 && |data| <= s.size.wbuf
  {
    assert PageOk(s.pages[p], s.size);
  }

  /** A successful write records its object under the location it reports. */
  lemma WriteRecords(s: Engine, p: nat, data: seq<Byte>, contents: seq<Byte>)
    requires p < |s.pages| && BufferSane(s.pages[p])
    ensures var (s', at) := WriteObject(s, p, data, contents);
      at.Some? ==> |s'.pages| == |s.pages| && Record(at.value, data) in s'.pages[p].log && at.value.len == |data|
  {}

  lemma WriteIsCurrent(s: Engine, p: nat, data: seq<Byte>, contents: seq<Byte>)
    requires Inv(s) && p < |s.pages| && BufferSane(s.pages[p])
    ensures var (s', at) := WriteObject(s, p, data, contents);
      at.Some? ==> |s'.pages| == |s.pages| && !s'.pages[p].free && s'.pages[p].version == at.value.version
  {
    assert PageOk(s.pages[p], s.size);
  }

  lemma RecordStays(s: Engine, acts: seq<Action>, p: nat, r: Record)
    requires Inv(s) && p < |s.pages| && r in s.pages[p].log && Runs(s, acts) && AllFresh(s, acts)
    ensures p < |After(s, acts).pages| && ReadsRight(After(s, acts).pages[p], r)
  {
    RunKeeps(s, acts);
    RunGrows(s, acts);
    InvIsRight(After(s, acts));
  }

  /** The engine's promise. An object is written; then anything happens, in any order: flushes,
      deletes, closes, evictions, page reuse. A read of the reported location is a miss exactly if the page
      is free, closed or of another version, and just after the write it was neither free nor of another;
      else it gets exactly those bytes from the buffer, or it goes to disk, where they are, and gets
      exactly those bytes whenever its transfer happens. */
  lemma ReadYieldsWrittenOrMiss(
    s: Engine, p: nat, data: seq<Byte>, contents: seq<Byte>, acts: seq<Action>, id: nat)
    requires Inv(s) && Enabled(s, Write(p, data, contents)) && WriteKeepsSane(s, p)
    requires WriteObject(s, p, data, contents).1.Some?
    requires var s1 := WriteObject(s, p, data, contents).0; Runs(s1, acts) && AllFresh(s1, acts)
    ensures var (s1, at) := WriteObject(s, p, data, contents);
      var pages := After(s1, acts).pages;
      p < |pages| && ReadsRight(pages[p], Record(at.value, data))
        && p < |s1.pages| && !s1.pages[p].free && s1.pages[p].version == at.value.version
  {
    WriteKeeps(s, p, data, contents);
    WriteRecords(s, p, data, contents);
    WriteIsCurrent(s, p, data, contents);
    var s1, at := WriteObject(s, p, data, contents).0, WriteObject(s, p, data, contents).1.value;
    RecordStays(s1, acts, p, Record(at, data));
  }

  ghost predicate WriteKeepsSane(s: Engine, p: nat) {
    p < |s.pages| && BufferSane(s.pages[p])
  }

  // ---- where runs start ----

  function BlankPage(size: Sizes, freeBucket: nat): Page {
    Page(0, 0, 0, 0, 0, 0, freeBucket, false, false, true, None, Zeros(size.page), [], map[], {})
  }

  /** The free lists extstore_init builds, from the last page down to page `i`: every page from
      `i` on, pushed on the list of its free bucket. */
  function InitLists(buckets: seq<nat>, lists: nat, i: nat): (ls: seq<seq<nat>>)
    requires i <= |buckets| && forall k :: 0 <= k < |buckets| ==> buckets[k] < lists
    ensures |ls| == lists
    decreases |buckets| - i
  {
    if i == |buckets| then seq(lists, _ => [])
    else
      var rest := InitLists(buckets, lists, i + 1);
      rest[buckets[i] := [i] + rest[buckets[i]]]
  }

  /** extstore_init's loop stops at page 1: page 0 is on no list and never used. */
  function InitEngine(size: Sizes, buckets: seq<nat>, lists: nat, wbufs: nat): Engine
    requires 0 < |buckets| && forall k :: 0 <= k < |buckets| ==> buckets[k] < lists
  {
    Engine(size, seq(|buckets|, i requires 0 <= i < |buckets| => BlankPage(size, buckets[i])),
      wbufs, seq(wbufs, i => i), wbufs, InitLists(buckets, lists, 1), 0, Idle)
  }

  /** Page numbers from `lo` up to `hi`, none twice. */
  predicate Scattered(ls: seq<seq<nat>>, lo: nat, hi: nat) {
    && (forall l, j :: 0 <= l < |ls| && 0 <= j < |ls[l]| ==> lo <= ls[l][j] < hi)
    && (forall l, j, k :: 0 <= l < |ls| && 0 <= j < k < |ls[l]| ==> ls[l][j] != ls[l][k])
    && (forall l, m, j, k :: 0 <= l < m < |ls| && 0 <= j < |ls[l]| && 0 <= k < |ls[m]| ==> ls[l][j] != ls[m][k])
  }

  lemma PushScattered(ls: seq<seq<nat>>, lo: nat, hi: nat, l: nat)
    requires Scattered(ls, lo + 1, hi) && l < |ls| && lo < hi
    ensures Scattered(ls[l := [lo] + ls[l]], lo, hi)
  {}

  lemma {:induction false} InitListsOk(buckets: seq<nat>, lists: nat, i: nat)
    requires i <= |buckets| && forall k :: 0 <= k < |buckets| ==> buckets[k] < lists
    ensures Scattered(InitLists(buckets, lists, i), i, |buckets|)
    decreases |buckets| - i
  {
    if i < |buckets| {
      InitListsOk(buckets, lists, i + 1);
      PushScattered(InitLists(buckets, lists, i + 1), i, |buckets|, buckets[i]);
    }
  }

  lemma {:induction false} NoBuffers(pages: seq<Page>)
    requires forall i :: 0 <= i < |pages| ==> pages[i].wbuf.None? && pages[i].flushes == []
    ensures Buffers(pages) == 0 && Flushes(pages) == 0
    decreases |pages|
  {
    if |pages| > 0 {
      NoBuffers(pages[1..]);
    }
  }

  /** The engine as initialised meets the invariant, for every configuration init accepts. */
  lemma InitOk(size: Sizes, buckets: seq<nat>, lists: nat, wbufs: nat)
    requires 0 < |buckets| && forall k :: 0 <= k < |buckets| ==> buckets[k] < lists
    requires 0 < size.wbuf && 0 < size.page && Multiple(size.page, size.wbuf)
    ensures Inv(InitEngine(size, buckets, lists, wbufs))
  {
    var s := InitEngine(size, buckets, lists, wbufs);
    InitListsOk(buckets, lists, 1);
    assert Scattered(s.lists, 1, |s.pages|);
    NoBuffers(s.pages);
  }

}
