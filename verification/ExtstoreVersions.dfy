/** How long the versions of the store last: runs with fewer than 2^32 page allocations are right
    throughout, and one with 2^32 + 1 is not. */
module ExtstoreVersions {
  import opened Extstore
  import opened ExtstoreEngine
  import opened Numbers
  import opened Options

  // ---- fewer than 2^32 allocations ----

  function Allocations(acts: seq<Action>): nat {
    if |acts| == 0 then 0 else (if acts[0].AllocPage? then 1 else 0) + Allocations(acts[1..])
  }

  /** Versions in use are those given out so far. */
  ghost predicate PageDated(pg: Page, allocs: nat) {
    (!pg.free ==> 1 <= pg.version <= allocs) && forall r :: r in pg.log ==> 1 <= r.at.version <= allocs
  }

  ghost predicate Dated(s: Engine) {
    s.allocs < VERSIONS && forall p :: 0 <= p < |s.pages| ==> PageDated(s.pages[p], s.allocs)
  }

  lemma SetDated(s: Engine, p: nat, pg: Page)
    requires Dated(s) && p < |s.pages| && PageDated(pg, s.allocs)
    ensures Dated(SetPage(s, p, pg))
  {}

  lemma AllocateDated(s: Engine, fb: nat)
    requires Dated(s) && s.allocs + 1 < VERSIONS
    ensures FreshPage(s, fb) && Dated(Allocate(s, fb))
  {}

  lemma WriteDated(s: Engine, p: nat, data: seq<Byte>, contents: seq<Byte>)
    requires Dated(s) && p < |s.pages| && BufferSane(s.pages[p]) && (s.pages[p].active ==> !s.pages[p].free)
    ensures Dated(WriteObject(s, p, data, contents).0)
  {
    if !Spent(s.pages[p], s.size) {
      var s0 := SubmitIfTight(s, p, |data|);
      SetDated(s, p, s0.pages[p]);
      assert Dated(s0);
      var s1 := AttachIfBare(s0, p, contents);
      SetDated(s0, p, s1.pages[p]);
      assert Dated(s1);
      if Takes(s1.pages[p], |data|) {
        SetDated(s1, p, Appended(s1.pages[p], data));
      }
    }
  }

  lemma ReclaimDated(s: Engine, p: nat)
    requires Dated(s) && p < |s.pages| && s.pages[p].freeBucket < |s.lists|
    ensures Dated(Reclaim(s, p))
  {
    SetDated(s, p, Freed(s.pages[p]));
  }

  lemma VisitDated(s: Engine)
    requires Dated(s) && s.maint.Scan? && s.maint.i < |s.pages| && s.pages[s.maint.i].freeBucket < |s.lists|
    ensures Dated(Visit(s)) && Visit(s).allocs == s.allocs
  {
    ReclaimDated(s, s.maint.i);
  }

  lemma EvictDated(s: Engine)
    requires Dated(s) && Enabled(s, MaintEvict) && Safe(s, MaintEvict)
    ensures Dated(Evict(s)) && Evict(s).allocs == s.allocs
  {
    var s1 := s.(maint := Idle);
    if s.maint.low.Some? {
      var p := s.maint.low.value;
      SetDated(s1, p, s.pages[p].(closed := true));
      ReclaimDated(SetPage(s1, p, s.pages[p].(closed := true)), p);
    }
  }

  lemma PageStepDated(s: Engine, a: Action)
    requires Dated(s) && Enabled(s, a) && Safe(s, a)
    requires !a.AllocPage? && !a.Write? && !a.MaintStart? && !a.MaintPage? && !a.MaintEvict?
    ensures Dated(Next(s, a)) && Next(s, a).allocs == s.allocs
  {
    match a
    case FlushWrite(p, k) => SetDated(s, p, Flushed(s.pages[p], k));
    case FlushDone(p, k) => SetDated(s, p, Landed(s.pages[p], k, s.size));
    case ReadBegin(p, id, at) => SetDated(s, p, Referenced(s.pages[p], id, at));
    case ReadEnd(p, id) => SetDated(s, p, Released(s.pages[p], id));
    case Delete(p, version, count, bytes) => SetDated(s, p, Deleted(s.pages[p], version, count, bytes));
    case Close(p, version) => SetDated(s, p, Closed(s.pages[p], version));
  }

  lemma StepDated(s: Engine, a: Action)
    requires Inv(s) && Dated(s) && Enabled(s, a) && Safe(s, a) && (a.AllocPage? ==> s.allocs + 1 < VERSIONS)
    ensures Fresh(s, a) && Dated(Next(s, a)) && Next(s, a).allocs <= s.allocs + if a.AllocPage? then 1 else 0
  {
    match a
    case AllocPage(fb) => AllocateDated(s, fb);
    case Write(p, data, contents) => WriteDated(s, p, data, contents);
    case MaintStart =>
    case MaintPage => VisitDated(s);
    case MaintEvict => EvictDated(s);
    case _ => PageStepDated(s, a);
  }

  lemma {:induction false} FewAllocationsAreFresh(s: Engine, acts: seq<Action>)
    requires Inv(s) && Dated(s) && Runs(s, acts) && s.allocs + Allocations(acts) < VERSIONS
    ensures AllFresh(s, acts)
    decreases |acts|
  {
    if |acts| > 0 {
      StepDated(s, acts[0]);
      StepKeeps(s, acts[0]);
      FewAllocationsAreFresh(Next(s, acts[0]), acts[1..]);
    }
  }

  /** From the engine as initialised, reads are right throughout any run that allocates fewer than
      2^32 pages. */
  lemma FewAllocationsAreRight(size: Sizes, buckets: seq<nat>, lists: nat, wbufs: nat, acts: seq<Action>)
    requires 0 < |buckets| && forall k :: 0 <= k < |buckets| ==> buckets[k] < lists
    requires 0 < size.wbuf && 0 < size.page && Multiple(size.page, size.wbuf)
    requires Runs(InitEngine(size, buckets, lists, wbufs), acts) && Allocations(acts) < VERSIONS
    ensures AlwaysRight(InitEngine(size, buckets, lists, wbufs), acts)
  {
    var s := InitEngine(size, buckets, lists, wbufs);
    InitOk(size, buckets, lists, wbufs);
    FewAllocationsAreFresh(s, acts);
    RightIffFresh(s, acts);
  }

  // ---- one too many ----

  /** Bytes of one kind. */
  function Block(x: Byte, w: nat): (b: seq<Byte>)
    ensures |b| == w
  {
    seq(w, _ => x)
  }

  /** One page of `w` bytes, and one buffer of that size; page 0 is never used. */
  function Small(w: nat): Engine {
    InitEngine(Sizes(w, w), [0, 0], 1, 1)
  }

  /** The objects written in the first `n` rounds. */
  function Written(w: nat, n: nat): set<Record> {
    if n == 0 then {} else Written(w, n - 1) + {Object(w, n - 1)}
  }

  function Object(w: nat, n: nat): Record {
    Record(Read(VersionAt(n), 0, w), Block(7, w))
  }

  /** The write of an object that fills the page. */
  function Put(w: nat, x: Byte): Action {
    Write(1, Block(x, w), Block(0, w))
  }

  /** The page between two rounds: free, with what has been written to it. */
  function Idling(w: nat, n: nat): Page {
    BlankPage(Sizes(w, w), 0).(disk := if n == 0 then Block(0, w) else Block(7, w), log := Written(w, n))
  }

  function With(w: nat, pg: Page, stack: seq<nat>, ioFree: int, list: seq<nat>, allocs: nat, maint: Maint): Engine {
    Engine(Sizes(w, w), [BlankPage(Sizes(w, w), 0), pg], 1, stack, ioFree, [list], allocs, maint)
  }

  function Between(w: nat, n: nat): Engine {
    With(w, Idling(w, n), [0], 1, [1], n, Idle)
  }

  lemma StartsBetween(w: nat)
    requires w > 0
    ensures Small(w) == Between(w, 0)
  {
    var s := Small(w);
    var none: seq<nat> := [];
    assert InitLists([0, 0], 1, 2) == [none];
    assert [1] + none == [1];
    assert InitLists([0, 0], 1, 1) == [none][0 := [1]] == [[1]];
    assert Zeros(w) == Block(0, w);
    assert s.pages == [BlankPage(Sizes(w, w), 0), BlankPage(Sizes(w, w), 0)];
    assert s.stack == [0];
  }

  ghost predicate Goes(s: Engine, a: Action, s': Engine) {
    Enabled(s, a) && Safe(s, a) && Next(s, a) == s'
  }

  /** From `s` the steps lead to `s'`. */
  ghost predicate Leads(s: Engine, acts: seq<Action>, s': Engine) {
    Runs(s, acts) && After(s, acts) == s'
  }

  lemma LeadsOne(s: Engine, a: Action, s': Engine)
    requires Goes(s, a, s')
    ensures Leads(s, [a], s')
  {
    assert [a][1..] == [];
  }

  lemma {:induction false} LeadsOn(s: Engine, acts: seq<Action>, s': Engine, more: seq<Action>, s'': Engine)
    requires Leads(s, acts, s') && Leads(s', more, s'')
    ensures Leads(s, acts + more, s'')
    decreases |acts|
  {
    if |acts| == 0 {
      assert acts + more == more;
    } else {
      assert (acts + more)[0] == acts[0] && (acts + more)[1..] == acts[1..] + more;
      LeadsOn(Next(s, acts[0]), acts[1..], s', more, s'');
    }
  }

  lemma LeadsTwo(s: Engine, a: Action, s': Engine, b: Action, s'': Engine)
    requires Goes(s, a, s') && Goes(s', b, s'')
    ensures Leads(s, [a, b], s'')
  {
    LeadsOne(s, a, s');
    LeadsOne(s', b, s'');
    LeadsOn(s, [a], s', [b], s'');
    assert [a] + [b] == [a, b];
  }

  // The page after each step of a round: opened, written to, submitted, flushed, landed, deleted from.

  function Open(w: nat, n: nat): Page {
    Idling(w, n).(version := VersionAt(n), active := true, free := false)
  }

  function Filled(w: nat, n: nat, buf: Wbuf): Page {
    Open(w, n).(claimed := w, objCount := 1, bytesUsed := w, wbuf := Some(buf), log := Written(w, n + 1))
  }

  function Queued(w: nat, n: nat, done: bool): Page {
    Filled(w, n, Wbuf(0, Block(7, w), 0, 0, true)).(
      disk := if done then Block(7, w) else Idling(w, n).disk, flushes := [Flush(0, 0, done)])
  }

  function Full(w: nat, n: nat, objects: nat): Page {
    Open(w, n).(
      claimed := w, written := w, active := false, objCount := objects,
      bytesUsed := if objects == 0 then 0 else w, disk := Block(7, w), log := Written(w, n + 1))
  }

  lemma Opens(w: nat, n: nat)
    requires w > 0
    ensures Goes(Between(w, n), AllocPage(0), With(w, Open(w, n), [0], 1, [], n + 1, Idle))
  {
    var s := Between(w, n);
    assert [1][1..] == [] && s.lists[0 := []] == [[]];
    assert s.pages[1 := Open(w, n)] == [s.pages[0], Open(w, n)];
  }

  /** The page with a block in its buffer. */
  function Holding(w: nat, n: nat, x: Byte): Page {
    Open(w, n).(claimed := w, objCount := 1, bytesUsed := w, wbuf := Some(Wbuf(0, Block(x, w), 0, 0, false)),
      log := Written(w, n) + {Record(Read(VersionAt(n), 0, w), Block(x, w))})
  }

  lemma Overwrites(was: seq<Byte>, now: seq<Byte>)
    requires |was| == |now|
    ensures was[..0] + now + was[|now|..] == now
  {}

  lemma WritesBlock(w: nat, n: nat, x: Byte)
    requires w > 0
    ensures Goes(With(w, Open(w, n), [0], 1, [], n + 1, Idle), Put(w, x),
      With(w, Holding(w, n, x), [], 1, [], n + 1, Idle))
  {
    var s := With(w, Open(w, n), [0], 1, [], n + 1, Idle);
    var pg := Attached(Open(w, n), 0, Block(0, w));
    assert SubmitIfTight(s, 1, w) == s && [0][1..] == [];
    var s1 := With(w, pg, [], 1, [], n + 1, Idle);
    assert s.pages[1 := pg] == s1.pages;
    assert AttachIfBare(s, 1, Block(0, w)) == s1;
    Overwrites(Block(0, w), Block(x, w));
    assert PlaceOf(pg, w) == Read(VersionAt(n), 0, w);
    assert Appended(pg, Block(x, w)) == Holding(w, n, x);
    assert s1.pages[1 := Holding(w, n, x)] == [s.pages[0], Holding(w, n, x)];
  }

  lemma Writes(w: nat, n: nat)
    requires w > 0
    ensures Goes(With(w, Open(w, n), [0], 1, [], n + 1, Idle), Put(w, 7),
      With(w, Filled(w, n, Wbuf(0, Block(7, w), 0, 0, false)), [], 1, [], n + 1, Idle))
  {
    WritesBlock(w, n, 7);
    assert Written(w, n + 1) == Written(w, n) + {Object(w, n)};
  }

  lemma Submits(w: nat, n: nat)
    requires w > 0
    ensures Goes(With(w, Filled(w, n, Wbuf(0, Block(7, w), 0, 0, false)), [], 1, [], n + 1, Idle), Put(w, 7),
      With(w, Queued(w, n, false), [], 0, [], n + 1, Idle))
  {
    var s := With(w, Filled(w, n, Wbuf(0, Block(7, w), 0, 0, false)), [], 1, [], n + 1, Idle);
    var pg := s.pages[1];
    assert Block(7, w)[..w] + Zeros(0) == Block(7, w);
    assert Submitted(pg) == Queued(w, n, false);
    assert s.pages[1 := Queued(w, n, false)] == [s.pages[0], Queued(w, n, false)];
  }

  lemma Flushes(w: nat, n: nat)
    requires w > 0
    ensures Goes(With(w, Queued(w, n, false), [], 0, [], n + 1, Idle), FlushWrite(1, 0),
      With(w, Queued(w, n, true), [], 0, [], n + 1, Idle))
  {
    var s := With(w, Queued(w, n, false), [], 0, [], n + 1, Idle);
    Overwrites(s.pages[1].disk, Block(7, w));
    assert [Flush(0, 0, false)][0 := Flush(0, 0, true)] == [Flush(0, 0, true)];
    assert Flushed(s.pages[1], 0) == Queued(w, n, true);
    assert s.pages[1 := Queued(w, n, true)] == [s.pages[0], Queued(w, n, true)];
  }

  lemma Lands(w: nat, n: nat)
    requires w > 0
    ensures Goes(With(w, Queued(w, n, true), [], 0, [], n + 1, Idle), FlushDone(1, 0),
      With(w, Full(w, n, 1), [0], 1, [], n + 1, Idle))
  {
    var s := With(w, Queued(w, n, true), [], 0, [], n + 1, Idle);
    var fs := s.pages[1].flushes;
    assert fs[..0] + fs[1..] == [];
    assert Landed(s.pages[1], 0, s.size) == Full(w, n, 1);
    assert s.pages[1 := Full(w, n, 1)] == [s.pages[0], Full(w, n, 1)];
    var none: seq<nat> := [];
    assert [0] + none == [0];
  }

  lemma Deletes(w: nat, n: nat)
    requires w > 0
    ensures Goes(With(w, Full(w, n, 1), [0], 1, [], n + 1, Idle), Delete(1, VersionAt(n), 1, w),
      With(w, Full(w, n, 0), [0], 1, [], n + 1, Idle))
  {
    var s := With(w, Full(w, n, 1), [0], 1, [], n + 1, Idle);
    assert s.pages[1 := Full(w, n, 0)] == [s.pages[0], Full(w, n, 0)];
  }

  lemma Reclaims(w: nat, n: nat)
    requires w > 0
    ensures Goes(With(w, Full(w, n, 0), [0], 1, [], n + 1, Scan(1, None, 0, true)), MaintPage,
      Between(w, n + 1).(maint := Scan(2, None, 0, false)))
  {
    var s := With(w, Full(w, n, 0), [0], 1, [], n + 1, Scan(1, None, 0, true));
    var none: seq<nat> := [];
    assert [1] + none == [1] && s.lists[0 := [1]] == [[1]];
    assert Freed(s.pages[1]) == Idling(w, n + 1);
    assert s.pages[1 := Idling(w, n + 1)] == [s.pages[0], Idling(w, n + 1)];
  }

  lemma Scans(w: nat, n: nat)
    requires w > 0
    ensures var s := With(w, Full(w, n, 0), [0], 1, [], n + 1, Idle);
      Goes(s, MaintStart, s.(maint := Scan(0, None, 0, true)))
      && Goes(s.(maint := Scan(0, None, 0, true)), MaintPage, s.(maint := Scan(1, None, 0, true)))
  {}

  lemma Sweeps(w: nat, n: nat)
    requires w > 0
    ensures Leads(With(w, Full(w, n, 0), [0], 1, [], n + 1, Idle), [MaintStart, MaintPage] + [MaintPage, MaintEvict],
      Between(w, n + 1))
  {
    var s := With(w, Full(w, n, 0), [0], 1, [], n + 1, Idle);
    var s1, s2 := s.(maint := Scan(1, None, 0, true)), Between(w, n + 1).(maint := Scan(2, None, 0, false));
    Scans(w, n);
    LeadsTwo(s, MaintStart, s.(maint := Scan(0, None, 0, true)), MaintPage, s1);
    Reclaims(w, n);
    assert Goes(s2, MaintEvict, Between(w, n + 1));
    LeadsTwo(s1, MaintPage, s2, MaintEvict, Between(w, n + 1));
    LeadsOn(s, [MaintStart, MaintPage], s1, [MaintPage, MaintEvict], Between(w, n + 1));
  }

  /** One round of the page: taken, filled, flushed, emptied and freed again. */
  function Round(w: nat, n: nat): seq<Action> {
    ([AllocPage(0), Put(w, 7)] + [Put(w, 7), FlushWrite(1, 0)])
    + ([FlushDone(1, 0), Delete(1, VersionAt(n), 1, w)] + ([MaintStart, MaintPage] + [MaintPage, MaintEvict]))
  }

  lemma FirstHalf(w: nat, n: nat)
    requires w > 0
    ensures Leads(Between(w, n), [AllocPage(0), Put(w, 7)] + [Put(w, 7), FlushWrite(1, 0)],
      With(w, Queued(w, n, true), [], 0, [], n + 1, Idle))
  {
    var s1, s2 := With(w, Open(w, n), [0], 1, [], n + 1, Idle),
      With(w, Filled(w, n, Wbuf(0, Block(7, w), 0, 0, false)), [], 1, [], n + 1, Idle);
    var s3, s4 := With(w, Queued(w, n, false), [], 0, [], n + 1, Idle),
      With(w, Queued(w, n, true), [], 0, [], n + 1, Idle);
    Opens(w, n);
    Writes(w, n);
    Submits(w, n);
    Flushes(w, n);
    LeadsTwo(Between(w, n), AllocPage(0), s1, Put(w, 7), s2);
    LeadsTwo(s2, Put(w, 7), s3, FlushWrite(1, 0), s4);
    LeadsOn(Between(w, n), [AllocPage(0), Put(w, 7)], s2, [Put(w, 7), FlushWrite(1, 0)], s4);
  }

  lemma RoundLeads(w: nat, n: nat)
    requires w > 0
    ensures Leads(Between(w, n), Round(w, n), Between(w, n + 1))
  {
    var s4, s5, s6 := With(w, Queued(w, n, true), [], 0, [], n + 1, Idle),
      With(w, Full(w, n, 1), [0], 1, [], n + 1, Idle),
      With(w, Full(w, n, 0), [0], 1, [], n + 1, Idle);
    FirstHalf(w, n);
    Lands(w, n);
    Deletes(w, n);
    Sweeps(w, n);
    var land, sweep := [FlushDone(1, 0), Delete(1, VersionAt(n), 1, w)],
      [MaintStart, MaintPage] + [MaintPage, MaintEvict];
    LeadsTwo(s4, FlushDone(1, 0), s5, Delete(1, VersionAt(n), 1, w), s6);
    LeadsOn(s4, land, s6, sweep, Between(w, n + 1));
    LeadsOn(Between(w, n), [AllocPage(0), Put(w, 7)] + [Put(w, 7), FlushWrite(1, 0)], s4, land + sweep,
      Between(w, n + 1));
  }

  function Rounds(w: nat, n: nat): seq<Action> {
    if n == 0 then [] else Rounds(w, n - 1) + Round(w, n - 1)
  }

  lemma LeadsNowhere(s: Engine)
    ensures Leads(s, [], s)
  {}

  lemma {:induction false} RoundsLead(w: nat, n: nat, s: Engine)
    requires w > 0 && s == Between(w, 0)
    ensures Leads(s, Rounds(w, n), Between(w, n))
  {
    if n == 0 {
      LeadsNowhere(s);
    } else {
      RoundsLead(w, n - 1, s);
      RoundLeads(w, n - 1);
      LeadsOn(s, Rounds(w, n - 1), Between(w, n - 1), Round(w, n - 1), Between(w, n));
    }
  }

  lemma {:induction false} FirstStays(w: nat, n: nat)
    requires w > 0
    requires n > 0
    ensures Object(w, 0) in Written(w, n)
  {
    if n > 1 {
      FirstStays(w, n - 1);
    }
  }

  lemma ReusedServesOthers(w: nat)
    requires w > 0
    ensures var pg := Holding(w, VERSIONS, 9);
      Object(w, 0) in pg.log && ReadSane(pg, Object(w, 0).at) && ReadOutcome(pg, Object(w, 0).at) == Bytes(Block(9, w))
  {
    FirstStays(w, VERSIONS);
    assert VersionAt(VERSIONS) == VersionAt(0) == 1;
  }

  /** After any number of rounds the page is taken once more and another object written. */
  lemma WrittenAgain(w: nat, n: nat)
    requires w > 0
    ensures Leads(Small(w), Rounds(w, n) + [AllocPage(0), Put(w, 9)],
      With(w, Holding(w, n, 9), [], 1, [], n + 1, Idle))
  {
    StartsBetween(w);
    RoundsLead(w, n, Small(w));
    var s1, s2 := With(w, Open(w, n), [0], 1, [], n + 1, Idle), With(w, Holding(w, n, 9), [], 1, [], n + 1, Idle);
    Opens(w, n);
    WritesBlock(w, n, 9);
    LeadsTwo(Between(w, n), AllocPage(0), s1, Put(w, 9), s2);
    LeadsOn(Small(w), Rounds(w, n), Between(w, n), [AllocPage(0), Put(w, 9)], s2);
  }

  /** After 2^32 rounds from the start the page is handed its first version back, and the object then
      written is what a reader of the first one is given. Pages and buffers may have any size, 2 MiB and its
      multiples, the ones extstore_init takes, among them. */
  lemma WrappedVersionServesOthers(w: nat)
    requires w > 0
    ensures Leads(Small(w), Rounds(w, VERSIONS) + [AllocPage(0), Put(w, 9)],
      With(w, Holding(w, VERSIONS, 9), [], 1, [], VERSIONS + 1, Idle))
    ensures var pg := Holding(w, VERSIONS, 9);
      Object(w, 0) in pg.log && ReadSane(pg, Object(w, 0).at)
        && ReadOutcome(pg, Object(w, 0).at) == Bytes(Block(9, w)) != Bytes(Object(w, 0).data)
  {
    WrittenAgain(w, VERSIONS);
    ReusedServesOthers(w);
    assert Block(9, w)[0] != Block(7, w)[0];
  }
}
