/** Which page a write goes to: every bucket has a stack of pages, the first of them being filled. A writer
    looks that page up, then tries it, and takes a new one if it is spent, and in between others have
    their turn. The assertion of _allocate_page, that a page is replaced only when it has given out all its
    space, holds if no two writers share a bucket. */
module ExtstoreBuckets {
  import opened Extstore
  import opened ExtstoreEngine
  import Numbers
  import opened Options

  /** Where a writer is in extstore_write_request: before it, with a page looked up, or about to replace a
      page it found spent. */
  datatype Phase =
    | Out
    | Looked(bucket: nat, freeBucket: nat, page: nat)
    | Stuck(bucket: nat, freeBucket: nat)

  datatype Store = Store(e: Engine, buckets: seq<seq<nat>>, writers: seq<Phase>)

  datatype Step =
    | Look(w: nat, bucket: nat, freeBucket: nat)
    | Try(w: nat, data: seq<Byte>, contents: seq<Byte>)
    | Renew(w: nat)
    | Other(a: Action)

  /** The page has given out all its space. */
  predicate Whole(pages: seq<Page>, size: Sizes, p: nat) {
    p < |pages| && pages[p].claimed == size.page
  }

  /** What _allocate_page asserts: the bucket is empty or its first page has given out all its space. */
  predicate Asserted(s: Store, b: nat) {
    b < |s.buckets| && (s.buckets[b] == [] || Whole(s.e.pages, s.e.size, s.buckets[b][0]))
  }

  /** There is a page to be had. */
  predicate HasPage(e: Engine, freeBucket: nat) {
    AllocList(e, freeBucket).Some? && e.lists[AllocList(e, freeBucket).value][0] < |e.pages|
  }

  /** _allocate_page. */
  function Allocated(s: Store, b: nat, freeBucket: nat): Store
    requires b < |s.buckets|
  {
    if HasPage(s.e, freeBucket) then
      var p := s.e.lists[AllocList(s.e, freeBucket).value][0];
      s.(e := Allocate(s.e, freeBucket), buckets := s.buckets[b := [p] + s.buckets[b]])
    else s
  }

  /** A bucket's pages without those that have been freed. */
  function Kept(list: seq<nat>, pages: seq<Page>): seq<nat> {
    if |list| == 0 then []
    else if list[0] < |pages| && pages[list[0]].free then Kept(list[1..], pages)
    else [list[0]] + Kept(list[1..], pages)
  }

  function AllKept(buckets: seq<seq<nat>>, pages: seq<Page>): (bs: seq<seq<nat>>)
    ensures |bs| == |buckets| && forall b :: 0 <= b < |bs| ==> bs[b] == Kept(buckets[b], pages)
  {
    seq(|buckets|, b requires 0 <= b < |buckets| => Kept(buckets[b], pages))
  }

  predicate Possible(s: Store, step: Step) {
    match step
    case Look(w, b, _) => w < |s.writers| && s.writers[w].Out? && b < |s.buckets|
    case Try(w, data, contents) =>
      w < |s.writers| && s.writers[w].Looked? && Enabled(s.e, Write(s.writers[w].page, data, contents))
        && Safe(s.e, Write(s.writers[w].page, data, contents))
    case Renew(w) => w < |s.writers| && s.writers[w].Stuck? && s.writers[w].bucket < |s.buckets|
    case Other(a) => !a.AllocPage? && !a.Write? && Enabled(s.e, a) && Safe(s.e, a)
  }

  function At(s: Store, w: nat, phase: Phase): Store
    requires w < |s.writers|
  {
    s.(writers := s.writers[w := phase])
  }

  /** The page looked up, after one has been taken if there was none. */
  function Looking(s: Store, w: nat, b: nat, freeBucket: nat): Store
    requires w < |s.writers| && b < |s.buckets|
  {
    var s1 := if s.buckets[b] == [] then Allocated(s, b, freeBucket) else s;
    if s1.buckets[b] == [] then s1 else At(s1, w, Looked(b, freeBucket, s1.buckets[b][0]))
  }

  ghost function Then(s: Store, step: Step): Store
    requires Possible(s, step)
  {
    match step
    case Look(w, b, fb) => Looking(s, w, b, fb)
    case Try(w, data, contents) =>
      var ph := s.writers[w];
      if Spent(s.e.pages[ph.page], s.e.size) then At(s, w, Stuck(ph.bucket, ph.freeBucket))
      else At(s.(e := WriteObject(s.e, ph.page, data, contents).0), w, Out)
    case Renew(w) => At(Allocated(s, s.writers[w].bucket, s.writers[w].freeBucket), w, Out)
    case Other(a) => var e := Next(s.e, a); s.(e := e, buckets := AllKept(s.buckets, e.pages))
  }

  /** The step does not fail the assertion of _allocate_page. */
  predicate Holds(s: Store, step: Step)
    requires Possible(s, step)
  {
    match step
    case Look(_, b, _) => s.buckets[b] == [] ==> Asserted(s, b)
    case Renew(w) => Asserted(s, s.writers[w].bucket)
    case _ => true
  }

  // ---- the invariant ----

  /** A bucket's pages are in use, and all but the first have given out all their space. */
  ghost predicate BucketOk(list: seq<nat>, pages: seq<Page>, size: Sizes) {
    forall i :: 0 <= i < |list| ==>
      list[i] < |pages| && !pages[list[i]].free && (i > 0 ==> Whole(pages, size, list[i]))
  }

  ghost predicate BucketsOk(buckets: seq<seq<nat>>, pages: seq<Page>, size: Sizes) {
    forall b :: 0 <= b < |buckets| ==> BucketOk(buckets[b], pages, size)
  }

  /** The first page has given out all its space, unless it is page `p`. */
  predicate FirstWhole(list: seq<nat>, pages: seq<Page>, size: Sizes, p: Option<nat>) {
    list == [] || Some(list[0]) == p || Whole(pages, size, list[0])
  }

  predicate WriterOk(ph: Phase, buckets: seq<seq<nat>>, pages: seq<Page>, size: Sizes) {
    match ph
    case Out => true
    case Looked(b, _, p) => b < |buckets| && p < |pages| && FirstWhole(buckets[b], pages, size, Some(p))
    case Stuck(b, _) => b < |buckets| && FirstWhole(buckets[b], pages, size, None)
  }

  ghost predicate WritersOk(writers: seq<Phase>, buckets: seq<seq<nat>>, pages: seq<Page>, size: Sizes) {
    forall w :: 0 <= w < |writers| ==> WriterOk(writers[w], buckets, pages, size)
  }

  predicate Apart(a: Phase, b: Phase) {
    a.Out? || b.Out? || a.bucket != b.bucket
  }

  /** No two writers are at one bucket. */
  ghost predicate AllApart(writers: seq<Phase>) {
    forall v, w :: 0 <= v < w < |writers| ==> Apart(writers[v], writers[w])
  }

  ghost predicate StoreOk(s: Store) {
    && Inv(s.e) && BucketsOk(s.buckets, s.e.pages, s.e.size)
    && WritersOk(s.writers, s.buckets, s.e.pages, s.e.size) && AllApart(s.writers)
  }

  /** A writer begins on a bucket when no other writer is at it. */
  predicate Orderly(s: Store, step: Step) {
    step.Look? ==> forall v :: 0 <= v < |s.writers| && v != step.w ==> Apart(Stuck(step.bucket, 0), s.writers[v])
  }

  /** No page is handed a version that one of its objects has. */
  predicate FreshStep(s: Store, step: Step)
    requires Possible(s, step)
  {
    match step
    case Look(_, b, fb) => s.buckets[b] == [] ==> Fresh(s.e, AllocPage(fb))
    case Renew(w) => Fresh(s.e, AllocPage(s.writers[w].freeBucket))
    case _ => true
  }

  // ---- pages keep what they have given out ----

  predicate Onward(pg: Page, pg': Page, size: Sizes) {
    pg.claimed == size.page && !pg.free ==> pg'.free || pg'.claimed == size.page
  }

  ghost predicate AllOnward(pages: seq<Page>, pages': seq<Page>, size: Sizes) {
    |pages'| == |pages| && forall p :: 0 <= p < |pages| ==> Onward(pages[p], pages'[p], size)
  }

  lemma SetOnward(e: Engine, p: nat, pg: Page)
    requires p < |e.pages| && Onward(e.pages[p], pg, e.size)
    ensures AllOnward(e.pages, SetPage(e, p, pg).pages, e.size)
  {}

  lemma VisitOnward(e: Engine)
    requires e.maint.Scan? && e.maint.i < |e.pages| && e.pages[e.maint.i].freeBucket < |e.lists|
    ensures AllOnward(e.pages, Visit(e).pages, e.size) && Visit(e).size == e.size
  {}

  lemma EvictOnward(e: Engine)
    requires e.maint.Scan?
      && (e.maint.low.Some? ==> e.maint.low.value < |e.pages| && e.pages[e.maint.low.value].freeBucket < |e.lists|)
    ensures AllOnward(e.pages, Evict(e).pages, e.size) && Evict(e).size == e.size
  {}

  lemma StepOnward(e: Engine, a: Action)
    requires !a.AllocPage? && !a.Write? && Enabled(e, a) && Safe(e, a)
    ensures AllOnward(e.pages, Next(e, a).pages, e.size) && Next(e, a).size == e.size
  {
    match a
    case FlushWrite(p, k) => SetOnward(e, p, Flushed(e.pages[p], k));
    case FlushDone(p, k) => SetOnward(e, p, Landed(e.pages[p], k, e.size));
    case ReadBegin(p, id, at) => SetOnward(e, p, Referenced(e.pages[p], id, at));
    case ReadEnd(p, id) => SetOnward(e, p, Released(e.pages[p], id));
    case Delete(p, version, count, bytes) => SetOnward(e, p, Deleted(e.pages[p], version, count, bytes));
    case Close(p, version) => SetOnward(e, p, Closed(e.pages[p], version));
    case MaintStart =>
    case MaintPage => VisitOnward(e);
    case MaintEvict => EvictOnward(e);
  }

  /** A write frees no page. */
  ghost predicate WrittenOn(pages: seq<Page>, pages': seq<Page>, size: Sizes) {
    AllOnward(pages, pages', size) && forall p :: 0 <= p < |pages| ==> pages'[p].free == pages[p].free
  }

  lemma SetWrittenOn(pages: seq<Page>, size: Sizes, p: nat, pg: Page)
    requires p < |pages| && Onward(pages[p], pg, size) && pg.free == pages[p].free
    ensures WrittenOn(pages, pages[p := pg], size)
  {}

  lemma WriteIsSet(e: Engine, p: nat, data: seq<Byte>, contents: seq<Byte>) returns (pg: Page)
    requires p < |e.pages| && BufferSane(e.pages[p])
    ensures var e' := WriteObject(e, p, data, contents).0;
      e'.pages == e.pages[p := pg] && e'.size == e.size && pg.free == e.pages[p].free && Onward(e.pages[p], pg, e.size)
  {
    pg := WriteObject(e, p, data, contents).0.pages[p];
  }

  lemma WriteOnward(e: Engine, p: nat, data: seq<Byte>, contents: seq<Byte>)
    requires p < |e.pages| && BufferSane(e.pages[p])
    ensures var e' := WriteObject(e, p, data, contents).0; WrittenOn(e.pages, e'.pages, e.size) && e'.size == e.size
  {
    var pg := WriteIsSet(e, p, data, contents);
    SetWrittenOn(e.pages, e.size, p, pg);
  }

  /** A page in use that is spent has given out all its space. */
  lemma SpentIsWhole(pages: seq<Page>, size: Sizes, p: nat)
    requires p < |pages| && CountersOk(pages[p], size) && !pages[p].free && Spent(pages[p], size)
    ensures Whole(pages, size, p)
  {}

  lemma {:induction false} KeptOk(list: seq<nat>, pages: seq<Page>, pages': seq<Page>, size: Sizes)
    requires AllOnward(pages, pages', size) && BucketOk(list, pages, size)
    ensures BucketOk(Kept(list, pages'), pages', size)
    ensures Kept(list, pages') != [] ==> list != []
    ensures Kept(list, pages') != [] && Kept(list, pages')[0] != list[0] ==> Whole(pages', size, Kept(list, pages')[0])
    decreases |list|
  {
    if |list| > 0 {
      var rest := list[1..];
      assert forall i :: 0 <= i < |rest| ==> rest[i] == list[i + 1];
      KeptOk(rest, pages, pages', size);
      assert |rest| > 0 ==> Whole(pages, size, rest[0]) && !pages[rest[0]].free;
    }
  }

  lemma AllKeptOk(buckets: seq<seq<nat>>, pages: seq<Page>, pages': seq<Page>, size: Sizes)
    requires AllOnward(pages, pages', size) && BucketsOk(buckets, pages, size)
    ensures BucketsOk(AllKept(buckets, pages'), pages', size)
  {
    forall b | 0 <= b < |buckets|
      ensures BucketOk(AllKept(buckets, pages')[b], pages', size)
    {
      KeptOk(buckets[b], pages, pages', size);
    }
  }

  lemma KeptFirst(list: seq<nat>, pages: seq<Page>, pages': seq<Page>, size: Sizes, p: Option<nat>)
    requires AllOnward(pages, pages', size) && BucketOk(list, pages, size) && FirstWhole(list, pages, size, p)
    ensures FirstWhole(Kept(list, pages'), pages', size, p)
  {
    KeptOk(list, pages, pages', size);
    var kept := Kept(list, pages');
    if kept != [] && kept[0] == list[0] && Some(list[0]) != p {
      assert Onward(pages[list[0]], pages'[list[0]], size);
      assert !pages'[kept[0]].free;
    }
  }

  lemma AllKeptWriters(writers: seq<Phase>, buckets: seq<seq<nat>>, pages: seq<Page>, pages': seq<Page>, size: Sizes)
    requires AllOnward(pages, pages', size) && BucketsOk(buckets, pages, size)
    requires WritersOk(writers, buckets, pages, size)
    ensures WritersOk(writers, AllKept(buckets, pages'), pages', size)
  {
    forall w | 0 <= w < |writers|
      ensures WriterOk(writers[w], AllKept(buckets, pages'), pages', size)
    {
      if !writers[w].Out? {
        var p := if writers[w].Looked? then Some(writers[w].page) else None;
        KeptFirst(buckets[writers[w].bucket], pages, pages', size, p);
      }
    }
  }

  lemma OtherOk(s: Store, a: Action)
    requires StoreOk(s) && Possible(s, Other(a))
    ensures StoreOk(Then(s, Other(a)))
  {
    StepKeeps(s.e, a);
    StepOnward(s.e, a);
    AllKeptOk(s.buckets, s.e.pages, Next(s.e, a).pages, s.e.size);
    AllKeptWriters(s.writers, s.buckets, s.e.pages, Next(s.e, a).pages, s.e.size);
  }

  // ---- what a writer does ----

  /** Pages that are still in use and as far as before. */
  lemma SameBuckets(buckets: seq<seq<nat>>, writers: seq<Phase>, pages: seq<Page>, pages': seq<Page>, size: Sizes)
    requires WrittenOn(pages, pages', size) && BucketsOk(buckets, pages, size)
    requires WritersOk(writers, buckets, pages, size)
    ensures BucketsOk(buckets, pages', size) && WritersOk(writers, buckets, pages', size)
  {
    forall b | 0 <= b < |buckets|
      ensures BucketOk(buckets[b], pages', size)
    {
      assert BucketOk(buckets[b], pages, size);
    }
    forall w | 0 <= w < |writers|
      ensures WriterOk(writers[w], buckets, pages', size)
    {
      assert WriterOk(writers[w], buckets, pages, size);
      if !writers[w].Out? {
        assert BucketOk(buckets[writers[w].bucket], pages, size);
      }
    }
  }

  lemma PhaseOk(s: Store, w: nat, ph: Phase)
    requires StoreOk(s) && w < |s.writers| && WriterOk(ph, s.buckets, s.e.pages, s.e.size)
    requires ph.Out? || forall v :: 0 <= v < |s.writers| && v != w ==> Apart(ph, s.writers[v])
    ensures StoreOk(At(s, w, ph))
  {}

  lemma TryOk(s: Store, w: nat, data: seq<Byte>, contents: seq<Byte>)
    requires StoreOk(s) && Possible(s, Try(w, data, contents))
    ensures StoreOk(Then(s, Try(w, data, contents)))
  {
    var ph := s.writers[w];
    assert WriterOk(ph, s.buckets, s.e.pages, s.e.size);
    if Spent(s.e.pages[ph.page], s.e.size) {
      if s.buckets[ph.bucket] != [] && s.buckets[ph.bucket][0] == ph.page {
        assert BucketOk(s.buckets[ph.bucket], s.e.pages, s.e.size);
        SpentIsWhole(s.e.pages, s.e.size, ph.page);
      }
      PhaseOk(s, w, Stuck(ph.bucket, ph.freeBucket));
    } else {
      StepKeeps(s.e, Write(ph.page, data, contents));
      WriteOnward(s.e, ph.page, data, contents);
      var e := WriteObject(s.e, ph.page, data, contents).0;
      SameBuckets(s.buckets, s.writers, s.e.pages, e.pages, s.e.size);
      PhaseOk(s.(e := e), w, Out);
    }
  }

  /** A new page in front. */
  lemma PushedOk(buckets: seq<seq<nat>>, pages: seq<Page>, size: Sizes, b: nat, p: nat, pg: Page)
    requires BucketsOk(buckets, pages, size) && b < |buckets| && FirstWhole(buckets[b], pages, size, None)
    requires p < |pages| && pages[p].free && !pg.free
    ensures BucketsOk(buckets[b := [p] + buckets[b]], pages[p := pg], size)
  {
    var pages', buckets' := pages[p := pg], buckets[b := [p] + buckets[b]];
    forall c | 0 <= c < |buckets'|
      ensures BucketOk(buckets'[c], pages', size)
    {
      assert BucketOk(buckets[c], pages, size);
    }
  }

  lemma OthersOk(writers: seq<Phase>, buckets: seq<seq<nat>>, pages: seq<Page>, size: Sizes, b: nat, p: nat, pg: Page,
      w: nat)
    requires BucketsOk(buckets, pages, size) && WritersOk(writers, buckets, pages, size) && b < |buckets|
    requires p < |pages| && pages[p].free
    requires w < |writers| && forall v :: 0 <= v < |writers| && v != w ==> Apart(Stuck(b, 0), writers[v])
    ensures forall v :: 0 <= v < |writers| && v != w ==>
      WriterOk(writers[v], buckets[b := [p] + buckets[b]], pages[p := pg], size)
  {
    forall v | 0 <= v < |writers| && v != w
      ensures WriterOk(writers[v], buckets[b := [p] + buckets[b]], pages[p := pg], size)
    {
      assert WriterOk(writers[v], buckets, pages, size) && Apart(Stuck(b, 0), writers[v]);
      if !writers[v].Out? {
        assert BucketOk(buckets[writers[v].bucket], pages, size);
      }
    }
  }

  /** _allocate_page for a writer at the bucket, whose phase becomes `ph`. */
  lemma AllocatedOk(s: Store, w: nat, b: nat, fb: nat, ph: Phase)
    requires StoreOk(s) && w < |s.writers| && Asserted(s, b) && Fresh(s.e, AllocPage(fb)) && HasPage(s.e, fb)
    requires forall v :: 0 <= v < |s.writers| && v != w ==> Apart(Stuck(b, 0), s.writers[v])
    requires ph.Out? || ph == Looked(b, fb, s.e.lists[AllocList(s.e, fb).value][0])
    ensures StoreOk(At(Allocated(s, b, fb), w, ph))
  {
    var p := s.e.lists[AllocList(s.e, fb).value][0];
    var pg := Opened(s.e.pages[p], VersionAt(s.e.allocs));
    StepKeeps(s.e, AllocPage(fb));
    PushedOk(s.buckets, s.e.pages, s.e.size, b, p, pg);
    OthersOk(s.writers, s.buckets, s.e.pages, s.e.size, b, p, pg, w);
    AtOk(Allocated(s, b, fb), w, ph);
  }

  lemma AtOk(s: Store, w: nat, ph: Phase)
    requires Inv(s.e) && BucketsOk(s.buckets, s.e.pages, s.e.size) && w < |s.writers| && AllApart(s.writers)
    requires forall v :: 0 <= v < |s.writers| && v != w ==> WriterOk(s.writers[v], s.buckets, s.e.pages, s.e.size)
    requires WriterOk(ph, s.buckets, s.e.pages, s.e.size)
    requires ph.Out? || forall v :: 0 <= v < |s.writers| && v != w ==> Apart(ph, s.writers[v])
    ensures StoreOk(At(s, w, ph))
  {}

  lemma LookOk(s: Store, w: nat, b: nat, fb: nat)
    requires StoreOk(s) && Possible(s, Look(w, b, fb)) && Orderly(s, Look(w, b, fb)) && FreshStep(s, Look(w, b, fb))
    ensures StoreOk(Looking(s, w, b, fb))
  {
    if s.buckets[b] == [] {
      if HasPage(s.e, fb) {
        AllocatedOk(s, w, b, fb, Looked(b, fb, s.e.lists[AllocList(s.e, fb).value][0]));
      }
    } else {
      assert BucketOk(s.buckets[b], s.e.pages, s.e.size);
      PhaseOk(s, w, Looked(b, fb, s.buckets[b][0]));
    }
  }

  lemma RenewOk(s: Store, w: nat)
    requires StoreOk(s) && Possible(s, Renew(w)) && FreshStep(s, Renew(w))
    ensures Asserted(s, s.writers[w].bucket) && StoreOk(Then(s, Renew(w)))
  {
    var b, fb := s.writers[w].bucket, s.writers[w].freeBucket;
    assert WriterOk(s.writers[w], s.buckets, s.e.pages, s.e.size);
    if HasPage(s.e, fb) {
      AllocatedOk(s, w, b, fb, Out);
    } else {
      PhaseOk(s, w, Out);
    }
  }

  /** Every step keeps it, and none fails the assertion, if no two writers share a bucket. */
  lemma StepHolds(s: Store, step: Step)
    requires StoreOk(s) && Possible(s, step) && Orderly(s, step) && FreshStep(s, step)
    ensures Holds(s, step) && StoreOk(Then(s, step))
  {
    match step
    case Look(w, b, fb) => LookOk(s, w, b, fb);
    case Try(w, data, contents) => TryOk(s, w, data, contents);
    case Renew(w) => RenewOk(s, w);
    case Other(a) => OtherOk(s, a);
  }

  // ---- whole runs ----

  /** Steps that can follow one another. */
  ghost predicate CanRun(s: Store, steps: seq<Step>)
    decreases |steps|
  {
    |steps| > 0 ==> Possible(s, steps[0]) && CanRun(Then(s, steps[0]), steps[1..])
  }

  /** In all of them no two writers share a bucket, and no version comes back. */
  ghost predicate AllOrderly(s: Store, steps: seq<Step>)
    requires CanRun(s, steps)
    decreases |steps|
  {
    |steps| > 0 ==>
      Orderly(s, steps[0]) && FreshStep(s, steps[0]) && AllOrderly(Then(s, steps[0]), steps[1..])
  }

  ghost predicate AllHold(s: Store, steps: seq<Step>)
    requires CanRun(s, steps)
    decreases |steps|
  {
    |steps| > 0 ==> Holds(s, steps[0]) && AllHold(Then(s, steps[0]), steps[1..])
  }

  lemma {:induction false} RunHolds(s: Store, steps: seq<Step>)
    requires StoreOk(s) && CanRun(s, steps) && AllOrderly(s, steps)
    ensures AllHold(s, steps)
    decreases |steps|
  {
    if |steps| > 0 {
      StepHolds(s, steps[0]);
      RunHolds(Then(s, steps[0]), steps[1..]);
    }
  }

  /** The store at its start, with empty buckets and its writers elsewhere. */
  function Begin(size: Sizes, freeBuckets: seq<nat>, lists: nat, wbufs: nat, buckets: nat, writers: nat): Store
    requires 0 < |freeBuckets| && forall k :: 0 <= k < |freeBuckets| ==> freeBuckets[k] < lists
  {
    Store(InitEngine(size, freeBuckets, lists, wbufs), seq(buckets, _ => []), seq(writers, _ => Out))
  }

  /** Over every run from the start in which no two writers share a bucket, a page is replaced only when it has
      given out all its space. */
  lemma PagesAreReplacedWhole(size: Sizes, freeBuckets: seq<nat>, lists: nat, wbufs: nat, buckets: nat, writers: nat,
      steps: seq<Step>)
    requires 0 < |freeBuckets| && forall k :: 0 <= k < |freeBuckets| ==> freeBuckets[k] < lists
    requires 0 < size.wbuf && 0 < size.page && Numbers.Multiple(size.page, size.wbuf)
    requires var s := Begin(size, freeBuckets, lists, wbufs, buckets, writers); CanRun(s, steps) && AllOrderly(s, steps)
    ensures AllHold(Begin(size, freeBuckets, lists, wbufs, buckets, writers), steps)
  {
    InitOk(size, freeBuckets, lists, wbufs);
    RunHolds(Begin(size, freeBuckets, lists, wbufs, buckets, writers), steps);
  }

  // ---- two writers at one bucket ----

  ghost function Ran(s: Store, steps: seq<Step>): Store
    requires CanRun(s, steps)
    decreases |steps|
  {
    if |steps| == 0 then s else Ran(Then(s, steps[0]), steps[1..])
  }

  /** The steps lead from `s` to `s'` without failing the assertion. */
  ghost predicate Leads(s: Store, steps: seq<Step>, s': Store) {
    CanRun(s, steps) && AllHold(s, steps) && Ran(s, steps) == s'
  }

  ghost predicate Goes(s: Store, step: Step, s': Store) {
    Possible(s, step) && Holds(s, step) && Then(s, step) == s'
  }

  lemma LeadsOn(s: Store, step: Step, s1: Store, steps: seq<Step>, s': Store)
    requires Goes(s, step, s1) && Leads(s1, steps, s')
    ensures Leads(s, [step] + steps, s')
  {
    assert ([step] + steps)[1..] == steps;
  }

  lemma LeadsTwo(s: Store, a: Step, s1: Store, b: Step, s2: Store, steps: seq<Step>, s': Store)
    requires Goes(s, a, s1) && Goes(s1, b, s2) && Leads(s2, steps, s')
    ensures Leads(s, [a] + ([b] + steps), s')
  {
    LeadsOn(s1, b, s2, steps, s');
    LeadsOn(s, a, s1, [b] + steps, s');
  }

  lemma LeadsOne(s: Store, a: Step, s': Store)
    requires Goes(s, a, s')
    ensures Leads(s, [a] + [], s')
  {
    assert Leads(s', [], s');
    LeadsOn(s, a, s', [], s');
  }

  /** What two writers do who find the same page spent: each looks it up, each tries it, one replaces it. */
  function Both(w: nat, v: nat, b: nat, fb: nat, data: seq<Byte>, contents: seq<Byte>): seq<Step> {
    [Look(w, b, fb)] + ([Look(v, b, fb)] + ([Try(w, data, contents)] + ([Try(v, data, contents)] + ([Renew(w)] + []))))
  }

  /** The bucket's first page is spent, and there is another to be had. */
  predicate SpentFirst(s: Store, b: nat, fb: nat) {
    && b < |s.buckets| && s.buckets[b] != [] && Whole(s.e.pages, s.e.size, s.buckets[b][0])
    && Spent(s.e.pages[s.buckets[b][0]], s.e.size) && HasPage(s.e, fb)
  }

  lemma NewIsNotWhole(s: Store, b: nat, fb: nat)
    requires Inv(s.e) && b < |s.buckets| && HasPage(s.e, fb)
    ensures !Asserted(Allocated(s, b, fb), b)
  {
    var l := AllocList(s.e, fb).value;
    assert s.e.pages[s.e.lists[l][0]].free;
  }

  lemma Looks(s: Store, w: nat, b: nat, fb: nat)
    requires SpentFirst(s, b, fb) && w < |s.writers| && s.writers[w].Out?
    ensures Goes(s, Look(w, b, fb), At(s, w, Looked(b, fb, s.buckets[b][0])))
  {}

  lemma Tries(s: Store, w: nat, b: nat, fb: nat, data: seq<Byte>, contents: seq<Byte>)
    requires Inv(s.e) && SpentFirst(s, b, fb) && |data| > 0 && |contents| == s.e.size.wbuf
    requires w < |s.writers| && s.writers[w] == Looked(b, fb, s.buckets[b][0])
    ensures Goes(s, Try(w, data, contents), At(s, w, Stuck(b, fb)))
  {
    EnabledIsSafe(s.e, Write(s.buckets[b][0], data, contents));
  }

  /** One of two writers who are about to replace the page does so, and the other fails the assertion. */
  lemma OneReplaces(s: Store, w: nat, v: nat, b: nat, fb: nat) returns (s': Store)
    requires Inv(s.e) && SpentFirst(s, b, fb) && w < |s.writers| && v < |s.writers| && v != w
    requires s.writers[w] == s.writers[v] == Stuck(b, fb)
    ensures Goes(s, Renew(w), s') && Possible(s', Renew(v)) && !Holds(s', Renew(v))
  {
    s' := Then(s, Renew(w));
    NewIsNotWhole(s, b, fb);
  }

  /** The second writer to replace a page that both found spent fails the assertion, whatever the state. */
  lemma SecondWriterFails(s: Store, w: nat, v: nat, b: nat, fb: nat, data: seq<Byte>, contents: seq<Byte>)
    returns (s': Store)
    requires Inv(s.e) && SpentFirst(s, b, fb) && |data| > 0 && |contents| == s.e.size.wbuf
    requires w < |s.writers| && v < |s.writers| && v != w && s.writers[w].Out? && s.writers[v].Out?
    ensures Leads(s, Both(w, v, b, fb, data, contents), s') && Possible(s', Renew(v)) && !Holds(s', Renew(v))
  {
    var p := s.buckets[b][0];
    var s1 := At(s, w, Looked(b, fb, p));
    var s2 := At(s1, v, Looked(b, fb, p));
    var s3 := At(s2, w, Stuck(b, fb));
    var s4 := At(s3, v, Stuck(b, fb));
    Looks(s, w, b, fb);
    Looks(s1, v, b, fb);
    Tries(s2, w, b, fb, data, contents);
    Tries(s3, v, b, fb, data, contents);
    s' := OneReplaces(s4, w, v, b, fb);
    LeadsOne(s4, Renew(w), s');
    LeadsTwo(s2, Try(w, data, contents), s3, Try(v, data, contents), s4, [Renew(w)] + [], s');
    LeadsTwo(s, Look(w, b, fb), s1, Look(v, b, fb), s2,
      [Try(w, data, contents)] + ([Try(v, data, contents)] + ([Renew(w)] + [])), s');
  }
}
