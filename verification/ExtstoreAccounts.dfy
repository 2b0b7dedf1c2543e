/** What the counters of a page are for. Owners delete their objects once each, and then a page's counters are
    the number and the length of its objects that have not been deleted, so that the maintenance pass frees
    an open page exactly when it holds nothing any more, and an object that nobody has deleted is missed only
    because its page has been closed or evicted. */
module ExtstoreAccounts {
  import opened Extstore
  import opened ExtstoreEngine
  import Numbers
  import opened Options

  /** A step of the engine, or the deletion of one object by its owner. */
  datatype Deed = Step(a: Action) | Remove(page: nat, r: Record)

  function ActOf(d: Deed): Action {
    match d
    case Step(a) => a
    case Remove(p, r) => Delete(p, r.at.version, 1, r.at.len)
  }

  /** The engine, and for every page the objects it holds that have not been deleted. */
  datatype Books = Books(e: Engine, live: seq<set<Record>>)

  /** Owners delete what they own, or what is gone. */
  ghost predicate Allowed(b: Books, d: Deed) {
    && Enabled(b.e, ActOf(d)) && Safe(b.e, ActOf(d)) && (d.Step? ==> !d.a.Delete?)
    && |b.live| == |b.e.pages|
    && (d.Remove? ==> d.r in b.live[d.page] || Gone(b.e.pages[d.page], d.r.at.version))
  }

  /** What a write adds to its page. */
  ghost function Put(e: Engine, d: Deed, p: nat): set<Record>
    requires Enabled(e, ActOf(d)) && Safe(e, ActOf(d))
  {
    if d.Step? && d.a.Write? && d.a.page == p && WriteObject(e, p, d.a.data, d.a.contents).1.Some?
    then {Record(WriteObject(e, p, d.a.data, d.a.contents).1.value, d.a.data)} else {}
  }

  /** What a deletion takes from it: a closed page is not told. */
  function Taken(e: Engine, d: Deed, p: nat): set<Record> {
    if d.Remove? && d.page == p && p < |e.pages| && !e.pages[p].closed then {d.r} else {}
  }

  /** The page's objects after a step that leaves it free or not. */
  function Left(free: bool, live: set<Record>, put: set<Record>, taken: set<Record>): set<Record> {
    if free then {} else live + put - taken
  }

  ghost function LiveAt(b: Books, d: Deed, pages: seq<Page>, p: nat): set<Record>
    requires Allowed(b, d) && p < |b.live| == |pages|
  {
    Left(pages[p].free, b.live[p], Put(b.e, d, p), Taken(b.e, d, p))
  }

  ghost function Then(b: Books, d: Deed): (b': Books)
    requires Allowed(b, d)
  {
    StepGrows(b.e, ActOf(d));
    var e := Next(b.e, ActOf(d));
    Books(e, seq(|b.live|, p requires 0 <= p < |b.live| => LiveAt(b, d, e.pages, p)))
  }

  // ---- the length of a set of objects ----

  ghost function Length(rs: set<Record>): nat {
    if rs == {} then 0 else var r :| r in rs; r.at.len + Length(rs - {r})
  }

  lemma {:induction false} LengthWithout(rs: set<Record>, x: Record)
    requires x in rs
    ensures Length(rs) == x.at.len + Length(rs - {x})
    decreases |rs|
  {
    var r :| r in rs && Length(rs) == r.at.len + Length(rs - {r});
    if r != x {
      LengthWithout(rs - {r}, x);
      LengthWithout(rs - {x}, r);
      assert rs - {r} - {x} == rs - {x} - {r};
    }
  }

  lemma LengthWith(rs: set<Record>, x: Record)
    requires x !in rs
    ensures Length(rs + {x}) == x.at.len + Length(rs)
  {
    LengthWithout(rs + {x}, x);
    assert rs + {x} - {x} == rs;
  }

  // ---- the invariant ----

  /** The page's counters are those of its objects. */
  ghost predicate AccountOk(pg: Page, live: set<Record>) {
    && live <= pg.log && (forall r :: r in live ==> r.at.version == pg.version)
    && (pg.free ==> live == {})
    && pg.objCount == |live| && pg.bytesUsed == Length(live)
  }

  ghost predicate Balanced(b: Books) {
    && Inv(b.e) && |b.live| == |b.e.pages|
    && forall p :: 0 <= p < |b.live| ==> AccountOk(b.e.pages[p], b.live[p])
  }

  // ---- what steps do to the counters ----

  predicate SameAccount(pg: Page, pg': Page) {
    pg'.objCount == pg.objCount && pg'.bytesUsed == pg.bytesUsed && pg'.log == pg.log && pg'.version == pg.version
      && pg'.free == pg.free
  }

  predicate Emptied(pg': Page) {
    pg'.free && pg'.objCount == 0 && pg'.bytesUsed == 0
  }

  predicate Reopened(pg: Page, pg': Page) {
    pg.free && pg'.objCount == pg.objCount && pg'.bytesUsed == pg.bytesUsed && !pg'.free
  }

  predicate Kept(pg: Page, pg': Page) {
    SameAccount(pg, pg') || Emptied(pg') || Reopened(pg, pg')
  }

  ghost predicate AllKept(pages: seq<Page>, pages': seq<Page>) {
    |pages'| == |pages| && forall p :: 0 <= p < |pages| ==> Kept(pages[p], pages'[p])
  }

  lemma SetKept(e: Engine, p: nat, pg: Page)
    requires p < |e.pages| && Kept(e.pages[p], pg)
    ensures AllKept(e.pages, SetPage(e, p, pg).pages)
  {}

  lemma VisitKept(e: Engine)
    requires e.maint.Scan? && e.maint.i < |e.pages| && e.pages[e.maint.i].freeBucket < |e.lists|
    ensures AllKept(e.pages, Visit(e).pages)
  {}

  lemma EvictKept(e: Engine)
    requires e.maint.Scan?
      && (e.maint.low.Some? ==> e.maint.low.value < |e.pages| && e.pages[e.maint.low.value].freeBucket < |e.lists|)
    ensures AllKept(e.pages, Evict(e).pages)
  {}

  lemma AllocKept(e: Engine, fb: nat)
    requires Inv(e)
    ensures AllKept(e.pages, Allocate(e, fb).pages)
  {}

  lemma StepKept(e: Engine, a: Action)
    requires Inv(e) && Enabled(e, a) && Safe(e, a) && !a.Write? && !a.Delete?
    ensures AllKept(e.pages, Next(e, a).pages)
  {
    match a
    case AllocPage(fb) => AllocKept(e, fb);
    case FlushWrite(p, k) => SetKept(e, p, Flushed(e.pages[p], k));
    case FlushDone(p, k) => SetKept(e, p, Landed(e.pages[p], k, e.size));
    case ReadBegin(p, id, at) => SetKept(e, p, Referenced(e.pages[p], id, at));
    case ReadEnd(p, id) => SetKept(e, p, Released(e.pages[p], id));
    case Close(p, version) => SetKept(e, p, Closed(e.pages[p], version));
    case MaintStart =>
    case MaintPage => VisitKept(e);
    case MaintEvict => EvictKept(e);
  }

  // ---- every step keeps the balance ----

  lemma KeptOk(pg: Page, pg': Page, live: set<Record>)
    requires AccountOk(pg, live) && Kept(pg, pg')
    ensures AccountOk(pg', Left(pg'.free, live, {}, {}))
  {
    assert live + {} - {} == live;
  }

  /** Where an object goes there is none yet. */
  lemma PlaceIsNew(pg: Page, size: Sizes, data: seq<Byte>, r: Record)
    requires PageOk(pg, size) && pg.wbuf.Some? && 0 < |data| && !pg.free
    requires r in pg.log && r.at.version == pg.version
    ensures r.at != PlaceOf(pg, |data|)
  {
    assert Held(pg, r);
  }

  lemma AppendedOk(pg: Page, size: Sizes, data: seq<Byte>, live: set<Record>)
    requires PageOk(pg, size) && pg.wbuf.Some? && 0 < |data| <= pg.wbuf.value.free && !pg.free && AccountOk(pg, live)
    ensures AccountOk(Appended(pg, data), live + {Record(PlaceOf(pg, |data|), data)})
  {
    var r := Record(PlaceOf(pg, |data|), data);
    if r in live {
      PlaceIsNew(pg, size, data, r);
    }
    LengthWith(live, r);
  }

  lemma SubmitPage(e: Engine, p: nat, len: nat) returns (pg: Page)
    requires p < |e.pages| && BufferSane(e.pages[p])
    ensures SameAccount(e.pages[p], pg) && SubmitIfTight(e, p, len).pages == e.pages[p := pg]
  {
    pg := SubmitIfTight(e, p, len).pages[p];
  }

  lemma AttachPage(e: Engine, p: nat, contents: seq<Byte>) returns (pg: Page)
    requires p < |e.pages|
    ensures SameAccount(e.pages[p], pg) && AttachIfBare(e, p, contents).pages == e.pages[p := pg]
  {
    pg := AttachIfBare(e, p, contents).pages[p];
  }

  /** The engine when the page is about to be written to. */
  function Ready(e: Engine, p: nat, len: nat, contents: seq<Byte>): Engine
    requires p < |e.pages| && BufferSane(e.pages[p])
  {
    AttachIfBare(SubmitIfTight(e, p, len), p, contents)
  }

  lemma ReadyIs(e: Engine, p: nat, len: nat, contents: seq<Byte>)
    requires Inv(e) && p < |e.pages| && e.pages[p].active && |contents| == e.size.wbuf
    ensures BufferSane(e.pages[p]) && Inv(Ready(e, p, len, contents)) && Ready(e, p, len, contents).size == e.size
  {
    SubmitKeeps(e, p, len);
    AttachKeeps(SubmitIfTight(e, p, len), p, contents);
  }

  lemma ReadyPage(e: Engine, p: nat, len: nat, contents: seq<Byte>) returns (pg: Page)
    requires p < |e.pages| && BufferSane(e.pages[p])
    ensures SameAccount(e.pages[p], pg) && Ready(e, p, len, contents).pages == e.pages[p := pg]
  {
    var e0 := SubmitIfTight(e, p, len);
    var pg0 := SubmitPage(e, p, len);
    pg := AttachPage(e0, p, contents);
  }

  /** The page after a write, and what it held just before the object. */
  ghost predicate Writes(e: Engine, p: nat, data: seq<Byte>, pg: Page, e': Engine, at: Option<Read>) {
    && p < |e.pages| && SameAccount(e.pages[p], pg) && PageOk(pg, e.size)
    && if at.Some? then
         && Takes(pg, |data|) && !pg.free && BufferSane(pg)
         && e'.pages == e.pages[p := Appended(pg, data)] && at.value == PlaceOf(pg, |data|)
       else e'.pages == e.pages[p := pg]
  }

  lemma WrittenPage(e: Engine, p: nat, data: seq<Byte>, contents: seq<Byte>) returns (pg: Page)
    requires Inv(e) && p < |e.pages| && BufferSane(e.pages[p]) && |contents| == e.size.wbuf
    ensures Writes(e, p, data, pg, WriteObject(e, p, data, contents).0, WriteObject(e, p, data, contents).1)
  {
    pg := e.pages[p];
    assert PageOk(pg, e.size);
    if !Spent(pg, e.size) {
      ReadyIs(e, p, |data|, contents);
      pg := ReadyPage(e, p, |data|, contents);
      assert Ready(e, p, |data|, contents).pages[p] == pg;
      assert PageOk(pg, e.size);
    } else {
      assert e.pages[p := pg] == e.pages;
    }
  }

  lemma WrittenOk(e: Engine, p: nat, data: seq<Byte>, pg: Page, e': Engine, at: Option<Read>, live: set<Record>)
    requires Writes(e, p, data, pg, e', at) && AccountOk(e.pages[p], live) && |data| > 0
    ensures AccountOk(e'.pages[p], if at.Some? then live + {Record(at.value, data)} else live)
  {
    assert SameAccount(e.pages[p], pg) && AccountOk(pg, live);
    if at.Some? {
      AppendedOk(pg, e.size, data, live);
    }
  }

  lemma LeftIs(pg: Page, live: set<Record>, put: set<Record>, taken: set<Record>)
    requires AccountOk(pg, live + put - taken)
    ensures AccountOk(pg, Left(pg.free, live, put, taken))
  {}

  lemma WriteLeft(live: set<Record>, at: Option<Read>, data: seq<Byte>, pg: Page, put: set<Record>)
    requires put == if at.Some? then {Record(at.value, data)} else {}
    requires AccountOk(pg, if at.Some? then live + {Record(at.value, data)} else live)
    ensures AccountOk(pg, Left(pg.free, live, put, {}))
  {
    assert live + put - {} == live + put && live + {} == live;
    LeftIs(pg, live, put, {});
  }

  lemma WriteAccount(e: Engine, p: nat, data: seq<Byte>, contents: seq<Byte>, live: set<Record>, e': Engine,
      at: Option<Read>, put: set<Record>)
    requires Inv(e) && p < |e.pages| && BufferSane(e.pages[p]) && |contents| == e.size.wbuf && |data| > 0
    requires AccountOk(e.pages[p], live) && (e', at) == WriteObject(e, p, data, contents)
    requires put == if at.Some? then {Record(at.value, data)} else {}
    ensures |e'.pages| == |e.pages| && AccountOk(e'.pages[p], Left(e'.pages[p].free, live, put, {}))
    ensures forall q :: 0 <= q < |e.pages| && q != p ==> e'.pages[q] == e.pages[q]
  {
    var pg := WrittenPage(e, p, data, contents);
    WrittenOk(e, p, data, pg, e', at, live);
    WriteLeft(live, at, data, e'.pages[p], put);
  }

  lemma WriteHere(b: Books, a: Action, pages: seq<Page>)
    requires Balanced(b) && Allowed(b, Step(a)) && a.Write? && pages == Next(b.e, a).pages
    ensures |pages| == |b.live| && a.page < |b.live| && AccountOk(pages[a.page], LiveAt(b, Step(a), pages, a.page))
    ensures forall q :: 0 <= q < |pages| && q != a.page ==> pages[q] == b.e.pages[q]
  {
    var (e', at) := WriteObject(b.e, a.page, a.data, a.contents);
    WriteAccount(b.e, a.page, a.data, a.contents, b.live[a.page], e', at, Put(b.e, Step(a), a.page));
  }

  lemma Elsewhere(b: Books, d: Deed, pages: seq<Page>, q: nat)
    requires Balanced(b) && Allowed(b, d) && q < |b.live| == |pages| && pages[q] == b.e.pages[q]
    requires Put(b.e, d, q) == {} == Taken(b.e, d, q)
    ensures AccountOk(pages[q], LiveAt(b, d, pages, q))
  {
    assert AccountOk(b.e.pages[q], b.live[q]);
    KeptOk(b.e.pages[q], pages[q], b.live[q]);
  }

  lemma DeletedAccount(pg: Page, r: Record, live: set<Record>)
    requires AccountOk(pg, live) && (r in live || Gone(pg, r.at.version))
    ensures AccountOk(Deleted(pg, r.at.version, 1, r.at.len), if pg.closed then live else live - {r})
  {
    if r in live {
      LengthWithout(live, r);
    } else {
      assert live - {r} == live;
    }
  }

  lemma RemoveLeft(pg: Page, r: Record, live: set<Record>, pg': Page, taken: set<Record>)
    requires AccountOk(pg, live) && (r in live || Gone(pg, r.at.version))
    requires pg' == Deleted(pg, r.at.version, 1, r.at.len) && taken == if pg.closed then {} else {r}
    ensures AccountOk(pg', Left(pg'.free, live, {}, taken))
  {
    DeletedAccount(pg, r, live);
    assert live + {} - taken == if pg.closed then live else live - {r};
    LeftIs(pg', live, {}, taken);
  }

  lemma RemoveNext(e: Engine, p: nat, r: Record, pages: seq<Page>)
    requires Enabled(e, ActOf(Remove(p, r))) && Safe(e, ActOf(Remove(p, r)))
    requires pages == Next(e, ActOf(Remove(p, r))).pages
    ensures p < |e.pages| && pages == e.pages[p := Deleted(e.pages[p], r.at.version, 1, r.at.len)]
  {}

  lemma RemoveHere(b: Books, p: nat, r: Record, pages: seq<Page>)
    requires Balanced(b) && Allowed(b, Remove(p, r)) && pages == Next(b.e, ActOf(Remove(p, r))).pages
    ensures |pages| == |b.live| && p < |b.live| && AccountOk(pages[p], LiveAt(b, Remove(p, r), pages, p))
    ensures forall q :: 0 <= q < |pages| && q != p ==> pages[q] == b.e.pages[q]
  {
    RemoveNext(b.e, p, r, pages);
    RemoveLeft(b.e.pages[p], r, b.live[p], pages[p], Taken(b.e, Remove(p, r), p));
  }

  lemma OtherHere(b: Books, a: Action, pages: seq<Page>, q: nat)
    requires Balanced(b) && Allowed(b, Step(a)) && !a.Write? && pages == Next(b.e, a).pages && q < |b.live|
    ensures |pages| == |b.live| && AccountOk(pages[q], LiveAt(b, Step(a), pages, q))
  {
    StepKept(b.e, a);
    assert AccountOk(b.e.pages[q], b.live[q]) && Kept(b.e.pages[q], pages[q]);
    KeptOk(b.e.pages[q], pages[q], b.live[q]);
  }

  lemma DeedAt(b: Books, d: Deed, pages: seq<Page>, q: nat)
    requires Balanced(b) && Allowed(b, d) && pages == Next(b.e, ActOf(d)).pages && q < |b.live|
    ensures |pages| == |b.live| && AccountOk(pages[q], LiveAt(b, d, pages, q))
  {
    if d.Remove? {
      RemoveHere(b, d.page, d.r, pages);
      if q != d.page {
        Elsewhere(b, d, pages, q);
      }
    } else if d.a.Write? {
      WriteHere(b, d.a, pages);
      if q != d.a.page {
        Elsewhere(b, d, pages, q);
      }
    } else {
      OtherHere(b, d.a, pages, q);
    }
  }

  /** Every step keeps the balance, unless it hands a page a version back. */
  lemma DeedBalanced(b: Books, d: Deed)
    requires Balanced(b) && Allowed(b, d) && Fresh(b.e, ActOf(d))
    ensures Balanced(Then(b, d))
  {
    StepKeeps(b.e, ActOf(d));
    var b' := Then(b, d);
    StepGrows(b.e, ActOf(d));
    forall q | 0 <= q < |b'.live|
      ensures AccountOk(b'.e.pages[q], b'.live[q])
    {
      DeedAt(b, d, b'.e.pages, q);
    }
  }

  /** The pass frees a page exactly if nobody fills or reads it and it is closed or holds nothing that has not
      been deleted. */
  lemma FreedIff(b: Books)
    requires Balanced(b) && Enabled(b.e, MaintPage) && Safe(b.e, MaintPage)
    ensures var pg := b.e.pages[b.e.maint.i];
      |Visit(b.e).pages| == |b.e.pages|
      && (Visit(b.e).pages[b.e.maint.i].free && !pg.free <==>
        !pg.active && !pg.free && pg.refcount == 0 && (pg.closed || b.live[b.e.maint.i] == {}))
  {
    assert AccountOk(b.e.pages[b.e.maint.i], b.live[b.e.maint.i]);
  }

  // ---- whole runs ----

  /** Steps that can follow one another, none of them handing a page a version back. */
  ghost predicate Runs(b: Books, ds: seq<Deed>)
    decreases |ds|
  {
    |ds| > 0 ==> Allowed(b, ds[0]) && Fresh(b.e, ActOf(ds[0])) && Runs(Then(b, ds[0]), ds[1..])
  }

  ghost function After(b: Books, ds: seq<Deed>): Books
    requires Runs(b, ds)
    decreases |ds|
  {
    if |ds| == 0 then b else After(Then(b, ds[0]), ds[1..])
  }

  /** Over every run the counters are those of the objects written and not deleted. */
  lemma {:induction false} RunBalanced(b: Books, ds: seq<Deed>)
    requires Balanced(b) && Runs(b, ds)
    ensures Balanced(After(b, ds))
    decreases |ds|
  {
    if |ds| > 0 {
      DeedBalanced(b, ds[0]);
      RunBalanced(Then(b, ds[0]), ds[1..]);
    }
  }

  /** The books of a new store. */
  function Opening(size: Sizes, buckets: seq<nat>, lists: nat, wbufs: nat): Books
    requires 0 < |buckets| && forall k :: 0 <= k < |buckets| ==> buckets[k] < lists
  {
    Books(InitEngine(size, buckets, lists, wbufs), seq(|buckets|, _ => {}))
  }

  lemma OpeningBalanced(size: Sizes, buckets: seq<nat>, lists: nat, wbufs: nat)
    requires 0 < |buckets| && forall k :: 0 <= k < |buckets| ==> buckets[k] < lists
    requires 0 < size.wbuf && 0 < size.page && Numbers.Multiple(size.page, size.wbuf)
    ensures Balanced(Opening(size, buckets, lists, wbufs))
  {
    InitOk(size, buckets, lists, wbufs);
  }

  /** The step closes the page for a caller, or evicts it because no page was free and it was the oldest the
      pass had seen. */
  predicate Ends(e: Engine, a: Action, p: nat, version: nat) {
    || (a.Close? && a.page == p && a.version == version)
    || (a.MaintEvict? && e.maint.Scan? && e.maint.evict && e.maint.low == Some(p))
  }

  ghost predicate EndedIn(b: Books, ds: seq<Deed>, p: nat, version: nat)
    requires Runs(b, ds)
    decreases |ds|
  {
    |ds| > 0 && (Ends(b.e, ActOf(ds[0]), p, version) || EndedIn(Then(b, ds[0]), ds[1..], p, version))
  }

  lemma VisitSpares(e: Engine, p: nat, version: nat)
    requires Enabled(e, MaintPage) && Safe(e, MaintPage)
    requires p < |e.pages| && !Gone(e.pages[p], version) && e.pages[p].objCount > 0
    ensures p < |Visit(e).pages| && !Gone(Visit(e).pages[p], version)
  {}

  lemma EvictSpares(e: Engine, p: nat, version: nat)
    requires Enabled(e, MaintEvict) && Safe(e, MaintEvict) && !Ends(e, MaintEvict, p, version)
    requires p < |e.pages| && !Gone(e.pages[p], version)
    ensures p < |Evict(e).pages| && !Gone(Evict(e).pages[p], version)
  {}

  lemma AllocSpares(e: Engine, fb: nat, p: nat, version: nat)
    requires Inv(e) && p < |e.pages| && !Gone(e.pages[p], version)
    ensures p < |Allocate(e, fb).pages| && !Gone(Allocate(e, fb).pages[p], version)
  {}

  lemma WriteSpares(e: Engine, a: Action, p: nat, version: nat)
    requires Inv(e) && Enabled(e, a) && Safe(e, a) && a.Write? && p < |e.pages| && !Gone(e.pages[p], version)
    ensures p < |Next(e, a).pages| && !Gone(Next(e, a).pages[p], version)
  {}

  lemma EndsTake(e: Engine, a: Action, p: nat, version: nat)
    requires Enabled(e, a) && Safe(e, a) && p < |e.pages| && Ends(e, a, p, version) && !Gone(e.pages[p], version)
    ensures p < |Next(e, a).pages| && Gone(Next(e, a).pages[p], version)
  {}

  /** These take from a page what it holds, and nothing else does. */
  lemma StepSpares(e: Engine, a: Action, p: nat, version: nat)
    requires Inv(e) && Enabled(e, a) && Safe(e, a) && p < |e.pages|
    requires !Gone(e.pages[p], version) && e.pages[p].objCount > 0
    ensures p < |Next(e, a).pages| && (Gone(Next(e, a).pages[p], version) <==> Ends(e, a, p, version))
  {
    if Ends(e, a, p, version) {
      EndsTake(e, a, p, version);
    } else {
      match a
      case AllocPage(fb) => AllocSpares(e, fb, p, version);
      case Write(_, _, _) => WriteSpares(e, a, p, version);
      case MaintPage => VisitSpares(e, p, version);
      case MaintEvict => EvictSpares(e, p, version);
      case _ =>
    }
  }

  /** The page holds the object. */
  ghost predicate Holds(b: Books, p: nat, r: Record) {
    p < |b.live| == |b.e.pages| && r in b.live[p] && !Gone(b.e.pages[p], r.at.version)
  }

  /** A page that is not closed holds what has just been written to it. */
  lemma WrittenIsHeld(b: Books, a: Action, at: Read)
    requires Balanced(b) && Allowed(b, Step(a)) && a.Write?
    requires WriteObject(b.e, a.page, a.data, a.contents).1 == Some(at)
    ensures Then(b, Step(a)).e.pages[a.page].closed || Holds(Then(b, Step(a)), a.page, Record(at, a.data))
  {
    WriteIsCurrent(b.e, a.page, a.data, a.contents);
    StepGrows(b.e, a);
  }

  lemma DeedSpares(b: Books, d: Deed, p: nat, r: Record)
    requires Balanced(b) && Allowed(b, d) && Holds(b, p, r) && d != Remove(p, r)
      && !Ends(b.e, ActOf(d), p, r.at.version)
    ensures Holds(Then(b, d), p, r)
  {
    assert AccountOk(b.e.pages[p], b.live[p]);
    StepGrows(b.e, ActOf(d));
    StepSpares(b.e, ActOf(d), p, r.at.version);
  }

  /** An object that is held, and that its owner does not delete, is held after any run in which its page is
      neither closed nor evicted. */
  lemma {:induction false} RunSpares(b: Books, ds: seq<Deed>, p: nat, r: Record)
    requires Balanced(b) && Runs(b, ds) && Holds(b, p, r) && Remove(p, r) !in ds
    ensures EndedIn(b, ds, p, r.at.version) || Holds(After(b, ds), p, r)
    decreases |ds|
  {
    if |ds| > 0 && !Ends(b.e, ActOf(ds[0]), p, r.at.version) {
      DeedBalanced(b, ds[0]);
      DeedSpares(b, ds[0], p, r);
      RunSpares(Then(b, ds[0]), ds[1..], p, r);
    }
  }

  /** So a reader misses it only if its page has been closed or evicted since, and gets it otherwise. */
  lemma MissHasCause(b: Books, ds: seq<Deed>, p: nat, r: Record)
    requires Balanced(b) && Runs(b, ds) && Holds(b, p, r) && Remove(p, r) !in ds
    ensures var pages := After(b, ds).e.pages;
      p < |pages| && ReadSane(pages[p], r.at)
      && (ReadOutcome(pages[p], r.at).Miss? ==> EndedIn(b, ds, p, r.at.version))
  {
    RunSpares(b, ds, p, r);
    RunBalanced(b, ds);
    LogStays(b, ds, p, r);
    ReadBeginsRight(After(b, ds).e.pages[p], After(b, ds).e.size, r);
  }

  lemma {:induction false} LogStays(b: Books, ds: seq<Deed>, p: nat, r: Record)
    requires Runs(b, ds) && p < |b.e.pages| && r in b.e.pages[p].log
    ensures p < |After(b, ds).e.pages| && r in After(b, ds).e.pages[p].log
    decreases |ds|
  {
    if |ds| > 0 {
      StepGrows(b.e, ActOf(ds[0]));
      LogStays(Then(b, ds[0]), ds[1..], p, r);
    }
  }
}
