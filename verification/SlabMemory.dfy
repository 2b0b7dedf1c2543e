/** The slab allocator's books: pages and chunks are conserved and the memory limit is exceeded
    by at most one page for each class that owns a page, but for pages that were counted and never
    came because malloc failed. Pages are of one size, as they are when slab reassignment is on, and
    nothing is preallocated. */
module SlabMemory {
  import opened Options
  import opened Sequences

  /** A chunk by its page and its place in the page. */
  type Chunk = (nat, nat)

  /** Slab class 0 is the pool of pages no class owns. */
  const POOL := 0

  // ---- sums over the classes ----

  /** `n` times `size`. */
  function Times(n: nat, size: nat): nat {
    if n == 0 then 0 else Times(n - 1, size) + size
  }

  lemma {:induction false} TimesIs(n: nat, size: nat)
    ensures Times(n, size) == n * size
  {
    if n > 0 {
      TimesIs(n - 1, size);
    }
  }

  function Pages(lists: seq<seq<nat>>): nat {
    if |lists| == 0 then 0 else |lists[0]| + Pages(lists[1..])
  }

  /** How many classes of the list own a page. */
  function Owners(lists: seq<seq<nat>>): nat {
    if |lists| == 0 then 0 else (if |lists[0]| > 0 then 1 else 0) + Owners(lists[1..])
  }

  lemma {:induction false} PagesUpdate(lists: seq<seq<nat>>, c: nat, l: seq<nat>)
    requires c < |lists|
    ensures Pages(lists[c := l]) == Pages(lists) - |lists[c]| + |l|
    decreases |lists|
  {
    if c > 0 {
      PagesUpdate(lists[1..], c - 1, l);
      assert lists[c := l][1..] == lists[1..][c - 1 := l];
    } else {
      assert lists[0 := l][1..] == lists[1..];
    }
  }

  lemma {:induction false} OwnersUpdate(lists: seq<seq<nat>>, c: nat, l: seq<nat>)
    requires c < |lists|
    ensures Owners(lists[c := l]) == Owners(lists) - (if |lists[c]| > 0 then 1 else 0) + (if |l| > 0 then 1 else 0)
    decreases |lists|
  {
    if c > 0 {
      OwnersUpdate(lists[1..], c - 1, l);
      assert lists[c := l][1..] == lists[1..][c - 1 := l];
    } else {
      assert lists[0 := l][1..] == lists[1..];
    }
  }

  /** Classes above the pool that own a page. */
  function ClassOwners(lists: seq<seq<nat>>): nat
    requires |lists| > 0
  {
    Owners(lists[1..])
  }

  lemma ClassOwnersUpdate(lists: seq<seq<nat>>, c: nat, l: seq<nat>)
    requires c < |lists|
    ensures ClassOwners(lists[c := l]) ==
      ClassOwners(lists) - (if c > 0 && |lists[c]| > 0 then 1 else 0) + (if c > 0 && |l| > 0 then 1 else 0)
  {
    if c > 0 {
      OwnersUpdate(lists[1..], c - 1, l);
      assert lists[c := l][1..] == lists[1..][c - 1 := l];
    } else {
      assert lists[c := l][1..] == lists[1..];
    }
  }

  // ---- the chunks of a class ----

  /** What a class has in hand: chunks free, in use, and cleared while their page is on the move. */
  datatype Chunks = Chunks(free: seq<Chunk>, used: set<Chunk>, cleared: set<Chunk>)

  /** The chunks of a page, last first: the order the free list receives them in. */
  function PageChunks(page: nat, n: nat): (xs: seq<Chunk>)
    ensures |xs| == n
  {
    if n == 0 then [] else [(page, n - 1)] + PageChunks(page, n - 1)
  }

  lemma {:induction false} PageChunksAre(page: nat, n: nat)
    ensures NoneTwice(PageChunks(page, n)) && forall x :: x in PageChunks(page, n) <==> x.0 == page && x.1 < n
  {
    if n > 0 {
      PageChunksAre(page, n - 1);
    }
  }

  predicate NoneTwice(xs: seq<Chunk>) {
    forall i, j :: 0 <= i < j < |xs| ==> xs[i] != xs[j]
  }

  /** Every chunk of the class's pages is free, in use or cleared, and only one of them. */
  ghost predicate Parted(k: Chunks, list: seq<nat>, n: nat) {
    && NoneTwice(k.free) && k.used !! k.cleared
    && (forall x :: x in k.free ==> x !in k.used && x !in k.cleared)
    && (forall x: Chunk :: x in k.free || x in k.used || x in k.cleared <==> x.0 in list && x.1 < n)
  }

  function SetOf(xs: seq<Chunk>): set<Chunk> {
    set x | x in xs
  }

  /** All chunks of the pages of a list. */
  function Owned(list: seq<nat>, n: nat): set<Chunk> {
    if |list| == 0 then {} else Owned(list[1..], n) + SetOf(PageChunks(list[0], n))
  }

  lemma {:induction false} SetSize(xs: seq<Chunk>)
    requires NoneTwice(xs)
    ensures |SetOf(xs)| == |xs|
    decreases |xs|
  {
    if |xs| > 0 {
      SetSize(xs[1..]);
      assert xs[0] !in xs[1..] && SetOf(xs) == SetOf(xs[1..]) + {xs[0]};
    }
  }

  lemma {:induction false} OwnedAre(list: seq<nat>, n: nat)
    ensures forall x: Chunk :: x in Owned(list, n) <==> x.0 in list && x.1 < n
    decreases |list|
  {
    if |list| > 0 {
      OwnedAre(list[1..], n);
      PageChunksAre(list[0], n);
      assert forall p :: p in list <==> p == list[0] || p in list[1..];
    }
  }

  lemma OwnedApart(list: seq<nat>, page: nat, n: nat)
    requires page !in list
    ensures Owned(list, n) !! SetOf(PageChunks(page, n))
  {
    OwnedAre(list, n);
    PageChunksAre(page, n);
  }

  lemma {:induction false} OwnedSize(list: seq<nat>, n: nat)
    requires Distinct(list)
    ensures |Owned(list, n)| == Times(|list|, n)
    decreases |list|
  {
    if |list| > 0 {
      OwnedSize(list[1..], n);
      OwnedApart(list[1..], list[0], n);
      PageChunksAre(list[0], n);
      SetSize(PageChunks(list[0], n));
    }
  }

  lemma UnionSize(a: set<Chunk>, b: set<Chunk>, c: set<Chunk>)
    requires a !! b && a !! c && b !! c
    ensures |a + b + c| == |a| + |b| + |c|
  {
    assert |a + b| == |a| + |b| && a + b !! c;
  }

  lemma PartedCovers(k: Chunks, list: seq<nat>, n: nat)
    requires Parted(k, list, n)
    ensures SetOf(k.free) + k.used + k.cleared == Owned(list, n)
  {
    OwnedAre(list, n);
  }

  /** So the numbers add up. */
  lemma PartedCounts(k: Chunks, list: seq<nat>, n: nat)
    requires Parted(k, list, n) && Distinct(list)
    ensures |k.free| + |k.used| + |k.cleared| == |list| * n
  {
    PartedCovers(k, list, n);
    OwnedSize(list, n);
    TimesIs(|list|, n);
    SetSize(k.free);
    UnionSize(SetOf(k.free), k.used, k.cleared);
  }

  /** A page joins the class, split into free chunks. */
  lemma JoinedParted(k: Chunks, list: seq<nat>, n: nat, page: nat)
    requires Parted(k, list, n) && page !in list
    ensures Parted(k.(free := PageChunks(page, n) + k.free), list + [page], n)
  {
    PageChunksAre(page, n);
    var xs := PageChunks(page, n);
    assert forall x :: x in xs + k.free <==> x in xs || x in k.free;
    assert forall p :: p in list + [page] <==> p in list || p == page;
  }

  /** A cleared page leaves it. */
  lemma LeftParted(k: Chunks, list: seq<nat>, n: nat)
    requires Parted(k, list, n) && Distinct(list) && |list| > 0 && SetOf(PageChunks(list[0], n)) <= k.cleared
    ensures Parted(k.(cleared := k.cleared - SetOf(PageChunks(list[0], n))), list[1..], n)
  {
    PageChunksAre(list[0], n);
    assert list[0] !in list[1..] && forall p :: p in list <==> p == list[0] || p in list[1..];
  }

  function Cut(xs: seq<Chunk>, i: nat): seq<Chunk>
    requires i < |xs|
  {
    xs[..i] + xs[i + 1..]
  }

  lemma CutIs(xs: seq<Chunk>, i: nat)
    requires NoneTwice(xs) && i < |xs|
    ensures NoneTwice(Cut(xs, i)) && forall x :: x in Cut(xs, i) <==> x in xs && x != xs[i]
  {
    forall j | 0 <= j < |xs| && j != i
      ensures xs[j] in Cut(xs, i)
    {
      assert Cut(xs, i)[if j < i then j else j - 1] == xs[j];
    }
  }

  // ---- the pages of all classes ----

  /** No page is on two lists, or twice on one. */
  ghost predicate Apart(lists: seq<seq<nat>>) {
    && (forall c :: 0 <= c < |lists| ==> Distinct(lists[c]))
    && (forall c, d, p :: 0 <= c < |lists| && 0 <= d < |lists| && p in lists[c] && p in lists[d] ==> c == d)
  }

  ghost predicate Absent(lists: seq<seq<nat>>, page: nat) {
    forall c :: 0 <= c < |lists| ==> page !in lists[c]
  }

  lemma AddedApart(lists: seq<seq<nat>>, c: nat, page: nat)
    requires Apart(lists) && Absent(lists, page) && c < |lists|
    ensures Apart(lists[c := lists[c] + [page]])
  {
    var lists' := lists[c := lists[c] + [page]];
    assert forall d, p :: 0 <= d < |lists| && p in lists'[d] ==> p in lists[d] || (d == c && p == page);
  }

  lemma FirstTaken(lists: seq<seq<nat>>, c: nat)
    requires Apart(lists) && c < |lists| && |lists[c]| > 0
    ensures Apart(lists[c := lists[c][1..]]) && Absent(lists[c := lists[c][1..]], lists[c][0])
  {
    assert lists[c][0] in lists[c];
  }

  lemma LastTaken(lists: seq<seq<nat>>, c: nat)
    requires Apart(lists) && c < |lists| && |lists[c]| > 0
    ensures var n := |lists[c]| - 1; Apart(lists[c := lists[c][..n]]) && Absent(lists[c := lists[c][..n]], lists[c][n])
  {
    assert lists[c][|lists[c]| - 1] in lists[c];
  }

  /** The allocator's state: the page list and chunks of every class, and the memory counter. */
  datatype Books = Books(
    pageSize: nat, perslab: seq<nat>, limit: nat, malloced: nat, lists: seq<seq<nat>>, chunks: seq<Chunks>)

  predicate Shaped(b: Books) {
    |b.perslab| == |b.lists| == |b.chunks| > 0 && b.pageSize > 0
  }

  /** Every page is in one place, and every chunk of a class's pages in one of its heaps. */
  ghost predicate InPlace(b: Books) {
    && Shaped(b) && Apart(b.lists)
    && forall c :: POOL < c < |b.lists| ==> Parted(b.chunks[c], b.lists[c], b.perslab[c])
  }

  /** Memory is accounted for by the pages and `failed` requests for pages; under a limit it is at most
      one page too many for each class that owns a page and each failed request. */
  predicate Balanced(b: Books, failed: nat) {
    && Shaped(b)
    && b.malloced == Times(Pages(b.lists) + failed, b.pageSize)
    && (b.limit > 0 ==> b.malloced <= b.limit + Times(ClassOwners(b.lists) + failed, b.pageSize))
  }

  // ---- the operations ----

  /** get_page_from_global_pool. */
  function TakePool(b: Books): Books
    requires Shaped(b) && |b.lists[POOL]| > 0
  {
    b.(lists := b.lists[POOL := b.lists[POOL][..|b.lists[POOL]| - 1]])
  }

  /** A page joins class `id`, split into free chunks. */
  function Give(b: Books, id: nat, page: nat): Books
    requires Shaped(b) && POOL < id < |b.lists|
  {
    b.(lists := b.lists[id := b.lists[id] + [page]],
       chunks := b.chunks[id := b.chunks[id].(free := PageChunks(page, b.perslab[id]) + b.chunks[id].free)])
  }

  predicate OverLimit(b: Books, id: nat)
    requires Shaped(b) && id < |b.lists|
  {
    b.limit != 0 && b.malloced + b.pageSize > b.limit && |b.lists[id]| > 0 && |b.lists[POOL]| == 0
  }

  /** Does do_slabs_newslab get as far as asking malloc? */
  predicate Asks(b: Books, id: nat)
    requires Shaped(b) && id < |b.lists|
  {
    !OverLimit(b, id) && |b.lists[POOL]| == 0
  }

  /** do_slabs_newslab: refused over the limit to a class that already has a page, unless the pool
      has one to give; else from the pool, else from malloc, which hands out `page` or nothing.
      memory_allocate counts the page either way. */
  function NewSlab(b: Books, id: nat, page: Option<nat>): Books
    requires Shaped(b) && POOL < id < |b.lists|
  {
    if OverLimit(b, id) then b
    else if |b.lists[POOL]| > 0 then Give(TakePool(b), id, b.lists[POOL][|b.lists[POOL]| - 1])
    else
      var b1 := b.(malloced := b.malloced + b.pageSize);
      if page.Some? then Give(b1, id, page.value) else b1
  }

  function SetChunks(b: Books, id: nat, k: Chunks): Books
    requires id < |b.chunks|
  {
    b.(chunks := b.chunks[id := k])
  }

  /** do_slabs_alloc from a non-empty free list. */
  function Alloc(b: Books, id: nat): Books
    requires Shaped(b) && id < |b.lists| && |b.chunks[id].free| > 0
  {
    var k := b.chunks[id];
    SetChunks(b, id, k.(free := k.free[1..], used := k.used + {k.free[0]}))
  }

  /** do_slabs_free. */
  function Free(b: Books, id: nat, x: Chunk): Books
    requires Shaped(b) && id < |b.lists|
  {
    var k := b.chunks[id];
    SetChunks(b, id, k.(free := [x] + k.free, used := k.used - {x}))
  }

  /** slab_rebalance_cut_free of the `i`th free chunk, which is then marked clear. */
  function CutFree(b: Books, id: nat, i: nat): Books
    requires Shaped(b) && id < |b.lists| && i < |b.chunks[id].free|
  {
    var k := b.chunks[id];
    SetChunks(b, id, k.(free := Cut(k.free, i), cleared := k.cleared + {k.free[i]}))
  }

  /** A chunk in use whose contents have been moved away, marked clear. */
  function ClearUsed(b: Books, id: nat, x: Chunk): Books
    requires Shaped(b) && id < |b.lists|
  {
    var k := b.chunks[id];
    SetChunks(b, id, k.(used := k.used - {x}, cleared := k.cleared + {x}))
  }

  /** memory_release: pool pages go back to the system while the books are over the limit. */
  function Release(b: Books): Books
    requires Shaped(b)
    decreases |b.lists[POOL]|
  {
    if b.malloced > b.limit && |b.lists[POOL]| > 0 && b.malloced >= b.pageSize
    then Release(TakePool(b).(malloced := b.malloced - b.pageSize))
    else b
  }

  /** A class that keeps another page can lose its first one when all of that page's chunks are clear. */
  predicate CanFinish(b: Books, s: nat, d: nat) {
    && Shaped(b) && POOL < s < |b.lists| && d < |b.lists| && d != s
    && |b.lists[s]| >= 2 && SetOf(PageChunks(b.lists[s][0], b.perslab[s])) <= b.chunks[s].cleared
  }

  /** The first page struck off class `s` with its chunks. */
  function DropFirst(b: Books, s: nat): Books
    requires Shaped(b) && s < |b.lists| && |b.lists[s]| >= 1
  {
    var k, page := b.chunks[s], b.lists[s][0];
    SetChunks(b, s, k.(cleared := k.cleared - SetOf(PageChunks(page, b.perslab[s])))).(
      lists := b.lists[s := b.lists[s][1..]])
  }

  /** slab_rebalance_finish: to another class, split up again, or to the pool. */
  function Finish(b: Books, s: nat, d: nat): Books
    requires CanFinish(b, s, d)
  {
    var page := b.lists[s][0];
    var b1 := DropFirst(b, s);
    if d > POOL then Give(b1, d, page)
    else Release(b1.(lists := b1.lists[POOL := b1.lists[POOL] + [page]]))
  }

  /** A page move takes the first page of the source and brings it to the destination: split into free chunks of
      that class, or, to the pool, where it is unless the books are over the limit. */
  lemma FinishMoves(b: Books, s: nat, d: nat)
    requires CanFinish(b, s, d)
    ensures var b', page := Finish(b, s, d), b.lists[s][0];
      && |b'.lists| == |b.lists| && b'.lists[s] == b.lists[s][1..]
      && (d > POOL ==>
        && b'.lists[d] == b.lists[d] + [page] && b'.malloced == b.malloced
        && b'.chunks[d].free == PageChunks(page, b.perslab[d]) + b.chunks[d].free)
      && (d == POOL && b.malloced <= b.limit ==> b'.lists[POOL] == b.lists[POOL] + [page])
  {
    if d == POOL {
      var b1 := DropFirst(b, s);
      ReleaseLeaves(b1.(lists := b1.lists[POOL := b1.lists[POOL] + [b.lists[s][0]]]), s);
    }
  }

  lemma {:induction false} ReleaseLeaves(b: Books, c: nat)
    requires Shaped(b) && POOL < c < |b.lists|
    ensures |Release(b).lists| == |b.lists| && Release(b).lists[c] == b.lists[c]
    decreases |b.lists[POOL]|
  {
    if b.malloced > b.limit && |b.lists[POOL]| > 0 && b.malloced >= b.pageSize {
      ReleaseLeaves(TakePool(b).(malloced := b.malloced - b.pageSize), c);
    }
  }

  // ---- everything stays in place ----

  lemma GivenInPlace(b: Books, id: nat, page: nat)
    requires InPlace(b) && Absent(b.lists, page) && POOL < id < |b.lists|
    ensures InPlace(Give(b, id, page))
  {
    AddedApart(b.lists, id, page);
    JoinedParted(b.chunks[id], b.lists[id], b.perslab[id], page);
  }

  lemma PoolInPlace(b: Books)
    requires InPlace(b) && |b.lists[POOL]| > 0
    ensures InPlace(TakePool(b)) && Absent(TakePool(b).lists, b.lists[POOL][|b.lists[POOL]| - 1])
  {
    LastTaken(b.lists, POOL);
  }

  lemma NewSlabInPlace(b: Books, id: nat, page: Option<nat>)
    requires InPlace(b) && POOL < id < |b.lists| && (page.Some? ==> Absent(b.lists, page.value))
    ensures InPlace(NewSlab(b, id, page))
  {
    if !OverLimit(b, id) {
      if |b.lists[POOL]| > 0 {
        PoolInPlace(b);
        GivenInPlace(TakePool(b), id, b.lists[POOL][|b.lists[POOL]| - 1]);
      } else if page.Some? {
        GivenInPlace(b.(malloced := b.malloced + b.pageSize), id, page.value);
      }
    }
  }

  lemma SetInPlace(b: Books, id: nat, k: Chunks)
    requires InPlace(b) && POOL < id < |b.lists| && Parted(k, b.lists[id], b.perslab[id])
    ensures InPlace(SetChunks(b, id, k))
  {}

  lemma AllocInPlace(b: Books, id: nat)
    requires InPlace(b) && POOL < id < |b.lists| && |b.chunks[id].free| > 0
    ensures InPlace(Alloc(b, id))
  {
    var k := b.chunks[id];
    assert k.free == [k.free[0]] + k.free[1..];
    SetInPlace(b, id, k.(free := k.free[1..], used := k.used + {k.free[0]}));
  }

  lemma FreeInPlace(b: Books, id: nat, x: Chunk)
    requires InPlace(b) && POOL < id < |b.lists| && x in b.chunks[id].used
    ensures InPlace(Free(b, id, x))
  {
    var k := b.chunks[id];
    SetInPlace(b, id, k.(free := [x] + k.free, used := k.used - {x}));
  }

  lemma CutFreeInPlace(b: Books, id: nat, i: nat)
    requires InPlace(b) && POOL < id < |b.lists| && i < |b.chunks[id].free|
    ensures InPlace(CutFree(b, id, i))
  {
    var k := b.chunks[id];
    CutIs(k.free, i);
    SetInPlace(b, id, k.(free := Cut(k.free, i), cleared := k.cleared + {k.free[i]}));
  }

  lemma ClearUsedInPlace(b: Books, id: nat, x: Chunk)
    requires InPlace(b) && POOL < id < |b.lists| && x in b.chunks[id].used
    ensures InPlace(ClearUsed(b, id, x))
  {
    var k := b.chunks[id];
    SetInPlace(b, id, k.(used := k.used - {x}, cleared := k.cleared + {x}));
  }

  lemma {:induction false} ReleaseInPlace(b: Books)
    requires InPlace(b)
    ensures InPlace(Release(b))
    decreases |b.lists[POOL]|
  {
    if b.malloced > b.limit && |b.lists[POOL]| > 0 && b.malloced >= b.pageSize {
      PoolInPlace(b);
      ReleaseInPlace(TakePool(b).(malloced := b.malloced - b.pageSize));
    }
  }

  lemma DroppedInPlace(b: Books, s: nat)
    requires InPlace(b) && POOL < s < |b.lists| && |b.lists[s]| >= 1
    requires SetOf(PageChunks(b.lists[s][0], b.perslab[s])) <= b.chunks[s].cleared
    ensures InPlace(DropFirst(b, s)) && Absent(DropFirst(b, s).lists, b.lists[s][0])
  {
    FirstTaken(b.lists, s);
    LeftParted(b.chunks[s], b.lists[s], b.perslab[s]);
  }

  lemma FinishInPlace(b: Books, s: nat, d: nat)
    requires InPlace(b) && CanFinish(b, s, d)
    ensures InPlace(Finish(b, s, d))
  {
    var page := b.lists[s][0];
    var b1 := DropFirst(b, s);
    DroppedInPlace(b, s);
    if d > POOL {
      GivenInPlace(b1, d, page);
    } else {
      AddedApart(b1.lists, POOL, page);
      ReleaseInPlace(b1.(lists := b1.lists[POOL := b1.lists[POOL] + [page]]));
    }
  }

  // ---- and the memory accounted for ----

  lemma GivePages(b: Books, id: nat, page: nat)
    requires Shaped(b) && POOL < id < |b.lists|
    ensures Pages(Give(b, id, page).lists) == Pages(b.lists) + 1
    ensures ClassOwners(Give(b, id, page).lists) == ClassOwners(b.lists) + (if |b.lists[id]| == 0 then 1 else 0)
  {
    PagesUpdate(b.lists, id, b.lists[id] + [page]);
    ClassOwnersUpdate(b.lists, id, b.lists[id] + [page]);
  }

  lemma TakePoolPages(b: Books)
    requires Shaped(b) && |b.lists[POOL]| > 0
    ensures Pages(TakePool(b).lists) == Pages(b.lists) - 1 && ClassOwners(TakePool(b).lists) == ClassOwners(b.lists)
  {
    PagesUpdate(b.lists, POOL, b.lists[POOL][..|b.lists[POOL]| - 1]);
    ClassOwnersUpdate(b.lists, POOL, b.lists[POOL][..|b.lists[POOL]| - 1]);
  }

  lemma {:induction false} TimesGrows(n: nat, m: nat, size: nat)
    requires n <= m
    ensures Times(n, size) <= Times(m, size)
    decreases m
  {
    if n < m {
      TimesGrows(n, m - 1, size);
    }
  }

  lemma TimesGrowsMore(n: nat, m: nat, size: nat)
    requires n < m && size > 0
    ensures Times(n, size) < Times(m, size)
  {
    TimesGrows(n, m - 1, size);
  }

  lemma FromPoolBalanced(b: Books, id: nat, page: nat, failed: nat)
    requires Balanced(b, failed) && POOL < id < |b.lists| && |b.lists[POOL]| > 0
    ensures Balanced(Give(TakePool(b), id, page), failed)
  {
    TakePoolPages(b);
    GivePages(TakePool(b), id, page);
    var owners := ClassOwners(Give(TakePool(b), id, page).lists);
    TimesGrows(ClassOwners(b.lists) + failed, owners + failed, b.pageSize);
  }

  lemma FromMallocBalanced(b: Books, id: nat, page: nat, failed: nat)
    requires Balanced(b, failed) && POOL < id < |b.lists| && Asks(b, id)
    ensures Balanced(Give(b.(malloced := b.malloced + b.pageSize), id, page), failed)
  {
    var b1 := b.(malloced := b.malloced + b.pageSize);
    GivePages(b1, id, page);
  }

  /** A request that fails counts as one more. */
  lemma FailureBalanced(b: Books, id: nat, failed: nat)
    requires Balanced(b, failed) && POOL < id < |b.lists| && Asks(b, id)
    ensures Balanced(b.(malloced := b.malloced + b.pageSize), failed + 1)
  {}

  lemma NewSlabBalanced(b: Books, id: nat, page: Option<nat>, failed: nat)
    requires Balanced(b, failed) && POOL < id < |b.lists|
    ensures Balanced(NewSlab(b, id, page), failed + if Asks(b, id) && page.None? then 1 else 0)
  {
    if !OverLimit(b, id) {
      if |b.lists[POOL]| > 0 {
        FromPoolBalanced(b, id, b.lists[POOL][|b.lists[POOL]| - 1], failed);
      } else if page.Some? {
        FromMallocBalanced(b, id, page.value, failed);
      } else {
        FailureBalanced(b, id, failed);
      }
    }
  }

  lemma {:induction false} ReleaseBalanced(b: Books, failed: nat)
    requires Balanced(b, failed)
    ensures Balanced(Release(b), failed) && Release(b).limit == b.limit
    ensures Release(b).malloced > b.limit ==> |Release(b).lists[POOL]| == 0
    decreases |b.lists[POOL]|
  {
    if b.malloced > b.limit && |b.lists[POOL]| > 0 {
      TakePoolPages(b);
      ReleaseBalanced(TakePool(b).(malloced := b.malloced - b.pageSize), failed);
    }
  }

  /** No page goes back that need not: with one page more the books would be over the limit. */
  lemma {:induction false} ReleaseIsNeeded(b: Books)
    requires Shaped(b)
    ensures Release(b).malloced <= b.malloced && Release(b).limit == b.limit && Release(b).pageSize == b.pageSize
    ensures Release(b) == b || Release(b).malloced + b.pageSize > b.limit
    ensures b.malloced <= b.limit ==> Release(b) == b
    decreases |b.lists[POOL]|
  {
    if b.malloced > b.limit && |b.lists[POOL]| > 0 && b.malloced >= b.pageSize {
      ReleaseIsNeeded(TakePool(b).(malloced := b.malloced - b.pageSize));
    }
  }

  predicate MayAsk(b: Books, id: nat)
    requires id < |b.lists|
  {
    b.limit == 0 || |b.lists[id]| == 0 || b.malloced + b.pageSize <= b.limit
  }

  /** A class that has a page is given memory from malloc only within the limit; a class without one, or with
      a page in the pool, always gets as far as asking. */
  lemma LimitIsKept(b: Books, id: nat, page: Option<nat>)
    requires Shaped(b) && POOL < id < |b.lists|
    ensures var b' := NewSlab(b, id, page);
      && (b'.malloced > b.malloced && b.limit != 0 && |b.lists[id]| > 0 ==> b'.malloced <= b.limit)
      && (|b.lists[POOL]| > 0 ==>
        b'.malloced == b.malloced && b'.lists[id] == b.lists[id] + [b.lists[POOL][|b.lists[POOL]| - 1]])
      && (|b.lists[POOL]| == 0 && page.Some? && MayAsk(b, id) ==> b'.lists[id] == b.lists[id] + [page.value])
  {}

  lemma DroppedPages(b: Books, s: nat)
    requires Shaped(b) && POOL < s < |b.lists| && |b.lists[s]| >= 2
    ensures Pages(DropFirst(b, s).lists) == Pages(b.lists) - 1
    ensures ClassOwners(DropFirst(b, s).lists) == ClassOwners(b.lists)
  {
    PagesUpdate(b.lists, s, b.lists[s][1..]);
    ClassOwnersUpdate(b.lists, s, b.lists[s][1..]);
  }

  lemma PooledBalanced(b: Books, s: nat, failed: nat)
    requires Balanced(b, failed) && CanFinish(b, s, POOL)
    ensures var b1 := DropFirst(b, s);
      Balanced(b1.(lists := b1.lists[POOL := b1.lists[POOL] + [b.lists[s][0]]]), failed)
  {
    var b1 := DropFirst(b, s);
    DroppedPages(b, s);
    PagesUpdate(b1.lists, POOL, b1.lists[POOL] + [b.lists[s][0]]);
    ClassOwnersUpdate(b1.lists, POOL, b1.lists[POOL] + [b.lists[s][0]]);
  }

  lemma FinishBalanced(b: Books, s: nat, d: nat, failed: nat)
    requires Balanced(b, failed) && CanFinish(b, s, d)
    ensures Balanced(Finish(b, s, d), failed)
  {
    var page := b.lists[s][0];
    var b1 := DropFirst(b, s);
    DroppedPages(b, s);
    if d > POOL {
      GivePages(b1, d, page);
      TimesGrows(ClassOwners(b.lists) + failed, ClassOwners(Give(b1, d, page).lists) + failed, b.pageSize);
    } else {
      PooledBalanced(b, s, failed);
      ReleaseBalanced(b1.(lists := b1.lists[POOL := b1.lists[POOL] + [page]]), failed);
    }
  }

  // ---- whole runs ----

  datatype Op =
    | DoNewSlab(id: nat, page: Option<nat>)
    | DoAlloc(id: nat)
    | DoFree(id: nat, x: Chunk)
    | DoCutFree(id: nat, i: nat)
    | DoClearUsed(id: nat, x: Chunk)
    | DoFinish(s: nat, d: nat)

  /** malloc hands out memory that is nobody's; what is freed or cleared was in use. */
  ghost predicate Enabled(b: Books, op: Op)
    requires Shaped(b)
  {
    match op
    case DoNewSlab(id, page) => POOL < id < |b.lists| && (page.Some? ==> Absent(b.lists, page.value))
    case DoAlloc(id) => POOL < id < |b.lists| && |b.chunks[id].free| > 0
    case DoFree(id, x) => POOL < id < |b.lists| && x in b.chunks[id].used
    case DoCutFree(id, i) => POOL < id < |b.lists| && i < |b.chunks[id].free|
    case DoClearUsed(id, x) => POOL < id < |b.lists| && x in b.chunks[id].used
    case DoFinish(s, d) => CanFinish(b, s, d)
  }

  ghost function Next(b: Books, op: Op): (b': Books)
    requires Shaped(b) && Enabled(b, op)
  {
    match op
    case DoNewSlab(id, page) => NewSlab(b, id, page)
    case DoAlloc(id) => Alloc(b, id)
    case DoFree(id, x) => Free(b, id, x)
    case DoCutFree(id, i) => CutFree(b, id, i)
    case DoClearUsed(id, x) => ClearUsed(b, id, x)
    case DoFinish(s, d) => Finish(b, s, d)
  }

  /** One if malloc is asked for a page and has none. */
  function Failed(b: Books, op: Op): nat
    requires Shaped(b)
  {
    if op.DoNewSlab? && op.page.None? && op.id < |b.lists| && Asks(b, op.id) then 1 else 0
  }

  lemma StepInPlace(b: Books, op: Op)
    requires InPlace(b) && Enabled(b, op)
    ensures InPlace(Next(b, op))
  {
    match op
    case DoNewSlab(id, page) => NewSlabInPlace(b, id, page);
    case DoAlloc(id) => AllocInPlace(b, id);
    case DoFree(id, x) => FreeInPlace(b, id, x);
    case DoCutFree(id, i) => CutFreeInPlace(b, id, i);
    case DoClearUsed(id, x) => ClearUsedInPlace(b, id, x);
    case DoFinish(s, d) => FinishInPlace(b, s, d);
  }

  lemma StepBalanced(b: Books, op: Op, failed: nat)
    requires Balanced(b, failed) && Enabled(b, op)
    ensures Balanced(Next(b, op), failed + Failed(b, op))
  {
    match op
    case DoNewSlab(id, page) => NewSlabBalanced(b, id, page, failed);
    case DoFinish(s, d) => FinishBalanced(b, s, d, failed);
    case _ =>
      assert Next(b, op) == SetChunks(b, op.id, Next(b, op).chunks[op.id]);
  }

  /** The operations can follow one another. */
  ghost predicate Runs(b: Books, ops: seq<Op>)
    decreases |ops|
  {
    Shaped(b) && (|ops| > 0 ==> Enabled(b, ops[0]) && Runs(Next(b, ops[0]), ops[1..]))
  }

  ghost function After(b: Books, ops: seq<Op>): Books
    requires Runs(b, ops)
    decreases |ops|
  {
    if |ops| == 0 then b else After(Next(b, ops[0]), ops[1..])
  }

  /** How often malloc fails in the run. */
  ghost function Failures(b: Books, ops: seq<Op>): nat
    requires Runs(b, ops)
    decreases |ops|
  {
    if |ops| == 0 then 0 else Failed(b, ops[0]) + Failures(Next(b, ops[0]), ops[1..])
  }

  lemma {:induction false} RunInPlace(b: Books, ops: seq<Op>)
    requires InPlace(b) && Runs(b, ops)
    ensures InPlace(After(b, ops))
    decreases |ops|
  {
    if |ops| > 0 {
      StepInPlace(b, ops[0]);
      RunInPlace(Next(b, ops[0]), ops[1..]);
    }
  }

  lemma {:induction false} RunBalanced(b: Books, ops: seq<Op>, failed: nat, after: Books, total: nat)
    requires Balanced(b, failed) && Runs(b, ops) && after == After(b, ops) && total == failed + Failures(b, ops)
    ensures Balanced(after, total)
    decreases |ops|, 1
  {
    if |ops| > 0 {
      StepBalanced(b, ops[0], failed);
      RunOn(Next(b, ops[0]), ops, failed + Failed(b, ops[0]), after, total);
    }
  }

  /** The rest of the run `ops`, from where its first operation leads. */
  lemma {:induction false} RunOn(next: Books, ops: seq<Op>, failed: nat, after: Books, total: nat)
    requires |ops| > 0 && Balanced(next, failed) && Runs(next, ops[1..])
    requires after == After(next, ops[1..]) && total == failed + Failures(next, ops[1..])
    ensures Balanced(after, total)
    decreases |ops|, 0
  {
    RunBalanced(next, ops[1..], failed, after, total);
  }

  function Opening(pageSize: nat, perslab: seq<nat>, limit: nat): Books {
    Books(pageSize, perslab, limit, 0, seq(|perslab|, _ => []), seq(|perslab|, _ => Chunks([], {}, {})))
  }

  lemma {:induction false} NoPages(lists: seq<seq<nat>>)
    requires forall i :: 0 <= i < |lists| ==> lists[i] == []
    ensures Pages(lists) == 0 && Owners(lists) == 0
    decreases |lists|
  {
    if |lists| > 0 {
      NoPages(lists[1..]);
    }
  }

  lemma OpeningSound(pageSize: nat, perslab: seq<nat>, limit: nat)
    requires pageSize > 0 && |perslab| > 0
    ensures InPlace(Opening(pageSize, perslab, limit)) && Balanced(Opening(pageSize, perslab, limit), 0)
  {
    NoPages(Opening(pageSize, perslab, limit).lists);
  }

  /** Whatever is allocated, freed and moved under a fixed limit: every chunk of a class's pages is free,
      in use or cleared, and only one of them, so their numbers add up; memory is pages times page size
      exactly if malloc never failed in the run; and then the limit is passed by no more than a page per
      class that owns one. */
  lemma RunSound(pageSize: nat, perslab: seq<nat>, limit: nat, ops: seq<Op>)
    requires pageSize > 0 && |perslab| > 0 && Runs(Opening(pageSize, perslab, limit), ops)
    ensures var b := Opening(pageSize, perslab, limit);
      var after := After(b, ops);
      && InPlace(after)
      && (forall c :: POOL < c < |after.lists| ==>
            var k := after.chunks[c]; |k.free| + |k.used| + |k.cleared| == |after.lists[c]| * after.perslab[c])
      && (after.malloced == after.pageSize * Pages(after.lists) <==> Failures(b, ops) == 0)
      && (Failures(b, ops) == 0 && after.limit > 0 ==>
            after.malloced <= after.limit + after.pageSize * ClassOwners(after.lists))
  {
    var b := Opening(pageSize, perslab, limit);
    OpeningSound(pageSize, perslab, limit);
    RunInPlace(b, ops);
    RunBalanced(b, ops, 0, After(b, ops), Failures(b, ops));
    var after := After(b, ops);
    forall c | POOL < c < |after.lists|
      ensures var k := after.chunks[c]; |k.free| + |k.used| + |k.cleared| == |after.lists[c]| * after.perslab[c]
    {
      PartedCounts(after.chunks[c], after.lists[c], after.perslab[c]);
    }
    MemoryIs(after, Failures(b, ops));
  }

  lemma MemoryIs(b: Books, failed: nat)
    requires Balanced(b, failed)
    ensures b.malloced == b.pageSize * Pages(b.lists) <==> failed == 0
    ensures failed == 0 && b.limit > 0 ==> b.malloced <= b.limit + b.pageSize * ClassOwners(b.lists)
  {
    TimesIs(Pages(b.lists), b.pageSize);
    TimesIs(ClassOwners(b.lists), b.pageSize);
    if failed > 0 {
      TimesGrowsMore(Pages(b.lists), Pages(b.lists) + failed, b.pageSize);
    }
  }

  /** A failed malloc is enough to count memory nobody has, and to pass the limit with no owner. */
  lemma FailedMallocCounts()
    ensures var b := NewSlab(Opening(10, [1, 1], 5), 1, None);
      b.malloced == 10 && Pages(b.lists) == 0 && ClassOwners(b.lists) == 0 && b.malloced > b.limit
  {
    var b := NewSlab(Opening(10, [1, 1], 5), 1, None);
    NoPages(b.lists);
  }
}
