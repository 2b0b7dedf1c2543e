/** The slab allocator in place: splitting pages, handing out and taking back chunks, moving a page
    between classes and giving pages back to the system. */
module SlabAllocator {
  import opened Options
  import opened SlabMemory

  /** Nobody has the chunk. */
  ghost predicate Unowned(b: Books, x: Chunk) {
    forall c :: POOL < c < |b.chunks| ==> x !in b.chunks[c].used
  }

  /** What is free in one class is in use in none. */
  lemma FreeIsUnowned(b: Books, id: nat, x: Chunk)
    requires InPlace(b) && POOL < id < |b.lists| && x in b.chunks[id].free
    ensures Unowned(b, x)
  {
    assert Parted(b.chunks[id], b.lists[id], b.perslab[id]) && x.0 in b.lists[id];
    forall c | POOL < c < |b.chunks|
      ensures x !in b.chunks[c].used
    {
      assert Parted(b.chunks[c], b.lists[c], b.perslab[c]);
    }
  }

  lemma NewSlabOwners(b: Books, id: nat, page: Option<nat>, x: Chunk)
    requires Shaped(b) && POOL < id < |b.lists|
    ensures Shaped(NewSlab(b, id, page)) && (Unowned(NewSlab(b, id, page), x) ==> Unowned(b, x))
  {
    var b' := NewSlab(b, id, page);
    forall c | POOL < c < |b.chunks|
      ensures b'.chunks[c].used == b.chunks[c].used
    {}
  }

  class Slabs {
    const pageSize: nat
    const perslab: seq<nat>
    var limit: nat
    var malloced: nat
    /** Each class's slab_list, and its chunks by their flags. */
    var lists: seq<seq<nat>>
    var chunks: seq<Chunks>

    ghost function View(): Books
      reads this
    {
      Books(pageSize, perslab, limit, malloced, lists, chunks)
    }

    /** split_slab_page_into_freelist: each chunk of a page nobody has goes on the free list. */
    method SplitPage(id: nat, page: nat)
      requires id < |chunks| && id < |perslab|
      modifies this`chunks
      ensures chunks == old(chunks)[id :=
        old(chunks)[id].(free := PageChunks(page, perslab[id]) + old(chunks)[id].free)]
    {
      ghost var k := chunks[id];
      var x := 0;
      assert k.(free := PageChunks(page, 0) + k.free) == k;
      while x < perslab[id]
        invariant 0 <= x <= perslab[id]
        invariant chunks == old(chunks)[id := k.(free := PageChunks(page, x) + k.free)]
      {
        assert [(page, x)] + (PageChunks(page, x) + k.free) == PageChunks(page, x + 1) + k.free;
        chunks := chunks[id := chunks[id].(free := [(page, x)] + chunks[id].free)];
        x := x + 1;
      }
    }

    /** get_page_from_global_pool. */
    method GetPage() returns (page: Option<nat>)
      requires Shaped(View())
      modifies this`lists
      ensures page.None? <==> |old(lists)[POOL]| == 0
      ensures page.None? ==> lists == old(lists)
      ensures page.Some? ==> View() == TakePool(old(View())) && page.value == old(lists)[POOL][|old(lists)[POOL]| - 1]
    {
      var n := |lists[POOL]|;
      if n < 1 {
        return None;
      }
      page := Some(lists[POOL][n - 1]);
      lists := lists[POOL := lists[POOL][..n - 1]];
    }

    /** do_slabs_newslab, memory_allocate within it. `grown` says that the class's page list has or gets
        room, `page` is what malloc returns. */
    method DoNewSlab(id: nat, grown: bool, page: Option<nat>) returns (ok: bool)
      requires Shaped(View()) && POOL < id < |lists|
      modifies this`lists, this`chunks, this`malloced
      ensures View() == if grown then NewSlab(old(View()), id, page) else old(View())
      ensures ok <==> grown && !OverLimit(old(View()), id) && (|old(lists)[POOL]| > 0 || page.Some?)
    {
      if limit != 0 && malloced + pageSize > limit && |lists[id]| > 0 && |lists[POOL]| == 0 {
        return false;
      }
      if !grown {
        return false;
      }
      var got := GetPage();
      if got.None? {
        got := page;
        malloced := malloced + pageSize;
        if got.None? {
          return false;
        }
      }
      SplitPage(id, got.value);
      lists := lists[id := lists[id] + [got.value]];
      return true;
    }

    /** The end of do_slabs_alloc: the head of the free list, which is nobody's. */
    method TakeSlot(id: nat) returns (ret: Option<Chunk>)
      requires InPlace(View()) && POOL < id < |lists|
      modifies this`chunks
      ensures InPlace(View())
      ensures ret.None? <==> |old(chunks)[id].free| == 0
      ensures ret.None? ==> chunks == old(chunks)
      ensures ret.Some? ==>
        View() == Alloc(old(View()), id) && Unowned(old(View()), ret.value) && ret.value in chunks[id].used
    {
      ret := None;
      if |chunks[id].free| != 0 {
        AllocInPlace(View(), id);
        var k := chunks[id];
        FreeIsUnowned(View(), id, k.free[0]);
        ret := Some(k.free[0]);
        chunks := chunks[id := k.(free := k.free[1..], used := k.used + {k.free[0]})];
      }
    }

    /** do_slabs_alloc: off the free list, after a new page if the list is empty and that is allowed. What
        it hands out was nobody's. */
    method DoAlloc(id: nat, newPage: bool, grown: bool, page: Option<nat>) returns (ret: Option<Chunk>)
      requires InPlace(View()) && POOL < id < |lists| && (page.Some? ==> Absent(lists, page.value))
      modifies this`lists, this`chunks, this`malloced
      ensures InPlace(View())
      ensures ret.Some? ==> Unowned(old(View()), ret.value) && ret.value in chunks[id].used
      ensures var b := if |old(chunks)[id].free| == 0 && newPage && grown then NewSlab(old(View()), id, page)
        else old(View());
        if |b.chunks[id].free| > 0 then ret.Some? && View() == Alloc(b, id) else ret.None? && View() == b
    {
      if |chunks[id].free| == 0 && newPage {
        NewSlabInPlace(View(), id, page);
        var _ := DoNewSlab(id, grown, page);
      }
      ghost var b := View();
      ret := TakeSlot(id);
      if ret.Some? && b != old(View()) {
        NewSlabOwners(old(View()), id, page, ret.value);
      }
    }

    /** memory_release: as long as there is too much, pages of the pool go back. */
    method MemoryRelease(ghost failed: nat)
      requires Balanced(View(), failed)
      modifies this`lists, this`malloced
      ensures View() == Release(old(View()))
    {
      while malloced > limit && |lists[POOL]| > 0
        invariant Balanced(View(), failed) && Release(View()) == Release(old(View()))
        decreases |lists[POOL]|
      {
        TakePoolPages(View());
        var _ := GetPage();
        malloced := malloced - pageSize;
      }
    }

    /** The first page of class `s` shuffled out of its list. */
    method ShuffleOut(s: nat)
      requires s < |lists| && |lists[s]| > 0
      modifies this`lists
      ensures lists == old(lists)[s := old(lists)[s][1..]]
    {
      var list, n, x := lists[s], |lists[s]| - 1, 0;
      while x < n
        invariant 0 <= x <= n && |list| == n + 1
        invariant forall i :: 0 <= i < x ==> list[i] == lists[s][i + 1]
        invariant forall i :: x <= i <= n ==> list[i] == lists[s][i]
      {
        list := list[x := list[x + 1]];
        x := x + 1;
      }
      assert list[..n] == lists[s][1..];
      lists := lists[s := list[..n]];
    }

    /** slab_rebalance_finish. */
    method RebalanceFinish(s: nat, d: nat, ghost failed: nat)
      requires Balanced(View(), failed) && CanFinish(View(), s, d)
      modifies this`lists, this`chunks, this`malloced
      ensures View() == Finish(old(View()), s, d)
    {
      var page := lists[s][0];
      chunks := chunks[s := chunks[s].(cleared := chunks[s].cleared - SetOf(PageChunks(page, perslab[s])))];
      ShuffleOut(s);
      DroppedPages(old(View()), s);
      lists := lists[d := lists[d] + [page]];
      if d > POOL {
        SplitPage(d, page);
      } else {
        PooledBalanced(old(View()), s, failed);
        MemoryRelease(failed);
      }
    }
  }
}
