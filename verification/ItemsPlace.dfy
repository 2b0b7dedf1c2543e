/** The item operations in place, statement by statement: the LRU lists are linked in memory, their
    sizes counted along. Each operation does what the model's does, and keeps the lists linked and the
    invariant. */
module ItemsPlace {
  import opened Items
  import opened ItemsMemory
  import opened ItemsRuns
  import opened ItemsSafety
  import opened LruLists
  import opened LruMemory
  import opened Sequences

  class Cache {
    var items: map<Id, Item>
    var table: map<Key, Id>
    const lru: Lrus
    var sizes: seq<int>
    var sizesBytes: seq<int>
    var currItems: int
    ghost var holders: multiset<Id>
    ghost var bumps: multiset<Id>

    /** An empty cache with link fields for `memory` items and crawlers. */
    constructor (memory: nat)
      ensures Ok() && View() == Empty() && lru.next.Length == memory
      ensures fresh(lru) && fresh(lru.heads) && fresh(lru.tails) && fresh(lru.prev) && fresh(lru.next)
    {
      items, table, currItems, holders, bumps := map[], map[], 0, multiset{}, multiset{};
      lru := new Lrus(LARGEST, memory);
      sizes, sizesBytes := seq(LARGEST, _ => 0), seq(LARGEST, _ => 0);
      new;
      EmptyInv();
      assert View() == Empty();
    }

    ghost function View(): State
      reads this, lru
    {
      State(items, table, lru.lists, sizes, sizesBytes, currItems, holders, bumps)
    }

    /** The lists are linked, and every item has link fields. */
    ghost predicate Wired()
      reads this, lru, lru.heads, lru.tails, lru.prev, lru.next
    {
      lru.Valid() && |lru.lists| == |sizes| == |sizesBytes| == LARGEST && forall x :: x in items ==> x < lru.next.Length
    }

    ghost predicate Ok()
      reads this, lru, lru.heads, lru.tails, lru.prev, lru.next
    {
      Wired() && Inv(View())
    }

    /** do_item_link_q. */
    method LinkQ(x: Id)
      requires Wired() && x in items && items[x].lru < LARGEST && LruLists.Absent(lru.lists, x)
      modifies this`sizes, this`sizesBytes, lru, lru.heads, lru.tails, lru.prev, lru.next
      ensures Wired() && lru.lists == old(lru.lists)[items[x].lru := [x] + old(lru.lists)[items[x].lru]]
      ensures sizes == old(sizes)[items[x].lru := old(sizes[items[x].lru]) + 1]
      ensures sizesBytes == old(sizesBytes)[items[x].lru := old(sizesBytes[items[x].lru]) + items[x].bytes]
    {
      var l := items[x].lru;
      lru.LinkQ(l, x);
      sizes := sizes[l := sizes[l] + 1];
      sizesBytes := sizesBytes[l := sizesBytes[l] + items[x].bytes];
    }

    /** do_item_unlink_q. */
    method UnlinkQ(x: Id)
      requires Wired() && x in items && items[x].lru < LARGEST && x in lru.lists[items[x].lru]
      modifies this`sizes, this`sizesBytes, lru, lru.heads, lru.tails, lru.prev, lru.next
      ensures Wired() && lru.lists == old(lru.lists)[items[x].lru := Without(old(lru.lists)[items[x].lru], x)]
      ensures sizes == old(sizes)[items[x].lru := old(sizes[items[x].lru]) - 1]
      ensures sizesBytes == old(sizesBytes)[items[x].lru := old(sizesBytes[items[x].lru]) - items[x].bytes]
    {
      var l := items[x].lru;
      lru.UnlinkQ(l, x, Index(lru.lists[l], x));
      sizes := sizes[l := sizes[l] - 1];
      sizesBytes := sizesBytes[l := sizesBytes[l] - items[x].bytes];
    }

    /** do_item_link, for an item that is on no list. */
    method Enter(x: Id, now: nat)
      requires Wired() && x in items && items[x].lru < LARGEST && LruLists.Absent(lru.lists, x)
      modifies this, lru, lru.heads, lru.tails, lru.prev, lru.next
      ensures Wired() && View() == Items.Link(old(View()), x, now)
    {
      ghost var s := View();
      var it := items[x];
      items := items[x := it.(linked := true, time := now)];
      currItems := currItems + 1;
      table := table[items[x].key := x];
      LinkQ(x);
      items := items[x := items[x].(refs := items[x].refs + 1)];
      assert items == s.items[x := it.(linked := true, time := now, refs := it.refs + 1)];
      LinkIs(s, x, now);
    }

    /** The part of do_item_remove that every owner shares. */
    method Drop(x: Id)
      requires Wired() && x in items && items[x].refs > 0
      modifies this`items
      ensures Wired() && View() == Items.Drop(old(View()), x)
    {
      items := items[x := items[x].(refs := items[x].refs - 1)];
      if items[x].refs == 0 {
        items := items - {x};
      }
    }

    /** do_item_unlink, for an item that is on its list if it is linked. */
    method Leave(x: Id)
      requires Wired() && x in items && items[x].lru < LARGEST && items[x].refs > 0
      requires items[x].linked ==> x in lru.lists[items[x].lru]
      modifies this, lru, lru.heads, lru.tails, lru.prev, lru.next
      ensures Wired() && View() == Items.Unlink(old(View()), x)
    {
      if items[x].linked {
        UnhookedIs(View(), x);
        items := items[x := items[x].(linked := false)];
        currItems := currItems - 1;
        table := table - {items[x].key};
        UnlinkQ(x);
        Drop(x);
      }
    }

    /** To the head of another list, no longer active, as in do_item_update. */
    method Shift(x: Id, to: nat)
      requires Wired() && x in items && items[x].lru < LARGEST && x in lru.lists[items[x].lru] && to < LARGEST
      modifies this`items, this`sizes, this`sizesBytes, lru, lru.heads, lru.tails, lru.prev, lru.next
      ensures Wired() && View() == Relist(Set(old(View()), x, old(items)[x].(active := false)), x, to)
    {
      lru.Here(items[x].lru);
      OffList(lru.lists, items[x].lru, x);
      ghost var s := View();
      var it := items[x];
      UnlinkQ(x);
      items := items[x := it.(lru := to, active := false)];
      LinkQ(x);
      RelistIs(s, x, it.(active := false), to);
    }

    /** do_item_link. */
    method Link(x: Id, now: nat)
      requires Ok() && x in items && !items[x].linked && items[x].key !in table
      modifies this, lru, lru.heads, lru.tails, lru.prev, lru.next
      ensures Ok() && View() == Items.Link(old(View()), x, now)
    {
      LinkKeeps(View(), x, now);
      Unlisted(items, lru.lists, x);
      Enter(x, now);
    }

    /** do_item_remove, for an item with references. */
    method GiveBack(x: Id)
      requires Wired() && x in items && items[x].refs > 0
      modifies this`items, this`holders
      ensures Wired() && View() == Items.Remove(old(View()), x)
    {
      Drop(x);
      holders := holders - multiset{x};
    }

    /** do_item_remove. */
    method Remove(x: Id)
      requires Ok() && x in holders
      modifies this`items, this`holders
      ensures Ok() && View() == Items.Remove(old(View()), x)
    {
      Owned(View(), x);
      RemoveKeeps(View(), x);
      GiveBack(x);
    }

    /** do_item_unlink. */
    method Unlink(x: Id)
      requires Ok() && x in items
      modifies this, lru, lru.heads, lru.tails, lru.prev, lru.next
      ensures Ok() && View() == Items.Unlink(old(View()), x)
    {
      UnlinkKeeps(View(), x);
      Leave(x);
    }

    /** do_item_update of a linked item, with segments. */
    method Hit(x: Id, now: nat)
      requires Wired() && x in items && items[x].lru < LARGEST && x in lru.lists[items[x].lru]
      modifies this`items, this`sizes, this`sizesBytes, lru, lru.heads, lru.tails, lru.prev, lru.next
      ensures Wired() && View() == ItemsRuns.Hit(old(View()), x, now)
    {
      var it := items[x];
      ghost var s := View();
      WarmIs(it.lru);
      items := items[x := it.(time := now)];
      if Segment(it.lru) == COLD && it.active {
        SetTwice(s, x, it.(time := now), it.(time := now, active := false));
        Shift(x, Class(it.lru) + WARM);
      }
    }

    /** The same without: to the head of its own list, if it has not been moved for a minute. */
    method Refresh(x: Id, now: nat)
      requires Wired() && x in items && items[x].lru < LARGEST && (items[x].linked ==> x in lru.lists[items[x].lru])
      modifies this`items, this`sizes, this`sizesBytes, lru, lru.heads, lru.tails, lru.prev, lru.next
      ensures Wired()
      ensures View() == if old(items)[x].linked then ItemsRuns.Refresh(old(View()), x, now) else old(View())
    {
      var it := items[x];
      if it.time < Since(now, UPDATE_INTERVAL) {
        if it.linked {
          Again(x, now);
        }
      }
    }

    /** To the head of the list it is on. */
    method Again(x: Id, now: nat)
      requires Wired() && x in items && items[x].lru < LARGEST && x in lru.lists[items[x].lru]
      modifies this`items, this`sizes, this`sizesBytes, lru, lru.heads, lru.tails, lru.prev, lru.next
      ensures Wired()
      ensures View() == Relist(Set(old(View()), x, old(items)[x].(time := now)), x, old(items)[x].lru)
    {
      ghost var s := View();
      var it := items[x];
      lru.Here(it.lru);
      OffList(lru.lists, it.lru, x);
      items := items[x := it.(time := now)];
      UnlinkQ(x);
      LinkQ(x);
      RelistIs(s, x, it.(time := now), it.lru);
    }

    /** do_item_update. */
    method Update(x: Id, now: nat, segmented: bool)
      requires Ok() && x in items
      modifies this`items, this`sizes, this`sizesBytes, lru, lru.heads, lru.tails, lru.prev, lru.next
      ensures Ok() && View() == ItemsRuns.Update(old(View()), x, now, segmented)
      ensures Touched(old(View()), View(), x, now, segmented)
    {
      UpdateTouches(View(), x, now, segmented);
      UpdateKeeps(View(), x, now, segmented);
      if segmented {
        if items[x].linked {
          Hit(x, now);
        }
      } else {
        Refresh(x, now);
      }
    }

    /** do_item_replace. */
    method Replace(x: Id, y: Id, now: nat)
      requires Ok() && CanReplace(View(), x, y) && items[x].linked && !items[y].linked && items[y].key == items[x].key
      modifies this, lru, lru.heads, lru.tails, lru.prev, lru.next
      ensures Ok() && View() == ItemsRuns.Replace(old(View()), x, y, now)
    {
      ReplaceKeeps(View(), x, y, now);
      UnlinkOther(View(), x, y);
      Unlink(x);
      Link(y, now);
    }
  }

  lemma SetTwice(s: State, x: Id, a: Item, b: Item)
    ensures Set(Set(s, x, a), x, b) == Set(s, x, b)
  {
    assert s.items[x := a][x := b] == s.items[x := b];
  }

  /** Relisting, component by component. */
  lemma RelistIs(s: State, x: Id, it: Item, to: nat)
    requires OnList(s, x) && to < |s.lists| && it.lru == s.items[x].lru && it.bytes == s.items[x].bytes
    ensures var t, l := Relist(Set(s, x, it), x, to), it.lru;
      && t.items == s.items[x := it.(lru := to)]
      && t.lists == (var off := s.lists[l := Without(s.lists[l], x)]; off[to := [x] + off[to]])
      && t.sizes == (var off := s.sizes[l := s.sizes[l] - 1]; off[to := off[to] + 1])
      && t.sizesBytes == (var off := s.sizesBytes[l := s.sizesBytes[l] - it.bytes]; off[to := off[to] + it.bytes])
      && t == s.(items := t.items, lists := t.lists, sizes := t.sizes, sizesBytes := t.sizesBytes)
  {}

  /** An item taken off its list is on none. */
  lemma OffList(lists: seq<seq<Id>>, l: nat, x: Id)
    requires Apart(lists) && l < |lists| && x in lists[l] && Distinct(lists[l])
    ensures LruLists.Absent(lists[l := Without(lists[l], x)], x)
  {
    WithoutIs(lists[l], x);
  }
}
