/** Each item operation keeps the books, and the asserts of item_free hold whenever it is called. */
module ItemsSafety {
  import opened Items
  import opened Sequences

  // ---- lists ----

  lemma WithoutMember(list: seq<Id>, x: Id, y: Id)
    requires y in list && y != x
    ensures y in Without(list, x)
  {
    var i := Index(list, x);
    var j :| 0 <= j < |list| && list[j] == y;
    if i < |list| {
      assert Without(list, x)[if j < i then j else j - 1] == y;
    }
  }

  lemma WithoutOnly(list: seq<Id>, x: Id)
    requires Distinct(list)
    ensures Distinct(Without(list, x)) && forall y :: y in Without(list, x) ==> y in list && y != x
  {}

  lemma WithoutIs(list: seq<Id>, x: Id)
    requires Distinct(list)
    ensures Distinct(Without(list, x)) && forall y :: y in Without(list, x) <==> y in list && y != x
  {
    WithoutOnly(list, x);
    forall y | y in list && y != x
      ensures y in Without(list, x)
    {
      WithoutMember(list, x, y);
    }
  }

  lemma {:induction false} CountsFrame(list: seq<Id>, items: map<Id, Item>, items': map<Id, Item>)
    requires forall y :: y in list ==>
      (y in items <==> y in items') && (y in items ==> items'[y].bytes == items[y].bytes)
    ensures Count(list, items') == Count(list, items) && Bytes(list, items') == Bytes(list, items)
    decreases |list|
  {
    if |list| > 0 {
      assert list[0] in list && forall y :: y in list[1..] ==> y in list;
      CountsFrame(list[1..], items, items');
    }
  }

  lemma IndexTail(list: seq<Id>, x: Id)
    requires x in list && list[0] != x
    ensures x in list[1..] && Index(list[1..], x) == Index(list, x) - 1
  {
    var i := Index(list, x);
    assert list[1..][i - 1] == x;
  }

  lemma DropTail(list: seq<Id>, i: nat)
    requires 0 < i < |list|
    ensures list[..i] + list[i + 1..] == [list[0]] + (list[1..][..i - 1] + list[1..][i..])
  {}

  lemma WithoutTail(list: seq<Id>, x: Id)
    requires x in list && list[0] != x
    ensures x in list[1..] && Without(list, x) == [list[0]] + Without(list[1..], x)
  {
    IndexTail(list, x);
    DropTail(list, Index(list, x));
  }

  lemma {:induction false} CountsWithout(list: seq<Id>, items: map<Id, Item>, x: Id)
    requires x in list && x in items
    ensures Count(Without(list, x), items) == Count(list, items) - 1
    ensures Bytes(Without(list, x), items) == Bytes(list, items) - items[x].bytes
    decreases |list|
  {
    if list[0] == x {
      assert Without(list, x) == list[1..];
    } else {
      WithoutTail(list, x);
      CountsWithout(list[1..], items, x);
      assert ([list[0]] + Without(list[1..], x))[1..] == Without(list[1..], x);
    }
  }

  /** An item keeps its key, place and size. */
  predicate SamePlace(a: Item, b: Item) {
    b.key == a.key && b.linked == a.linked && b.lru == a.lru && b.bytes == a.bytes
  }

  // ---- one item replaced, added or freed ----

  /** Sizes carry over to another set of items that agrees on everything listed. */
  lemma SizesFrame(items: map<Id, Item>, lists: seq<seq<Id>>, sizes: seq<int>, bytes: seq<int>, items': map<Id, Item>)
    requires SizesOk(items, lists, sizes, bytes)
    requires forall l, y :: 0 <= l < LARGEST && y in lists[l] ==>
      (y in items <==> y in items') && (y in items' ==> items'[y].bytes == items[y].bytes)
    ensures SizesOk(items', lists, sizes, bytes)
  {
    forall l | 0 <= l < LARGEST
      ensures SizeOk(lists[l], items', sizes[l], bytes[l])
    {
      CountsFrame(lists[l], items, items');
    }
  }

  lemma SetTable(items: map<Id, Item>, table: map<Key, Id>, x: Id, it: Item)
    requires TableOk(items, table) && x in items && it.key == items[x].key && it.linked == items[x].linked
    ensures TableOk(items[x := it], table)
  {}

  lemma SetPlaces(items: map<Id, Item>, lists: seq<seq<Id>>, x: Id, it: Item)
    requires PlacesOk(items, lists) && x in items && SamePlace(items[x], it)
    ensures PlacesOk(items[x := it], lists)
  {}

  lemma SetSizes(items: map<Id, Item>, lists: seq<seq<Id>>, sizes: seq<int>, bytes: seq<int>, x: Id, it: Item)
    requires SizesOk(items, lists, sizes, bytes) && x in items && it.bytes == items[x].bytes
    ensures SizesOk(items[x := it], lists, sizes, bytes)
  {
    SizesFrame(items, lists, sizes, bytes, items[x := it]);
  }

  /** All but the reference counts. */
  ghost predicate PlacedOk(s: State) {
    TableOk(s.items, s.table) && s.currItems == |s.table| && PlacesOk(s.items, s.lists)
      && SizesOk(s.items, s.lists, s.sizes, s.sizesBytes)
  }

  lemma SetKeeps(s: State, x: Id, it: Item)
    requires PlacedOk(s) && x in s.items && SamePlace(s.items[x], it)
    ensures PlacedOk(Set(s, x, it))
  {
    SetTable(s.items, s.table, x, it);
    SetPlaces(s.items, s.lists, x, it);
    SetSizes(s.items, s.lists, s.sizes, s.sizesBytes, x, it);
  }

  lemma RefUp(items: map<Id, Item>, holders: multiset<Id>, bumps: multiset<Id>, x: Id)
    requires RefsOk(items, holders, bumps) && x in items
    ensures RefsOk(items[x := items[x].(refs := items[x].refs + 1)], holders + multiset{x}, bumps)
    ensures RefsOk(items[x := items[x].(refs := items[x].refs + 1)], holders, bumps + multiset{x})
  {}

  lemma RefKeeps(s: State, x: Id)
    requires Inv(s) && x in s.items
    ensures Inv(Ref(s, x))
  {
    RefUp(s.items, s.holders, s.bumps, x);
    SetKeeps(s, x, s.items[x].(refs := s.items[x].refs + 1));
  }

  lemma TouchRefs(items: map<Id, Item>, holders: multiset<Id>, bumps: multiset<Id>, x: Id, it: Item)
    requires RefsOk(items, holders, bumps) && x in items && it.refs == items[x].refs && it.linked == items[x].linked
    ensures RefsOk(items[x := it], holders, bumps)
  {}

  lemma TouchKeeps(s: State, x: Id, it: Item)
    requires Inv(s) && x in s.items && SamePlace(s.items[x], it) && it.refs == s.items[x].refs
    ensures Inv(Set(s, x, it))
  {
    TouchRefs(s.items, s.holders, s.bumps, x, it);
    SetKeeps(s, x, it);
  }

  lemma AllocPlaces(items: map<Id, Item>, table: map<Key, Id>, lists: seq<seq<Id>>, x: Id, it: Item)
    requires TableOk(items, table) && PlacesOk(items, lists) && x !in items && it.lru < LARGEST && !it.linked
    requires forall l :: 0 <= l < LARGEST ==> x !in lists[l]
    ensures TableOk(items[x := it], table) && PlacesOk(items[x := it], lists)
  {}

  lemma AllocRefs(items: map<Id, Item>, holders: multiset<Id>, bumps: multiset<Id>, x: Id, it: Item)
    requires RefsOk(items, holders, bumps) && x !in items && it.refs == 1 && !it.linked
    ensures RefsOk(items[x := it], holders + multiset{x}, bumps)
  {
    assert x !in holders && x !in bumps;
  }

  /** do_item_alloc at a chunk that is no item and no crawler. */
  lemma AllocKeeps(s: State, x: Id, it: Item)
    requires Inv(s) && x !in s.items && it.lru < LARGEST && forall l :: 0 <= l < LARGEST ==> x !in s.lists[l]
    ensures Inv(Alloc(s, x, it))
  {
    var it1 := it.(refs := 1, linked := false);
    AllocPlaces(s.items, s.table, s.lists, x, it1);
    AllocRefs(s.items, s.holders, s.bumps, x, it1);
    SizesFrame(s.items, s.lists, s.sizes, s.sizesBytes, s.items[x := it1]);
  }

  lemma Unlisted(items: map<Id, Item>, lists: seq<seq<Id>>, x: Id)
    requires PlacesOk(items, lists) && x in items && !items[x].linked
    ensures forall l :: 0 <= l < LARGEST ==> x !in lists[l]
  {}

  lemma FreedPlaces(items: map<Id, Item>, table: map<Key, Id>, lists: seq<seq<Id>>, x: Id)
    requires TableOk(items, table) && PlacesOk(items, lists) && x in items && !items[x].linked
    ensures TableOk(items - {x}, table) && PlacesOk(items - {x}, lists)
  {}

  lemma FreedKeeps(s: State, x: Id)
    requires PlacedOk(s) && x in s.items && !s.items[x].linked
    ensures PlacedOk(s.(items := s.items - {x}))
  {
    Unlisted(s.items, s.lists, x);
    FreedPlaces(s.items, s.table, s.lists, x);
    SizesFrame(s.items, s.lists, s.sizes, s.sizesBytes, s.items - {x});
  }

  lemma DownKeeps(s: State, x: Id)
    requires PlacedOk(s) && x in s.items && s.items[x].refs > 1
    ensures PlacedOk(Set(s, x, s.items[x].(refs := s.items[x].refs - 1)))
  {
    SetKeeps(s, x, s.items[x].(refs := s.items[x].refs - 1));
  }

  /** An unlinked item that loses its last reference is free in the eyes of item_free. */
  lemma FreeIsSafe(s: State, x: Id)
    requires PlacesOk(s.items, s.lists) && x in s.items && !s.items[x].linked
    ensures FreeAsserts(Set(s, x, s.items[x].(refs := 0)), x)
  {
    Unlisted(s.items, s.lists, x);
  }

  /** Giving up a reference to an item that is on no list, or one of several: if the item goes,
      item_free's asserts hold. */
  lemma DropKeeps(s: State, x: Id)
    requires PlacedOk(s) && x in s.items && s.items[x].refs > 0 && (s.items[x].refs == 1 ==> !s.items[x].linked)
    ensures PlacedOk(Drop(s, x))
    ensures s.items[x].refs == 1 ==> FreeAsserts(Set(s, x, s.items[x].(refs := 0)), x)
  {
    if s.items[x].refs == 1 {
      FreeIsSafe(s, x);
      FreedKeeps(s, x);
    } else {
      DownKeeps(s, x);
    }
  }

  lemma HolderDown(s: State, x: Id)
    requires RefsOk(s.items, s.holders, s.bumps) && x in s.holders
    ensures x in s.items && s.items[x].refs > 0 && RefsOk(Drop(s, x).items, s.holders - multiset{x}, s.bumps)
    ensures s.items[x].refs == 1 ==> !s.items[x].linked
  {}

  lemma BumpDown(s: State, x: Id)
    requires RefsOk(s.items, s.holders, s.bumps) && x in s.bumps
    ensures x in s.items && s.items[x].refs > 0 && RefsOk(Drop(s, x).items, s.holders, s.bumps - multiset{x})
    ensures s.items[x].refs == 1 ==> !s.items[x].linked
  {}

  /** do_item_remove by an owner: if the item goes, item_free's asserts hold. */
  lemma RemoveKeeps(s: State, x: Id)
    requires Inv(s) && x in s.holders
    ensures x in s.items && s.items[x].refs > 0 && Inv(Remove(s, x))
    ensures s.items[x].refs == 1 ==> FreeAsserts(Set(s, x, s.items[x].(refs := 0)), x)
  {
    HolderDown(s, x);
    DropKeeps(s, x);
  }

  // ---- on and off a list ----

  lemma AttachedSizes(items: map<Id, Item>, lists: seq<seq<Id>>, sizes: seq<int>, bytes: seq<int>, x: Id, it: Item)
    requires SizesOk(items, lists, sizes, bytes) && x in items && it.bytes == items[x].bytes && it.lru < LARGEST
    ensures var l := it.lru;
            SizesOk(items[x := it], lists[l := [x] + lists[l]], sizes[l := sizes[l] + 1],
              bytes[l := bytes[l] + it.bytes])
  {
    SetSizes(items, lists, sizes, bytes, x, it);
    var l := it.lru;
    assert ([x] + lists[l])[1..] == lists[l];
    assert SizeOk(lists[l], items[x := it], sizes[l], bytes[l]);
  }

  lemma DetachedSizes(items: map<Id, Item>, lists: seq<seq<Id>>, sizes: seq<int>, bytes: seq<int>, x: Id, it: Item)
    requires SizesOk(items, lists, sizes, bytes) && x in items && it.bytes == items[x].bytes && items[x].lru < LARGEST
    requires x in lists[items[x].lru]
    ensures var l := items[x].lru;
            SizesOk(items[x := it], lists[l := Without(lists[l], x)], sizes[l := sizes[l] - 1],
              bytes[l := bytes[l] - it.bytes])
  {
    SetSizes(items, lists, sizes, bytes, x, it);
    var l := items[x].lru;
    assert SizeOk(lists[l], items[x := it], sizes[l], bytes[l]);
    CountsWithout(lists[l], items[x := it], x);
  }

  /** A list with `x` taken out, if it was there. */
  ghost predicate Lacks(list: seq<Id>, list': seq<Id>, x: Id) {
    Distinct(list') && forall y :: y in list' <==> y in list && y != x
  }

  lemma DetachedPlaces(items: map<Id, Item>, lists: seq<seq<Id>>, x: Id, list: seq<Id>)
    requires PlacesOk(items, lists) && x in items && items[x].linked && Lacks(lists[items[x].lru], list, x)
    ensures PlacesOk(items[x := items[x].(linked := false)], lists[items[x].lru := list])
  {
    var items', lists' := items[x := items[x].(linked := false)], lists[items[x].lru := list];
    forall k, y | 0 <= k < LARGEST && y in lists'[k] && y in items'
      ensures items'[y].linked && items'[y].lru == k
    {
      assert y in lists[k];
    }
    forall y | y in items' && items'[y].linked
      ensures y in lists'[items'[y].lru]
    {
      assert items[y].linked;
    }
  }

  lemma AttachedPlaces(items: map<Id, Item>, lists: seq<seq<Id>>, x: Id, it: Item)
    requires PlacesOk(items, lists) && x in items && !items[x].linked && it.linked && it.lru < LARGEST
    ensures PlacesOk(items[x := it], lists[it.lru := [x] + lists[it.lru]])
  {
    var items', lists' := items[x := it], lists[it.lru := [x] + lists[it.lru]];
    assert x !in lists[it.lru];
    forall k, y | 0 <= k < LARGEST && y in lists'[k] && y in items'
      ensures items'[y].linked && items'[y].lru == k
    {
      if y != x {
        assert y in lists[k];
      } else {
        assert x !in lists[k];
      }
    }
    forall y | y in items' && items'[y].linked
      ensures y in lists'[items'[y].lru]
    {
      if y != x {
        assert items[y].linked && y in lists[items[y].lru];
      }
    }
  }

  // ---- linking ----

  lemma LinkTable(items: map<Id, Item>, table: map<Key, Id>, x: Id, it: Item)
    requires TableOk(items, table) && x in items && !items[x].linked && it.key == items[x].key && it.key !in table
      && it.linked
    ensures TableOk(items[x := it], table[it.key := x]) && |table[it.key := x]| == |table| + 1
  {}

  lemma LinkRefs(items: map<Id, Item>, holders: multiset<Id>, bumps: multiset<Id>, x: Id, it: Item)
    requires RefsOk(items, holders, bumps) && x in items && !items[x].linked && it.linked
      && it.refs == items[x].refs + 1
    ensures RefsOk(items[x := it], holders, bumps)
  {}

  lemma LinkIs(s: State, x: Id, now: nat)
    requires OnList(s, x)
    ensures var t, l := Link(s, x, now), s.items[x].lru;
      t.items == s.items[x := s.items[x].(linked := true, time := now, refs := s.items[x].refs + 1)] &&
      t.table == s.table[s.items[x].key := x] && t.currItems == s.currItems + 1 &&
      t.lists == s.lists[l := [x] + s.lists[l]] && t.sizes == s.sizes[l := s.sizes[l] + 1] &&
      t.sizesBytes == s.sizesBytes[l := s.sizesBytes[l] + s.items[x].bytes]
  {}

  lemma LinkPlaces(s: State, x: Id, now: nat)
    requires PlacesOk(s.items, s.lists) && OnList(s, x) && !s.items[x].linked
    ensures PlacesOk(Link(s, x, now).items, Link(s, x, now).lists)
  {
    AttachedPlaces(s.items, s.lists, x, s.items[x].(linked := true, time := now, refs := s.items[x].refs + 1));
    LinkIs(s, x, now);
  }

  lemma LinkSizes(s: State, x: Id, now: nat)
    requires SizesOk(s.items, s.lists, s.sizes, s.sizesBytes) && OnList(s, x)
    ensures var t := Link(s, x, now); SizesOk(t.items, t.lists, t.sizes, t.sizesBytes)
  {
    AttachedSizes(s.items, s.lists, s.sizes, s.sizesBytes, x,
      s.items[x].(linked := true, time := now, refs := s.items[x].refs + 1));
    LinkIs(s, x, now);
  }

  /** do_item_link of an unlinked item whose key is not in the table. */
  lemma LinkKeeps(s: State, x: Id, now: nat)
    requires Inv(s) && x in s.items && !s.items[x].linked && s.items[x].key !in s.table
    ensures Inv(Link(s, x, now))
  {
    var it := s.items[x].(linked := true, time := now, refs := s.items[x].refs + 1);
    LinkTable(s.items, s.table, x, it);
    LinkRefs(s.items, s.holders, s.bumps, x, it);
    LinkPlaces(s, x, now);
    LinkSizes(s, x, now);
  }

  // ---- unlinking ----

  /** The item as do_item_unlink leaves it before it gives up the table's reference. */
  function Unhooked(s: State, x: Id): State
    requires OnList(s, x)
  {
    UnlinkQ(Set(s, x, s.items[x].(linked := false)).(currItems := s.currItems - 1,
      table := s.table - {s.items[x].key}), x)
  }

  lemma UnhookedTable(items: map<Id, Item>, table: map<Key, Id>, x: Id)
    requires TableOk(items, table) && x in items && items[x].linked
    ensures TableOk(items[x := items[x].(linked := false)], table - {items[x].key})
      && |table - {items[x].key}| == |table| - 1
  {}

  lemma UnhookedIs(s: State, x: Id)
    requires OnList(s, x)
    ensures var t, l := Unhooked(s, x), s.items[x].lru;
      t.items == s.items[x := s.items[x].(linked := false)] && t.table == s.table - {s.items[x].key}
        && t.currItems == s.currItems - 1 &&
      t.lists == s.lists[l := Without(s.lists[l], x)] && t.sizes == s.sizes[l := s.sizes[l] - 1] &&
      t.sizesBytes == s.sizesBytes[l := s.sizesBytes[l] - s.items[x].bytes]
  {}

  lemma UnhookedPlaces(s: State, x: Id)
    requires PlacesOk(s.items, s.lists) && OnList(s, x) && s.items[x].linked
    ensures PlacesOk(Unhooked(s, x).items, Unhooked(s, x).lists) && x in s.lists[s.items[x].lru]
  {
    var l := s.items[x].lru;
    WithoutIs(s.lists[l], x);
    DetachedPlaces(s.items, s.lists, x, Without(s.lists[l], x));
    UnhookedIs(s, x);
  }

  lemma UnhookedSizes(s: State, x: Id)
    requires SizesOk(s.items, s.lists, s.sizes, s.sizesBytes) && OnList(s, x) && x in s.lists[s.items[x].lru]
    ensures var t := Unhooked(s, x); SizesOk(t.items, t.lists, t.sizes, t.sizesBytes)
  {
    DetachedSizes(s.items, s.lists, s.sizes, s.sizesBytes, x, s.items[x].(linked := false));
    UnhookedIs(s, x);
  }

  lemma UnhookedKeeps(s: State, x: Id)
    requires PlacedOk(s) && x in s.items && s.items[x].linked
    ensures PlacedOk(Unhooked(s, x))
  {
    UnhookedTable(s.items, s.table, x);
    UnhookedPlaces(s, x);
    UnhookedSizes(s, x);
  }

  lemma UnlinkRefs(s: State, x: Id)
    requires RefsOk(s.items, s.holders, s.bumps) && OnList(s, x)
    ensures s.items[x].refs > 0 && RefsOk(Unlink(s, x).items, s.holders, s.bumps)
    ensures x in s.holders ==> x in Unlink(s, x).items
  {}

  /** do_item_unlink keeps the books whether or not anybody else still holds the item; if it is
      freed, item_free's asserts hold. */
  lemma UnlinkKeeps(s: State, x: Id)
    requires Inv(s) && x in s.items
    ensures s.items[x].refs > 0 && Inv(Unlink(s, x))
    ensures s.items[x].linked && s.items[x].refs == 1 ==>
      FreeAsserts(Set(Unhooked(s, x), x, Unhooked(s, x).items[x].(refs := 0)), x)
    ensures x in s.holders ==> x in Unlink(s, x).items
  {
    UnlinkRefs(s, x);
    if s.items[x].linked {
      UnhookedKeeps(s, x);
      DropKeeps(Unhooked(s, x), x);
    }
  }

  // ---- moving between lists ----

  lemma RelistPlaces(items: map<Id, Item>, lists: seq<seq<Id>>, x: Id, lru: nat)
    requires PlacesOk(items, lists) && x in items && items[x].linked && lru < LARGEST
    ensures var lists1 := lists[items[x].lru := Without(lists[items[x].lru], x)];
            PlacesOk(items[x := items[x].(lru := lru)], lists1[lru := [x] + lists1[lru]])
  {
    var l, it := items[x].lru, items[x];
    WithoutIs(lists[l], x);
    DetachedPlaces(items, lists, x, Without(lists[l], x));
    var items1 := items[x := it.(linked := false)];
    AttachedPlaces(items1, lists[l := Without(lists[l], x)], x, it.(lru := lru));
    assert items1[x := it.(lru := lru)] == items[x := it.(lru := lru)];
  }

  lemma RelistSizes(s: State, x: Id, lru: nat)
    requires SizesOk(s.items, s.lists, s.sizes, s.sizesBytes) && OnList(s, x) && x in s.lists[s.items[x].lru]
      && lru < LARGEST
    ensures var t := Relist(s, x, lru); SizesOk(t.items, t.lists, t.sizes, t.sizesBytes)
  {
    DetachedSizes(s.items, s.lists, s.sizes, s.sizesBytes, x, s.items[x]);
    assert s.items[x := s.items[x]] == s.items;
    var s1 := UnlinkQ(s, x);
    AttachedSizes(s1.items, s1.lists, s1.sizes, s1.sizesBytes, x, s.items[x].(lru := lru));
  }

  lemma RelistKeeps(s: State, x: Id, lru: nat)
    requires Inv(s) && x in s.items && s.items[x].linked && lru < LARGEST
    ensures Inv(Relist(s, x, lru))
  {
    var it := s.items[x].(lru := lru);
    RelistPlaces(s.items, s.lists, x, lru);
    RelistSizes(s, x, lru);
    SetTable(s.items, s.table, x, it);
    TouchRefs(s.items, s.holders, s.bumps, x, it);
  }
}
