/** Items between the hash table, the segmented LRU lists, the bump buffer and their outside
    owners. The reference count always adds up, a linked item is in the table and on exactly one
    list, and the list sizes match. Tail repair is off and no page move is in progress. */
module Items {
  import opened Sequences

  type Id = nat
  type Key = seq<bv8>

  const HOT := 0
  const WARM := 64
  const COLD := 128
  const TEMP := 192
  const LARGEST := 256

  /** `lru` is slabs_clsid: the slab class in the low six bits, the LRU segment above. */
  datatype Item = Item(key: Key, refs: nat, linked: bool, lru: nat, bytes: nat, exptime: nat, time: nat, fetched: bool,
    active: bool)

  /** `items` are the allocated items; a freed one is gone. `lists` are the LRU lists, head first;
      an element that is no item is a crawler passing through. `holders` are the references held
      outside, `bumps` those held by entries of the bump buffer. */
  datatype State = State(
    items: map<Id, Item>, table: map<Key, Id>, lists: seq<seq<Id>>, sizes: seq<int>, sizesBytes: seq<int>,
      currItems: int,
    holders: multiset<Id>, bumps: multiset<Id>)

  // ---- the invariant ----

  function Count(list: seq<Id>, items: map<Id, Item>): nat {
    if |list| == 0 then 0 else (if list[0] in items then 1 else 0) + Count(list[1..], items)
  }

  function Bytes(list: seq<Id>, items: map<Id, Item>): nat {
    if |list| == 0 then 0 else (if list[0] in items then items[list[0]].bytes else 0) + Bytes(list[1..], items)
  }

  /** Reference count = outside owners + bump entries + one if linked; nothing else is referenced. */
  ghost predicate RefsOk(items: map<Id, Item>, holders: multiset<Id>, bumps: multiset<Id>) {
    && (forall x :: x in items ==>
      items[x].refs == holders[x] + bumps[x] + (if items[x].linked then 1 else 0) && items[x].refs > 0)
    && (forall x :: x in holders || x in bumps ==> x in items)
  }

  /** The table holds exactly the linked items, each under its key. */
  ghost predicate TableOk(items: map<Id, Item>, table: map<Key, Id>) {
    && (forall k :: k in table ==> table[k] in items && items[table[k]].linked && items[table[k]].key == k)
    && (forall x {:trigger items[x].linked} :: x in items && items[x].linked ==>
      items[x].key in table && table[items[x].key] == x)
  }

  /** A linked item is on its own list, once, and on no other. */
  ghost predicate PlacesOk(items: map<Id, Item>, lists: seq<seq<Id>>) {
    && |lists| == LARGEST
    && (forall x :: x in items ==> items[x].lru < LARGEST)
    && (forall l :: 0 <= l < LARGEST ==> Distinct(lists[l]))
    && (forall l, x {:trigger x in lists[l]} :: 0 <= l < LARGEST && x in lists[l] && x in items ==>
      items[x].linked && items[x].lru == l)
    && (forall x {:trigger items[x].linked} :: x in items && items[x].linked ==> x in lists[items[x].lru])
  }

  /** The recorded sizes count the items of a list, not the crawlers. */
  predicate SizeOk(list: seq<Id>, items: map<Id, Item>, size: int, bytes: int) {
    size == Count(list, items) && bytes == Bytes(list, items)
  }

  ghost predicate SizesOk(items: map<Id, Item>, lists: seq<seq<Id>>, sizes: seq<int>, sizesBytes: seq<int>) {
    && |lists| == |sizes| == |sizesBytes| == LARGEST
    && forall l {:trigger sizes[l]} :: 0 <= l < LARGEST ==> SizeOk(lists[l], items, sizes[l], sizesBytes[l])
  }

  ghost predicate Inv(s: State) {
    && RefsOk(s.items, s.holders, s.bumps)
    && TableOk(s.items, s.table) && s.currItems == |s.table|
    && PlacesOk(s.items, s.lists)
    && SizesOk(s.items, s.lists, s.sizes, s.sizesBytes)
  }

  /** The cache at the start. */
  function Empty(): State {
    State(map[], map[], seq(LARGEST, _ => []), seq(LARGEST, _ => 0), seq(LARGEST, _ => 0), 0, multiset{}, multiset{})
  }

  lemma EmptyInv()
    ensures Inv(Empty())
  {}

  // ---- the primitive operations ----

  function Without(list: seq<Id>, x: Id): seq<Id> {
    var i := Index(list, x);
    if i < |list| then list[..i] + list[i + 1..] else list
  }

  predicate OnList(s: State, x: Id) {
    x in s.items && s.items[x].lru < |s.lists| == |s.sizes| == |s.sizesBytes|
  }

  /** do_item_link_q. */
  function LinkQ(s: State, x: Id): State
    requires OnList(s, x)
  {
    var l := s.items[x].lru;
    s.(lists := s.lists[l := [x] + s.lists[l]], sizes := s.sizes[l := s.sizes[l] + 1],
       sizesBytes := s.sizesBytes[l := s.sizesBytes[l] + s.items[x].bytes])
  }

  /** do_item_unlink_q. */
  function UnlinkQ(s: State, x: Id): State
    requires OnList(s, x)
  {
    var l := s.items[x].lru;
    s.(lists := s.lists[l := Without(s.lists[l], x)], sizes := s.sizes[l := s.sizes[l] - 1],
       sizesBytes := s.sizesBytes[l := s.sizesBytes[l] - s.items[x].bytes])
  }

  function Set(s: State, x: Id, it: Item): State {
    s.(items := s.items[x := it])
  }

  /** do_item_alloc: an unlinked item with one owner. */
  function Alloc(s: State, x: Id, it: Item): State {
    Set(s, x, it.(refs := 1, linked := false)).(holders := s.holders + multiset{x})
  }

  /** refcount_incr by an outside owner. */
  function Ref(s: State, x: Id): State
    requires x in s.items
  {
    Set(s, x, s.items[x].(refs := s.items[x].refs + 1)).(holders := s.holders + multiset{x})
  }

  /** What item_free asserts. */
  predicate FreeAsserts(s: State, x: Id) {
    x in s.items && s.items[x].refs == 0 && !s.items[x].linked && forall l :: 0 <= l < |s.lists| ==> x !in s.lists[l]
  }

  /** The reference count drops; at zero the item is freed. */
  function Drop(s: State, x: Id): State
    requires x in s.items && s.items[x].refs > 0
  {
    if s.items[x].refs == 1 then s.(items := s.items - {x}) else Set(s, x, s.items[x].(refs := s.items[x].refs - 1))
  }

  /** do_item_remove by an outside owner. */
  function Remove(s: State, x: Id): State
    requires x in s.items && s.items[x].refs > 0
  {
    Drop(s, x).(holders := s.holders - multiset{x})
  }

  /** do_item_link. */
  function Link(s: State, x: Id, now: nat): State
    requires OnList(s, x)
  {
    var s1 := Set(s, x, s.items[x].(linked := true, time := now, refs := s.items[x].refs + 1));
    LinkQ(s1.(currItems := s.currItems + 1, table := s.table[s.items[x].key := x]), x)
  }

  /** do_item_unlink. */
  function Unlink(s: State, x: Id): State
    requires OnList(s, x) && s.items[x].refs > 0
  {
    if !s.items[x].linked then s
    else
      var s1 := Set(s, x, s.items[x].(linked := false)).(currItems := s.currItems - 1,
        table := s.table - {s.items[x].key});
      Drop(UnlinkQ(s1, x), x)
  }

  /** Taken off one list and put at the head of another, or of the same one. */
  function Relist(s: State, x: Id, lru: nat): State
    requires OnList(s, x) && lru < |s.lists|
  {
    var s1 := UnlinkQ(s, x);
    LinkQ(Set(s1, x, s.items[x].(lru := lru)), x)
  }
}
