/** Emptying a slab page while the cache stays in use. Workers allocate, link, reference, unlink
    and free items at any time; the mover visits the page's chunks, takes free ones off their
    list, copies linked ones elsewhere and comes back for busy ones. Each section under the slabs
    lock or an item lock is one step. */
module SlabMover {
  import opened Options
  import opened Sequences

  type Chunk = nat
  type Key = seq<bv8>
  type Data = seq<bv8>

  /** A chunk by its flags. `Slabbed`: on a free list. `Cleared`: SLABBED and FETCHED, off every
      list. `Item`: a plain item, or the head of a chunked one with its chain of further chunks;
      `refs` is the reference count the code reads and `holders` how many owners outside the
      hash table it has. `Body`: a chained part of a larger item. */
  datatype Cell =
    | Slabbed
    | Cleared
    | Item(refs: nat, holders: nat, linked: bool, key: Key, data: Data, chain: seq<Chunk>)
    | Body(head: Chunk, data: Data)

  /** Where the mover is: between chunks, or holding an item lock and a reference while it
      rescues `it` (or, for a chained part, `part` of it) into `spare`. */
  datatype Phase = Between | Rescuing(it: Chunk, part: Option<Chunk>, spare: Option<Chunk>)

  datatype Mover = Off | On(source: nat, page: seq<Chunk>, pos: nat, busy: nat, loops: nat, done: bool, phase: Phase)

  /** `cls` gives each chunk's slab class, `slots` each class's free list, `table` the hash table. */
  datatype State = State(cells: map<Chunk, Cell>, cls: map<Chunk, nat>, slots: seq<seq<Chunk>>, table: map<Key, Chunk>,
    mover: Mover)

  const MAX_LOOPS := 1000

  // ---- the invariant ----

  /** Each free list holds exactly the free chunks of its class, each once. */
  ghost predicate SlotsOk(cells: map<Chunk, Cell>, cls: map<Chunk, nat>, slots: seq<seq<Chunk>>) {
    && cls.Keys == cells.Keys
    && (forall x :: x in cells ==> cls[x] < |slots|)
    && (forall c :: 0 <= c < |slots| ==> Distinct(slots[c]))
    && (forall c, x :: 0 <= c < |slots| && x in slots[c] ==> x in cells && cls[x] == c && cells[x].Slabbed?)
    && (forall x {:trigger cells[x].Slabbed?} :: x in cells && cells[x].Slabbed? ==> x in slots[cls[x]])
  }

  /** The reference count is the outside owners plus one for the hash table. */
  predicate RefsOk(cell: Cell) {
    cell.Item? ==> cell.refs == cell.holders + (if cell.linked then 1 else 0) && cell.refs > 0
  }

  ghost predicate ItemsOk(cells: map<Chunk, Cell>) {
    forall x :: x in cells ==> RefsOk(cells[x])
  }

  /** The hash table holds exactly the linked items, under their keys. */
  ghost predicate TableOk(cells: map<Chunk, Cell>, table: map<Key, Chunk>) {
    && (forall k :: k in table ==>
      table[k] in cells && cells[table[k]].Item? && cells[table[k]].linked && cells[table[k]].key == k)
    && (forall x {:trigger cells[x].linked} :: x in cells && cells[x].Item? && cells[x].linked ==>
      cells[x].key in table && table[cells[x].key] == x)
  }

  /** Chains and their parts point at each other. */
  ghost predicate ChainsOk(cells: map<Chunk, Cell>) {
    && (forall x {:trigger cells[x].chain} :: x in cells && cells[x].Item? ==> Distinct(cells[x].chain))
    && (forall x, b {:trigger b in cells[x].chain} :: x in cells && cells[x].Item? && b in cells[x].chain
          ==> b in cells && cells[b].Body? && cells[b].head == x)
    && (forall b {:trigger cells[b].Body?} :: b in cells && cells[b].Body? ==>
          cells[b].head in cells && cells[cells[b].head].Item? && b in cells[cells[b].head].chain)
  }

  /** In a pass with nothing busy so far, everything behind the cursor is clear; in the middle of
      a rescue the item is linked and referenced by the mover alone, and the spare is private. */
  ghost predicate MoverOk(cells: map<Chunk, Cell>, cls: map<Chunk, nat>, m: Mover) {
    m.On? ==>
      && Distinct(m.page) && m.pos <= |m.page|
      && (forall i :: 0 <= i < |m.page| ==> m.page[i] in cells && m.page[i] in cls && cls[m.page[i]] == m.source)
      && (m.busy == 0 ==> forall i :: 0 <= i < m.pos ==> cells[m.page[i]].Cleared?)
      && (m.done ==> m.phase.Between? && forall i :: 0 <= i < |m.page| ==> cells[m.page[i]].Cleared?)
      && (m.phase.Rescuing? ==> RescueOk(cells, cls, m))
  }

  ghost predicate RescueOk(cells: map<Chunk, Cell>, cls: map<Chunk, nat>, m: Mover)
    requires m.On? && m.phase.Rescuing?
  {
    && m.pos < |m.page|
    && m.phase.it in cells && cells[m.phase.it].Item? && cells[m.phase.it].linked && cells[m.phase.it].holders == 1
    && (m.phase.part.None? ==> m.phase.it == m.page[m.pos])
    && (m.phase.part.Some? ==> m.phase.part.value == m.page[m.pos] && m.phase.part.value in cells[m.phase.it].chain)
    && (m.phase.spare.Some? ==>
          && m.phase.spare.value in cells && m.phase.spare.value !in m.page && m.phase.spare.value != m.phase.it
          && m.phase.spare.value in cls && cls[m.phase.spare.value] == m.source
          && cells[m.phase.spare.value].Item? && !cells[m.phase.spare.value].linked
          && cells[m.phase.spare.value].holders == 1 && cells[m.phase.spare.value].chain == [])
  }

  ghost predicate Inv(s: State) {
    && SlotsOk(s.cells, s.cls, s.slots) && ItemsOk(s.cells) && TableOk(s.cells, s.table) && ChainsOk(s.cells)
    && MoverOk(s.cells, s.cls, s.mover)
  }

  // ---- what readers of the cache see ----

  function Joined(cells: map<Chunk, Cell>, chain: seq<Chunk>): Data {
    if |chain| == 0 then []
    else (if chain[0] in cells && cells[chain[0]].Body? then cells[chain[0]].data else []) + Joined(cells, chain[1..])
  }

  /** The value found under a key: the head's bytes and then those of its chain. */
  function Value(s: State, k: Key): Option<Data> {
    if k in s.table && s.table[k] in s.cells && s.cells[s.table[k]].Item?
    then Some(s.cells[s.table[k]].data + Joined(s.cells, s.cells[s.table[k]].chain))
    else None
  }

  // ---- worker steps ----

  /** The item lock of this key is held by the mover. */
  predicate Locked(s: State, k: Key) {
    s.mover.On? && s.mover.phase.Rescuing? && s.mover.phase.it in s.cells && s.cells[s.mover.phase.it].Item?
      && s.cells[s.mover.phase.it].key == k
  }

  predicate IsSpare(s: State, x: Chunk) {
    s.mover.On? && s.mover.phase.Rescuing? && s.mover.phase.spare == Some(x)
  }

  predicate IsItem(s: State, x: Chunk) {
    x in s.cells && s.cells[x].Item?
  }

  function Mark(xs: seq<Chunk>, cell: Cell): map<Chunk, Cell> {
    map x | x in xs :: cell
  }

  function Classed(xs: seq<Chunk>, c: nat): map<Chunk, nat> {
    map x | x in xs :: c
  }

  /** do_slabs_newslab: the chunks of a new page join the class. */
  function NewPage(s: State, c: nat, chunks: seq<Chunk>): State {
    var cls := s.cls + Classed(chunks, c);
    s.(cells := s.cells + Mark(chunks, Slabbed), cls := cls, slots := Push(s.slots, cls, chunks))
  }

  /** do_slabs_alloc: the head of the free list becomes an unlinked item with one owner. */
  function Alloc(s: State, c: nat, key: Key, data: Data): State
    requires c < |s.slots| && |s.slots[c]| > 0
  {
    var x := s.slots[c][0];
    s.(cells := s.cells[x := Item(1, 1, false, key, data, [])], slots := s.slots[c := s.slots[c][1..]])
  }

  /** do_item_alloc_chunk: a chunk just allocated is chained to an item still being filled. */
  function Attach(s: State, h: Chunk, x: Chunk): State
    requires IsItem(s, h) && IsItem(s, x)
  {
    s.(cells := s.cells[x := Body(h, s.cells[x].data)][h := s.cells[h].(chain := s.cells[h].chain + [x])])
  }

  /** do_item_link. */
  function Link(s: State, x: Chunk): State
    requires IsItem(s, x)
  {
    s.(cells := s.cells[x := s.cells[x].(linked := true, refs := s.cells[x].refs + 1)],
      table := s.table[s.cells[x].key := x])
  }

  /** A get that found the item. */
  function Ref(s: State, x: Chunk): State
    requires IsItem(s, x)
  {
    s.(cells := s.cells[x := s.cells[x].(refs := s.cells[x].refs + 1, holders := s.cells[x].holders + 1)])
  }

  /** Each chunk pushed on its class's free list in turn. */
  function Push(slots: seq<seq<Chunk>>, cls: map<Chunk, nat>, xs: seq<Chunk>): (r: seq<seq<Chunk>>)
    ensures |r| == |slots|
    decreases |xs|
  {
    if |xs| == 0 then slots
    else if xs[0] in cls && cls[xs[0]] < |slots| then Push(slots[cls[xs[0]] := [xs[0]] + slots[cls[xs[0]]]], cls,
      xs[1..])
    else Push(slots, cls, xs[1..])
  }

  /** slabs_free: the head, then every chained part, goes back to its own class. */
  function Free(s: State, x: Chunk): State
    requires IsItem(s, x)
  {
    var xs := [x] + s.cells[x].chain;
    s.(cells := s.cells + Mark(xs, Slabbed), slots := Push(s.slots, s.cls, xs))
  }

  /** do_item_remove. */
  function Unref(s: State, x: Chunk): State
    requires IsItem(s, x) && s.cells[x].refs > 0 && s.cells[x].holders > 0
  {
    if s.cells[x].refs == 1 then Free(s, x)
    else s.(cells := s.cells[x := s.cells[x].(refs := s.cells[x].refs - 1, holders := s.cells[x].holders - 1)])
  }

  /** do_item_unlink. */
  function Unlink(s: State, x: Chunk): State
    requires IsItem(s, x) && s.cells[x].linked && s.cells[x].refs > 0
  {
    var s1 := s.(cells := s.cells[x := s.cells[x].(linked := false, refs := s.cells[x].refs - 1)],
      table := s.table - {s.cells[x].key});
    if s.cells[x].refs == 1 then Free(s1, x) else s1
  }

  // ---- mover steps ----

  /** Past the current chunk; at the page's end start over if anything was busy, else be done. */
  function Advance(m: Mover, busy: bool): Mover
    requires m.On?
  {
    var b := if busy then m.busy + 1 else m.busy;
    if m.pos + 1 < |m.page| then m.(pos := m.pos + 1, busy := b, phase := Between)
    else if b > 0 then m.(pos := 0, busy := 0, loops := m.loops + 1, phase := Between)
    else m.(pos := m.pos + 1, busy := b, done := true, phase := Between)
  }

  /** slab_rebalance_start. */
  function Start(s: State, source: nat, page: seq<Chunk>): State {
    s.(mover := On(source, page, 0, 0, 0, false, Between))
  }

  function Cut(xs: seq<Chunk>, x: Chunk): seq<Chunk> {
    var i := Index(xs, x);
    if i < |xs| then xs[..i] + xs[i + 1..] else xs
  }

  /** slab_rebalance_cut_free, then marking the chunk clear. */
  function CutFree(s: State, x: Chunk): State
    requires x in s.cls && s.cls[x] < |s.slots|
  {
    s.(cells := s.cells[x := Cleared], slots := s.slots[s.cls[x] := Cut(s.slots[s.cls[x]], x)])
  }

  /** slab_rebalance_alloc: chunks of the page itself that come off the free list are cleared on
      the spot; the first other chunk is the spare. */
  function TakeSpare(s: State, tries: nat): (State, Option<Chunk>)
    requires s.mover.On?
    decreases tries
  {
    var c := s.mover.source;
    if tries == 0 || c >= |s.slots| || |s.slots[c]| == 0 then (s, None)
    else
      var x := s.slots[c][0];
      var s1 := s.(slots := s.slots[c := s.slots[c][1..]]);
      if x in s.mover.page then TakeSpare(s1.(cells := s.cells[x := Cleared]), tries - 1)
      else (s1.(cells := s.cells[x := Item(1, 1, false, [], [], [])]), Some(x))
  }

  /** The item a chunk belongs to: itself, or the head it is chained to. */
  function Owner(s: State, x: Chunk): Chunk {
    if x in s.cells && s.cells[x].Body? then s.cells[x].head else x
  }

  /** A reference taken by the mover, and a spare unless the item is expired: the slabs-lock half
      of rescuing a linked, idle item. */
  function BeginRescue(s: State, x: Chunk, expired: bool): State
    requires s.mover.On? && IsItem(s, Owner(s, x))
  {
    var it := Owner(s, x);
    var s1 := Ref(s, it);
    var (s2, spare) := if expired then (s1, None) else TakeSpare(s1, |s.mover.page|);
    s2.(mover := s.mover.(phase := Rescuing(it, if it == x then None else Some(x), spare)))
  }

  /** One look of slab_rebalance_move at the chunk under the cursor. */
  function Visit(s: State, locked: bool, expired: bool): State
    requires s.mover.On? && s.mover.pos < |s.mover.page|
    requires s.mover.page[s.mover.pos] in s.cells && s.mover.page[s.mover.pos] in s.cls
      && s.cls[s.mover.page[s.mover.pos]] < |s.slots|
    requires Owner(s, s.mover.page[s.mover.pos]) in s.cells
  {
    var m := s.mover;
    var x := m.page[m.pos];
    var it := Owner(s, x);
    match s.cells[it]
    case Cleared => s.(mover := Advance(m, false))
    case Slabbed => CutFree(s, x).(mover := Advance(m, false))
    case Body(_, _) => s.(mover := Advance(m, true))
    case Item(refs, holders, linked, key, _, _) =>
      if !linked || locked then s.(mover := Advance(m, true))
      else if refs == 1 then BeginRescue(s, x, expired)
      else if m.loops > MAX_LOOPS && refs > 0
      then Unlink(s, it).(mover := Advance(m, true))
      else s.(mover := Advance(m, true))
  }

  /** The chain's parts told of their new head. */
  function Repoint(cells: map<Chunk, Cell>, chain: seq<Chunk>, head: Chunk): map<Chunk, Cell> {
    map x | x in cells :: if x in chain && cells[x].Body? then cells[x].(head := head) else cells[x]
  }

  function Swap(xs: seq<Chunk>, x: Chunk, y: Chunk): seq<Chunk> {
    var i := Index(xs, x);
    if i < |xs| then xs[i := y] else xs
  }

  /** The item-lock half: the item (or the part) moved to the spare and its chunk cleared, or the
      item dropped and freed. */
  function EndRescue(s: State): State
    requires s.mover.On? && s.mover.phase.Rescuing? && IsItem(s, s.mover.phase.it)
    requires s.cells[s.mover.phase.it].linked && s.cells[s.mover.phase.it].refs > 0
      && s.cells[s.mover.phase.it].holders > 0
    requires s.mover.phase.part.Some? ==> s.mover.phase.part.value in s.cells && s.cells[s.mover.phase.part.value].Body?
  {
    var m := s.mover;
    var it := m.phase.it;
    var cell := s.cells[it];
    if m.phase.spare.None? then
      var s1 := s.(cells := s.cells[it := cell.(linked := false, refs := cell.refs - 1)],
        table := s.table - {cell.key});
      Free(s1, it).(mover := Advance(m, true))
    else
      var y := m.phase.spare.value;
      if m.phase.part.None? then
        var copy := Item(1, 0, true, cell.key, cell.data, cell.chain);
        s.(cells := Repoint(s.cells[y := copy][it := Cleared], cell.chain, y),
          table := s.table[cell.key := y], mover := Advance(m, false))
      else
        var x := m.phase.part.value;
        s.(cells := s.cells[y := Body(it, s.cells[x].data)][x := Cleared]
             [it := cell.(chain := Swap(cell.chain, x, y), refs := cell.refs - 1, holders := cell.holders - 1)],
           mover := Advance(m, false))
  }

  /** slab_rebalance_finish: the page leaves its class. */
  function Finish(s: State): State
    requires s.mover.On?
  {
    var page := set x | x in s.mover.page;
    s.(cells := s.cells - page, cls := s.cls - page, mover := Off)
  }
}
