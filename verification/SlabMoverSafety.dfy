/** Worker and mover steps keep the allocator's invariant in every interleaving, so a page
    declared done is empty and every rescued item is still found with its value. */
module SlabMoverSafety {
  import opened Options
  import opened Sequences
  import opened SlabMover

  // ---- one change at a time ----

  lemma SlotsSame(cells: map<Chunk, Cell>, cls: map<Chunk, nat>, slots: seq<seq<Chunk>>, x: Chunk, cell: Cell)
    requires SlotsOk(cells, cls, slots) && x in cells && !cells[x].Slabbed? && !cell.Slabbed?
    ensures SlotsOk(cells[x := cell], cls, slots)
  {
    assert cells[x := cell].Keys == cells.Keys;
  }

  lemma SlotsPop(cells: map<Chunk, Cell>, cls: map<Chunk, nat>, slots: seq<seq<Chunk>>, c: nat, cell: Cell)
    requires SlotsOk(cells, cls, slots) && c < |slots| && |slots[c]| > 0 && !cell.Slabbed?
    ensures slots[c][0] in cells && SlotsOk(cells[slots[c][0] := cell], cls, slots[c := slots[c][1..]])
  {
    var x := slots[c][0];
    assert x in slots[c];
    assert cells[x := cell].Keys == cells.Keys;
    var slots' := slots[c := slots[c][1..]];
    forall y | y in cells && cells[x := cell][y].Slabbed?
      ensures y in slots'[cls[y]]
    {
      assert y in slots[cls[y]];
    }
  }

  lemma StillThere(xs: seq<Chunk>, i: nat, j: nat)
    requires i < |xs| && j < |xs| && j != i
    ensures xs[j] in xs[..i] + xs[i + 1..]
  {
    assert (xs[..i] + xs[i + 1..])[if j < i then j else j - 1] == xs[j];
  }

  lemma CutMember(xs: seq<Chunk>, x: Chunk, y: Chunk)
    requires Distinct(xs) && y in xs && y != x
    ensures y in Cut(xs, x)
  {
    var i := Index(xs, x);
    if i < |xs| {
      var j :| 0 <= j < |xs| && xs[j] == y;
      StillThere(xs, i, j);
    }
  }

  lemma CutOnly(xs: seq<Chunk>, x: Chunk)
    requires Distinct(xs)
    ensures Distinct(Cut(xs, x)) && forall y :: y in Cut(xs, x) ==> y in xs && y != x
  {}

  lemma CutIs(xs: seq<Chunk>, x: Chunk)
    requires Distinct(xs)
    ensures Distinct(Cut(xs, x)) && forall y :: y in Cut(xs, x) <==> y in xs && y != x
  {
    CutOnly(xs, x);
    forall y | y in xs && y != x
      ensures y in Cut(xs, x)
    {
      CutMember(xs, x, y);
    }
  }

  lemma SlotsCut(cells: map<Chunk, Cell>, cls: map<Chunk, nat>, slots: seq<seq<Chunk>>, x: Chunk, cell: Cell)
    requires SlotsOk(cells, cls, slots) && x in cells && cells[x].Slabbed? && !cell.Slabbed?
    ensures SlotsOk(cells[x := cell], cls, slots[cls[x] := Cut(slots[cls[x]], x)])
  {
    CutIs(slots[cls[x]], x);
    assert cells[x := cell].Keys == cells.Keys;
  }

  lemma SlotsPushOne(cells: map<Chunk, Cell>, cls: map<Chunk, nat>, slots: seq<seq<Chunk>>, x: Chunk)
    requires SlotsOk(cells, cls, slots) && x in cells && !cells[x].Slabbed?
    ensures SlotsOk(cells[x := Slabbed], cls, slots[cls[x] := [x] + slots[cls[x]]])
  {
    var cells', slots' := cells[x := Slabbed], slots[cls[x] := [x] + slots[cls[x]]];
    assert cells'.Keys == cells.Keys;
    forall c, y | 0 <= c < |slots'| && y in slots'[c]
      ensures y in cells' && cls[y] == c && cells'[y].Slabbed?
    {
      if y != x {
        assert y in slots[c];
      }
    }
    forall y | y in cells' && cells'[y].Slabbed?
      ensures y in slots'[cls[y]]
    {
      if y != x {
        assert y in slots[cls[y]];
      }
    }
  }

  lemma {:induction false} SlotsPush(cells: map<Chunk, Cell>, cls: map<Chunk, nat>, slots: seq<seq<Chunk>>,
    xs: seq<Chunk>)
    requires SlotsOk(cells, cls, slots) && Distinct(xs)
    requires forall x :: x in xs ==> x in cells && !cells[x].Slabbed?
    ensures SlotsOk(cells + Mark(xs, Slabbed), cls, Push(slots, cls, xs))
    decreases |xs|
  {
    if |xs| == 0 {
      assert cells + Mark(xs, Slabbed) == cells;
    } else {
      SlotsPushOne(cells, cls, slots, xs[0]);
      var cells1 := cells[xs[0] := Slabbed];
      SlotsPush(cells1, cls, slots[cls[xs[0]] := [xs[0]] + slots[cls[xs[0]]]], xs[1..]);
      SlabMore(cells, xs);
    }
  }

  lemma SlabMore(cells: map<Chunk, Cell>, xs: seq<Chunk>)
    requires |xs| > 0
    ensures cells[xs[0] := Slabbed] + Mark(xs[1..], Slabbed) == cells + Mark(xs, Slabbed)
  {
    assert forall x :: x in xs <==> x == xs[0] || x in xs[1..];
  }

  /** Changes that leave cleared chunks cleared and the item under rescue alone. */
  ghost predicate Undisturbed(cells: map<Chunk, Cell>, cells': map<Chunk, Cell>, m: Mover) {
    && cells.Keys <= cells'.Keys
    && (forall x :: x in cells && cells[x].Cleared? ==> cells'[x].Cleared?)
    && (m.On? && m.phase.Rescuing? ==>
          && m.phase.it in cells && cells'[m.phase.it] == cells[m.phase.it]
          && (m.phase.spare.Some? ==>
            m.phase.spare.value in cells && cells'[m.phase.spare.value] == cells[m.phase.spare.value]))
  }

  lemma MoverFrame(cells: map<Chunk, Cell>, cells': map<Chunk, Cell>, cls: map<Chunk, nat>, cls': map<Chunk, nat>,
    m: Mover)
    requires MoverOk(cells, cls, m) && Undisturbed(cells, cells', m)
    requires forall x :: x in cls ==> x in cls' && cls'[x] == cls[x]
    ensures MoverOk(cells', cls', m)
  {}

  // ---- worker steps ----

  predicate CanAttach(s: State, h: Chunk, x: Chunk) {
    && IsItem(s, h) && IsItem(s, x) && h != x && !s.cells[h].linked && !s.cells[x].linked
    && s.cells[x].refs == 1 && s.cells[x].chain == [] && !IsSpare(s, h) && !IsSpare(s, x)
  }

  predicate CanLink(s: State, x: Chunk) {
    IsItem(s, x) && !s.cells[x].linked && s.cells[x].key !in s.table && !IsSpare(s, x) && !Locked(s, s.cells[x].key)
  }

  predicate CanRef(s: State, x: Chunk) {
    IsItem(s, x) && s.cells[x].linked && !Locked(s, s.cells[x].key)
  }

  predicate CanUnref(s: State, x: Chunk) {
    IsItem(s, x) && s.cells[x].holders > 0 && !IsSpare(s, x) && !Locked(s, s.cells[x].key)
  }

  lemma SlotsExtend(cells: map<Chunk, Cell>, cls: map<Chunk, nat>, slots: seq<seq<Chunk>>, chunks: seq<Chunk>, c: nat)
    requires SlotsOk(cells, cls, slots) && c < |slots| && forall x :: x in chunks ==> x !in cells
    ensures SlotsOk(cells + Mark(chunks, Cleared), cls + Classed(chunks, c), slots)
  {
    var cells', cls' := cells + Mark(chunks, Cleared), cls + Classed(chunks, c);
    assert cells'.Keys == cls'.Keys;
    forall d, x | 0 <= d < |slots| && x in slots[d]
      ensures x in cells' && cls'[x] == d && cells'[x].Slabbed?
    {
      assert x in cells;
    }
  }

  lemma ExtendKeepsRest(cells: map<Chunk, Cell>, table: map<Key, Chunk>, chunks: seq<Chunk>)
    requires ItemsOk(cells) && TableOk(cells, table) && ChainsOk(cells) && forall x :: x in chunks ==> x !in cells
    ensures var cells' := cells + Mark(chunks, Slabbed);
      ItemsOk(cells') && TableOk(cells', table) && ChainsOk(cells')
  {
    var cells' := cells + Mark(chunks, Slabbed);
    assert forall x :: x in cells ==> cells'[x] == cells[x];
  }

  lemma NewPageSlots(cells: map<Chunk, Cell>, cls: map<Chunk, nat>, slots: seq<seq<Chunk>>, c: nat, chunks: seq<Chunk>)
    requires SlotsOk(cells, cls, slots) && c < |slots| && Distinct(chunks) && forall x :: x in chunks ==> x !in cells
    ensures var cls' := cls + Classed(chunks, c);
      SlotsOk(cells + Mark(chunks, Slabbed), cls', Push(slots, cls', chunks))
  {
    var cells1, cls' := cells + Mark(chunks, Cleared), cls + Classed(chunks, c);
    SlotsExtend(cells, cls, slots, chunks, c);
    MarkTwice(cells, chunks);
    SlotsPush(cells1, cls', slots, chunks);
  }

  lemma MarkTwice(cells: map<Chunk, Cell>, chunks: seq<Chunk>)
    ensures var cells1 := cells + Mark(chunks, Cleared);
      cells1 + Mark(chunks, Slabbed) == cells + Mark(chunks, Slabbed) && forall x :: x in chunks ==>
        x in cells1 && cells1[x].Cleared?
  {}

  lemma NewPageKeeps(s: State, c: nat, chunks: seq<Chunk>)
    requires Inv(s) && c < |s.slots| && Distinct(chunks) && forall x :: x in chunks ==> x !in s.cells
    ensures Inv(NewPage(s, c, chunks))
  {
    var s' := NewPage(s, c, chunks);
    NewPageSlots(s.cells, s.cls, s.slots, c, chunks);
    ExtendKeepsRest(s.cells, s.table, chunks);
    MoverFrame(s.cells, s'.cells, s.cls, s'.cls, s.mover);
  }

  lemma AllocKeeps(s: State, c: nat, key: Key, data: Data)
    requires Inv(s) && c < |s.slots| && |s.slots[c]| > 0
    ensures Inv(Alloc(s, c, key, data))
  {
    var x := s.slots[c][0];
    assert x in s.slots[c];
    SlotsPop(s.cells, s.cls, s.slots, c, Item(1, 1, false, key, data, []));
    MoverFrame(s.cells, Alloc(s, c, key, data).cells, s.cls, s.cls, s.mover);
  }

  lemma LinkKeeps(s: State, x: Chunk)
    requires Inv(s) && CanLink(s, x)
    ensures Inv(Link(s, x))
  {
    var s' := Link(s, x);
    SlotsSame(s.cells, s.cls, s.slots, x, s'.cells[x]);
    MoverFrame(s.cells, s'.cells, s.cls, s.cls, s.mover);
  }

  lemma RefKeeps(s: State, x: Chunk)
    requires Inv(s) && CanRef(s, x)
    ensures Inv(Ref(s, x))
  {
    var s' := Ref(s, x);
    SlotsSame(s.cells, s.cls, s.slots, x, s'.cells[x]);
    MoverFrame(s.cells, s'.cells, s.cls, s.cls, s.mover);
  }

  lemma AttachSlots(s: State, h: Chunk, x: Chunk)
    requires Inv(s) && CanAttach(s, h, x)
    ensures SlotsOk(Attach(s, h, x).cells, s.cls, s.slots)
  {
    var cells1 := s.cells[x := Body(h, s.cells[x].data)];
    SlotsSame(s.cells, s.cls, s.slots, x, cells1[x]);
    SlotsSame(cells1, s.cls, s.slots, h, Attach(s, h, x).cells[h]);
  }

  lemma AttachChains(cells: map<Chunk, Cell>, h: Chunk, x: Chunk)
    requires ChainsOk(cells) && h in cells && cells[h].Item? && x in cells && cells[x].Item? && h != x
      && cells[x].chain == []
    ensures ChainsOk(cells[x := Body(h, cells[x].data)][h := cells[h].(chain := cells[h].chain + [x])])
  {
    var chain := cells[h].chain;
    var cells' := cells[x := Body(h, cells[x].data)][h := cells[h].(chain := chain + [x])];
    assert x !in cells[h].chain;
    forall y, b | y in cells' && cells'[y].Item? && b in cells'[y].chain
      ensures b in cells' && cells'[b].Body? && cells'[b].head == y
    {
      if y != h {
        assert b in cells[y].chain;
      } else if b != x {
        assert b in cells[h].chain;
      }
    }
  }

  lemma AttachKeeps(s: State, h: Chunk, x: Chunk)
    requires Inv(s) && CanAttach(s, h, x)
    ensures Inv(Attach(s, h, x))
  {
    var s' := Attach(s, h, x);
    AttachSlots(s, h, x);
    AttachChains(s.cells, h, x);
    MoverFrame(s.cells, s'.cells, s.cls, s.cls, s.mover);
  }

  /** Handing an unlinked item's chunks back to their free lists. */
  lemma FreeChains(cells: map<Chunk, Cell>, x: Chunk)
    requires ChainsOk(cells) && x in cells && cells[x].Item?
    ensures ChainsOk(cells + Mark([x] + cells[x].chain, Slabbed))
    ensures Distinct([x] + cells[x].chain) && forall y :: y in [x] + cells[x].chain ==>
      y in cells && !cells[y].Slabbed? && !cells[y].Cleared?
    ensures forall y :: y in cells && cells[y].Item? && y in [x] + cells[x].chain ==> y == x
  {
    var xs := [x] + cells[x].chain;
    assert forall y :: y in xs <==> y == x || y in cells[x].chain;
    assert x !in cells[x].chain;
    var cells' := cells + Mark(xs, Slabbed);
    forall z, b | z in cells' && cells'[z].Item? && b in cells'[z].chain
      ensures b in cells' && cells'[b].Body? && cells'[b].head == z
    {
      assert b in cells[z].chain;
    }
  }

  ghost predicate FreeReady(s: State, x: Chunk) {
    && SlotsOk(s.cells, s.cls, s.slots) && TableOk(s.cells, s.table) && ChainsOk(s.cells)
      && MoverOk(s.cells, s.cls, s.mover)
    && IsItem(s, x) && !s.cells[x].linked && (forall y :: y in s.cells && y != x ==> RefsOk(s.cells[y]))
    && !IsSpare(s, x) && (s.mover.On? && s.mover.phase.Rescuing? ==> s.mover.phase.it != x)
  }

  /** Items other than the one freed, and the table, are not concerned. */
  lemma FreeRest(cells: map<Chunk, Cell>, table: map<Key, Chunk>, x: Chunk)
    requires ChainsOk(cells) && TableOk(cells, table) && x in cells && cells[x].Item? && !cells[x].linked
    requires forall y :: y in cells && y != x ==> RefsOk(cells[y])
    ensures var cells' := cells + Mark([x] + cells[x].chain, Slabbed); ItemsOk(cells') && TableOk(cells', table)
  {
    FreeChains(cells, x);
  }

  lemma FreeMover(s: State, x: Chunk)
    requires FreeReady(s, x)
    ensures MoverOk(s.cells + Mark([x] + s.cells[x].chain, Slabbed), s.cls, s.mover)
  {
    FreeChains(s.cells, x);
    MoverFrame(s.cells, s.cells + Mark([x] + s.cells[x].chain, Slabbed), s.cls, s.cls, s.mover);
  }

  lemma FreeKeeps(s: State, x: Chunk)
    requires FreeReady(s, x)
    ensures Inv(Free(s, x))
  {
    var xs := [x] + s.cells[x].chain;
    assert Free(s, x) == s.(cells := s.cells + Mark(xs, Slabbed), slots := Push(s.slots, s.cls, xs));
    FreeChains(s.cells, x);
    FreeRest(s.cells, s.table, x);
    FreeMover(s, x);
    SlotsPush(s.cells, s.cls, s.slots, xs);
  }

  lemma UnrefKeeps(s: State, x: Chunk)
    requires Inv(s) && CanUnref(s, x)
    ensures s.cells[x].refs > 0 && Inv(Unref(s, x))
  {
    if s.cells[x].refs == 1 {
      FreeKeeps(s, x);
    } else {
      var s' := Unref(s, x);
      SlotsSame(s.cells, s.cls, s.slots, x, s'.cells[x]);
      MoverFrame(s.cells, s'.cells, s.cls, s.cls, s.mover);
    }
  }

  lemma UnlinkedTable(cells: map<Chunk, Cell>, table: map<Key, Chunk>, x: Chunk, cell: Cell)
    requires TableOk(cells, table) && x in cells && cells[x].Item? && cells[x].linked && cell.Item? && !cell.linked
    ensures TableOk(cells[x := cell], table - {cells[x].key})
  {}

  /** do_item_unlink up to its do_item_remove. */
  function Unhooked(s: State, x: Chunk): State
    requires IsItem(s, x) && s.cells[x].refs > 0
  {
    s.(cells := s.cells[x := s.cells[x].(linked := false, refs := s.cells[x].refs - 1)],
      table := s.table - {s.cells[x].key})
  }

  lemma UnhookedReady(s: State, x: Chunk)
    requires Inv(s) && CanRef(s, x)
    ensures s.cells[x].refs > 0 && FreeReady(Unhooked(s, x), x)
  {
    var s1 := Unhooked(s, x);
    SlotsSame(s.cells, s.cls, s.slots, x, s1.cells[x]);
    UnlinkedTable(s.cells, s.table, x, s1.cells[x]);
    MoverFrame(s.cells, s1.cells, s.cls, s.cls, s.mover);
  }

  lemma UnlinkKeeps(s: State, x: Chunk)
    requires Inv(s) && CanRef(s, x)
    ensures s.cells[x].refs > 0 && Inv(Unlink(s, x))
  {
    UnhookedReady(s, x);
    if s.cells[x].refs == 1 {
      FreeKeeps(Unhooked(s, x), x);
    }
  }

  // ---- mover steps ----

  /** The mover between chunks, with work left to do. */
  predicate Looking(m: Mover) {
    m.On? && m.phase.Between? && !m.done && m.pos < |m.page|
  }

  /** Moving the cursor on is right when the chunk behind it is clear or counted busy; and a page
      is declared done only when every one of its chunks is clear. */
  lemma AdvanceOk(cells: map<Chunk, Cell>, cls: map<Chunk, nat>, m: Mover, busy: bool)
    requires m.On? && !m.done && m.pos < |m.page| && MoverOk(cells, cls, m.(phase := Between))
    requires !busy ==> cells[m.page[m.pos]].Cleared?
    ensures MoverOk(cells, cls, Advance(m, busy))
  {}

  /** A free chunk becoming clear concerns nobody but the free list. */
  lemma ClearFreeRest(cells: map<Chunk, Cell>, table: map<Key, Chunk>, x: Chunk)
    requires ItemsOk(cells) && TableOk(cells, table) && ChainsOk(cells) && x in cells && cells[x].Slabbed?
    ensures ItemsOk(cells[x := Cleared]) && TableOk(cells[x := Cleared], table) && ChainsOk(cells[x := Cleared])
  {
    var cells' := cells[x := Cleared];
    forall z, b | z in cells' && cells'[z].Item? && b in cells'[z].chain
      ensures b in cells' && cells'[b].Body? && cells'[b].head == z
    {
      assert b in cells[z].chain;
    }
  }

  lemma CutFreeKeeps(s: State, x: Chunk)
    requires Inv(s) && Looking(s.mover) && x == s.mover.page[s.mover.pos] && s.cells[x].Slabbed?
    ensures Inv(CutFree(s, x)) && CutFree(s, x).cells[x].Cleared?
  {
    SlotsCut(s.cells, s.cls, s.slots, x, Cleared);
    ClearFreeRest(s.cells, s.table, x);
    MoverFrame(s.cells, s.cells[x := Cleared], s.cls, s.cls, s.mover);
  }

  /** Everything but free chunks is as it was. */
  ghost predicate OnlyFreeChanged(cells: map<Chunk, Cell>, cells': map<Chunk, Cell>) {
    cells'.Keys == cells.Keys && forall y :: y in cells && !cells[y].Slabbed? ==> cells'[y] == cells[y]
  }

  lemma SpareRest(cells: map<Chunk, Cell>, table: map<Key, Chunk>, x: Chunk)
    requires ItemsOk(cells) && TableOk(cells, table) && ChainsOk(cells) && x in cells && cells[x].Slabbed?
    ensures var cells' := cells[x := Item(1, 1, false, [], [], [])];
      ItemsOk(cells') && TableOk(cells', table) && ChainsOk(cells')
  {
    var cells' := cells[x := Item(1, 1, false, [], [], [])];
    forall z, b | z in cells' && cells'[z].Item? && b in cells'[z].chain
      ensures b in cells' && cells'[b].Body? && cells'[b].head == z
    {
      assert b in cells[z].chain;
    }
  }

  /** Taking the first free chunk of the source class and making it clear, or an item. */
  function Taken(s: State, cell: Cell): State
    requires s.mover.On? && s.mover.source < |s.slots| && |s.slots[s.mover.source]| > 0
  {
    var c := s.mover.source;
    s.(slots := s.slots[c := s.slots[c][1..]], cells := s.cells[s.slots[c][0] := cell])
  }

  const SPARE := Item(1, 1, false, [], [], [])

  lemma TakenKeeps(s: State, cell: Cell)
    requires Inv(s) && s.mover.On? && s.mover.phase.Between? && s.mover.source < |s.slots|
      && |s.slots[s.mover.source]| > 0
    requires cell == Cleared || cell == SPARE
    ensures Inv(Taken(s, cell)) && OnlyFreeChanged(s.cells, Taken(s, cell).cells)
  {
    var c := s.mover.source;
    var x := s.slots[c][0];
    assert x in s.slots[c];
    SlotsPop(s.cells, s.cls, s.slots, c, cell);
    ClearFreeRest(s.cells, s.table, x);
    SpareRest(s.cells, s.table, x);
    MoverFrame(s.cells, Taken(s, cell).cells, s.cls, s.cls, s.mover);
  }

  ghost predicate SpareFor(s: State, s': State, spare: Option<Chunk>)
    requires s.mover.On?
  {
    && s'.table == s.table && s'.cls == s.cls && s'.mover == s.mover && |s'.slots| == |s.slots|
    && OnlyFreeChanged(s.cells, s'.cells)
    && (spare.Some? ==>
          && spare.value in s.cells && s.cells[spare.value].Slabbed? && spare.value !in s.mover.page
          && spare.value in s.cls && s.cls[spare.value] == s.mover.source && s'.cells[spare.value] == SPARE)
  }

  lemma FirstFree(s: State)
    requires SlotsOk(s.cells, s.cls, s.slots) && s.mover.On? && s.mover.source < |s.slots|
      && |s.slots[s.mover.source]| > 0
    ensures var x := s.slots[s.mover.source][0];
      x in s.cells && s.cells[x].Slabbed? && x in s.cls && s.cls[x] == s.mover.source
  {
    assert s.slots[s.mover.source][0] in s.slots[s.mover.source];
  }

  lemma TakeSpareUnfolds(s: State, tries: nat)
    requires s.mover.On? && tries > 0 && s.mover.source < |s.slots| && |s.slots[s.mover.source]| > 0
    ensures var x := s.slots[s.mover.source][0];
      TakeSpare(s, tries) == if x in s.mover.page then TakeSpare(Taken(s, Cleared), tries - 1)
        else (Taken(s, SPARE), Some(x))
  {}

  lemma TakeSpareNone(s: State, tries: nat)
    requires s.mover.On? && (tries == 0 || s.mover.source >= |s.slots| || |s.slots[s.mover.source]| == 0)
    ensures TakeSpare(s, tries) == (s, None)
  {}

  /** There is a free chunk of the source class to try. */
  predicate CanTake(s: State, tries: nat) {
    s.mover.On? && tries > 0 && s.mover.source < |s.slots| && |s.slots[s.mover.source]| > 0
  }

  /** One try: the chunk belongs to the page, or it is the spare. */
  lemma TakeSpareSteps(s: State, tries: nat, s1: State, s2: State)
    requires CanTake(s, tries) && Inv(s) && s.mover.phase.Between? && s1 == Taken(s, Cleared) && s2 == Taken(s, SPARE)
    ensures Inv(s1) && Inv(s2) && s1.mover == s.mover
    ensures TakeSpare(s, tries) == TakeSpare(s1, tries - 1) || TakeSpare(s, tries).0 == s2
  {
    TakeSpareUnfolds(s, tries);
    TakenKeeps(s, Cleared);
    TakenKeeps(s, SPARE);
  }

  lemma {:induction false} TakeSpareKeeps(s: State, tries: nat, s': State, spare: Option<Chunk>)
    requires Inv(s) && s.mover.On? && s.mover.phase.Between? && (s', spare) == TakeSpare(s, tries)
    ensures Inv(s')
    decreases tries
  {
    if CanTake(s, tries) {
      var s1, s2 := Taken(s, Cleared), Taken(s, SPARE);
      TakeSpareSteps(s, tries, s1, s2);
      if s' != s2 {
        TakeSpareKeeps(s1, tries - 1, s', spare);
      }
    } else {
      TakeSpareNone(s, tries);
    }
  }

  lemma TakenSlots(s: State, cell: Cell)
    requires SlotsOk(s.cells, s.cls, s.slots) && s.mover.On? && s.mover.source < |s.slots|
      && |s.slots[s.mover.source]| > 0
    requires !cell.Slabbed?
    ensures SlotsOk(Taken(s, cell).cells, s.cls, Taken(s, cell).slots) && OnlyFreeChanged(s.cells, Taken(s, cell).cells)
  {
    FirstFree(s);
    SlotsPop(s.cells, s.cls, s.slots, s.mover.source, cell);
  }

  lemma {:induction false} TakeSpareIs(s: State, tries: nat, s': State, spare: Option<Chunk>)
    requires SlotsOk(s.cells, s.cls, s.slots) && s.mover.On? && (s', spare) == TakeSpare(s, tries)
    ensures SpareFor(s, s', spare)
    decreases tries
  {
    var c := s.mover.source;
    if tries > 0 && c < |s.slots| && |s.slots[c]| > 0 {
      TakeSpareUnfolds(s, tries);
      FirstFree(s);
      if s.slots[c][0] in s.mover.page {
        TakenSlots(s, Cleared);
        TakeSpareIs(Taken(s, Cleared), tries - 1, s', spare);
        SpareForTrans(s, Taken(s, Cleared), s', spare);
      } else {
        TakenSlots(s, SPARE);
      }
    }
  }

  lemma SpareForTrans(s: State, s1: State, s2: State, spare: Option<Chunk>)
    requires s.mover.On? && s1.mover.On? && SpareFor(s1, s2, spare)
    requires s1.table == s.table && s1.cls == s.cls && s1.mover == s.mover && |s1.slots| == |s.slots|
    requires OnlyFreeChanged(s.cells, s1.cells)
    ensures SpareFor(s, s2, spare)
  {}

  lemma BeginRescueKeeps(s: State, x: Chunk, expired: bool)
    requires Inv(s) && Looking(s.mover) && x == s.mover.page[s.mover.pos]
    requires IsItem(s, Owner(s, x)) && s.cells[Owner(s, x)].linked && s.cells[Owner(s, x)].refs == 1
    ensures Inv(BeginRescue(s, x, expired))
  {
    var it := Owner(s, x);
    RefKeeps(s, it);
    assert s.cells[x].Body? ==> x in s.cells[it].chain;
    if !expired {
      var (s2, spare) := TakeSpare(Ref(s, it), |s.mover.page|);
      SpareThenRescue(Ref(s, it), x, it, s2, spare);
    } else {
      RescueStarts(Ref(s, it), x, it, None);
    }
  }

  lemma SpareThenRescue(s: State, x: Chunk, it: Chunk, s': State, spare: Option<Chunk>)
    requires Inv(s) && Looking(s.mover) && x == s.mover.page[s.mover.pos] && (s', spare) == TakeSpare(s, |s.mover.page|)
    requires IsItem(s, it) && s.cells[it].linked && s.cells[it].holders == 1 && (it != x ==> x in s.cells[it].chain)
    ensures Inv(s'.(mover := s.mover.(phase := Rescuing(it, if it == x then None else Some(x), spare))))
  {
    TakeSpareKeeps(s, |s.mover.page|, s', spare);
    TakeSpareIs(s, |s.mover.page|, s', spare);
    assert s'.cells[it] == s.cells[it];
    RescueStarts(s', x, it, spare);
  }

  lemma RescueStarts(s: State, x: Chunk, it: Chunk, spare: Option<Chunk>)
    requires Inv(s) && Looking(s.mover) && x == s.mover.page[s.mover.pos]
    requires IsItem(s, it) && s.cells[it].linked && s.cells[it].holders == 1 && (it != x ==> x in s.cells[it].chain)
    requires spare.Some? ==>
      && spare.value in s.cells && s.cells[spare.value] == SPARE && spare.value !in s.mover.page
      && spare.value in s.cls && s.cls[spare.value] == s.mover.source
    ensures Inv(s.(mover := s.mover.(phase := Rescuing(it, if it == x then None else Some(x), spare))))
  {}

  /** Free lists do not care what becomes of chunks in use. */
  lemma SlotsFrame(cells: map<Chunk, Cell>, cells': map<Chunk, Cell>, cls: map<Chunk, nat>, slots: seq<seq<Chunk>>)
    requires SlotsOk(cells, cls, slots) && cells'.Keys == cells.Keys
    requires forall x :: x in cells ==> (cells'[x].Slabbed? <==> cells[x].Slabbed?)
    ensures SlotsOk(cells', cls, slots)
  {}

  /** An item moved whole: the copy takes over key, value, chain and table entry. */
  function Moved(cells: map<Chunk, Cell>, it: Chunk, y: Chunk): map<Chunk, Cell>
    requires it in cells && cells[it].Item?
  {
    var cell := cells[it];
    Repoint(cells[y := Item(1, 0, true, cell.key, cell.data, cell.chain)][it := Cleared], cell.chain, y)
  }

  ghost predicate CanMove(cells: map<Chunk, Cell>, it: Chunk, y: Chunk) {
    && it in cells && cells[it].Item? && cells[it].linked
    && y in cells && cells[y].Item? && !cells[y].linked && cells[y].chain == [] && y != it
  }

  /** What becomes of chunk `x` when the item moves. */
  ghost function MovedCell(cells: map<Chunk, Cell>, it: Chunk, y: Chunk, x: Chunk): Cell
    requires ChainsOk(cells) && CanMove(cells, it, y) && x in cells
  {
    if x == it then Cleared
    else if x == y then Item(1, 0, true, cells[it].key, cells[it].data, cells[it].chain)
    else if x in cells[it].chain then Body(y, cells[x].data)
    else cells[x]
  }

  lemma MovedIs(cells: map<Chunk, Cell>, it: Chunk, y: Chunk, x: Chunk)
    requires ChainsOk(cells) && CanMove(cells, it, y) && x in cells
    ensures Moved(cells, it, y).Keys == cells.Keys && Moved(cells, it, y)[x] == MovedCell(cells, it, y, x)
  {
    assert it !in cells[it].chain && y !in cells[it].chain;
    if x in cells[it].chain {
      assert cells[x].Body?;
    }
  }

  lemma MovedChains(cells: map<Chunk, Cell>, it: Chunk, y: Chunk)
    requires ChainsOk(cells) && CanMove(cells, it, y)
    ensures ChainsOk(Moved(cells, it, y))
  {
    var cells' := Moved(cells, it, y);
    forall x | x in cells
      ensures cells'[x] == if x == it then Cleared
        else if x == y then Item(1, 0, true, cells[it].key, cells[it].data, cells[it].chain)
        else if x in cells[it].chain then Body(y, cells[x].data) else cells[x]
    {
      MovedIs(cells, it, y, x);
    }
    forall z, b | z in cells' && cells'[z].Item? && b in cells'[z].chain
      ensures b in cells' && cells'[b].Body? && cells'[b].head == z
    {
      if z == y {
        assert b in cells[it].chain;
      } else {
        assert b in cells[z].chain;
      }
    }
    forall b | b in cells' && cells'[b].Body?
      ensures cells'[b].head in cells' && cells'[cells'[b].head].Item? && b in cells'[cells'[b].head].chain
    {
      assert cells[b].Body?;
    }
  }

  lemma MovedAll(cells: map<Chunk, Cell>, it: Chunk, y: Chunk)
    requires ChainsOk(cells) && CanMove(cells, it, y)
    ensures Moved(cells, it, y).Keys == cells.Keys
    ensures forall x :: x in cells ==> Moved(cells, it, y)[x] == MovedCell(cells, it, y, x)
    ensures forall x :: x in cells && x in cells[it].chain ==> cells[x].Body?
  {
    forall x | x in cells
      ensures Moved(cells, it, y)[x] == MovedCell(cells, it, y, x)
    {
      MovedIs(cells, it, y, x);
    }
  }

  lemma MovedTable(cells: map<Chunk, Cell>, table: map<Key, Chunk>, it: Chunk, y: Chunk)
    requires ItemsOk(cells) && TableOk(cells, table) && ChainsOk(cells) && CanMove(cells, it, y)
    ensures ItemsOk(Moved(cells, it, y)) && TableOk(Moved(cells, it, y), table[cells[it].key := y])
  {
    MovedAll(cells, it, y);
  }

  lemma MovedRest(cells: map<Chunk, Cell>, table: map<Key, Chunk>, it: Chunk, y: Chunk)
    requires ItemsOk(cells) && TableOk(cells, table) && ChainsOk(cells) && CanMove(cells, it, y)
    ensures ItemsOk(Moved(cells, it, y)) && TableOk(Moved(cells, it, y), table[cells[it].key := y])
    ensures Moved(cells, it, y).Keys == cells.Keys
    ensures forall x :: x in cells && (cells[x].Slabbed? || cells[x].Cleared?) ==> Moved(cells, it, y)[x] == cells[x]
    ensures forall x :: x in cells && !cells[x].Slabbed? ==> !Moved(cells, it, y)[x].Slabbed?
    ensures Moved(cells, it, y)[it].Cleared?
  {
    MovedTable(cells, table, it, y);
    MovedAll(cells, it, y);
  }

  /** One chained part moved: the copy takes its place in the chain. */
  function PartMoved(cells: map<Chunk, Cell>, it: Chunk, x: Chunk, y: Chunk): map<Chunk, Cell>
    requires it in cells && cells[it].Item? && x in cells && cells[x].Body? && cells[it].refs > 0
      && cells[it].holders > 0
  {
    var cell := cells[it];
    cells[y := Body(it, cells[x].data)][x := Cleared]
      [it := cell.(chain := Swap(cell.chain, x, y), refs := cell.refs - 1, holders := cell.holders - 1)]
  }

  ghost predicate CanMovePart(cells: map<Chunk, Cell>, it: Chunk, x: Chunk, y: Chunk) {
    && CanMove(cells, it, y) && cells[it].holders == 1 && x in cells[it].chain
  }

  lemma SwapIs(xs: seq<Chunk>, x: Chunk, y: Chunk)
    requires Distinct(xs) && x in xs && y !in xs
    ensures Distinct(Swap(xs, x, y)) && forall z :: z in Swap(xs, x, y) <==> z == y || (z in xs && z != x)
  {
    var i := Index(xs, x);
    var ys := Swap(xs, x, y);
    assert ys[i] == y;
    forall z | z in xs && z != x
      ensures z in ys
    {
      var j :| 0 <= j < |xs| && xs[j] == z;
      assert ys[j] == z;
    }
    forall z | z in ys && z != y
      ensures z in xs && z != x
    {
      var j :| 0 <= j < |ys| && ys[j] == z;
      assert xs[j] == z;
    }
  }

  lemma PartMovedChains(cells: map<Chunk, Cell>, it: Chunk, x: Chunk, y: Chunk)
    requires ItemsOk(cells) && ChainsOk(cells) && CanMovePart(cells, it, x, y)
    ensures x in cells && cells[x].Body? && cells[it].refs > 0 && ChainsOk(PartMoved(cells, it, x, y))
  {
    assert cells[x].Body? && cells[x].head == it;
    assert y !in cells[it].chain;
    SwapIs(cells[it].chain, x, y);
    var cells' := PartMoved(cells, it, x, y);
    forall z, b | z in cells' && cells'[z].Item? && b in cells'[z].chain
      ensures b in cells' && cells'[b].Body? && cells'[b].head == z
    {
      if z == it {
        assert b == y || b in cells[it].chain;
      } else {
        assert b in cells[z].chain;
      }
    }
    forall b | b in cells' && cells'[b].Body?
      ensures cells'[b].head in cells' && cells'[cells'[b].head].Item? && b in cells'[cells'[b].head].chain
    {
      if b != y {
        assert cells[b].Body?;
      }
    }
  }

  lemma PartMovedRest(cells: map<Chunk, Cell>, table: map<Key, Chunk>, it: Chunk, x: Chunk, y: Chunk)
    requires ItemsOk(cells) && TableOk(cells, table) && ChainsOk(cells) && CanMovePart(cells, it, x, y)
    ensures x in cells && cells[x].Body? && cells[it].refs > 0
    ensures ItemsOk(PartMoved(cells, it, x, y)) && TableOk(PartMoved(cells, it, x, y), table)
    ensures PartMoved(cells, it, x, y).Keys == cells.Keys
  {
    assert cells[x].Body? && cells[x].head == it;
  }

  lemma BetweenAgain(cells: map<Chunk, Cell>, cls: map<Chunk, nat>, m: Mover)
    requires MoverOk(cells, cls, m) && m.On?
    ensures MoverOk(cells, cls, m.(phase := Between))
  {}

  /** What EndRescue may rely on. */
  lemma RescueReady(s: State)
    requires Inv(s) && s.mover.On? && s.mover.phase.Rescuing?
    ensures IsItem(s, s.mover.phase.it) && s.cells[s.mover.phase.it].linked
    ensures s.cells[s.mover.phase.it].refs == 2 && s.cells[s.mover.phase.it].holders == 1
    ensures s.mover.phase.part.Some? ==> s.mover.phase.part.value in s.cells && s.cells[s.mover.phase.part.value].Body?
    ensures !s.mover.done && s.mover.pos < |s.mover.page|
  {
    if s.mover.phase.part.Some? {
      assert s.mover.phase.part.value in s.cells[s.mover.phase.it].chain;
    }
  }

  lemma EndWholeKeeps(s: State)
    requires Inv(s) && s.mover.On? && s.mover.phase.Rescuing? && s.mover.phase.spare.Some? && s.mover.phase.part.None?
    ensures var m := s.mover;
      CanMove(s.cells, m.phase.it, m.phase.spare.value)
      && Inv(s.(cells := Moved(s.cells, m.phase.it, m.phase.spare.value),
                table := s.table[s.cells[m.phase.it].key := m.phase.spare.value], mover := Advance(m, false)))
  {
    var m := s.mover;
    var it, y := m.phase.it, m.phase.spare.value;
    var cells' := Moved(s.cells, it, y);
    MovedRest(s.cells, s.table, it, y);
    MovedChains(s.cells, it, y);
    SlotsFrame(s.cells, cells', s.cls, s.slots);
    BetweenAgain(s.cells, s.cls, m);
    MoverFrame(s.cells, cells', s.cls, s.cls, m.(phase := Between));
    AdvanceOk(cells', s.cls, m, false);
  }

  lemma EndPartKeeps(s: State)
    requires Inv(s) && s.mover.On? && s.mover.phase.Rescuing? && s.mover.phase.spare.Some? && s.mover.phase.part.Some?
    ensures var m := s.mover;
      CanMovePart(s.cells, m.phase.it, m.phase.part.value, m.phase.spare.value)
      && m.phase.part.value in s.cells && s.cells[m.phase.part.value].Body? && s.cells[m.phase.it].refs > 0
      && Inv(s.(cells := PartMoved(s.cells, m.phase.it, m.phase.part.value, m.phase.spare.value),
        mover := Advance(m, false)))
  {
    var m := s.mover;
    var it, x, y := m.phase.it, m.phase.part.value, m.phase.spare.value;
    PartMovedRest(s.cells, s.table, it, x, y);
    PartMovedChains(s.cells, it, x, y);
    var cells' := PartMoved(s.cells, it, x, y);
    SlotsFrame(s.cells, cells', s.cls, s.slots);
    BetweenAgain(s.cells, s.cls, m);
    MoverFrame(s.cells, cells', s.cls, s.cls, m.(phase := Between));
    AdvanceOk(cells', s.cls, m, false);
  }

  lemma EndDropKeeps(s: State)
    requires Inv(s) && s.mover.On? && s.mover.phase.Rescuing? && s.mover.phase.spare.None?
    ensures IsItem(s, s.mover.phase.it) && s.cells[s.mover.phase.it].refs > 0
    ensures IsItem(Unhooked(s, s.mover.phase.it), s.mover.phase.it)
    ensures Inv(Free(Unhooked(s, s.mover.phase.it), s.mover.phase.it).(mover := Advance(s.mover, true)))
  {
    var m := s.mover;
    var it := m.phase.it;
    BetweenAgain(s.cells, s.cls, m);
    var s0 := s.(mover := m.(phase := Between));
    UnhookedReady(s0, it);
    FreeKeeps(Unhooked(s0, it), it);
    var s1 := Free(Unhooked(s0, it), it);
    AdvanceOk(s1.cells, s1.cls, m, true);
    assert Free(Unhooked(s, it), it).(mover := Advance(m, true)) == s1.(mover := Advance(m, true));
  }

  lemma EndRescueKeeps(s: State)
    requires Inv(s) && s.mover.On? && s.mover.phase.Rescuing?
    ensures IsItem(s, s.mover.phase.it) && s.cells[s.mover.phase.it].linked
    ensures s.cells[s.mover.phase.it].refs > 0 && s.cells[s.mover.phase.it].holders > 0
    ensures s.mover.phase.part.Some? ==> s.mover.phase.part.value in s.cells && s.cells[s.mover.phase.part.value].Body?
    ensures Inv(EndRescue(s))
  {
    RescueReady(s);
    if s.mover.phase.spare.None? {
      EndDropKeeps(s);
    } else if s.mover.phase.part.None? {
      EndWholeKeeps(s);
    } else {
      EndPartKeeps(s);
    }
  }

  lemma VisitReady(s: State)
    requires Inv(s) && Looking(s.mover)
    ensures var x := s.mover.page[s.mover.pos];
      && x in s.cells && x in s.cls && s.cls[x] < |s.slots| && Owner(s, x) in s.cells
      && (Owner(s, x) != x ==> IsItem(s, Owner(s, x)))
  {
    var x := s.mover.page[s.mover.pos];
    assert s.cells[x].Body? ==> s.cells[x].head in s.cells;
  }

  lemma VisitKeeps(s: State, locked: bool, expired: bool)
    requires Inv(s) && Looking(s.mover)
    ensures var x := s.mover.page[s.mover.pos];
      x in s.cells && x in s.cls && s.cls[x] < |s.slots| && Owner(s, x) in s.cells
    ensures Inv(Visit(s, locked, expired))
  {
    VisitReady(s);
    var m := s.mover;
    var x := m.page[m.pos];
    var it := Owner(s, x);
    match s.cells[it] {
      case Cleared => AdvanceOk(s.cells, s.cls, m, false);
      case Slabbed =>
        CutFreeKeeps(s, x);
        AdvanceOk(CutFree(s, x).cells, s.cls, m, false);
      case Body(_, _) => AdvanceOk(s.cells, s.cls, m, true);
      case Item(refs, _, linked, _, _, _) =>
        if !linked || locked {
          AdvanceOk(s.cells, s.cls, m, true);
        } else if refs == 1 {
          BeginRescueKeeps(s, x, expired);
        } else if m.loops > MAX_LOOPS && refs > 0 {
          UnlinkKeeps(s, it);
          AdvanceOk(Unlink(s, it).cells, s.cls, m, true);
        } else {
          AdvanceOk(s.cells, s.cls, m, true);
        }
    }
  }

  lemma StartKeeps(s: State, source: nat, page: seq<Chunk>)
    requires Inv(s) && s.mover.Off? && Distinct(page) && |page| > 0
    requires forall x :: x in page ==> x in s.cells && x in s.cls && s.cls[x] == source
    ensures Inv(Start(s, source, page))
  {
    assert forall i :: 0 <= i < |page| ==> page[i] in page;
  }

  /** What the source's own debug check asks of a finished page, and more: no chunk of it is on a
      free list, none is an item or part of one, none is in the hash table or on a chain. */
  ghost predicate Emptied(s: State, page: seq<Chunk>) {
    forall x :: x in page ==>
      && x in s.cells && s.cells[x].Cleared?
      && (forall c :: 0 <= c < |s.slots| ==> x !in s.slots[c])
      && (forall k :: k in s.table ==> s.table[k] != x)
      && (forall y :: y in s.cells && s.cells[y].Item? ==> x !in s.cells[y].chain)
  }

  lemma DonePageIsEmpty(s: State)
    requires Inv(s) && s.mover.On? && s.mover.done
    ensures Emptied(s, s.mover.page)
  {
    forall x | x in s.mover.page
      ensures x in s.cells && s.cells[x].Cleared?
    {
      var i :| 0 <= i < |s.mover.page| && s.mover.page[i] == x;
      assert s.cells[s.mover.page[i]].Cleared?;
    }
    forall x, y | x in s.mover.page && y in s.cells && s.cells[y].Item?
      ensures x !in s.cells[y].chain
    {
      assert s.cells[x].Cleared?;
    }
  }

  /** No chunk of the page is on a list, in the table or on a chain. */
  ghost predicate Bare(cells: map<Chunk, Cell>, page: set<Chunk>) {
    && page <= cells.Keys
    && (forall x :: x in page ==> cells[x].Cleared?)
  }

  lemma FinishSlots(cells: map<Chunk, Cell>, cls: map<Chunk, nat>, slots: seq<seq<Chunk>>, page: set<Chunk>)
    requires SlotsOk(cells, cls, slots) && Bare(cells, page)
    ensures SlotsOk(cells - page, cls - page, slots)
  {
    forall c, x | 0 <= c < |slots| && x in slots[c]
      ensures x in cells - page
    {
      assert cells[x].Slabbed?;
    }
  }

  lemma FinishTable(cells: map<Chunk, Cell>, table: map<Key, Chunk>, page: set<Chunk>)
    requires ItemsOk(cells) && TableOk(cells, table) && Bare(cells, page)
    ensures ItemsOk(cells - page) && TableOk(cells - page, table)
  {}

  lemma FinishChains(cells: map<Chunk, Cell>, page: set<Chunk>)
    requires ChainsOk(cells) && Bare(cells, page)
    ensures ChainsOk(cells - page)
  {
    var cells' := cells - page;
    forall z, b | z in cells' && cells'[z].Item? && b in cells'[z].chain
      ensures b in cells' && cells'[b].Body? && cells'[b].head == z
    {
      assert b in cells[z].chain && cells[b].Body?;
    }
    forall b | b in cells' && cells'[b].Body?
      ensures cells'[b].head in cells' && cells'[cells'[b].head].Item? && b in cells'[cells'[b].head].chain
    {
      assert cells[b].Body? && cells[cells[b].head].Item?;
    }
  }

  lemma FinishKeeps(s: State)
    requires Inv(s) && s.mover.On? && s.mover.done
    ensures Inv(Finish(s))
  {
    DonePageIsEmpty(s);
    var page := set x | x in s.mover.page;
    assert Bare(s.cells, page);
    FinishSlots(s.cells, s.cls, s.slots, page);
    FinishTable(s.cells, s.table, page);
    FinishChains(s.cells, page);
  }

  // ---- values ----

  lemma {:induction false} JoinedFrame(cells: map<Chunk, Cell>, cells': map<Chunk, Cell>, chain: seq<Chunk>)
    requires forall b :: b in chain ==>
      b in cells && cells[b].Body? && b in cells' && cells'[b].Body? && cells'[b].data == cells[b].data
    ensures Joined(cells', chain) == Joined(cells, chain)
    decreases |chain|
  {
    if |chain| > 0 {
      assert chain[0] in chain;
      assert forall b :: b in chain[1..] ==> b in chain;
      JoinedFrame(cells, cells', chain[1..]);
    }
  }

  /** Nothing but reference counts, back pointers and free chunks changed for the item under `k`. */
  lemma ValueFrame(s: State, s': State, k: Key)
    requires Inv(s) && k in s.table && k in s'.table && s'.table[k] in s'.cells && s'.cells[s'.table[k]].Item?
    requires s'.cells[s'.table[k]].data == s.cells[s.table[k]].data
      && s'.cells[s'.table[k]].chain == s.cells[s.table[k]].chain
    requires forall b :: b in s.cells[s.table[k]].chain ==>
      b in s'.cells && s'.cells[b].Body? && s'.cells[b].data == s.cells[b].data
    ensures Value(s', k) == Value(s, k)
  {
    var x := s.table[k];
    forall b | b in s.cells[x].chain
      ensures b in s.cells && s.cells[b].Body?
    {
    }
    JoinedFrame(s.cells, s'.cells, s.cells[x].chain);
  }

  lemma ValueOnlyFreeChanged(s: State, s': State, k: Key)
    requires Inv(s) && s'.table == s.table && OnlyFreeChanged(s.cells, s'.cells)
    ensures Value(s', k) == Value(s, k)
  {
    if k in s.table {
      forall b | b in s.cells[s.table[k]].chain
        ensures b in s'.cells && s'.cells[b].Body? && s'.cells[b].data == s.cells[b].data
      {
        assert s.cells[b].Body?;
      }
      ValueFrame(s, s', k);
    }
  }

  /** Rescuing an item, or one part of it, changes no value under any key. */
  lemma RescueKeepsValues(s: State, k: Key)
    requires Inv(s) && s.mover.On? && s.mover.phase.Rescuing? && s.mover.phase.spare.Some?
    ensures EndReady(s) && Value(EndRescue(s), k) == Value(s, k)
  {
    RescueReady(s);
    if s.mover.phase.part.None? {
      WholeValues(s, k);
    } else {
      PartValues(s, k);
    }
  }

  ghost predicate EndReady(s: State) {
    && s.mover.On? && s.mover.phase.Rescuing? && IsItem(s, s.mover.phase.it)
    && s.cells[s.mover.phase.it].linked && s.cells[s.mover.phase.it].refs > 0 && s.cells[s.mover.phase.it].holders > 0
    && (s.mover.phase.part.Some? ==> s.mover.phase.part.value in s.cells && s.cells[s.mover.phase.part.value].Body?)
  }

  lemma WholeValues(s: State, k: Key)
    requires Inv(s) && s.mover.On? && s.mover.phase.Rescuing? && s.mover.phase.spare.Some? && s.mover.phase.part.None?
    requires EndReady(s)
    ensures Value(EndRescue(s), k) == Value(s, k)
  {
    var it, y := s.mover.phase.it, s.mover.phase.spare.value;
    var s' := EndRescue(s);
    assert s'.cells == Moved(s.cells, it, y);
    if k in s.table {
      var x := s.table[k];
      MovedIs(s.cells, it, y, x);
      MovedIs(s.cells, it, y, y);
      forall b | b in s.cells[x].chain
        ensures b in s'.cells && s'.cells[b].Body? && s'.cells[b].data == s.cells[b].data
      {
        assert s.cells[b].Body?;
        MovedIs(s.cells, it, y, b);
      }
      ValueFrame(s, s', k);
    }
  }

  lemma {:induction false} JoinedAppend(cells: map<Chunk, Cell>, a: seq<Chunk>, b: seq<Chunk>)
    ensures Joined(cells, a + b) == Joined(cells, a) + Joined(cells, b)
    decreases |a|
  {
    if |a| == 0 {
      assert a + b == b;
    } else {
      assert (a + b)[1..] == a[1..] + b;
      JoinedAppend(cells, a[1..], b);
    }
  }

  lemma JoinedAround(cells: map<Chunk, Cell>, a: seq<Chunk>, x: Chunk, b: seq<Chunk>)
    requires x in cells && cells[x].Body?
    ensures Joined(cells, a + [x] + b) == Joined(cells, a) + cells[x].data + Joined(cells, b)
  {
    JoinedAppend(cells, a + [x], b);
    JoinedAppend(cells, a, [x]);
    assert [x][1..] == [];
    assert Joined(cells, [x]) == cells[x].data;
  }

  lemma SwapParts(chain: seq<Chunk>, x: Chunk, y: Chunk, i: nat)
    requires i == Index(chain, x) < |chain|
    ensures chain == chain[..i] + [x] + chain[i + 1..] && Swap(chain, x, y) == chain[..i] + [y] + chain[i + 1..]
  {}

  lemma OnlyOnce(chain: seq<Chunk>, i: nat)
    requires Distinct(chain) && i < |chain|
    ensures forall b :: b in chain[..i] || b in chain[i + 1..] ==> b in chain && b != chain[i]
  {}

  lemma JoinedSame(
    cells: map<Chunk, Cell>, cells': map<Chunk, Cell>, a: seq<Chunk>, b: seq<Chunk>, x: Chunk, y: Chunk)
    requires x in cells && cells[x].Body? && y in cells' && cells'[y].Body? && cells'[y].data == cells[x].data
    requires Joined(cells', a) == Joined(cells, a) && Joined(cells', b) == Joined(cells, b)
    ensures Joined(cells', a + [y] + b) == Joined(cells, a + [x] + b)
  {
    JoinedAround(cells, a, x, b);
    JoinedAround(cells', a, y, b);
  }

  /** One part of a chain has been copied elsewhere, and nothing has happened to the others. */
  lemma JoinedSwap(cells: map<Chunk, Cell>, cells': map<Chunk, Cell>, chain: seq<Chunk>, x: Chunk, y: Chunk)
    requires Distinct(chain) && x in chain
    requires forall b :: b in chain ==> b in cells && cells[b].Body?
    requires forall b :: b in chain && b != x ==> b in cells' && cells'[b] == cells[b]
    requires y in cells' && cells'[y].Body? && cells'[y].data == cells[x].data
    ensures Joined(cells', Swap(chain, x, y)) == Joined(cells, chain)
  {
    var i := Index(chain, x);
    SwapParts(chain, x, y, i);
    OnlyOnce(chain, i);
    JoinedFrame(cells, cells', chain[..i]);
    JoinedFrame(cells, cells', chain[i + 1..]);
    JoinedSame(cells, cells', chain[..i], chain[i + 1..], x, y);
  }

  lemma PartValues(s: State, k: Key)
    requires Inv(s) && s.mover.On? && s.mover.phase.Rescuing? && s.mover.phase.spare.Some? && s.mover.phase.part.Some?
    requires EndReady(s)
    ensures Value(EndRescue(s), k) == Value(s, k)
  {
    var it, x, y := s.mover.phase.it, s.mover.phase.part.value, s.mover.phase.spare.value;
    var s' := EndRescue(s);
    if k in s.table {
      var h := s.table[k];
      forall b | b in s.cells[h].chain
        ensures b in s.cells && s.cells[b].Body? && s.cells[b].head == h && b != y
      {
      }
      if h == it {
        JoinedSwap(s.cells, s'.cells, s.cells[it].chain, x, y);
      } else {
        ValueFrame(s, s', k);
      }
    }
  }

  /** Giving an item up removes its own key and changes no other value. */
  lemma DropKeepsOthers(s: State, x: Chunk, k: Key)
    requires Inv(s) && IsItem(s, x) && s.cells[x].linked
    ensures s.cells[x].refs > 0
    ensures Value(Free(Unhooked(s, x), x), k) == if k == s.cells[x].key then None else Value(s, k)
    ensures Value(Unhooked(s, x), k) == if k == s.cells[x].key then None else Value(s, k)
  {
    var s1 := Unhooked(s, x);
    var s' := Free(s1, x);
    if k in s.table && k != s.cells[x].key {
      var h := s.table[k];
      assert h != x;
      forall b | b in s.cells[h].chain
        ensures b in s1.cells && s1.cells[b].Body? && s1.cells[b].data == s.cells[b].data
          && b !in [x] + s.cells[x].chain
      {
        assert s.cells[b].Body? && s.cells[b].head == h;
      }
      assert h !in [x] + s.cells[x].chain;
      ValueFrame(s, s1, k);
      ValueFrame(s, s', k);
    }
  }

  /** A visit changes no value either, except that an item still referenced after more than 1000
      rounds is unlinked. */
  lemma VisitKeepsValues(s: State, locked: bool, expired: bool, k: Key)
    requires Inv(s) && Looking(s.mover)
    ensures VisitOk(s)
    ensures var s' := Visit(s, locked, expired);
      || Value(s', k) == Value(s, k)
      || (var it := Owner(s, s.mover.page[s.mover.pos]);
          s.mover.loops > MAX_LOOPS && IsItem(s, it) && s.cells[it].refs > 1 && k == s.cells[it].key
            && Value(s', k) == None)
  {
    VisitReady(s);
    var m := s.mover;
    var x := m.page[m.pos];
    var it := Owner(s, x);
    match s.cells[it] {
      case Cleared =>
      case Slabbed => ValueOnlyFreeChanged(s, CutFree(s, x), k);
      case Body(_, _) =>
      case Item(refs, _, linked, _, _, _) =>
        if linked && !locked {
          if refs == 1 {
            BeginValues(s, x, expired, k);
          } else if m.loops > MAX_LOOPS {
            DropKeepsOthers(s, it, k);
          }
        }
    }
  }

  ghost predicate VisitOk(s: State) {
    && s.mover.On? && s.mover.pos < |s.mover.page|
    && var x := s.mover.page[s.mover.pos];
       x in s.cells && x in s.cls && s.cls[x] < |s.slots| && Owner(s, x) in s.cells
  }

  lemma BeginValues(s: State, x: Chunk, expired: bool, k: Key)
    requires Inv(s) && Looking(s.mover) && x == s.mover.page[s.mover.pos]
    requires IsItem(s, Owner(s, x)) && s.cells[Owner(s, x)].linked && s.cells[Owner(s, x)].refs == 1
    ensures Value(BeginRescue(s, x, expired), k) == Value(s, k)
  {
    var s1 := Ref(s, Owner(s, x));
    RefKeeps(s, Owner(s, x));
    if k in s.table {
      forall b | b in s.cells[s.table[k]].chain
        ensures s.cells[b].Body?
      {
      }
      ValueFrame(s, s1, k);
    }
    if !expired {
      var (s2, spare) := TakeSpare(s1, |s.mover.page|);
      TakeSpareKeeps(s1, |s.mover.page|, s2, spare);
      TakeSpareIs(s1, |s.mover.page|, s2, spare);
      ValueOnlyFreeChanged(s1, s2, k);
    }
  }

  // ---- whole runs ----

  datatype Action =
    | DoNewPage(c: nat, chunks: seq<Chunk>)
    | DoAlloc(c: nat, key: Key, data: Data)
    | DoAttach(h: Chunk, x: Chunk)
    | DoLink(x: Chunk)
    | DoRef(x: Chunk)
    | DoUnref(x: Chunk)
    | DoUnlink(x: Chunk)
    | DoStart(source: nat, page: seq<Chunk>)
    | DoVisit(locked: bool, expired: bool)
    | DoEndRescue
    | DoFinish

  /** What can happen next: workers stay off keys the mover has locked and chunks it holds. */
  ghost predicate Enabled(s: State, a: Action) {
    match a
    case DoNewPage(c, chunks) => c < |s.slots| && Distinct(chunks) && forall x :: x in chunks ==> x !in s.cells
    case DoAlloc(c, _, _) => c < |s.slots| && |s.slots[c]| > 0
    case DoAttach(h, x) => CanAttach(s, h, x)
    case DoLink(x) => CanLink(s, x)
    case DoRef(x) => CanRef(s, x)
    case DoUnref(x) => CanUnref(s, x)
    case DoUnlink(x) => CanRef(s, x)
    case DoStart(source, page) =>
      s.mover.Off? && Distinct(page) && |page| > 0 && forall x :: x in page ==>
        x in s.cells && x in s.cls && s.cls[x] == source
    case DoVisit(_, _) => Looking(s.mover)
    case DoEndRescue => s.mover.On? && s.mover.phase.Rescuing?
    case DoFinish => s.mover.On? && s.mover.done
  }

  lemma StepReady(s: State, a: Action)
    requires Inv(s) && Enabled(s, a)
    ensures a.DoUnref? || a.DoUnlink? ==> s.cells[a.x].refs > 0
    ensures a.DoVisit? ==> VisitOk(s)
    ensures a.DoEndRescue? ==> EndReady(s)
  {
    if a.DoVisit? {
      VisitReady(s);
    } else if a.DoEndRescue? {
      RescueReady(s);
    }
  }

  ghost function Next(s: State, a: Action): State
    requires Inv(s) && Enabled(s, a)
  {
    StepReady(s, a);
    match a
    case DoNewPage(c, chunks) => NewPage(s, c, chunks)
    case DoAlloc(c, key, data) => Alloc(s, c, key, data)
    case DoAttach(h, x) => Attach(s, h, x)
    case DoLink(x) => Link(s, x)
    case DoRef(x) => Ref(s, x)
    case DoUnref(x) => Unref(s, x)
    case DoUnlink(x) => Unlink(s, x)
    case DoStart(source, page) => Start(s, source, page)
    case DoVisit(locked, expired) => Visit(s, locked, expired)
    case DoEndRescue => EndRescue(s)
    case DoFinish => Finish(s)
  }

  /** Every step of every thread keeps the invariant. */
  lemma StepKeeps(s: State, a: Action)
    requires Inv(s) && Enabled(s, a)
    ensures Inv(Next(s, a))
  {
    match a
    case DoNewPage(c, chunks) => NewPageKeeps(s, c, chunks);
    case DoAlloc(c, key, data) => AllocKeeps(s, c, key, data);
    case DoAttach(h, x) => AttachKeeps(s, h, x);
    case DoLink(x) => LinkKeeps(s, x);
    case DoRef(x) => RefKeeps(s, x);
    case DoUnref(x) => UnrefKeeps(s, x);
    case DoUnlink(x) => UnlinkKeeps(s, x);
    case DoStart(source, page) => StartKeeps(s, source, page);
    case DoVisit(locked, expired) => VisitKeeps(s, locked, expired);
    case DoEndRescue => EndRescueKeeps(s);
    case DoFinish => FinishKeeps(s);
  }

  ghost predicate Reaches(s: State, acts: seq<Action>, after: State)
    decreases |acts|
  {
    if |acts| == 0 then after == s
    else Inv(s) && Enabled(s, acts[0]) && Reaches(Next(s, acts[0]), acts[1..], after)
  }

  lemma {:induction false} RunKeeps(s: State, acts: seq<Action>, after: State)
    requires Inv(s) && Reaches(s, acts, after)
    ensures Inv(after)
    decreases |acts|
  {
    if |acts| > 0 {
      StepKeeps(s, acts[0]);
      RunKeeps(Next(s, acts[0]), acts[1..], after);
    }
  }

  /** An allocator with no pages yet. */
  function Initial(classes: nat): State {
    State(map[], map[], seq(classes, _ => []), map[], Off)
  }

  /** In every interleaving from an empty allocator: when a page is declared done, nothing in it
      is allocated, linked, chained or free. */
  lemma MovedPageIsEmpty(classes: nat, acts: seq<Action>, s: State)
    requires Reaches(Initial(classes), acts, s) && s.mover.On? && s.mover.done
    ensures Emptied(s, s.mover.page)
  {
    RunKeeps(Initial(classes), acts, s);
    DonePageIsEmpty(s);
  }

  lemma InitialKeeps(classes: nat, acts: seq<Action>, s: State)
    requires Reaches(Initial(classes), acts, s)
    ensures Inv(s)
  {
    RunKeeps(Initial(classes), acts, s);
  }

  lemma EndRescueKeepsValues(s: State, k: Key)
    requires Inv(s) && s.mover.On? && s.mover.phase.Rescuing? && s.mover.phase.spare.Some?
    ensures Value(Next(s, DoEndRescue), k) == Value(s, k)
  {
    RescueKeepsValues(s, k);
  }

  /** And in every reachable state a rescue leaves every key with the value it had. */
  lemma RescuedItemsKeepTheirValues(classes: nat, acts: seq<Action>, s: State, k: Key)
    requires Reaches(Initial(classes), acts, s) && s.mover.On? && s.mover.phase.Rescuing? && s.mover.phase.spare.Some?
    ensures Inv(s) && Value(Next(s, DoEndRescue), k) == Value(s, k)
  {
    InitialKeeps(classes, acts, s);
    EndRescueKeepsValues(s, k);
  }
}
