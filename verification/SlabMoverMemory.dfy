/** The page mover in place: the loops of slab_rebalance_alloc, slab_rebalance_move and
    do_slabs_free_chunked, each proved to be a step of SlabMover. */
module SlabMoverMemory {
  import FreeLists
  import LruLists
  import opened Options
  import opened Sequences
  import SlabLosses
  import opened SlabMover
  import opened SlabMoverSafety

  /** What slab_rebalance_move finds out about a chunk. */
  datatype Status = Pass | FromSlab | FromLru | Busy | IsLocked

  lemma PushMore(slots: seq<seq<Chunk>>, cls: map<Chunk, nat>, xs: seq<Chunk>, i: nat)
    requires i < |xs| && xs[i] in cls && cls[xs[i]] < |slots|
    ensures Push(slots, cls, xs[i..]) == Push(slots[cls[xs[i]] := [xs[i]] + slots[cls[xs[i]]]], cls, xs[i + 1..])
  {
    assert xs[i..][1..] == xs[i + 1..];
  }

  lemma MarkMore(cells: map<Chunk, Cell>, xs: seq<Chunk>, i: nat)
    requires i < |xs|
    ensures (cells + Mark(xs[..i], Slabbed))[xs[i] := Slabbed] == cells + Mark(xs[..i + 1], Slabbed)
  {
    assert xs[..i + 1] == xs[..i] + [xs[i]];
  }

  lemma RepointMore(cells: map<Chunk, Cell>, chain: seq<Chunk>, i: nat, y: Chunk)
    requires i < |chain|
    ensures var before, b := Repoint(cells, chain[..i], y), chain[i];
      Repoint(cells, chain[..i + 1], y) ==
        if b in before && before[b].Body? then before[b := before[b].(head := y)] else before
  {
    assert chain[..i + 1] == chain[..i] + [chain[i]];
  }

  lemma RepointNone(cells: map<Chunk, Cell>, y: Chunk)
    ensures Repoint(cells, [], y) == cells
  {}

  lemma ClearAfter(cells: map<Chunk, Cell>, chain: seq<Chunk>, y: Chunk, it: Chunk)
    ensures Repoint(cells, chain, y)[it := Cleared] == Repoint(cells[it := Cleared], chain, y)
  {}

  /** The chunks are different ones that are on no free list, and each has one to go to. */
  ghost predicate Homeless(s: State, xs: seq<Chunk>) {
    && Distinct(xs)
    && forall y :: y in xs ==> y in s.cells && y in s.cls && s.cls[y] < |s.slots| && LruLists.Absent(s.slots, y)
  }

  /** So are those of an item. */
  ghost predicate Homed(s: State, x: Chunk)
    requires IsItem(s, x)
  {
    Homeless(s, [x] + s.cells[x].chain)
  }

  lemma ItemIsHomed(s: State, x: Chunk)
    requires Inv(s) && IsItem(s, x)
    ensures Homed(s, x)
  {
    var chain := s.cells[x].chain;
    assert x !in chain && Distinct(chain);
    forall y | y in [x] + chain
      ensures y in s.cells && y in s.cls && s.cls[y] < |s.slots| && LruLists.Absent(s.slots, y)
    {
      assert y == x || y in chain;
    }
  }

  lemma StillHomeless(s: State, xs: seq<Chunk>)
    requires Homeless(s, xs) && |xs| > 0
    ensures xs[0] in xs
    ensures var c := s.cls[xs[0]];
      Homeless(s.(cells := s.cells[xs[0] := Slabbed], slots := s.slots[c := [xs[0]] + s.slots[c]]), xs[1..])
  {
    assert forall y :: y in xs[1..] ==> y in xs && y != xs[0];
  }

  /** What a look relies on: the cursor is at a chunk of the page, and a chained part has an item. */
  ghost predicate Ready(s: State) {
    && s.mover.On? && s.mover.pos < |s.mover.page|
    && var x := s.mover.page[s.mover.pos];
       && x in s.cells && x in s.cls && s.cls[x] < |s.slots| && (s.cells[x].Slabbed? ==> x in s.slots[s.cls[x]])
       && Owner(s, x) in s.cells && (Owner(s, x) != x ==> IsItem(s, Owner(s, x)))
  }

  /** What the second half of a rescue relies on. */
  ghost predicate Halfway(s: State) {
    && s.mover.On? && s.mover.phase.Rescuing? && IsItem(s, s.mover.phase.it) && Homed(s, s.mover.phase.it)
    && s.cells[s.mover.phase.it].linked && s.cells[s.mover.phase.it].refs > 0 && s.cells[s.mover.phase.it].holders > 0
    && (s.mover.phase.part.Some? ==> s.mover.phase.part.value in s.cells && s.cells[s.mover.phase.part.value].Body?)
    && (s.mover.phase.spare.Some? ==>
      s.mover.phase.spare.value != s.mover.phase.it && s.mover.phase.spare.value in s.cells)
  }

  /** Both hold in every state of a run that gets there. */
  lemma LookingIsReady(s: State)
    requires Inv(s) && Looking(s.mover)
    ensures Ready(s)
  {
    VisitReady(s);
  }

  lemma RescuingIsHalfway(s: State)
    requires Inv(s) && s.mover.On? && s.mover.phase.Rescuing?
    ensures Halfway(s)
  {
    RescueReady(s);
    ItemIsHomed(s, s.mover.phase.it);
  }

  lemma VisitOn(s: State, locked: bool, expired: bool)
    requires Ready(s)
    ensures Visit(s, locked, expired).mover.On?
  {}

  lemma RescueIsHalfway(s: State)
    requires Inv(s) && s.mover.On?
    ensures s.mover.phase.Rescuing? ==> Halfway(s)
  {
    if s.mover.phase.Rescuing? {
      RescuingIsHalfway(s);
    }
  }

  lemma AfterLook(s: State, locked: bool, expired: bool)
    requires Inv(s) && Looking(s.mover)
    ensures Ready(s) && Inv(Visit(s, locked, expired)) && Visit(s, locked, expired).mover.On?
    ensures Visit(s, locked, expired).mover.phase.Rescuing? ==> Halfway(Visit(s, locked, expired))
  {
    LookingIsReady(s);
    VisitOn(s, locked, expired);
    VisitKeeps(s, locked, expired);
    RescueIsHalfway(Visit(s, locked, expired));
  }

  lemma AfterRescue(s: State)
    requires Inv(s) && s.mover.On? && s.mover.phase.Rescuing?
    ensures Halfway(s) && Inv(SlabMover.EndRescue(s))
    ensures SlabMover.EndRescue(s).mover.On? && SlabMover.EndRescue(s).mover.phase.Between?
  {
    RescuingIsHalfway(s);
    EndRescueKeeps(s);
  }

  class Slabs {
    var cells: map<Chunk, Cell>
    var cls: map<Chunk, nat>
    const free: FreeLists.Slots
    var table: map<Key, Chunk>
    var mover: Mover

    ghost function View(): State
      reads this, free
    {
      State(cells, cls, free.lists, table, mover)
    }

    /** The free lists are linked, and every chunk has its link fields. */
    ghost predicate Wired()
      reads this, free, free.slots, free.counts, free.prev, free.next
    {
      free.Valid() && forall x :: x in cells ==> x < free.next.Length
    }

    constructor (classes: nat, chunks: nat)
      ensures Wired() && View() == State(map[], map[], seq(classes, _ => []), map[], Off) && Inv(View())
    {
      free := new FreeLists.Slots(classes, chunks);
      cells, cls, table, mover := map[], map[], map[], Off;
    }

    /** do_slabs_free of one chunk: onto the free list of its class. */
    method FreeOne(x: Chunk)
      requires Wired() && x in cells && x in cls && cls[x] < |free.lists| && LruLists.Absent(free.lists, x)
      modifies this`cells, free`lists, free.slots, free.counts, free.prev, free.next
      ensures Wired() && cells == old(cells)[x := Slabbed]
      ensures free.lists == old(free.lists)[cls[x] := [x] + old(free.lists)[cls[x]]]
    {
      cells := cells[x := Slabbed];
      free.Push(cls[x], x);
    }

    /** do_slabs_free_chunked: the head, then its chunks one after the other. */
    method FreeChunked(x: Chunk)
      requires Wired() && IsItem(View(), x) && Homed(View(), x)
      modifies this`cells, free`lists, free.slots, free.counts, free.prev, free.next
      ensures Wired() && View() == Free(old(View()), x)
    {
      var xs := [x] + cells[x].chain;
      var i := 0;
      while i < |xs|
        invariant 0 <= i <= |xs| && Wired()
        invariant Homeless(View(), xs[i..])
        invariant cells == old(cells) + Mark(xs[..i], Slabbed)
        invariant Push(free.lists, cls, xs[i..]) == Push(old(free.lists), cls, xs)
      {
        assert xs[i] in xs[i..];
        PushMore(free.lists, cls, xs, i);
        MarkMore(old(cells), xs, i);
        StillHomeless(View(), xs[i..]);
        assert xs[i..][1..] == xs[i + 1..];
        FreeOne(xs[i]);
        i := i + 1;
      }
      assert xs[..i] == xs && xs[i..] == [];
    }

    /** slab_rebalance_alloc. */
    method RebalanceAlloc() returns (newIt: Option<Chunk>)
      requires Wired() && mover.On?
      modifies this`cells, free`lists, free.slots, free.counts, free.prev, free.next
      ensures Wired() && (View(), newIt) == TakeSpare(old(View()), |mover.page|)
    {
      newIt := None;
      var x, c := 0, mover.source;
      while x < |mover.page|
        invariant 0 <= x <= |mover.page| && Wired()
        invariant TakeSpare(View(), |mover.page| - x) == TakeSpare(old(View()), |mover.page|)
      {
        if c >= free.slots.Length {
          return;
        }
        free.Here(c);
        if free.counts[c] == 0 {
          return;
        }
        var it := free.Pop(c);
        if it in mover.page {
          cells := cells[it := Cleared];
        } else {
          cells := cells[it := Item(1, 1, false, [], [], [])];
          newIt := Some(it);
          return;
        }
        x := x + 1;
      }
    }

    /** The end of a turn: on to the next chunk, from the top again, or done. */
    method Advance(busy: bool)
      requires mover.On?
      modifies this`mover
      ensures mover == SlabMover.Advance(old(mover), busy)
    {
      mover := mover.(phase := Between);
      if busy {
        mover := mover.(busy := mover.busy + 1);
      }
      mover := mover.(pos := mover.pos + 1);
      if mover.pos >= |mover.page| {
        if mover.busy > 0 {
          mover := mover.(pos := 0, busy := 0, loops := mover.loops + 1);
        } else {
          mover := mover.(done := true);
        }
      }
    }

    /** The assessment of a linked item whose lock was to be had: it is given a reference, which it loses
        again unless it is to be moved. */
    method AssessLinked(it: Chunk) returns (status: Status)
      requires IsItem(View(), it) && cells[it].linked && mover.On?
      modifies this`cells, this`table
      ensures cells.Keys == old(cells).Keys && (status == FromLru <==> old(cells)[it].refs == 1)
        && (status == FromLru || status == Busy)
      ensures status == FromLru ==> View() == Ref(old(View()), it)
      ensures status == Busy && mover.loops > MAX_LOOPS && old(cells)[it].refs > 1 ==>
        View() == Unhooked(old(View()), it)
      ensures status == Busy && !(mover.loops > MAX_LOOPS && old(cells)[it].refs > 1) ==> View() == old(View())
    {
      var cell := cells[it];
      cells := cells[it := cells[it].(refs := cells[it].refs + 1, holders := cells[it].holders + 1)];
      status := Busy;
      if cells[it].refs == 2 {
        status := FromLru;
      } else {
        if cells[it].refs > 2 && mover.loops > MAX_LOOPS {
          table := table - {cells[it].key};
          cells := cells[it := cells[it].(linked := false, refs := cells[it].refs - 1)];
        }
        cells := cells[it := cells[it].(refs := cells[it].refs - 1, holders := cells[it].holders - 1)];
        assert cells == old(cells)[it := cells[it]] && (cells[it] == cell ==> cells == old(cells));
      }
    }

    /** The assessment of the chunk under the cursor. `locked` says that the item lock is taken. */
    method Assess(x: Chunk, it: Chunk, locked: bool) returns (status: Status)
      requires Wired() && Ready(View()) && x == mover.page[mover.pos] && it == Owner(View(), x)
      modifies this`cells, this`table, free`lists, free.slots, free.counts, free.prev, free.next
      ensures Wired()
      ensures status == Pass <==> old(cells)[it].Cleared?
      ensures status == FromSlab <==> old(cells)[it].Slabbed?
      ensures status == FromLru <==>
        old(cells)[it].Item? && old(cells)[it].linked && !locked && old(cells)[it].refs == 1
      ensures status == FromSlab ==>
        View() == old(View()).(slots := old(free.lists)[cls[x] := Cut(old(free.lists)[cls[x]], x)])
      ensures status == FromLru ==> View() == Ref(old(View()), it)
      ensures status != FromSlab && status != FromLru ==>
        View() == Visit(old(View()), locked, true).(mover := old(mover))
    {
      status := Pass;
      if !cells[it].Cleared? {
        if cells[it].Slabbed? {
          free.CutFree(cls[x], x, Index(free.lists[cls[x]], x));
          status := FromSlab;
        } else if cells[it].Item? && cells[it].linked {
          if locked {
            status := IsLocked;
          } else {
            status := AssessLinked(it);
          }
        } else {
          status := Busy;
        }
      }
    }

    /** One turn of slab_rebalance_move up to the end of the section under the slabs lock. */
    method Look(locked: bool, expired: bool)
      requires Wired() && Ready(View())
      modifies this, free`lists, free.slots, free.counts, free.prev, free.next
      ensures Wired() && View() == Visit(old(View()), locked, expired)
      ensures old(Inv(View()) && Looking(mover)) ==>
        (mover.On? && mover.phase.Rescuing? <==> old(SlabLosses.AtRest(View(), locked)))
      ensures old(Inv(View()) && Looking(mover)) && mover.On? && mover.phase.Rescuing? ==>
        (mover.phase.spare.Some? <==> !expired && old(SlabLosses.HasSpare(View())))
    {
      ghost var s := View();
      if Inv(s) && Looking(s.mover) {
        SlabLosses.SavedIff(s, locked, expired);
      }
      var x := mover.page[mover.pos];
      var it := x;
      if cells[x].Body? {
        it := cells[x].head;
      }
      var status := Assess(x, it, locked);
      match status
      case FromLru =>
        var newIt := None;
        if !expired {
          newIt := RebalanceAlloc();
        }
        mover := mover.(phase := Rescuing(it, if it == x then None else Some(x), newIt));
      case FromSlab =>
        cells := cells[x := Cleared];
        Advance(false);
      case Pass =>
        Advance(false);
      case _ =>
        Advance(true);
    }

    /** The loop that tells the chunks of a moved item where their head is now. */
    method RepointChunks(chain: seq<Chunk>, head: Chunk)
      modifies this`cells
      ensures cells == Repoint(old(cells), chain, head)
    {
      var i := 0;
      RepointNone(cells, head);
      while i < |chain|
        invariant 0 <= i <= |chain| && cells == Repoint(old(cells), chain[..i], head)
      {
        RepointMore(old(cells), chain, i, head);
        if chain[i] in cells && cells[chain[i]].Body? {
          cells := cells[chain[i] := cells[chain[i]].(head := head)];
        }
        i := i + 1;
      }
      assert chain[..i] == chain;
    }

    /** A whole item moves to chunk `y`. */
    method MoveItem(it: Chunk, y: Chunk)
      requires IsItem(View(), it) && y != it && y in cells
      modifies this`cells, this`table
      ensures cells.Keys == old(cells).Keys
      ensures var cell := old(cells)[it];
        cells == Repoint(old(cells)[y := Item(1, 0, true, cell.key, cell.data, cell.chain)][it := Cleared],
          cell.chain, y)
        && table == old(table)[cell.key := y]
    {
      var cell := cells[it];
      cells := cells[y := Item(0, 0, false, cell.key, cell.data, cell.chain)];
      table := table[cell.key := y];
      cells := cells[y := cells[y].(linked := true, refs := 1)];
      ghost var moved := old(cells)[y := Item(1, 0, true, cell.key, cell.data, cell.chain)];
      assert cells == moved;
      ClearAfter(moved, cell.chain, y, it);
      RepointChunks(cell.chain, y);
      cells := cells[it := Cleared];
    }

    /** One chained part of an item moves to chunk `y`. */
    method MovePart(it: Chunk, x: Chunk, y: Chunk)
      requires IsItem(View(), it) && cells[it].refs > 0 && cells[it].holders > 0 && x in cells && cells[x].Body?
        && y != it && y in cells
      modifies this`cells
      ensures cells.Keys == old(cells).Keys
      ensures var cell := old(cells)[it];
        cells == old(cells)[y := Body(it, old(cells)[x].data)][x := Cleared]
          [it := cell.(chain := Swap(cell.chain, x, y), refs := cell.refs - 1, holders := cell.holders - 1)]
    {
      cells := cells[it := cells[it].(chain := Swap(cells[it].chain, x, y))];
      var data := cells[x].data;
      cells := cells[y := Body(it, data)];
      cells := cells[x := Cleared];
      cells := cells[it := cells[it].(refs := cells[it].refs - 1, holders := cells[it].holders - 1)];
    }

    /** The rest of a turn, under the item lock alone: the item or the part moves to the spare chunk, or
        the item is given up. */
    method EndRescue()
      requires Wired() && Halfway(View())
      modifies this, free`lists, free.slots, free.counts, free.prev, free.next
      ensures Wired() && View() == SlabMover.EndRescue(old(View()))
    {
      var it, part, spare := mover.phase.it, mover.phase.part, mover.phase.spare;
      if spare.None? {
        cells := cells[it := cells[it].(linked := false, refs := cells[it].refs - 1)];
        table := table - {cells[it].key};
        FreeChunked(it);
        Advance(true);
      } else if part.None? {
        MoveItem(it, spare.value);
        Advance(false);
      } else {
        MovePart(it, part.value, spare.value);
        Advance(false);
      }
    }

    /** One turn of the loop with nothing in between. */
    method Turn(locked: bool, expired: bool)
      requires Wired() && Inv(View()) && Looking(mover)
      modifies this, free`lists, free.slots, free.counts, free.prev, free.next
      ensures Wired() && Inv(View()) && mover.On? && mover.phase.Between?
    {
      AfterLook(View(), locked, expired);
      Look(locked, expired);
      if mover.phase.Rescuing? {
        AfterRescue(View());
        EndRescue();
      }
    }

    /** slab_rebalance_move with nothing in between: as many chunks as asked for, or to the end of the
        page. When that leaves the mover done, the page is empty. */
    method Move(locked: seq<bool>, expired: seq<bool>)
      requires Wired() && Inv(View()) && Looking(mover) && |locked| == |expired|
      modifies this, free`lists, free.slots, free.counts, free.prev, free.next
      ensures Wired() && Inv(View()) && mover.On? && mover.phase.Between?
        && (mover.done ==> Emptied(View(), mover.page))
    {
      var x := 0;
      while x < |locked| && Looking(mover)
        invariant 0 <= x <= |locked| && Wired() && Inv(View()) && mover.On? && mover.phase.Between?
      {
        Turn(locked[x], expired[x]);
        x := if mover.pos == 0 then |locked| else x + 1;
      }
      if mover.done {
        DonePageIsEmpty(View());
      }
    }
  }
}
