/** A rescue from its beginning to its end: the mover lets go of the slabs lock in between, and whatever
    the workers do meanwhile, the key it has locked keeps its value. */
module SlabRescue {
  import opened Sequences
  import opened SlabMover
  import opened SlabMoverSafety

  predicate MidRescue(s: State) {
    s.mover.On? && s.mover.phase.Rescuing?
  }

  /** The item being rescued, its chain and its table entry are as they were, and so is the mover. */
  ghost predicate Untouched(s: State, s': State)
    requires MidRescue(s)
  {
    var it := s.mover.phase.it;
    && s'.mover == s.mover && IsItem(s, it) && IsItem(s', it) && s'.cells[it] == s.cells[it]
    && (forall b :: b in s.cells[it].chain ==> b in s.cells && b in s'.cells && s'.cells[b] == s.cells[b])
    && s.cells[it].key in s'.table && s'.table[s.cells[it].key] == it
  }

  /** What is known of the item: it is linked under its key, and its chain is its own. */
  lemma Rescued(s: State)
    requires Inv(s) && MidRescue(s)
    ensures var it := s.mover.phase.it;
      && IsItem(s, it) && s.cells[it].linked && s.cells[it].key in s.table && s.table[s.cells[it].key] == it
      && Locked(s, s.cells[it].key)
      && forall b :: b in s.cells[it].chain ==> b in s.cells && s.cells[b].Body? && s.cells[b].head == it
  {}

  /** Cells other than those in `xs` stay, and none of those is the item's. */
  lemma Elsewhere(s: State, s': State, xs: seq<Chunk>)
    requires Inv(s) && MidRescue(s) && s'.mover == s.mover
    requires forall x :: x in s.cells && x !in xs ==> x in s'.cells && s'.cells[x] == s.cells[x]
    requires s.mover.phase.it !in xs && forall x :: x in xs && x in s.cells && s.cells[x].Body? ==>
      s.cells[x].head != s.mover.phase.it
    requires s'.table == s.table
      || (s.cells[s.mover.phase.it].key in s'.table && s'.table[s.cells[s.mover.phase.it].key] == s.mover.phase.it)
    ensures Untouched(s, s')
  {
    Rescued(s);
  }

  lemma NewPageLeaves(s: State, c: nat, chunks: seq<Chunk>)
    requires Inv(s) && MidRescue(s) && Enabled(s, DoNewPage(c, chunks))
    ensures Untouched(s, NewPage(s, c, chunks))
  {
    Rescued(s);
    Elsewhere(s, NewPage(s, c, chunks), chunks);
  }

  lemma AllocLeaves(s: State, c: nat, key: Key, data: Data)
    requires Inv(s) && MidRescue(s) && Enabled(s, DoAlloc(c, key, data))
    ensures Untouched(s, Alloc(s, c, key, data))
  {
    Rescued(s);
    assert s.slots[c][0] in s.slots[c];
    Elsewhere(s, Alloc(s, c, key, data), [s.slots[c][0]]);
  }

  lemma AttachLeaves(s: State, h: Chunk, x: Chunk)
    requires Inv(s) && MidRescue(s) && CanAttach(s, h, x)
    ensures Untouched(s, Attach(s, h, x))
  {
    Rescued(s);
    Elsewhere(s, Attach(s, h, x), [h, x]);
  }

  lemma LinkLeaves(s: State, x: Chunk)
    requires Inv(s) && MidRescue(s) && CanLink(s, x)
    ensures Untouched(s, Link(s, x))
  {
    Rescued(s);
    Elsewhere(s, Link(s, x), [x]);
  }

  lemma RefLeaves(s: State, x: Chunk)
    requires Inv(s) && MidRescue(s) && CanRef(s, x)
    ensures Untouched(s, Ref(s, x))
  {
    Rescued(s);
    Elsewhere(s, Ref(s, x), [x]);
  }

  /** Another item with its chain: none of its chunks is the rescued item's. */
  lemma OthersChunks(s: State, x: Chunk)
    requires Inv(s) && MidRescue(s) && IsItem(s, x) && x != s.mover.phase.it
    ensures forall y :: y in [x] + s.cells[x].chain ==>
      y != s.mover.phase.it && y in s.cells && (s.cells[y].Body? ==> s.cells[y].head != s.mover.phase.it)
  {
    Rescued(s);
    forall y | y in [x] + s.cells[x].chain
      ensures y != s.mover.phase.it && y in s.cells && (s.cells[y].Body? ==> s.cells[y].head != s.mover.phase.it)
    {
      assert y == x || y in s.cells[x].chain;
    }
  }

  lemma UnrefLeaves(s: State, x: Chunk)
    requires Inv(s) && MidRescue(s) && CanUnref(s, x)
    ensures s.cells[x].refs > 0 && Untouched(s, Unref(s, x))
  {
    Rescued(s);
    OthersChunks(s, x);
    Elsewhere(s, Unref(s, x), [x] + s.cells[x].chain);
  }

  lemma UnlinkLeaves(s: State, x: Chunk)
    requires Inv(s) && MidRescue(s) && CanRef(s, x)
    ensures s.cells[x].refs > 0 && Untouched(s, Unlink(s, x))
  {
    Rescued(s);
    OthersChunks(s, x);
    Elsewhere(s, Unlink(s, x), [x] + s.cells[x].chain);
  }

  /** Nothing a worker does touches it; the mover itself can only end the rescue. */
  lemma StepLeaves(s: State, a: Action)
    requires Inv(s) && MidRescue(s) && Enabled(s, a) && !a.DoEndRescue?
    ensures Untouched(s, Next(s, a))
  {
    match a
    case DoNewPage(c, chunks) => NewPageLeaves(s, c, chunks);
    case DoAlloc(c, key, data) => AllocLeaves(s, c, key, data);
    case DoAttach(h, x) => AttachLeaves(s, h, x);
    case DoLink(x) => LinkLeaves(s, x);
    case DoRef(x) => RefLeaves(s, x);
    case DoUnref(x) => UnrefLeaves(s, x);
    case DoUnlink(x) => UnlinkLeaves(s, x);
    case _ =>
  }

  lemma UntouchedTwice(s: State, s1: State, s2: State)
    requires MidRescue(s) && Untouched(s, s1) && Untouched(s1, s2)
    ensures Untouched(s, s2)
  {}

  lemma UntouchedValue(s: State, s': State)
    requires Inv(s) && MidRescue(s) && Untouched(s, s')
    ensures IsItem(s, s.mover.phase.it)
      && Value(s', s.cells[s.mover.phase.it].key) == Value(s, s.cells[s.mover.phase.it].key)
  {
    Rescued(s);
    ValueFrame(s, s', s.cells[s.mover.phase.it].key);
  }

  lemma {:induction false} RunLeaves(s: State, acts: seq<Action>, after: State)
    requires Inv(s) && MidRescue(s) && Reaches(s, acts, after) && DoEndRescue !in acts
    ensures Untouched(s, after)
    decreases |acts|
  {
    Rescued(s);
    if |acts| > 0 {
      StepKeeps(s, acts[0]);
      StepLeaves(s, acts[0]);
      RunLeaves(Next(s, acts[0]), acts[1..], after);
      UntouchedTwice(s, Next(s, acts[0]), after);
    }
  }

  /** From the look that begins a rescue to the step that ends it, with any run of the workers in between:
      the key has the same value before, at the end of the run, and after the rescue. */
  lemma RescueKeepsValue(classes: nat, before: seq<Action>, s: State, locked: bool, expired: bool, acts: seq<Action>,
    after: State)
    requires Reaches(Initial(classes), before, s) && Inv(s) && Enabled(s, DoVisit(locked, expired))
    requires var s1 := Next(s, DoVisit(locked, expired));
      MidRescue(s1) && s1.mover.phase.spare.Some? && Reaches(s1, acts, after) && DoEndRescue !in acts
    ensures Inv(after) && MidRescue(after) && IsItem(after, after.mover.phase.it)
    ensures var k := after.cells[after.mover.phase.it].key;
      Value(after, k) == Value(s, k) && Value(Next(after, DoEndRescue), k) == Value(s, k)
  {
    var s1 := Next(s, DoVisit(locked, expired));
    VisitKeeps(s, locked, expired);
    RunKeeps(s1, acts, after);
    RunLeaves(s1, acts, after);
    UntouchedValue(s1, after);
    BegunValue(s, locked, expired, s1.cells[s1.mover.phase.it].key);
    EndRescueKeepsValues(after, s1.cells[s1.mover.phase.it].key);
  }

  /** A look that begins a rescue changes no value. */
  lemma BegunValue(s: State, locked: bool, expired: bool, k: Key)
    requires Inv(s) && Looking(s.mover) && VisitOk(s) && MidRescue(Visit(s, locked, expired))
    ensures Value(Visit(s, locked, expired), k) == Value(s, k)
  {
    VisitKeepsValues(s, locked, expired, k);
  }
}
