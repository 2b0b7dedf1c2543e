/** When the mover takes a key's value away: an item at rest is saved exactly if it has not expired and its
    class has a free chunk outside the page, and over a whole run no value is lost to the mover for another
    reason than these and being in use for too long. */
module SlabLosses {
  import opened Options
  import opened Sequences
  import opened SlabMover
  import opened SlabMoverSafety
  import opened SlabRescue

  /** The source class has a free chunk outside the page. */
  predicate HasSpare(s: State)
    requires s.mover.On?
  {
    s.mover.source < |s.slots| && exists x :: x in s.slots[s.mover.source] && x !in s.mover.page
  }

  // ---- a spare is found if there is one ----

  function Own(list: seq<Chunk>, page: seq<Chunk>): set<Chunk> {
    set x | x in list && x in page
  }

  lemma OwnPopped(list: seq<Chunk>, page: seq<Chunk>)
    requires Distinct(list) && |list| > 0 && list[0] in page
    ensures |Own(list[1..], page)| == |Own(list, page)| - 1
  {
    assert list == [list[0]] + list[1..];
    assert Own(list, page) == Own(list[1..], page) + {list[0]};
  }

  lemma OutsidePopped(list: seq<Chunk>, page: seq<Chunk>)
    requires |list| > 0 && list[0] in page
    ensures (exists x :: x in list && x !in page) <==> (exists x :: x in list[1..] && x !in page)
  {
    assert list == [list[0]] + list[1..];
    if x :| x in list && x !in page {
      assert x in list[1..];
    }
  }

  lemma {:induction false} SpareFound(s: State, tries: nat)
    requires s.mover.On? && s.mover.source < |s.slots| && Distinct(s.slots[s.mover.source])
    requires |Own(s.slots[s.mover.source], s.mover.page)| < tries
    ensures TakeSpare(s, tries).1.Some? <==> HasSpare(s)
    decreases tries
  {
    var c := s.mover.source;
    var list := s.slots[c];
    if |list| > 0 {
      TakeSpareUnfolds(s, tries);
      if list[0] in s.mover.page {
        OwnPopped(list, s.mover.page);
        OutsidePopped(list, s.mover.page);
        SpareFound(Taken(s, Cleared), tries - 1);
      } else {
        assert list[0] in list;
      }
    }
  }

  lemma {:induction false} NoMore(xs: set<Chunk>, page: seq<Chunk>)
    requires Distinct(page) && forall x :: x in xs ==> x in page
    ensures |xs| <= |page|
    decreases |page|
  {
    if |page| == 0 {
      assert xs == {};
    } else {
      var last := page[|page| - 1];
      forall x | x in xs - {last}
        ensures x in page[..|page| - 1]
      {
        assert x in page;
      }
      NoMore(xs - {last}, page[..|page| - 1]);
    }
  }

  /** The chunk the mover looks at is not on the free list, so fewer of the page's chunks are than it has. */
  lemma FewOwn(s: State, x: Chunk)
    requires Inv(s) && Looking(s.mover) && x == s.mover.page[s.mover.pos] && x in s.cells && !s.cells[x].Slabbed?
    requires s.mover.source < |s.slots|
    ensures |Own(s.slots[s.mover.source], s.mover.page)| < |s.mover.page|
  {
    var own := Own(s.slots[s.mover.source], s.mover.page);
    assert x in s.mover.page && x !in own;
    NoMore(own + {x}, s.mover.page);
  }

  // ---- one turn ----

  /** The mover looks at a linked item that nobody has locked, or at a part of one. */
  predicate AtRest(s: State, locked: bool) {
    && Looking(s.mover) && !locked
    && var it := Owner(s, s.mover.page[s.mover.pos]);
       IsItem(s, it) && s.cells[it].linked && s.cells[it].refs == 1
  }

  lemma RescueBegins(s: State, locked: bool, expired: bool)
    requires Inv(s) && Looking(s.mover)
    ensures VisitOk(s) && (MidRescue(Visit(s, locked, expired)) <==> AtRest(s, locked))
    ensures AtRest(s, locked) ==>
      Visit(s, locked, expired) == BeginRescue(s, s.mover.page[s.mover.pos], expired)
  {
    VisitReady(s);
  }

  lemma SpareIff(s: State, x: Chunk, expired: bool)
    requires Inv(s) && AtRest(s, false) && x == s.mover.page[s.mover.pos]
    ensures var s1 := BeginRescue(s, x, expired);
      MidRescue(s1) && s1.mover.phase.it == Owner(s, x) && (s1.mover.phase.spare.Some? <==> !expired && HasSpare(s))
  {
    var it := Owner(s, x);
    VisitReady(s);
    if !expired {
      var s0 := Ref(s, it);
      assert s.cls[x] == s.mover.source && x in s.mover.page;
      FewOwn(s, x);
      SpareFound(s0, |s.mover.page|);
    }
  }

  /** A turn begins a rescue exactly if it looks at an item at rest, and it has a spare for it exactly if the
      item has not expired and its class has a free chunk outside the page. */
  lemma SavedIff(s: State, locked: bool, expired: bool)
    requires Inv(s) && Looking(s.mover)
    ensures VisitOk(s)
    ensures var s1 := Visit(s, locked, expired);
      && (MidRescue(s1) <==> AtRest(s, locked))
      && (MidRescue(s1) ==>
        && s1.mover.phase.it == Owner(s, s.mover.page[s.mover.pos])
        && (s1.mover.phase.spare.Some? <==> !expired && HasSpare(s)))
  {
    RescueBegins(s, locked, expired);
    if AtRest(s, locked) {
      SpareIff(s, s.mover.page[s.mover.pos], expired);
    }
  }

  /** Without a spare the rescued item's key goes, and no other value changes. */
  lemma NoSpareDrops(s: State, k: Key)
    requires Inv(s) && MidRescue(s) && s.mover.phase.spare.None?
    ensures EndReady(s)
    ensures Value(EndRescue(s), k) == if k == s.cells[s.mover.phase.it].key then None else Value(s, k)
  {
    RescueReady(s);
    DropKeepsOthers(s, s.mover.phase.it, k);
  }

  /** The end of a rescue takes a value away exactly if there is no spare, and then that of its own key. */
  lemma EndLoses(s: State, k: Key)
    requires Inv(s) && MidRescue(s)
    ensures EndReady(s) && Value(s, s.cells[s.mover.phase.it].key).Some?
    ensures Value(EndRescue(s), k) != Value(s, k) <==>
      s.mover.phase.spare.None? && k == s.cells[s.mover.phase.it].key
  {
    RescueReady(s);
    Rescued(s);
    if s.mover.phase.spare.None? {
      NoSpareDrops(s, k);
    } else {
      RescueKeepsValues(s, k);
    }
  }

  /** A look takes a value away exactly if it is that of a linked item that nobody has locked and that is in
      use when the mover has gone over the page more than 1000 times. */
  lemma LookLoses(s: State, locked: bool, expired: bool, k: Key)
    requires Inv(s) && Looking(s.mover)
    ensures VisitOk(s)
    ensures Value(Visit(s, locked, expired), k) != Value(s, k) <==>
      (var it := Owner(s, s.mover.page[s.mover.pos]);
        && s.mover.loops > MAX_LOOPS && !locked && IsItem(s, it) && s.cells[it].linked && s.cells[it].refs > 1
        && k == s.cells[it].key)
  {
    VisitKeepsValues(s, locked, expired, k);
    VisitReady(s);
    var it := Owner(s, s.mover.page[s.mover.pos]);
    if IsItem(s, it) && s.cells[it].linked {
      DropKeepsOthers(s, it, k);
    }
  }

  /** A free chunk under the cursor is taken off its list for good, and so is one whose item or part has been
      saved; a chunk that is neither free nor clear nor being rescued stays as it is and makes the mover come
      back. */
  lemma TurnClears(s: State, locked: bool, expired: bool)
    requires Inv(s) && Looking(s.mover)
    ensures VisitOk(s)
    ensures var x, s' := s.mover.page[s.mover.pos], Visit(s, locked, expired);
      && (s.cells[x].Slabbed? || s.cells[x].Cleared? ==> s'.cells[x].Cleared? && s'.mover == Advance(s.mover, false))
      && (s.cells[x].Slabbed? ==> s'.slots == s.slots[s.cls[x] := Cut(s.slots[s.cls[x]], x)])
      && (!s.cells[x].Slabbed? && !s.cells[x].Cleared? && !AtRest(s, locked) ==> s'.mover == Advance(s.mover, true))
  {
    VisitReady(s);
  }

  lemma SavedClears(s: State)
    requires Inv(s) && MidRescue(s) && s.mover.phase.spare.Some?
    ensures EndReady(s) && EndRescue(s).cells[s.mover.page[s.mover.pos]].Cleared?
    ensures EndRescue(s).mover == Advance(s.mover, false)
  {
    RescueReady(s);
  }

  // ---- whole runs ----

  /** The states of a run from an empty allocator, one before every step and one after the last. */
  ghost predicate IsRun(classes: nat, states: seq<State>, acts: seq<Action>) {
    && |states| == |acts| + 1 && states[0] == Initial(classes)
    && forall i, j {:trigger Steps(states[i], acts[i], states[j])} :: 0 <= i < |acts| && j == i + 1 ==>
      Steps(states[i], acts[i], states[j])
  }

  ghost predicate Steps(s: State, a: Action, s': State) {
    Inv(s) && Enabled(s, a) && s' == Next(s, a)
  }

  lemma RunSteps(classes: nat, states: seq<State>, acts: seq<Action>, n: nat)
    requires IsRun(classes, states, acts) && n < |acts|
    ensures Steps(states[n], acts[n], states[n + 1]) && Inv(states[n + 1])
  {
    assert Steps(states[n], acts[n], states[n + 1]);
    StepKeeps(states[n], acts[n]);
  }

  /** Only a look of the mover begins a rescue. */
  lemma OnlyLooksBegin(s: State, a: Action)
    requires Inv(s) && Enabled(s, a) && !MidRescue(s) && MidRescue(Next(s, a))
    ensures a.DoVisit?
  {}

  /** The end of a rescue ends it. */
  lemma EndEnds(s: State)
    requires Inv(s) && MidRescue(s)
    ensures EndReady(s) && !MidRescue(EndRescue(s))
  {
    RescueReady(s);
  }

  /** The rescue that is under way before the n-th step was begun by the m-th, and the item has been left
      alone since. */
  ghost predicate BegunAt(states: seq<State>, acts: seq<Action>, m: nat, n: nat) {
    && m < n < |states| && |states| == |acts| + 1 && acts[m].DoVisit? && MidRescue(states[m + 1])
    && Looking(states[m].mover) && Untouched(states[m + 1], states[n])
  }

  /** A rescue was under way and goes on, or the step has begun it. */
  ghost predicate Goes(s: State, a: Action, s': State) {
    && MidRescue(s')
    && if MidRescue(s) then Untouched(s, s') else a.DoVisit? && Looking(s.mover) && Untouched(s', s')
  }

  lemma RunGoes(classes: nat, states: seq<State>, acts: seq<Action>, n: nat)
    requires IsRun(classes, states, acts) && n < |acts| && MidRescue(states[n + 1])
    ensures Goes(states[n], acts[n], states[n + 1])
  {
    RunSteps(classes, states, acts, n);
    UnderWay(states[n], acts[n], states[n + 1]);
  }

  /** Under way after a step, it was so before and has been left alone, or the step has begun it. */
  lemma UnderWay(s: State, a: Action, s': State)
    requires Steps(s, a, s') && Inv(s') && MidRescue(s')
    ensures Goes(s, a, s')
  {
    if MidRescue(s) {
      if a.DoEndRescue? {
        EndEnds(s);
      } else {
        StepLeaves(s, a);
      }
    } else {
      OnlyLooksBegin(s, a);
      Rescued(s');
    }
  }

  lemma BegunBefore(states: seq<State>, acts: seq<Action>, m: nat, n: nat)
    requires 0 < n < |states| && BegunAt(states, acts, m, n - 1)
    requires MidRescue(states[n - 1]) && Untouched(states[n - 1], states[n])
    ensures BegunAt(states, acts, m, n)
  {
    UntouchedTwice(states[m + 1], states[n - 1], states[n]);
  }

  lemma {:induction false} WhenBegun(classes: nat, states: seq<State>, acts: seq<Action>, n: nat) returns (m: nat)
    requires IsRun(classes, states, acts) && n < |states| && MidRescue(states[n])
    ensures BegunAt(states, acts, m, n)
    decreases n
  {
    assert n > 0;
    RunGoes(classes, states, acts, n - 1);
    m := n - 1;
    if MidRescue(states[n - 1]) {
      m := WhenBegun(classes, states, acts, n - 1);
      BegunBefore(states, acts, m, n);
    }
  }

  /** A worker's step on items other than the one under `k` leaves that one and its chain alone. */
  lemma ApartValue(s: State, s': State, xs: seq<Chunk>, k: Key)
    requires Inv(s) && k in s.table && k in s'.table && s'.table[k] == s.table[k] && s.table[k] !in xs
    requires forall x :: x in s.cells && x !in xs ==> x in s'.cells && s'.cells[x] == s.cells[x]
    requires forall x :: x in xs && x in s.cells && s.cells[x].Body? ==> s.cells[x].head != s.table[k]
    ensures Value(s', k) == Value(s, k)
  {
    forall b | b in s.cells[s.table[k]].chain
      ensures b in s.cells && s.cells[b].Body? && b !in xs
    {}
    ValueFrame(s, s', k);
  }

  lemma CountedValue(s: State, s': State, x: Chunk, k: Key)
    requires Inv(s) && IsItem(s, x) && s'.cells.Keys == s.cells.Keys && s'.table == s.table && IsItem(s', x)
    requires s'.cells[x].data == s.cells[x].data && s'.cells[x].chain == s.cells[x].chain
    requires forall y :: y in s.cells && y != x ==> s'.cells[y] == s.cells[y]
    ensures Value(s', k) == Value(s, k)
  {
    if k in s.table {
      forall b | b in s.cells[s.table[k]].chain
        ensures b in s.cells && s.cells[b].Body? && b != x
      {}
      ValueFrame(s, s', k);
    }
  }

  lemma AllocKeepsValues(s: State, c: nat, key: Key, data: Data, k: Key)
    requires Inv(s) && Enabled(s, DoAlloc(c, key, data))
    ensures Value(Alloc(s, c, key, data), k) == Value(s, k)
  {
    var x := s.slots[c][0];
    assert x in s.slots[c];
    if k in s.table {
      ApartValue(s, Alloc(s, c, key, data), [x], k);
    }
  }

  lemma AttachKeepsValues(s: State, h: Chunk, x: Chunk, k: Key)
    requires Inv(s) && CanAttach(s, h, x)
    ensures Value(Attach(s, h, x), k) == Value(s, k)
  {
    if k in s.table {
      ApartValue(s, Attach(s, h, x), [h, x], k);
    }
  }

  lemma NewPageKeepsValues(s: State, c: nat, chunks: seq<Chunk>, k: Key)
    requires Inv(s) && Enabled(s, DoNewPage(c, chunks))
    ensures Value(NewPage(s, c, chunks), k) == Value(s, k)
  {
    if k in s.table {
      ApartValue(s, NewPage(s, c, chunks), chunks, k);
    }
  }

  lemma UnrefKeepsValues(s: State, x: Chunk, k: Key)
    requires Inv(s) && CanUnref(s, x)
    ensures s.cells[x].refs > 0 && Value(Unref(s, x), k) == Value(s, k)
  {
    if s.cells[x].refs == 1 {
      if k in s.table {
        OwnChunks(s, x, s.table[k]);
        ApartValue(s, Unref(s, x), [x] + s.cells[x].chain, k);
      }
    } else {
      CountedValue(s, Unref(s, x), x, k);
    }
  }

  /** None of one item's chunks is another's. */
  lemma OwnChunks(s: State, x: Chunk, y: Chunk)
    requires Inv(s) && IsItem(s, x) && IsItem(s, y) && x != y
    ensures y !in [x] + s.cells[x].chain
    ensures forall b :: b in [x] + s.cells[x].chain ==> b in s.cells && (s.cells[b].Body? ==> s.cells[b].head != y)
  {
    forall b | b in [x] + s.cells[x].chain
      ensures b != y && b in s.cells && (s.cells[b].Body? ==> s.cells[b].head != y)
    {
      assert b == x || b in s.cells[x].chain;
    }
  }

  lemma LinkSets(s: State, x: Chunk, k: Key)
    requires Inv(s) && CanLink(s, x)
    ensures Value(Link(s, x), k) == if k == s.cells[x].key
      then Some(s.cells[x].data + Joined(s.cells, s.cells[x].chain)) else Value(s, k)
  {
    var s' := Link(s, x);
    forall b | b in s.cells[x].chain
      ensures b in s.cells && s.cells[b].Body? && b != x
    {}
    JoinedFrame(s.cells, s'.cells, s.cells[x].chain);
    if k != s.cells[x].key && k in s.table {
      ApartValue(s, s', [x], k);
    }
  }

  lemma UnlinkDrops(s: State, x: Chunk, k: Key)
    requires Inv(s) && CanRef(s, x)
    ensures s.cells[x].refs > 0 && Value(Unlink(s, x), k) == if k == s.cells[x].key then None else Value(s, k)
  {
    DropKeepsOthers(s, x, k);
  }

  /** What workers do to what is found under a key: linking sets it, unlinking takes it away, and nothing else
      changes it. */
  lemma WorkersChange(s: State, a: Action, k: Key)
    requires Inv(s) && Enabled(s, a) && !ByMover(a)
    ensures a.DoLink? && k == s.cells[a.x].key ==>
      Value(Next(s, a), k) == Some(s.cells[a.x].data + Joined(s.cells, s.cells[a.x].chain))
    ensures a.DoUnlink? && k == s.cells[a.x].key ==> Value(Next(s, a), k) == None
    ensures !(a.DoLink? && k == s.cells[a.x].key) && !(a.DoUnlink? && k == s.cells[a.x].key) ==>
      Value(Next(s, a), k) == Value(s, k)
  {
    match a
    case DoNewPage(c, chunks) => NewPageKeepsValues(s, c, chunks, k);
    case DoAlloc(c, key, data) => AllocKeepsValues(s, c, key, data, k);
    case DoAttach(h, x) => AttachKeepsValues(s, h, x, k);
    case DoLink(x) => LinkSets(s, x, k);
    case DoRef(x) => CountedValue(s, Ref(s, x), x, k);
    case DoUnref(x) => UnrefKeepsValues(s, x, k);
    case DoUnlink(x) => UnlinkDrops(s, x, k);
  }

  /** A step of the mover and not of a worker. */
  predicate ByMover(a: Action) {
    a.DoStart? || a.DoVisit? || a.DoEndRescue? || a.DoFinish?
  }

  /** The m-th step began to rescue the item under `k`, which had expired or for which there was no room. */
  ghost predicate GivenUp(states: seq<State>, acts: seq<Action>, m: nat, n: nat, k: Key) {
    && BegunAt(states, acts, m, n) && AtRest(states[m], acts[m].locked)
    && k in states[m].table && states[m].table[k] == Owner(states[m], states[m].mover.page[states[m].mover.pos])
    && (acts[m].expired || !HasSpare(states[m]))
  }

  /** The item under `k` was in use when the mover had gone over the page more than 1000 times. */
  predicate InUseTooLong(s: State, a: Action, k: Key) {
    && a.DoVisit? && s.mover.On? && s.mover.loops > MAX_LOOPS
    && k in s.table && IsItem(s, s.table[k]) && s.cells[s.table[k]].refs > 1
  }

  lemma VisitLoses(s: State, a: Action, k: Key)
    requires Inv(s) && Enabled(s, a) && a.DoVisit? && Value(Next(s, a), k) != Value(s, k)
    ensures InUseTooLong(s, a, k)
  {
    VisitKeepsValues(s, a.locked, a.expired, k);
    VisitReady(s);
  }

  lemma FinishKeepsValues(s: State, k: Key)
    requires Inv(s) && s.mover.On? && s.mover.done
    ensures Value(Finish(s), k) == Value(s, k)
  {
    if k in s.table {
      var x := s.table[k];
      forall b | b in s.cells[x].chain
        ensures b in s.cells && s.cells[b].Body? && b !in s.mover.page
      {}
      assert x !in s.mover.page;
      ValueFrame(s, Finish(s), k);
    }
  }

  lemma NotAtTheEdges(s: State, a: Action, k: Key)
    requires Inv(s) && Enabled(s, a) && ByMover(a)
    ensures a.DoStart? || a.DoFinish? ==> Value(Next(s, a), k) == Value(s, k)
  {
    if a.DoFinish? {
      FinishKeepsValues(s, k);
    } else if a.DoStart? {
      assert Next(s, a).cells == s.cells;
      SameValue(s, Next(s, a), k);
    }
  }

  lemma SameValue(s: State, s': State, k: Key)
    requires s'.cells == s.cells && s'.table == s.table
    ensures Value(s', k) == Value(s, k)
  {}

  /** The item being rescued is the one its key was found under. */
  lemma BegunKey(s: State, locked: bool, expired: bool)
    requires Inv(s) && AtRest(s, locked) && VisitOk(s)
    ensures var s1, it := Visit(s, locked, expired), Owner(s, s.mover.page[s.mover.pos]);
      IsItem(s, it) && IsItem(s1, it) && s1.cells[it].key == s.cells[it].key
        && s.cells[it].key in s.table && s.table[s.cells[it].key] == it
  {
    var it := Owner(s, s.mover.page[s.mover.pos]);
    if !expired {
      var s0 := Ref(s, it);
      RefKeeps(s, it);
      var (s2, spare) := TakeSpare(s0, |s.mover.page|);
      TakeSpareIs(s0, |s.mover.page|, s2, spare);
    }
  }

  /** Why a rescue that was begun in `s`, and has got to `s2`, has no spare. */
  lemma WhyNoSpare(s: State, a: Action, s1: State, s2: State, k: Key)
    requires Steps(s, a, s1) && a.DoVisit? && Looking(s.mover) && MidRescue(s1) && Untouched(s1, s2)
    requires s2.mover.phase.spare.None? && k == s2.cells[s2.mover.phase.it].key
    ensures AtRest(s, a.locked) && k in s.table && s.table[k] == Owner(s, s.mover.page[s.mover.pos])
    ensures a.expired || !HasSpare(s)
  {
    SavedIff(s, a.locked, a.expired);
    BegunKey(s, a.locked, a.expired);
  }

  lemma EndIsGivenUp(classes: nat, states: seq<State>, acts: seq<Action>, n: nat, k: Key) returns (m: nat)
    requires IsRun(classes, states, acts) && n < |acts| && acts[n].DoEndRescue?
    requires Value(states[n + 1], k) != Value(states[n], k)
    ensures GivenUp(states, acts, m, n, k)
  {
    RunSteps(classes, states, acts, n);
    EndLoses(states[n], k);
    m := WhenBegun(classes, states, acts, n);
    RunSteps(classes, states, acts, m);
    WhyNoSpare(states[m], acts[m], states[m + 1], states[n], k);
  }

  /** In every run from an empty allocator: when a step of the mover changes what is found under a key, the
      item had been in use for too long, or the turn that this step ends began when it had expired or when
      its class had no free chunk outside the page. */
  lemma LossHasReason(classes: nat, states: seq<State>, acts: seq<Action>, n: nat, k: Key)
    requires IsRun(classes, states, acts) && n < |acts| && ByMover(acts[n])
    ensures Value(states[n + 1], k) != Value(states[n], k) ==>
      InUseTooLong(states[n], acts[n], k) || (acts[n].DoEndRescue? && exists m :: GivenUp(states, acts, m, n, k))
  {
    RunSteps(classes, states, acts, n);
    if Value(states[n + 1], k) != Value(states[n], k) {
      NotAtTheEdges(states[n], acts[n], k);
      if acts[n].DoVisit? {
        VisitLoses(states[n], acts[n], k);
      } else {
        var m := EndIsGivenUp(classes, states, acts, n, k);
      }
    }
  }
}
