/** Runs of item operations, in any order, by workers and by the maintenance threads. Each runs
    under the lock of the item it works on. */
module ItemsRuns {
  import opened Items
  import opened ItemsSafety
  import opened ItemsMemory

  // ---- touching, bumping, replacing ----

  /** do_item_update with segments: a hit moves an active COLD item to WARM. */
  function Hit(s: State, x: Id, now: nat): State
    requires OnList(s, x) && |s.lists| == LARGEST
  {
    var it := s.items[x];
    if Segment(it.lru) == COLD && it.active then
      Relist(Set(s, x, it.(time := now, active := false)), x, Class(it.lru) + WARM)
    else Set(s, x, it.(time := now))
  }

  /** do_item_update without: an item not moved for a minute goes to the head of its list. */
  function Refresh(s: State, x: Id, now: nat): State
    requires OnList(s, x)
  {
    var it := s.items[x];
    if it.time < Since(now, UPDATE_INTERVAL) then Relist(Set(s, x, it.(time := now)), x, it.lru) else s
  }

  function Update(s: State, x: Id, now: nat, segmented: bool): State
    requires OnList(s, x) && |s.lists| == LARGEST
  {
    if !s.items[x].linked then s
    else if segmented then Hit(s, x, now)
    else Refresh(s, x, now)
  }

  lemma TouchRelist(s: State, x: Id, it: Item, lru: nat)
    requires Inv(s) && x in s.items && SamePlace(s.items[x], it) && it.refs == s.items[x].refs && it.linked
      && lru < LARGEST
    ensures Inv(Relist(Set(s, x, it), x, lru))
  {
    TouchKeeps(s, x, it);
    RelistKeeps(Set(s, x, it), x, lru);
  }

  lemma WarmIs(lru: nat)
    requires lru < LARGEST
    ensures Class(lru) + WARM < LARGEST
  {
  }

  lemma HitKeeps(s: State, x: Id, now: nat)
    requires Inv(s) && x in s.items && s.items[x].linked
    ensures Inv(Hit(s, x, now))
  {
    var it, lru := s.items[x], Class(s.items[x].lru) + WARM;
    WarmIs(it.lru);
    if Segment(it.lru) == COLD && it.active {
      assert Hit(s, x, now) == Relist(Set(s, x, it.(time := now, active := false)), x, lru);
      TouchRelist(s, x, it.(time := now, active := false), lru);
    } else {
      assert Hit(s, x, now) == Set(s, x, it.(time := now));
      TouchKeeps(s, x, it.(time := now));
    }
  }

  lemma RefreshKeeps(s: State, x: Id, now: nat)
    requires Inv(s) && x in s.items && s.items[x].linked
    ensures Inv(Refresh(s, x, now))
  {
    TouchRelist(s, x, s.items[x].(time := now), s.items[x].lru);
  }

  lemma UpdateKeeps(s: State, x: Id, now: nat, segmented: bool)
    requires Inv(s) && x in s.items
    ensures Inv(Update(s, x, now, segmented))
  {
    if s.items[x].linked {
      if segmented {
        HitKeeps(s, x, now);
      } else {
        RefreshKeeps(s, x, now);
      }
    }
  }

  /** What updating a linked item is for. With segments an active one of COLD rises to WARM, and any other has
      its time set; without, one last moved more than a minute ago goes to the head of its own list. */
  ghost predicate Touched(s: State, s': State, x: Id, now: nat, segmented: bool) {
    && x in s.items && x in s'.items
    && var it, it' := s.items[x], s'.items[x];
       var minuteAgo := if now >= UPDATE_INTERVAL then now - UPDATE_INTERVAL else (now - UPDATE_INTERVAL) % CLOCK;
       if !it.linked then s' == s
       else if segmented then
         && it'.time == now
         && if it.lru >= COLD && it.lru < TEMP && it.active then Shifted(s, s', x, it.lru - COLD + WARM)
            else Stayed(s, s', x)
       else if it.time < minuteAgo then
         && it'.time == now && it'.active == it.active && it'.lru == it.lru < |s.lists| && s'.table == s.table
         && s'.lists == s.lists[it.lru := [x] + Without(s.lists[it.lru], x)]
       else s' == s
  }

  lemma HitTouches(s: State, x: Id, now: nat)
    requires Inv(s) && x in s.items && s.items[x].linked
    ensures Touched(s, Hit(s, x, now), x, now, true)
  {
    WarmIs(s.items[x].lru);
  }

  lemma RefreshTouches(s: State, x: Id, now: nat)
    requires Inv(s) && x in s.items && s.items[x].linked
    ensures Touched(s, Refresh(s, x, now), x, now, false)
  {}

  lemma UpdateTouches(s: State, x: Id, now: nat, segmented: bool)
    requires Inv(s) && x in s.items
    ensures Touched(s, Update(s, x, now, segmented), x, now, segmented)
  {
    if s.items[x].linked {
      if segmented {
        HitTouches(s, x, now);
      } else {
        RefreshTouches(s, x, now);
      }
    }
  }

  /** lru_bump_async: a reference goes into the buffer, or is given back if there is no room. */
  function Bump(s: State, x: Id, room: bool): State
    requires x in s.items
  {
    if room then Set(s, x, s.items[x].(refs := s.items[x].refs + 1)).(bumps := s.bumps + multiset{x}) else s
  }

  lemma BumpKeeps(s: State, x: Id, room: bool)
    requires Inv(s) && x in s.items
    ensures Inv(Bump(s, x, room))
  {
    if room {
      RefUp(s.items, s.holders, s.bumps, x);
      SetKeeps(s, x, s.items[x].(refs := s.items[x].refs + 1));
    }
  }

  /** One turn of lru_maintainer_bumps. */
  function Bumped(s: State, x: Id, now: nat, segmented: bool): State
    requires OnList(s, x) && |s.lists| == LARGEST && s.items[x].refs > 0
  {
    Drop(Update(s, x, now, segmented), x).(bumps := s.bumps - multiset{x})
  }

  lemma DropBump(s: State, x: Id)
    requires Inv(s) && x in s.bumps
    ensures x in s.items && s.items[x].refs > 0 && Inv(Drop(s, x).(bumps := s.bumps - multiset{x}))
  {
    BumpDown(s, x);
    DropKeeps(s, x);
  }

  lemma BumpedKeeps(s: State, x: Id, now: nat, segmented: bool)
    requires Inv(s) && x in s.bumps
    ensures x in s.items && s.items[x].refs > 0 && Inv(Bumped(s, x, now, segmented))
  {
    UpdateKeeps(s, x, now, segmented);
    DropBump(Update(s, x, now, segmented), x);
  }

  lemma BumpedOwners(s: State, x: Id, now: nat, segmented: bool)
    requires OnList(s, x) && |s.lists| == LARGEST && s.items[x].refs > 0
    ensures Bumped(s, x, now, segmented).holders == s.holders
    ensures Bumped(s, x, now, segmented).bumps == s.bumps - multiset{x}
  {
  }

  predicate CanReplace(s: State, x: Id, y: Id) {
    OnList(s, x) && OnList(s, y) && s.items[x].refs > 0 && y in Unlink(s, x).items
  }

  /** do_item_replace. */
  function Replace(s: State, x: Id, y: Id, now: nat): State
    requires CanReplace(s, x, y)
  {
    Link(Unlink(s, x), y, now)
  }

  lemma UnlinkOther(s: State, x: Id, y: Id)
    requires OnList(s, x) && s.items[x].refs > 0 && s.items[x].linked && y in s.items && y != x
    ensures y in Unlink(s, x).items && Unlink(s, x).items[y] == s.items[y]
    ensures Unlink(s, x).table == s.table - {s.items[x].key}
  {
  }

  lemma ReplaceKeeps(s: State, x: Id, y: Id, now: nat)
    requires Inv(s) && x in s.items && s.items[x].linked && y in s.items && !s.items[y].linked
      && s.items[y].key == s.items[x].key
    ensures s.items[x].refs > 0 && y in Unlink(s, x).items && Inv(Replace(s, x, y, now))
  {
    UnlinkKeeps(s, x);
    UnlinkOther(s, x, y);
    LinkKeeps(Unlink(s, x), y, now);
  }

  // ---- runs ----

  /** `Get` is a hit, `Reclaim` and `Cycle` are the steps of lru_pull_tail, `Return` the end of a
      pull that hands its item to the caller. */
  datatype Op =
    | DoAlloc(x: Id, it: Item)
    | DoGet(x: Id)
    | DoRelease(x: Id)
    | DoLink(x: Id, now: nat)
    | DoUnlink(x: Id)
    | DoReplace(x: Id, y: Id, now: nat)
    | DoUpdate(x: Id, now: nat, segmented: bool)
    | DoBump(x: Id, room: bool)
    | DoBumped(x: Id, now: nat, segmented: bool)
    | DoReclaim(x: Id)
    | DoCycle(x: Id, lru: nat)

  predicate Linked(s: State, x: Id) {
    x in s.items && s.items[x].linked
  }

  /** An owner works on what it holds; a hit and the maintenance threads find linked items. */
  predicate Enabled(s: State, op: Op) {
    match op
    case DoAlloc(x, it) => x !in s.items && it.lru < LARGEST && forall l :: 0 <= l < |s.lists| ==> x !in s.lists[l]
    case DoGet(x) => Linked(s, x)
    case DoRelease(x) => x in s.holders
    case DoLink(x, now) => x in s.holders && x in s.items && !s.items[x].linked && s.items[x].key !in s.table
    case DoUnlink(x) => x in s.holders
    case DoReplace(x, y, now) => y in s.holders && Linked(s, x) && y in s.items && !s.items[y].linked
      && s.items[y].key == s.items[x].key
    case DoUpdate(x, now, segmented) => x in s.holders
    case DoBump(x, room) => x in s.holders
    case DoBumped(x, now, segmented) => x in s.bumps
    case DoReclaim(x) => Linked(s, x)
    case DoCycle(x, lru) => Linked(s, x) && lru < LARGEST
  }

  lemma Owned(s: State, x: Id)
    requires Inv(s)
    ensures x in s.holders || x in s.bumps ==> x in s.items
    ensures x in s.items ==> OnList(s, x) && s.items[x].refs > 0
    ensures |s.lists| == LARGEST
  {
  }

  /** Every access the operation makes is to memory that is there. */
  predicate Safe(s: State, op: Op) {
    && |s.lists| == LARGEST
    && (!op.DoAlloc? ==> OnList(s, op.x) && s.items[op.x].refs > 0)
    && (op.DoReplace? ==> OnList(s, op.y) && op.y in Unlink(s, op.x).items)
    && (op.DoCycle? ==> op.lru < LARGEST)
  }

  lemma EnabledIsSafe(s: State, op: Op)
    requires Inv(s) && Enabled(s, op)
    ensures Safe(s, op)
  {
    Owned(s, op.x);
    if op.DoReplace? {
      Owned(s, op.y);
      UnlinkOther(s, op.x, op.y);
    }
  }

  function Next(s: State, op: Op): State
    requires Safe(s, op)
  {
    match op
    case DoAlloc(x, it) => Alloc(s, x, it)
    case DoGet(x) => Ref(s, x)
    case DoRelease(x) => Remove(s, x)
    case DoLink(x, now) => Link(s, x, now)
    case DoUnlink(x) => Unlink(s, x)
    case DoReplace(x, y, now) => Replace(s, x, y, now)
    case DoUpdate(x, now, segmented) => Update(s, x, now, segmented)
    case DoBump(x, room) => Bump(s, x, room)
    case DoBumped(x, now, segmented) => Bumped(s, x, now, segmented)
    case DoReclaim(x) => Reclaim(s, x)
    case DoCycle(x, lru) => Cycle(s, x, lru)
  }

  /** What is found under a key: linking and replacing set it, unlinking and reclaiming take it away, each for
      the item's own key, and nothing else changes it. */
  function Found(s: State, op: Op): map<Key, Id>
    requires Safe(s, op)
  {
    match op
    case DoLink(x, _) => s.table[s.items[x].key := x]
    case DoReplace(x, y, _) => s.table[s.items[x].key := y]
    case DoUnlink(x) => if s.items[x].linked then s.table - {s.items[x].key} else s.table
    case DoReclaim(x) => s.table - {s.items[x].key}
    case _ => s.table
  }

  lemma ReplaceTable(s: State, x: Id, y: Id, now: nat)
    requires CanReplace(s, x, y) && s.items[x].linked && s.items[x].refs > 0 && y in s.items && y != x
      && s.items[y].key == s.items[x].key
    ensures Replace(s, x, y, now).table == s.table[s.items[x].key := y]
  {
    UnlinkOther(s, x, y);
    assert (s.table - {s.items[x].key})[s.items[x].key := y] == s.table[s.items[x].key := y];
  }

  lemma UpdateTable(s: State, x: Id, now: nat, segmented: bool)
    requires OnList(s, x) && |s.lists| == LARGEST
    ensures Update(s, x, now, segmented).table == s.table
  {
    WarmIs(s.items[x].lru);
  }

  lemma UpdateCounts(s: State, x: Id, now: nat, segmented: bool)
    requires OnList(s, x) && |s.lists| == LARGEST
    ensures x in Update(s, x, now, segmented).items
      && Update(s, x, now, segmented).items[x].refs == s.items[x].refs
  {
    WarmIs(s.items[x].lru);
  }

  lemma BumpedTable(s: State, x: Id, now: nat, segmented: bool)
    requires OnList(s, x) && |s.lists| == LARGEST && s.items[x].refs > 0
    ensures Bumped(s, x, now, segmented).table == s.table
  {
    UpdateTable(s, x, now, segmented);
    UpdateCounts(s, x, now, segmented);
  }

  lemma UnlinkTable(s: State, x: Id)
    requires OnList(s, x) && s.items[x].refs > 0
    ensures Unlink(s, x).table == if s.items[x].linked then s.table - {s.items[x].key} else s.table
  {}

  lemma LinkTable(s: State, x: Id, now: nat)
    requires OnList(s, x)
    ensures Link(s, x, now).table == s.table[s.items[x].key := x]
  {}

  lemma KeysStay(s: State, op: Op)
    requires Enabled(s, op) && Safe(s, op) && !op.DoLink? && !op.DoUnlink? && !op.DoReplace? && !op.DoReclaim?
    ensures Next(s, op).table == s.table
  {
    match op
    case DoUpdate(x, now, segmented) => UpdateTable(s, x, now, segmented);
    case DoBumped(x, now, segmented) => BumpedTable(s, x, now, segmented);
    case DoCycle(x, lru) => CycleSpot(s, x, lru);
    case _ =>
  }

  lemma KeysChange(s: State, op: Op)
    requires Enabled(s, op) && Safe(s, op)
    ensures Next(s, op).table == Found(s, op)
  {
    match op
    case DoLink(x, now) => LinkTable(s, x, now);
    case DoUnlink(x) => UnlinkTable(s, x);
    case DoReplace(x, y, now) => ReplaceTable(s, x, y, now);
    case DoReclaim(x) => ReclaimIs(s, x);
    case _ => KeysStay(s, op);
  }

  lemma StepKeeps(s: State, op: Op)
    requires Inv(s) && Enabled(s, op) && Safe(s, op)
    ensures Inv(Next(s, op))
  {
    match op
    case DoAlloc(x, it) => AllocKeeps(s, x, it);
    case DoGet(x) => RefKeeps(s, x);
    case DoRelease(x) => RemoveKeeps(s, x);
    case DoLink(x, now) => LinkKeeps(s, x, now);
    case DoUnlink(x) => UnlinkKeeps(s, x);
    case DoReplace(x, y, now) => ReplaceKeeps(s, x, y, now);
    case DoUpdate(x, now, segmented) => UpdateKeeps(s, x, now, segmented);
    case DoBump(x, room) => BumpKeeps(s, x, room);
    case DoBumped(x, now, segmented) => BumpedKeeps(s, x, now, segmented);
    case DoReclaim(x) => ReclaimKeeps(s, x);
    case DoCycle(x, lru) => CycleKeeps(s, x, lru);
  }

  // ---- an item stays itself ----

  predicate Stays(s: State, s': State, z: Id) {
    z in s.items && z in s'.items ==> s'.items[z].key == s.items[z].key && s'.items[z].bytes == s.items[z].bytes
  }

  lemma UpdateStays(s: State, x: Id, now: nat, segmented: bool, z: Id)
    requires OnList(s, x) && |s.lists| == LARGEST
    ensures Stays(s, Update(s, x, now, segmented), z) && Update(s, x, now, segmented).items.Keys == s.items.Keys
  {
  }

  lemma UnlinkStays(s: State, x: Id, z: Id)
    requires OnList(s, x) && s.items[x].refs > 0
    ensures Stays(s, Unlink(s, x), z) && Unlink(s, x).items.Keys <= s.items.Keys
  {
  }

  lemma ReplaceStays(s: State, x: Id, y: Id, now: nat, z: Id)
    requires CanReplace(s, x, y)
    ensures Stays(s, Replace(s, x, y, now), z)
  {
    UnlinkStays(s, x, z);
  }

  lemma ReclaimStays(s: State, x: Id, z: Id)
    requires OnList(s, x) && s.items[x].refs > 0
    ensures Stays(s, Reclaim(s, x), z)
  {
    UnlinkStays(Ref(s, x), x, z);
  }

  lemma CycleStays(s: State, x: Id, lru: nat, z: Id)
    requires OnList(s, x) && lru < |s.lists|
    ensures Stays(s, Cycle(s, x, lru), z)
  {
  }

  lemma BumpedStays(s: State, x: Id, now: nat, segmented: bool, z: Id)
    requires OnList(s, x) && |s.lists| == LARGEST && s.items[x].refs > 0
    ensures Stays(s, Bumped(s, x, now, segmented), z)
  {
    UpdateStays(s, x, now, segmented, z);
  }

  lemma SimpleStays(s: State, x: Id, now: nat, z: Id)
    requires OnList(s, x) && s.items[x].refs > 0
    ensures Stays(s, Link(s, x, now), z) && Stays(s, Ref(s, x), z) && Stays(s, Remove(s, x), z)
      && Stays(s, Bump(s, x, true), z)
  {
  }

  lemma StepStays(s: State, op: Op, z: Id)
    requires Safe(s, op) && (op.DoAlloc? ==> z != op.x)
    ensures Stays(s, Next(s, op), z)
  {
    if op.DoUnlink? {
      UnlinkStays(s, op.x, z);
    } else if op.DoReplace? {
      ReplaceStays(s, op.x, op.y, op.now, z);
    } else if op.DoUpdate? {
      UpdateStays(s, op.x, op.now, op.segmented, z);
    } else if op.DoBumped? {
      BumpedStays(s, op.x, op.now, op.segmented, z);
    } else if op.DoReclaim? {
      ReclaimStays(s, op.x, z);
    } else if op.DoCycle? {
      CycleStays(s, op.x, op.lru, z);
    } else if !op.DoAlloc? {
      SimpleStays(s, op.x, if op.DoLink? then op.now else 0, z);
    }
  }

  // ---- runs ----

  /** A run starts with an empty cache; it is the states it goes through and the operations between them. */
  ghost predicate IsRun(states: seq<State>, ops: seq<Op>) {
    && |states| == |ops| + 1
    && states[0] == Empty()
    && forall i {:trigger ops[i]} :: 0 <= i < |ops| ==>
      Enabled(states[i], ops[i]) && (Safe(states[i], ops[i]) ==> states[i + 1] == Next(states[i], ops[i]))
  }

  /** In every run, the reference counts, the table, the lists and their sizes agree. */
  lemma {:induction false} RunKeeps(states: seq<State>, ops: seq<Op>, i: nat)
    requires IsRun(states, ops) && i < |states|
    ensures Inv(states[i])
  {
    if i == 0 {
      EmptyInv();
    } else {
      RunKeeps(states, ops, i - 1);
      EnabledIsSafe(states[i - 1], ops[i - 1]);
      StepKeeps(states[i - 1], ops[i - 1]);
    }
  }

  predicate Owns(s: State, x: Id) {
    x in s.holders || x in s.bumps
  }

  lemma RunOwned(states: seq<State>, ops: seq<Op>, x: Id, i: nat)
    requires IsRun(states, ops) && i < |states| && Owns(states[i], x)
    ensures x in states[i].items
  {
    RunKeeps(states, ops, i);
    Owned(states[i], x);
  }

  lemma RunStays(states: seq<State>, ops: seq<Op>, x: Id, i: nat)
    requires IsRun(states, ops) && i < |ops| && x in states[i].items
    ensures Stays(states[i], states[i + 1], x)
  {
    RunKeeps(states, ops, i);
    EnabledIsSafe(states[i], ops[i]);
    StepStays(states[i], ops[i], x);
  }

  /** As long as somebody has a reference to an item, it is not freed and does not turn into
      another one. */
  lemma {:induction false} OwnedStays(states: seq<State>, ops: seq<Op>, x: Id, i: nat, j: nat)
    requires IsRun(states, ops) && i <= j < |states|
    requires forall k :: i <= k <= j ==> Owns(states[k], x)
    ensures x in states[i].items && x in states[j].items && Stays(states[i], states[j], x)
  {
    RunOwned(states, ops, x, j);
    if i < j {
      OwnedStays(states, ops, x, i, j - 1);
      RunStays(states, ops, x, j - 1);
    }
  }
}
