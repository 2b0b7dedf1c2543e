/** The bump queue and the cache together. Over every interleaving of workers and the maintenance thread,
    entries are worked off in the order they were accepted, each once, and the item of an entry is
    there until then. */
module BumpRuns {
  import B = BipBuffer
  import opened BumpQueue
  import opened Items
  import ItemsMemory
  import opened ItemsRuns

  datatype Sys = Sys(s: State, q: Queue)

  /** Every item has an address. */
  predicate Placed(items: map<Id, Item>) {
    forall x :: x in items ==> x < ADDRESSES
  }

  ghost predicate SysInv(l: Layout, y: Sys) {
    Inv(y.s) && Placed(y.s.items) && QueueOk(l, y.q, y.s.bumps) && Addressed(y.q.accepted)
  }

  /** `Other` is any operation of ItemsRuns that is not about the queue. */
  datatype Step = BumpAsync(x: Id) | Peek | Turn(now: nat, segmented: bool) | PollAll | Other(op: Op)

  predicate Possible(y: Sys, step: Step) {
    match step
    case BumpAsync(x) => x in y.s.holders
    case Peek => y.q.work.Idle?
    case Turn(_, _) => AtEntry(y.q)
    case PollAll => y.q.work.Working? && 16 * y.q.work.n == y.q.work.size
    case Other(op) => !op.DoBump? && !op.DoBumped? && Enabled(y.s, op) && (op.DoAlloc? ==> op.x < ADDRESSES)
  }

  /** The item can be updated and let go of. */
  predicate Here(s: State, x: Id) {
    OnList(s, x) && |s.lists| == LARGEST && s.items[x].refs > 0
  }

  /** Everything a step touches is there. */
  predicate Touches(l: Layout, y: Sys, step: Step) {
    match step
    case BumpAsync(x) => B.Valid(y.q.buf) && x in y.s.items
    case Peek => true
    case Turn(_, _) => y.q.work.Working? && y.q.work.start + 16 * y.q.work.n + 16 <= |y.q.buf.data|
      && Here(y.s, Entry(l, y.q))
    case PollAll => B.Valid(y.q.buf) && y.q.work.Working?
    case Other(op) => Safe(y.s, op)
  }

  /** lru_bump_async: a reference goes with the record, and is given back if there is no room. */
  function Bumping(l: Layout, y: Sys, x: Id): Sys
    requires B.Valid(y.q.buf) && x in y.s.items
  {
    if Room(y.q) then Sys(Bump(y.s, x, true), Added(l, y.q, x)) else Sys(Bump(y.s, x, false), y.q)
  }

  function After(l: Layout, y: Sys, step: Step): Sys
    requires Touches(l, y, step)
  {
    match step
    case BumpAsync(x) => Bumping(l, y, x)
    case Peek => y.(q := Peeked(y.q))
    case Turn(now, segmented) => Sys(Bumped(y.s, Entry(l, y.q), now, segmented), Onward(y.q))
    case PollAll => y.(q := Emptied(y.q))
    case Other(op) => y.(s := Next(y.s, op))
  }

  // ---- every step keeps the invariant, and only a turn works off an entry: the next ----

  /** What a step is to the queue: `handled` says that it works an entry off, which is then `x`. */
  ghost predicate Advances(q: Queue, q': Queue, handled: bool, x: Id) {
    && q.accepted <= q'.accepted && Handled(q') == Handled(q) + (if handled then 1 else 0)
    && (handled ==> Handled(q) < |q.accepted| && x == q.accepted[Handled(q)])
  }

  lemma BumpHere(s: State, x: Id)
    requires x in s.items
    ensures Bump(s, x, true).bumps == s.bumps + multiset{x} && Bump(s, x, false) == s
    ensures Bump(s, x, true).items.Keys == s.items.Keys
  {}

  lemma BumpingHolds(l: Layout, y: Sys, x: Id)
    requires Sound(l) && SysInv(l, y) && x in y.s.items
    ensures SysInv(l, Bumping(l, y, x)) && Advances(y.q, Bumping(l, y, x).q, false, 0)
  {
    BumpKeeps(y.s, x, true);
    BumpHere(y.s, x);
    if Room(y.q) {
      AddedOk(l, y.q, y.s.bumps, x);
      AddressedMore(y.q.accepted, x);
    }
  }

  lemma TurnReady(l: Layout, y: Sys)
    requires Sound(l) && SysInv(l, y) && AtEntry(y.q)
    ensures y.q.work.start + 16 * y.q.work.n + 16 <= |y.q.buf.data| && Here(y.s, Entry(l, y.q))
      && Entry(l, y.q) in y.s.bumps
  {
    OnwardOk(l, y.q, y.s.bumps);
    Owned(y.s, Entry(l, y.q));
  }

  lemma TurnHolds(l: Layout, y: Sys, s': State)
    requires Sound(l) && QueueOk(l, y.q, y.s.bumps) && Addressed(y.q.accepted) && AtEntry(y.q)
      && y.q.work.start + 16 * y.q.work.n + 16 <= |y.q.buf.data|
    requires Inv(s') && Placed(s'.items) && s'.bumps == y.s.bumps - multiset{Entry(l, y.q)}
    ensures SysInv(l, Sys(s', Onward(y.q))) && Advances(y.q, Onward(y.q), true, Entry(l, y.q))
  {
    EntryIs(l, y.q, y.s.bumps);
    OnwardOk(l, y.q, y.s.bumps);
  }

  lemma UpdateBumps(s: State, x: Id, now: nat, segmented: bool)
    requires OnList(s, x) && |s.lists| == LARGEST
    ensures Update(s, x, now, segmented).bumps == s.bumps
  {}

  lemma UnlinkBumps(s: State, x: Id)
    requires OnList(s, x) && s.items[x].refs > 0
    ensures Unlink(s, x).bumps == s.bumps
  {}

  lemma LinkBumps(s: State, x: Id, now: nat)
    requires OnList(s, x)
    ensures Link(s, x, now).bumps == s.bumps && Ref(s, x).bumps == s.bumps
  {}

  lemma RemoveBumps(s: State, x: Id)
    requires x in s.items && s.items[x].refs > 0
    ensures Remove(s, x).bumps == s.bumps
  {}

  lemma ReclaimBumps(s: State, x: Id)
    requires OnList(s, x) && s.items[x].refs > 0
    ensures ItemsMemory.Reclaim(s, x).bumps == s.bumps
  {
    UnlinkBumps(Ref(s, x), x);
    RemoveBumps(Unlink(Ref(s, x), x), x);
  }

  lemma CycleBumps(s: State, x: Id, lru: nat)
    requires OnList(s, x) && lru < |s.lists|
    ensures ItemsMemory.Cycle(s, x, lru).bumps == s.bumps
  {
    RemoveBumps(ItemsMemory.Moved(s, x, lru), x);
  }

  lemma ReplaceBumps(s: State, x: Id, y: Id, now: nat)
    requires CanReplace(s, x, y)
    ensures Replace(s, x, y, now).bumps == s.bumps
  {
    UnlinkBumps(s, x);
    LinkBumps(Unlink(s, x), y, now);
  }

  lemma OtherBumps(s: State, op: Op)
    requires Safe(s, op) && !op.DoBump? && !op.DoBumped?
    ensures Next(s, op).bumps == s.bumps
  {
    match op
    case DoAlloc(x, it) =>
    case DoGet(x) => LinkBumps(s, x, 0);
    case DoRelease(x) => RemoveBumps(s, x);
    case DoLink(x, now) => LinkBumps(s, x, now);
    case DoUnlink(x) => UnlinkBumps(s, x);
    case DoReplace(x, y, now) => ReplaceBumps(s, x, y, now);
    case DoUpdate(x, now, segmented) => UpdateBumps(s, x, now, segmented);
    case DoReclaim(x) => ReclaimBumps(s, x);
    case DoCycle(x, lru) => CycleBumps(s, x, lru);
  }

  // ---- no item appears but by allocation ----

  lemma RemoveItems(s: State, x: Id)
    requires x in s.items && s.items[x].refs > 0
    ensures Remove(s, x).items.Keys <= s.items.Keys
  {}

  lemma ReclaimItems(s: State, x: Id)
    requires OnList(s, x) && s.items[x].refs > 0
    ensures ItemsMemory.Reclaim(s, x).items.Keys <= s.items.Keys
  {
    UnlinkStays(Ref(s, x), x, x);
    RemoveItems(Unlink(Ref(s, x), x), x);
  }

  lemma CycleItems(s: State, x: Id, lru: nat)
    requires OnList(s, x) && lru < |s.lists|
    ensures ItemsMemory.Cycle(s, x, lru).items.Keys <= s.items.Keys
  {
    RemoveItems(ItemsMemory.Moved(s, x, lru), x);
  }

  lemma LinkItems(s: State, x: Id, now: nat)
    requires OnList(s, x)
    ensures Link(s, x, now).items.Keys == s.items.Keys && Ref(s, x).items.Keys == s.items.Keys
  {}

  lemma ReplaceItems(s: State, x: Id, y: Id, now: nat)
    requires CanReplace(s, x, y)
    ensures Replace(s, x, y, now).items.Keys <= s.items.Keys
  {
    UnlinkStays(s, x, x);
    LinkItems(Unlink(s, x), y, now);
  }

  lemma BumpedItems(s: State, x: Id, now: nat, segmented: bool)
    requires Here(s, x)
    ensures Bumped(s, x, now, segmented).items.Keys <= s.items.Keys
  {
    UpdateStays(s, x, now, segmented, x);
  }

  lemma OtherItems(s: State, op: Op)
    requires Safe(s, op) && !op.DoBump? && !op.DoBumped?
    ensures Next(s, op).items.Keys <= s.items.Keys + if op.DoAlloc? then {op.x} else {}
  {
    match op
    case DoAlloc(x, it) =>
    case DoGet(x) => LinkItems(s, x, 0);
    case DoRelease(x) => RemoveItems(s, x);
    case DoLink(x, now) => LinkItems(s, x, now);
    case DoUnlink(x) => UnlinkStays(s, x, x);
    case DoReplace(x, y, now) => ReplaceItems(s, x, y, now);
    case DoUpdate(x, now, segmented) => UpdateStays(s, x, now, segmented, x);
    case DoReclaim(x) => ReclaimItems(s, x);
    case DoCycle(x, lru) => CycleItems(s, x, lru);
  }

  /** The item a step works off. */
  function Worked(l: Layout, y: Sys, step: Step): Id
    requires Touches(l, y, step)
  {
    if step.Turn? then Entry(l, y.q) else 0
  }

  lemma PossibleTouches(l: Layout, y: Sys, step: Step)
    requires Sound(l) && SysInv(l, y) && Possible(y, step)
    ensures Touches(l, y, step)
  {
    match step
    case BumpAsync(x) => Owned(y.s, x);
    case Turn(_, _) => TurnReady(l, y);
    case Other(op) => EnabledIsSafe(y.s, op);
    case _ =>
  }

  ghost predicate Holds(l: Layout, y: Sys, step: Step)
    requires Touches(l, y, step)
  {
    SysInv(l, After(l, y, step)) && Advances(y.q, After(l, y, step).q, step.Turn?, Worked(l, y, step))
  }

  lemma TurnStep(l: Layout, y: Sys, now: nat, segmented: bool)
    requires Sound(l) && SysInv(l, y) && AtEntry(y.q) && Touches(l, y, Turn(now, segmented))
    ensures Holds(l, y, Turn(now, segmented))
  {
    var x := Entry(l, y.q);
    TurnReady(l, y);
    BumpedKeeps(y.s, x, now, segmented);
    BumpedOwners(y.s, x, now, segmented);
    BumpedItems(y.s, x, now, segmented);
    TurnHolds(l, y, Bumped(y.s, x, now, segmented));
  }

  lemma OtherPlaced(s: State, op: Op)
    requires Safe(s, op) && !op.DoBump? && !op.DoBumped? && Placed(s.items) && (op.DoAlloc? ==> op.x < ADDRESSES)
    ensures Placed(Next(s, op).items)
  {
    OtherItems(s, op);
  }

  /** Another cache with the same references in the buffer. */
  lemma CacheChanges(l: Layout, y: Sys, s': State)
    requires QueueOk(l, y.q, y.s.bumps) && Addressed(y.q.accepted)
    requires Inv(s') && Placed(s'.items) && s'.bumps == y.s.bumps
    ensures SysInv(l, y.(s := s')) && Advances(y.q, y.q, false, 0)
  {}

  lemma OtherStep(l: Layout, y: Sys, op: Op)
    requires SysInv(l, y) && Possible(y, Other(op)) && Safe(y.s, op)
    ensures Holds(l, y, Other(op))
  {
    StepKeeps(y.s, op);
    OtherBumps(y.s, op);
    OtherPlaced(y.s, op);
    CacheChanges(l, y, Next(y.s, op));
  }

  lemma PeekStep(l: Layout, y: Sys)
    requires SysInv(l, y) && y.q.work.Idle?
    ensures Holds(l, y, Peek)
  {
    PeekedOk(l, y.q, y.s.bumps);
  }

  lemma PollStep(l: Layout, y: Sys)
    requires Sound(l) && SysInv(l, y) && Possible(y, PollAll) && Touches(l, y, PollAll)
    ensures Holds(l, y, PollAll)
  {
    EmptiedOk(l, y.q, y.s.bumps);
  }

  /** Every step keeps the invariant. */
  lemma StepHolds(l: Layout, y: Sys, step: Step)
    requires Sound(l) && SysInv(l, y) && Possible(y, step) && Touches(l, y, step)
    ensures Holds(l, y, step)
  {
    match step
    case BumpAsync(x) => BumpingHolds(l, y, x);
    case Peek => PeekStep(l, y);
    case Turn(now, segmented) => TurnStep(l, y, now, segmented);
    case PollAll => PollStep(l, y);
    case Other(op) => OtherStep(l, y, op);
  }

  // ---- whole runs ----

  ghost predicate Runs(l: Layout, y: Sys, steps: seq<Step>)
    decreases |steps|
  {
    |steps| > 0 ==>
      Possible(y, steps[0]) && (Touches(l, y, steps[0]) ==> Runs(l, After(l, y, steps[0]), steps[1..]))
  }

  /** Nothing is touched in the run that is not there. */
  ghost predicate Sane(l: Layout, y: Sys, steps: seq<Step>)
    decreases |steps|
  {
    |steps| > 0 ==> Touches(l, y, steps[0]) && Sane(l, After(l, y, steps[0]), steps[1..])
  }

  ghost function Ends(l: Layout, y: Sys, steps: seq<Step>): Sys
    requires Sane(l, y, steps)
    decreases |steps|
  {
    if |steps| == 0 then y else Ends(l, After(l, y, steps[0]), steps[1..])
  }

  /** The items worked off in a run, in that order. */
  ghost function WorkedOff(l: Layout, y: Sys, steps: seq<Step>): seq<Id>
    requires Sane(l, y, steps)
    decreases |steps|
  {
    if |steps| == 0 then []
    else (if steps[0].Turn? then [Entry(l, y.q)] else []) + WorkedOff(l, After(l, y, steps[0]), steps[1..])
  }

  /** Between two states of the queue exactly `xs` have been worked off. */
  ghost predicate WorksOff(q: Queue, q': Queue, xs: seq<Id>) {
    && q.accepted <= q'.accepted && Handled(q') == Handled(q) + |xs| <= |q'.accepted|
    && xs == q'.accepted[Handled(q)..Handled(q) + |xs|]
  }

  lemma WorksOn(q: Queue, q1: Queue, q': Queue, handled: bool, x: Id, xs: seq<Id>)
    requires Advances(q, q1, handled, x) && WorksOff(q1, q', xs)
    ensures WorksOff(q, q', (if handled then [x] else []) + xs)
  {
    var all := (if handled then [x] else []) + xs;
    if handled {
      assert q'.accepted[Handled(q)] == q.accepted[Handled(q)] == x;
    }
    assert all == q'.accepted[Handled(q)..Handled(q) + |all|];
  }

  lemma {:induction false} RunSane(l: Layout, y: Sys, steps: seq<Step>)
    requires Sound(l) && SysInv(l, y) && Runs(l, y, steps)
    ensures Sane(l, y, steps)
    decreases |steps|
  {
    if |steps| > 0 {
      PossibleTouches(l, y, steps[0]);
      StepHolds(l, y, steps[0]);
      RunSane(l, After(l, y, steps[0]), steps[1..]);
    }
  }

  lemma {:induction false} RunHolds(l: Layout, y: Sys, steps: seq<Step>)
    requires Sound(l) && SysInv(l, y) && Runs(l, y, steps) && Sane(l, y, steps)
    ensures SysInv(l, Ends(l, y, steps)) && WorksOff(y.q, Ends(l, y, steps).q, WorkedOff(l, y, steps))
    decreases |steps|
  {
    if |steps| > 0 {
      var y1 := After(l, y, steps[0]);
      StepHolds(l, y, steps[0]);
      RunHolds(l, y1, steps[1..]);
      WorksOn(y.q, y1.q, Ends(l, y1, steps[1..]).q, steps[0].Turn?, Worked(l, y, steps[0]),
        WorkedOff(l, y1, steps[1..]));
    } else {
      NoneWorked(l, y);
    }
  }

  lemma NoneWorked(l: Layout, y: Sys)
    requires SysInv(l, y)
    ensures WorksOff(y.q, y.q, [])
  {}

  function Begin(size: nat): Sys {
    Sys(Empty(), Start(size))
  }

  lemma BeginHolds(l: Layout, size: nat)
    ensures SysInv(l, Begin(size))
  {
    EmptyInv();
    StartOk(l, size);
  }

  /** An entry that has not been worked off has its item. */
  lemma EntryHasItem(l: Layout, y: Sys, i: nat)
    requires SysInv(l, y) && Handled(y.q) <= i < |y.q.accepted|
    ensures y.q.accepted[i] in y.s.items
  {
    assert y.q.accepted[Handled(y.q)..][i - Handled(y.q)] == y.q.accepted[i];
    Owned(y.s, y.q.accepted[i]);
  }

  /** From an empty cache and an empty buffer, with everything interleaved: nothing is touched that is not
      there; the reference counts, the table and the lists agree; the entries have been worked off first
      come first served, each once; and every entry not yet worked off has its reference and its item. */
  lemma EntriesInOrder(l: Layout, size: nat, steps: seq<Step>)
    requires Sound(l) && Runs(l, Begin(size), steps)
    ensures Sane(l, Begin(size), steps)
    ensures var y := Ends(l, Begin(size), steps);
      && Inv(y.s) && Handled(y.q) <= |y.q.accepted| && WorkedOff(l, Begin(size), steps) == y.q.accepted[..Handled(y.q)]
      && y.s.bumps == multiset(y.q.accepted[Handled(y.q)..])
      && forall i :: Handled(y.q) <= i < |y.q.accepted| ==> y.q.accepted[i] in y.s.items
  {
    BeginHolds(l, size);
    RunSane(l, Begin(size), steps);
    RunHolds(l, Begin(size), steps);
    var y := Ends(l, Begin(size), steps);
    forall i | Handled(y.q) <= i < |y.q.accepted|
      ensures y.q.accepted[i] in y.s.items
    {
      EntryHasItem(l, y, i);
    }
  }

  // ---- a run ----

  const SEVEN: Id := 7
  const ITEM := Item([7], 1, false, 1, 1, 0, 0, false, false)

  lemma OneStep(l: Layout, y: Sys, step: Step, steps: seq<Step>)
    requires Possible(y, step) && Touches(l, y, step) && Runs(l, After(l, y, step), steps)
    ensures Runs(l, y, [step] + steps)
  {
    assert ([step] + steps)[1..] == steps;
  }

  lemma Allocates(s: State)
    requires s == Empty()
    ensures var s1 := Alloc(s, SEVEN, ITEM);
      && Enabled(s, DoAlloc(SEVEN, ITEM)) && SEVEN in s1.holders
      && SEVEN in s1.items && s1.items[SEVEN] == ITEM && s1.table == map[]
  {}

  /** The first two steps give a worker an item that is linked. */
  lemma ItemIsThere(l: Layout, y: Sys)
    requires y == Begin(64)
    ensures Possible(y, Other(DoAlloc(SEVEN, ITEM))) && Touches(l, y, Other(DoAlloc(SEVEN, ITEM)))
    ensures var y1 := After(l, y, Other(DoAlloc(SEVEN, ITEM)));
      && y1.q == y.q && SEVEN in y1.s.holders && SEVEN in y1.s.items && y1.s.items[SEVEN] == ITEM && y1.s.table == map[]
  {
    Allocates(y.s);
  }

  lemma LinkHolders(s: State, x: Id, now: nat)
    requires OnList(s, x)
    ensures Link(s, x, now).holders == s.holders
  {}

  lemma ItemIsLinked(l: Layout, y: Sys)
    requires Sound(l) && SysInv(l, y) && y.q == Start(64) && SEVEN in y.s.holders && SEVEN in y.s.items
    requires y.s.items[SEVEN] == ITEM && y.s.table == map[]
    ensures Possible(y, Other(DoLink(SEVEN, 0))) && Touches(l, y, Other(DoLink(SEVEN, 0)))
    ensures var y1 := After(l, y, Other(DoLink(SEVEN, 0))); SysInv(l, y1) && y1.q == y.q && SEVEN in y1.s.holders
  {
    PossibleTouches(l, y, Other(DoLink(SEVEN, 0)));
    StepHolds(l, y, Other(DoLink(SEVEN, 0)));
    LinkHolders(y.s, SEVEN, 0);
  }

  lemma OneRecord(l: Layout)
    requires |l.write(SEVEN)| == RECORD
    ensures Room(Start(64))
    ensures var b := Added(l, Start(64), SEVEN).buf; b.aStart == 0 && b.aEnd == 16
  {
    B.OfferCursors(B.Init(64), l.write(SEVEN));
  }

  /** The item is hit, and the thread sees the record. */
  lemma ItemIsHit(l: Layout, y: Sys)
    requires Sound(l) && SysInv(l, y) && y.q == Start(64) && SEVEN in y.s.holders
    ensures Possible(y, BumpAsync(SEVEN)) && Touches(l, y, BumpAsync(SEVEN))
    ensures var y1 := After(l, y, BumpAsync(SEVEN));
      SysInv(l, y1) && Possible(y1, Peek) && Touches(l, y1, Peek) && After(l, y1, Peek).q.work == Working(0, 16, 0)
  {
    PossibleTouches(l, y, BumpAsync(SEVEN));
    StepHolds(l, y, BumpAsync(SEVEN));
    OneRecord(l);
  }

  lemma ItemIsWorkedOff(l: Layout, y: Sys)
    requires Sound(l) && SysInv(l, y) && y.q.work == Working(0, 16, 0)
    ensures Runs(l, y, [Turn(0, true)] + [PollAll])
  {
    PossibleTouches(l, y, Turn(0, true));
    StepHolds(l, y, Turn(0, true));
    var y1 := After(l, y, Turn(0, true));
    PossibleTouches(l, y1, PollAll);
    assert Runs(l, After(l, y1, PollAll), []);
    OneStep(l, y1, PollAll, []);
    OneStep(l, y, Turn(0, true), [PollAll]);
  }

  lemma HitThenWorkedOff(l: Layout, y: Sys)
    requires Sound(l) && SysInv(l, y) && y.q == Start(64) && SEVEN in y.s.holders
    ensures Runs(l, y, [BumpAsync(SEVEN)] + ([Peek] + ([Turn(0, true)] + [PollAll])))
  {
    ItemIsHit(l, y);
    var y1 := After(l, y, BumpAsync(SEVEN));
    StepHolds(l, y1, Peek);
    ItemIsWorkedOff(l, After(l, y1, Peek));
    OneStep(l, y1, Peek, [Turn(0, true)] + [PollAll]);
    OneStep(l, y, BumpAsync(SEVEN), [Peek] + ([Turn(0, true)] + [PollAll]));
  }

  function LastSteps(): seq<Step> {
    [BumpAsync(SEVEN)] + ([Peek] + ([Turn(0, true)] + [PollAll]))
  }

  /** An item is allocated and linked, hit, and worked off. */
  function SevenSteps(): seq<Step> {
    [Other(DoAlloc(SEVEN, ITEM))] + ([Other(DoLink(SEVEN, 0))] + LastSteps())
  }

  lemma LinkedThenHit(l: Layout, y: Sys)
    requires Sound(l) && SysInv(l, y) && y.q == Start(64) && SEVEN in y.s.holders && SEVEN in y.s.items
    requires y.s.items[SEVEN] == ITEM && y.s.table == map[]
    ensures Runs(l, y, [Other(DoLink(SEVEN, 0))] + LastSteps())
  {
    ItemIsLinked(l, y);
    HitThenWorkedOff(l, After(l, y, Other(DoLink(SEVEN, 0))));
    OneStep(l, y, Other(DoLink(SEVEN, 0)), LastSteps());
  }

  lemma FromTheStart(l: Layout, y: Sys)
    requires Sound(l) && SysInv(l, y) && y == Begin(64)
    ensures Runs(l, y, SevenSteps())
  {
    ItemIsThere(l, y);
    StepHolds(l, y, Other(DoAlloc(SEVEN, ITEM)));
    LinkedThenHit(l, After(l, y, Other(DoAlloc(SEVEN, ITEM))));
    OneStep(l, y, Other(DoAlloc(SEVEN, ITEM)), [Other(DoLink(SEVEN, 0))] + LastSteps());
  }

  lemma SevenRuns(l: Layout)
    requires Sound(l)
    ensures Runs(l, Begin(64), SevenSteps())
  {
    BeginHolds(l, 64);
    FromTheStart(l, Begin(64));
  }

  /** Runs like this there are, with records laid out as they are in memory. */
  lemma SevenIsWorkedOff()
    ensures Sound(Plain()) && Runs(Plain(), Begin(64), SevenSteps())
  {
    PlainSound();
    SevenRuns(Plain());
  }
}
