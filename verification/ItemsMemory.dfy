/** The LRU maintenance over the live cache: pulling at a list's tail. */
module ItemsMemory {
  import opened Items
  import opened ItemsSafety
  import opened Options
  import opened Sequences

  const NULL := -1
  const TRIES := 5
  const UPDATE_INTERVAL := 60
  const CLOCK := 0x1_0000_0000

  /** ITEM_lruid and ITEM_clsid of an 8-bit slabs_clsid. */
  function Segment(lru: nat): nat {
    if lru < WARM then HOT else if lru < COLD then WARM else if lru < TEMP then COLD else TEMP
  }

  function Class(lru: nat): nat {
    lru - Segment(lru)
  }

  /** Time since `then`, on the unsigned 32-bit clock. */
  function Since(now: nat, earlier: nat): nat {
    if earlier <= now then now - earlier else (now - earlier) % CLOCK
  }

  lemma ClassIs(cls: nat, segment: nat)
    requires cls < WARM && (segment == HOT || segment == WARM || segment == COLD || segment == TEMP)
    ensures cls + segment < LARGEST && Class(cls + segment) == cls && Segment(cls + segment) == segment
  {
  }

  // ---- walking up a list ----

  /** The element before `x` on its list, towards the head. */
  function Prev(list: seq<Id>, x: Id): int
    requires x in list
  {
    var i := Index(list, x);
    if i > 0 then list[i - 1] else NULL
  }

  /** How far from the head a search still is. */
  function Place(list: seq<Id>, search: int): nat {
    if search >= 0 && search in list then Index(list, search) + 1 else 0
  }

  predicate At(list: seq<Id>, search: int) {
    search == NULL || (search >= 0 && search in list)
  }

  lemma PrevIs(list: seq<Id>, x: Id)
    requires Distinct(list) && x in list
    ensures At(list, Prev(list, x)) && Prev(list, x) != x
    ensures Place(list, Prev(list, x)) < Place(list, x)
  {
    var i := Index(list, x);
    if i > 0 {
      var p := list[i - 1];
      var j := Index(list, p);
      assert list[j] == list[i - 1];
    }
  }

  // ---- what happens to one item ----

  /** Two states of one item that differ at most in references, links, list segment and activity. */
  predicate Kin(a: Item, b: Item) {
    b.key == a.key && b.bytes == a.bytes && b.exptime == a.exptime && b.time == a.time && b.fetched == a.fetched
    && Class(b.lru) == Class(a.lru)
  }

  /** Same owners, nobody new, every survivor still itself. */
  ghost predicate Settled(s: State, s': State) {
    && s'.holders == s.holders && s'.bumps == s.bumps
    && s'.items.Keys <= s.items.Keys
    && forall y :: y in s'.items ==> Kin(s.items[y], s'.items[y])
  }

  lemma SettledTwice(s: State, s1: State, s2: State)
    requires Settled(s, s1) && Settled(s1, s2)
    ensures Settled(s, s2)
  {
  }

  /** Referenced and let go of again. */
  lemma RefThenRemove(s: State, x: Id)
    requires x in s.items && s.items[x].refs > 0
    ensures Remove(Ref(s, x), x) == s
  {
    assert Remove(Ref(s, x), x).items == s.items;
    assert Remove(Ref(s, x), x).holders == s.holders;
  }

  /** Referenced, unlinked, let go of. */
  function Reclaim(s: State, x: Id): State
    requires OnList(s, x) && s.items[x].refs > 0
  {
    Remove(Unlink(Ref(s, x), x), x)
  }

  lemma ReclaimKeeps(s: State, x: Id)
    requires Inv(s) && x in s.items && s.items[x].linked
    ensures Inv(Reclaim(s, x))
  {
    RefKeeps(s, x);
    UnlinkKeeps(Ref(s, x), x);
    RemoveKeeps(Unlink(Ref(s, x), x), x);
  }

  lemma ReclaimSettles(s: State, x: Id, s': State)
    requires OnList(s, x) && s.items[x].refs > 0 && s.items[x].linked && s' == Reclaim(s, x)
    ensures Settled(s, s')
  {
    assert s'.holders == s.holders && s'.bumps == s.bumps;
  }

  lemma ReclaimIs(s: State, x: Id)
    requires OnList(s, x) && s.items[x].refs > 0 && s.items[x].linked
    ensures Settled(s, Reclaim(s, x))
    ensures Reclaim(s, x).table == s.table - {s.items[x].key}
    ensures Reclaim(s, x).lists == s.lists[s.items[x].lru := Without(s.lists[s.items[x].lru], x)]
  {
    ReclaimSettles(s, x, Reclaim(s, x));
  }

  /** Referenced, made idle and moved to the head of a list, its own or another. */
  function Moved(s: State, x: Id, lru: nat): State
    requires OnList(s, x) && lru < |s.lists|
  {
    var s1 := Ref(s, x);
    Relist(Set(s1, x, s1.items[x].(active := false)), x, lru)
  }

  /** And let go of. */
  function Cycle(s: State, x: Id, lru: nat): State
    requires OnList(s, x) && lru < |s.lists|
  {
    Remove(Moved(s, x, lru), x)
  }

  lemma MovedKeeps(s: State, x: Id, lru: nat)
    requires Inv(s) && x in s.items && s.items[x].linked && lru < LARGEST
    ensures Inv(Moved(s, x, lru)) && x in Moved(s, x, lru).holders
  {
    var s1 := Ref(s, x);
    var s2 := Set(s1, x, s1.items[x].(active := false));
    RefKeeps(s, x);
    TouchKeeps(s1, x, s2.items[x]);
    RelistKeeps(s2, x, lru);
  }

  lemma CycleKeeps(s: State, x: Id, lru: nat)
    requires Inv(s) && x in s.items && s.items[x].linked && lru < LARGEST
    ensures Inv(Cycle(s, x, lru))
  {
    MovedKeeps(s, x, lru);
    RemoveKeeps(Moved(s, x, lru), x);
  }

  lemma CycleIs(s: State, x: Id, lru: nat)
    requires OnList(s, x) && lru < |s.lists| && s.items[x].refs > 0 && Class(lru) == Class(s.items[x].lru)
    ensures Settled(s, Cycle(s, x, lru))
    ensures Cycle(s, x, lru).table == s.table
    ensures Cycle(s, x, lru).lists ==
      var lists := s.lists[s.items[x].lru := Without(s.lists[s.items[x].lru], x)]; lists[lru := [x] + lists[lru]]
  {
    assert Cycle(s, x, lru).holders == s.holders;
  }

  // ---- pulling at the tail ----

  /** What the caller of lru_pull_tail asks for, and what it finds set. */
  datatype Pull = Pull(
    segment: nat, evict: bool, returnItem: bool, crawlBlocks: bool,
    totalBytes: nat, hotPct: nat, warmPct: nat, maxAge: nat, evictToFree: bool, segmented: bool)

  /** What to do about the item at the tail: `Requeue` to the head of its own list, `Move` to
      another segment, `Hand` to the caller, or `Leave` it where it is. All but the first two end
      the search. */
  datatype Verdict = Expire | Requeue | Move(segment: nat) | Evict | Hand | Leave

  predicate Dead(it: Item, x: Id, now: nat, flushed: set<Id>) {
    (it.exptime != 0 && it.exptime < now) || x in flushed
  }

  function Limit(p: Pull): nat {
    var hot := if p.segment == HOT then p.totalBytes * p.hotPct / 100 else 0;
    if hot == 0 then p.totalBytes * p.warmPct / 100 else hot
  }

  /** The verdicts that end the search. */
  predicate Ends(v: Verdict) {
    !v.Expire? && !v.Requeue? && (v.Move? ==> v.segment == WARM || v.segment == COLD)
  }

  predicate Fits(p: Pull, v: Verdict) {
    && Ends(v)
    && (v.Hand? <==> p.segment == COLD && !p.evict && p.returnItem)
    && (v.Evict? ==> p.segment == COLD && p.evict && p.evictToFree)
  }

  /** `over` says that the list has outgrown its share. */
  function Judge(it: Item, x: Id, p: Pull, over: bool, now: nat, flushed: set<Id>): (v: Verdict)
    ensures v.Expire? || v.Requeue? || Fits(p, v)
    ensures v.Expire? <==> Dead(it, x, now, flushed)
  {
    if Dead(it, x, now, flushed) then Expire
    else if p.segment == HOT || p.segment == WARM then
      if it.active then
        if p.segment == WARM then Requeue else Move(WARM)
      else if over || Since(now, it.time) > p.maxAge then Move(COLD)
      else Leave
    else if p.segment == COLD then
      if p.evict then
        if p.evictToFree then Evict else Leave
      else if p.returnItem then Hand
      else if it.active && p.segmented then Move(WARM)
      else Leave
    else Leave
  }

  // ---- what becomes of a live item at the tail ----

  /** The list has outgrown its share: that of HOT, if that is anything, or else that of WARM. */
  predicate OverShare(p: Pull, bytes: int) {
    var hot, warm := p.totalBytes * p.hotPct / 100, p.totalBytes * p.warmPct / 100;
    bytes > if p.segment == HOT && hot > 0 then hot else warm
  }

  /** It was last moved longer ago than the caller allows. */
  predicate Aged(it: Item, p: Pull, now: nat) {
    (if it.time <= now then now - it.time else (now - it.time) % CLOCK) > p.maxAge
  }

  /** An active item of HOT goes to WARM, and so does one of COLD that is not to be evicted or handed over. */
  predicate Rises(it: Item, p: Pull) {
    it.active && (p.segment == HOT || (p.segment == COLD && !p.evict && !p.returnItem && p.segmented))
  }

  /** An active item of WARM goes round. */
  predicate Circles(it: Item, p: Pull) {
    it.active && p.segment == WARM
  }

  /** An idle item of HOT or WARM goes to COLD if the list is too large or it is too old. */
  predicate Sinks(it: Item, p: Pull, bytes: int, now: nat) {
    !it.active && (p.segment == HOT || p.segment == WARM) && (OverShare(p, bytes) || Aged(it, p, now))
  }

  /** Any item of COLD is evicted if the caller asks for that and the settings allow it. */
  predicate Goes(p: Pull) {
    p.segment == COLD && p.evict && p.evictToFree
  }

  /** `x` is idle, at the head of list `lru` and on no other. */
  ghost predicate Shifted(s: State, s': State, x: Id, lru: nat) {
    && x in s.items && x in s'.items && s.items[x].lru < |s.lists| && lru < |s.lists|
    && !s'.items[x].active && s'.items[x].lru == lru && s'.table == s.table
    && var lists := s.lists[s.items[x].lru := Without(s.lists[s.items[x].lru], x)];
       s'.lists == lists[lru := [x] + lists[lru]]
  }

  /** `x` is off its list and not to be found under its key. */
  ghost predicate Off(s: State, s': State, x: Id) {
    && x in s.items && s.items[x].lru < |s.lists| && s'.table == s.table - {s.items[x].key}
    && s'.lists == s.lists[s.items[x].lru := Without(s.lists[s.items[x].lru], x)]
  }

  /** `x` is where it was. */
  ghost predicate Stayed(s: State, s': State, x: Id) {
    && x in s.items && x in s'.items && s'.lists == s.lists && s'.table == s.table
    && s'.items[x].active == s.items[x].active && s'.items[x].lru == s.items[x].lru
  }

  /** All that these speak of: the lists, the table, and whether a linked item is active and where. */
  datatype Spot = Spot(lists: seq<seq<Id>>, table: map<Key, Id>, at: Option<(bool, nat)>)

  function SpotOf(s: State, x: Id): Spot {
    Spot(s.lists, s.table,
      if x in s.items && s.items[x].linked then Some((s.items[x].active, s.items[x].lru)) else None)
  }

  /** With `x`, which is on its list, off it. */
  function ListsLess(s: State, x: Id): seq<seq<Id>>
    requires OnList(s, x)
  {
    s.lists[s.items[x].lru := Without(s.lists[s.items[x].lru], x)]
  }

  function MoveTo(s: State, x: Id, lru: nat): Spot
    requires OnList(s, x) && lru < |s.lists|
  {
    Spot(ListsLess(s, x)[lru := [x] + ListsLess(s, x)[lru]], s.table, Some((false, lru)))
  }

  function TakeOut(s: State, x: Id): Spot
    requires OnList(s, x)
  {
    Spot(ListsLess(s, x), s.table - {s.items[x].key}, None)
  }

  /** What a verdict that ends the search does. */
  function Done(s: State, x: Id, v: Verdict, cls: nat): Spot
    requires OnList(s, x) && (v.Move? ==> cls + v.segment < |s.lists|)
  {
    match v
    case Move(segment) => MoveTo(s, x, cls + segment)
    case Evict => TakeOut(s, x)
    case _ => SpotOf(s, x)
  }

  lemma LimitIs(p: Pull, bytes: int)
    requires p.segment == HOT || p.segment == WARM
    ensures bytes > Limit(p) <==> OverShare(p, bytes)
  {}

  lemma JudgeIs(it: Item, x: Id, p: Pull, bytes: int, now: nat, flushed: set<Id>)
    requires !Dead(it, x, now, flushed) && p.segment in {HOT, WARM, COLD, TEMP}
    ensures var v := Judge(it, x, p, bytes > Limit(p), now, flushed);
      && (v == Move(WARM) <==> Rises(it, p)) && (v == Move(COLD) <==> Sinks(it, p, bytes, now))
      && (v == Requeue <==> Circles(it, p)) && (v == Evict <==> Goes(p)) && !v.Expire?
      && (v.Move? ==> v.segment == WARM || v.segment == COLD)
  {
    if p.segment == HOT || p.segment == WARM {
      LimitIs(p, bytes);
    }
  }

  /** What becomes of `x`, at the tail of list `cls + p.segment`, from `s` to `s'`. */
  ghost predicate TailFate(s: State, s': State, x: Id, cls: nat, p: Pull, now: nat) {
    && x in s.items && cls + p.segment < |s.sizesBytes|
    && var it, bytes := s.items[x], s.sizesBytes[cls + p.segment];
       if Rises(it, p) then Shifted(s, s', x, cls + WARM)
       else if Circles(it, p) then Shifted(s, s', x, cls + WARM)
       else if Sinks(it, p, bytes, now) then Shifted(s, s', x, cls + COLD)
       else if Goes(p) then Off(s, s', x)
       else Stayed(s, s', x)
  }

  lemma FateIs(
    s: State, s': State, x: Id, id: nat, cls: nat, p: Pull, limit: nat, now: nat, flushed: set<Id>, v: Verdict)
    requires OnList(s, x) && s.items[x].linked && !Dead(s.items[x], x, now, flushed)
    requires id < |s.sizesBytes| && id < |s.lists| && id == cls + p.segment && limit == Limit(p)
    requires p.segment in {HOT, WARM, COLD, TEMP} && cls + COLD < |s.lists| && cls + WARM < |s.lists|
    requires v == Judge(s.items[x], x, p, s.sizesBytes[id] > limit, now, flushed)
    requires v.Move? ==> cls + v.segment < |s.lists|
    requires SpotOf(s', x) == if v == Requeue then MoveTo(s, x, id) else Done(s, x, v, cls)
    ensures TailFate(s, s', x, cls, p, now)
  {
    JudgeIs(s.items[x], x, p, s.sizesBytes[id], now, flushed);
  }

  lemma MovedSpot(s: State, x: Id, lru: nat)
    requires OnList(s, x) && lru < |s.lists| && s.items[x].linked
    ensures SpotOf(Moved(s, x, lru), x) == MoveTo(s, x, lru)
  {}

  lemma CycleSpot(s: State, x: Id, lru: nat)
    requires OnList(s, x) && lru < |s.lists| && s.items[x].refs > 0 && s.items[x].linked
    ensures SpotOf(Cycle(s, x, lru), x) == MoveTo(s, x, lru)
  {
    MovedSpot(s, x, lru);
  }

  lemma ReclaimSpot(s: State, x: Id)
    requires OnList(s, x) && s.items[x].refs > 0 && s.items[x].linked
    ensures SpotOf(Reclaim(s, x), x) == TakeOut(s, x)
  {}

  lemma EvictedSpot(s: State, x: Id)
    requires OnList(s, x) && s.items[x].linked
    ensures SpotOf(Unlink(Ref(s, x), x), x) == TakeOut(s, x)
  {}

  /** Letting go of an item changes none of that. */
  lemma RemovedSpot(s: State, x: Id)
    requires Inv(s) && x in s.holders && x in s.items
    ensures s.items[x].refs > 0 && SpotOf(Remove(s, x), x) == SpotOf(s, x)
  {}

  /** The items that have expired or been flushed. */
  function Doomed(items: map<Id, Item>, now: nat, flushed: set<Id>): set<Id> {
    set x | x in items && Dead(items[x], x, now, flushed)
  }

  /** From `s` to `s'` only items of the class `cls` have been moved and only expendable ones
      unlinked. */
  ghost predicate Pulled(s: State, s': State, cls: nat, expendable: set<Id>) {
    && Settled(s, s')
    && (forall k :: k in s'.table ==> k in s.table && s'.table[k] == s.table[k])
    && (forall k :: k in s.table && k !in s'.table ==> s.table[k] in expendable)
    && |s'.lists| == |s.lists|
    && (forall l {:trigger s'.lists[l]} :: 0 <= l < |s.lists| && Class(l) != cls ==> s'.lists[l] == s.lists[l])
  }

  lemma MoreExpendable(s: State, s': State, cls: nat, expendable: set<Id>, more: set<Id>)
    requires Pulled(s, s', cls, expendable)
    ensures Pulled(s, s', cls, expendable + more)
  {
  }

  lemma StillAt(list: seq<Id>, x: Id, search: int)
    requires Distinct(list) && At(list, search) && search != x
    ensures At(Without(list, x), search) && At([x] + Without(list, x), search)
  {
    WithoutIs(list, x);
  }

  lemma PulledTwice(s0: State, s: State, s': State, cls: nat, expendable: set<Id>)
    requires Pulled(s0, s, cls, expendable) && Pulled(s, s', cls, expendable)
    ensures Pulled(s0, s', cls, expendable)
  {
    SettledTwice(s0, s, s');
  }

  lemma ReclaimPulls(s0: State, s: State, x: Id, cls: nat, expendable: set<Id>)
    requires Pulled(s0, s, cls, expendable) && TableOk(s.items, s.table) && OnList(s, x) && s.items[x].refs > 0
      && s.items[x].linked
    requires Class(s.items[x].lru) == cls && x in expendable
    ensures Pulled(s0, Reclaim(s, x), cls, expendable)
  {
    ReclaimIs(s, x);
    PulledTwice(s0, s, Reclaim(s, x), cls, expendable);
  }

  lemma CyclePulls(s0: State, s: State, x: Id, lru: nat, cls: nat, expendable: set<Id>)
    requires Pulled(s0, s, cls, expendable) && OnList(s, x) && s.items[x].refs > 0
    requires Class(s.items[x].lru) == Class(lru) == cls && lru < |s.lists|
    ensures Pulled(s0, Cycle(s, x, lru), cls, expendable)
  {
    CycleIs(s, x, lru);
    PulledTwice(s0, s, Cycle(s, x, lru), cls, expendable);
  }

  lemma TailIs(s: State, x: Id, l: nat)
    requires Inv(s) && l < LARGEST && x in s.lists[l] && x in s.items
    ensures OnList(s, x) && s.items[x].refs > 0 && s.items[x].linked && s.items[x].lru == l
  {
  }

  /** Where a pull leaves the cache: `kept` is an item whose reference is still to be dropped. */
  ghost predicate Outcome(s: State, s': State, kept: Option<Id>, cls: nat, expendable: set<Id>) {
    match kept
    case None => Pulled(s, s', cls, expendable)
    case Some(x) =>
      x in s'.items && s'.items[x].refs > 0 && x in s'.holders && Pulled(s, Remove(s', x), cls, expendable)
  }

  lemma StaysPuts(s0: State, s: State, x: Id, cls: nat, expendable: set<Id>)
    requires Inv(s) && x in s.items && Pulled(s0, s, cls, expendable)
    ensures Inv(Ref(s, x)) && Outcome(s0, Ref(s, x), Some(x), cls, expendable)
  {
    RefKeeps(s, x);
    RefThenRemove(s, x);
  }

  lemma MovedOutcome(s0: State, s: State, x: Id, lru: nat, cls: nat, expendable: set<Id>)
    requires Pulled(s0, s, cls, expendable) && OnList(s, x) && s.items[x].refs > 0
    requires Class(s.items[x].lru) == Class(lru) == cls && lru < |s.lists|
    ensures Outcome(s0, Moved(s, x, lru), Some(x), cls, expendable)
  {
    CyclePulls(s0, s, x, lru, cls, expendable);
  }

  lemma EvictedOutcome(s0: State, s: State, x: Id, cls: nat, expendable: set<Id>)
    requires Pulled(s0, s, cls, expendable) && TableOk(s.items, s.table) && OnList(s, x) && s.items[x].refs > 0
      && s.items[x].linked
    requires Class(s.items[x].lru) == cls && x in expendable
    ensures Outcome(s0, Unlink(Ref(s, x), x), Some(x), cls, expendable)
  {
    ReclaimPulls(s0, s, x, cls, expendable);
  }

  /** The one item that may go though it is alive. */
  function Evicted(p: Pull, it: Option<Id>): set<Id> {
    if p.evict && p.evictToFree && p.segment == COLD && it.Some? then {it.value} else {}
  }

  lemma DoomedStill(s0: State, s: State, x: Id, now: nat, flushed: set<Id>)
    requires Settled(s0, s) && x in s.items && Dead(s.items[x], x, now, flushed)
    ensures x in Doomed(s0.items, now, flushed)
  {
  }

  /** One lock for each list, and one for each value of the low bits of the hash. */
  datatype Lock = ListLock(list: nat) | ItemLock(n: nat)

  /** Taking a lock, which a thread must not do when it has it. */
  function Acquired(locks: set<Lock>, l: Lock): set<Lock>
    requires l !in locks
  {
    locks + {l}
  }

  /** Giving back a lock, which only a thread that has it may do. */
  function Released(locks: set<Lock>, l: Lock): set<Lock>
    requires l in locks
  {
    locks - {l}
  }

  lemma TakenBack(before: set<Lock>, a: Lock)
    requires a !in before
    ensures Released(Acquired(before, a), a) == before
  {}

  lemma GivenBack(before: set<Lock>, a: Lock, b: Lock)
    requires a !in before && b !in before && a != b
    ensures before + {a} + {b} - {a} == before + {b} && before + {b} - {b} == before && before + {a} - {a} == before
  {}

  function Tail(list: seq<Id>): Id
    requires |list| > 0
  {
    list[|list| - 1]
  }

  /** A search from `s0` has kept what it has to. */
  ghost predicate Going(s0: State, s: State, cls: nat, now: nat, flushed: set<Id>) {
    Inv(s) && Pulled(s0, s, cls, Doomed(s0.items, now, flushed))
  }

  /** How far a search of list `id` from `s0` has come in `s`, when the verdict on the tail is known: it has not
      begun, the only item has gone round, or the tail has been reclaimed. */
  ghost predicate Underway(s0: State, s: State, id: nat, want: Option<Verdict>, tries: int, search: int) {
    want.Some? ==>
      && id < |s0.lists| && |s0.lists[id]| > 0 && OnList(s0, Tail(s0.lists[id]))
      && (want.value.Requeue? ==> |s0.lists[id]| == 1)
      && var x := Tail(s0.lists[id]);
         || Begins(s0, s, id, tries, search)
         || (want.value.Requeue? && search == NULL && SpotOf(s, x) == MoveTo(s0, x, id))
         || (want.value.Expire? && s0.items[x].key !in s.table)
  }

  ghost predicate Begins(s0: State, s: State, id: nat, tries: int, search: int)
    requires id < |s0.lists| && |s0.lists[id]| > 0
  {
    s == s0 && tries == TRIES && search == Tail(s0.lists[id])
  }

  lemma OnlyOne(list: seq<Id>)
    requires |list| == 1
    ensures Prev(list, list[0]) == NULL
  {}

  /** One turn that does not end the search. */
  lemma UnderwayOn(s0: State, s: State, s': State, id: nat, want: Option<Verdict>, tries: int, x: Id,
      v: Option<Verdict>, next: int)
    requires Underway(s0, s, id, want, tries, x) && OnList(s, x) && id < |s.lists| && x in s.lists[id]
    requires next == Prev(s.lists[id], x)
    requires want.Some? && Begins(s0, s, id, tries, x) ==> v == want
    requires v.None? ==> s' == s
    requires v.Some? ==> v.value.Requeue? || v.value.Expire?
    requires v.Some? && v.value.Requeue? ==> SpotOf(s', x) == MoveTo(s, x, id)
    requires v.Some? && v.value.Expire? ==> SpotOf(s', x) == TakeOut(s, x)
    ensures Underway(s0, s', id, want, tries - 1, next)
  {
    if want.Some? && want.value.Requeue? {
      OnlyOne(s0.lists[id]);
    }
  }

  class Cache {
    var s: State
    /** The locks this thread holds. */
    var locks: set<Lock>
    /** Which item lock a key has. */
    const lockOf: map<Key, nat>

    constructor (s: State, lockOf: map<Key, nat>)
      ensures this.s == s && this.lockOf == lockOf && locks == {}
    {
      this.s, this.lockOf, locks := s, lockOf, {};
    }

    function LockOf(key: Key): Lock {
      ItemLock(if key in lockOf then lockOf[key] else 0)
    }

    /** A search that comes to `x` gives the verdict `v`: `x` is no crawler and nobody has its lock. `free` says
        that the others do not have it. */
    ghost predicate Due(x: Id, v: Verdict, id: nat, p: Pull, limit: nat, now: nat, free: bool, flushed: set<Id>)
      reads this
    {
      && id < |s.sizesBytes| && x in s.items && free && LockOf(s.items[x].key) !in locks
      && v == Judge(s.items[x], x, p, s.sizesBytes[id] > limit, now, flushed)
    }

    /** A search of list `id` gives the verdict `v` first: it ends the search, or the item is reclaimed, or it
        goes round and is the only one. */
    ghost predicate DueAtTail(v: Verdict, id: nat, p: Pull, limit: nat, now: nat, free: bool, flushed: set<Id>)
      reads this
    {
      && id < |s.lists| && |s.lists[id]| > 0 && Due(Tail(s.lists[id]), v, id, p, limit, now, free, flushed)
      && (Ends(v) || v.Expire? || (v.Requeue? && |s.lists[id]| == 1))
    }

    /** At the tail of list `id` there is an item, no crawler, and nobody has its lock. */
    ghost predicate OpenTail(id: nat, free: bool)
      reads this
    {
      && id < |s.lists| && |s.lists[id]| > 0 && Tail(s.lists[id]) in s.items && free
      && LockOf(s.items[Tail(s.lists[id])].key) !in locks
    }

    ghost predicate LiveTail(id: nat, now: nat, free: bool, flushed: set<Id>)
      reads this
    {
      OpenTail(id, free) && !Dead(s.items[Tail(s.lists[id])], Tail(s.lists[id]), now, flushed)
    }

    ghost predicate DeadTail(id: nat, now: nat, free: bool, flushed: set<Id>)
      reads this
    {
      OpenTail(id, free) && Dead(s.items[Tail(s.lists[id])], Tail(s.lists[id]), now, flushed)
    }

    /** There is a live one, and if it is to go round it is the only one. */
    ghost predicate Ripe(id: nat, p: Pull, now: nat, free: bool, flushed: set<Id>)
      reads this
    {
      LiveTail(id, now, free, flushed) && (Circles(s.items[Tail(s.lists[id])], p) ==> |s.lists[id]| == 1)
    }

    /** Where a search of list `id` has ended, holding the locks `before` and that of `x`. */
    ghost predicate EndedAt(
      x: Id, v: Verdict, id: nat, p: Pull, limit: nat, now: nat, flushed: set<Id>, before: set<Lock>)
      reads this
    {
      && id < |s.lists| && id < |s.sizesBytes| && x in s.lists[id] && Holding(x, before) && Fits(p, v)
      && v == Judge(s.items[x], x, p, s.sizesBytes[id] > limit, now, flushed)
    }

    /** lru_pull_tail. `it` is the item the search ended at, `ret` what is handed to the caller. An item
        the caller asked for stays locked and referenced, and so it does when it is not handed over:
        everything has been given back, or the item handed over, exactly if the search ended at no
        item, none was asked for, or one was pulled from COLD without evicting. A live tail whose lock is free
        rises, goes round, sinks, is evicted or stays, as its activity, the shares and its age have it, and a
        dead one is no longer found. */
    method PullTail(cls: nat, p: Pull, now: nat, taken: seq<bool>, flushed: set<Id>)
      returns (removed: nat, it: Option<Id>, ret: Option<Id>)
      requires Inv(s) && cls < WARM && p.segment in {HOT, WARM, COLD, TEMP} && |taken| == TRIES
      requires forall id :: ListLock(id) !in locks
      modifies this
      ensures Inv(s) && removed <= TRIES
      ensures ret == if p.segment == COLD && !p.evict && p.returnItem then it else None
      ensures p.returnItem && it.Some? ==>
        Outcome(old(s), s, it, cls, Doomed(old(s.items), now, flushed) + Evicted(p, it))
          && Holding(it.value, old(locks))
      ensures !p.returnItem || it.None? ==>
        Pulled(old(s), s, cls, Doomed(old(s.items), now, flushed) + Evicted(p, it)) && locks == old(locks)
      ensures ret.Some? || locks == old(locks) <==> it.None? || !p.returnItem || (p.segment == COLD && !p.evict)
      ensures cls != 0 && old(Ripe(cls + p.segment, p, now, !taken[TRIES - 1], flushed)) ==>
        var x := Tail(old(s.lists)[cls + p.segment]);
        TailFate(old(s), s, x, cls, p, now) && it == if Circles(old(s).items[x], p) then None else Some(x)
      ensures cls != 0 && old(DeadTail(cls + p.segment, now, !taken[TRIES - 1], flushed)) ==>
        old(s).items[Tail(old(s.lists)[cls + p.segment])].key !in s.table
    {
      removed, it, ret := 0, None, None;
      if cls != 0 {
        ClassIs(cls, p.segment);
        var found;
        removed, found := PullLive(cls + p.segment, cls, p, now, taken, flushed);
        if found.Some? {
          it := Some(found.value.0);
          ret := if found.value.1.Hand? then it else None;
          removed := removed + if found.value.1.Move? || found.value.1.Evict? then 1 else 0;
        }
      }
    }

    method PullLive(id: nat, cls: nat, p: Pull, now: nat, taken: seq<bool>, flushed: set<Id>)
      returns (removed: nat, found: Option<(Id, Verdict)>)
      requires Inv(s) && id < LARGEST && Segment(id) == p.segment && Class(id) == cls < WARM && |taken| == TRIES
      requires forall l :: ListLock(l) !in locks
      modifies this
      ensures Inv(s) && removed + (if found.Some? then 1 else 0) <= TRIES
      ensures found.None? ==> Pulled(old(s), s, cls, Doomed(old(s.items), now, flushed)) && locks == old(locks)
      ensures found.Some? ==> Fits(p, found.value.1)
      ensures found.Some? && p.returnItem ==>
        var x := found.value.0;
        Outcome(old(s), s, Some(x), cls, Doomed(old(s.items), now, flushed) + Evicted(p, Some(x)))
          && Holding(x, old(locks))
      ensures found.Some? && !p.returnItem ==>
        var x := found.value.0;
        Pulled(old(s), s, cls, Doomed(old(s.items), now, flushed) + Evicted(p, Some(x))) && locks == old(locks)
      ensures old(Ripe(id, p, now, !taken[TRIES - 1], flushed)) ==>
        var x := Tail(old(s.lists)[id]);
        TailFate(old(s), s, x, cls, p, now)
          && if Circles(old(s).items[x], p) then found.None? else found.Some? && found.value.0 == x
      ensures old(DeadTail(id, now, !taken[TRIES - 1], flushed)) ==>
        old(s).items[Tail(old(s.lists)[id])].key !in s.table
    {
      var limit := Limit(p);
      ghost var s0 := s;
      ghost var want := Expected(id, p, limit, now, !taken[TRIES - 1], flushed);
      removed, found := Pull(id, cls, p, limit, now, taken, flushed, want);
      if want.Some? && !want.value.Expire? {
        FateIs(s0, s, Tail(s0.lists[id]), id, cls, p, limit, now, flushed, want.value);
      }
    }

    /** The verdict on a live tail. */
    ghost method Expected(id: nat, p: Pull, limit: nat, now: nat, free: bool, flushed: set<Id>)
      returns (want: Option<Verdict>)
      requires Inv(s) && id < LARGEST && Segment(id) == p.segment && limit == Limit(p)
      ensures want.Some? <==> Ripe(id, p, now, free, flushed) || DeadTail(id, now, free, flushed)
      ensures want.Some? ==> DueAtTail(want.value, id, p, limit, now, free, flushed)
      ensures want.Some? ==> (want.value.Expire? <==> DeadTail(id, now, free, flushed))
      ensures want.Some? && !want.value.Expire? ==>
        (want.value.Requeue? <==> Circles(s.items[Tail(s.lists[id])], p))
    {
      want := None;
      if Ripe(id, p, now, free, flushed) || DeadTail(id, now, free, flushed) {
        var x := Tail(s.lists[id]);
        want := Some(Judge(s.items[x], x, p, s.sizesBytes[id] > limit, now, flushed));
        if Ripe(id, p, now, free, flushed) {
          JudgeIs(s.items[x], x, p, s.sizesBytes[id], now, flushed);
        }
      }
    }

    /** Item `x` is there and has the key it had. */
    ghost predicate Same(x: Id, was: State)
      reads this
    {
      x in was.items && x in s.items && s.items[x].key == was.items[x].key
    }

    /** The lock of item `x` is held on top of `before`. */
    ghost predicate Holding(x: Id, before: set<Lock>)
      reads this
    {
      x in s.items && LockOf(s.items[x].key) !in before && locks == before + {LockOf(s.items[x].key)}
    }

    /** Search, then deal with the item the search ended at. */
    method Pull(
      id: nat, cls: nat, p: Pull, limit: nat, now: nat, taken: seq<bool>, flushed: set<Id>,
        ghost want: Option<Verdict>)
      returns (removed: nat, found: Option<(Id, Verdict)>)
      requires Inv(s) && id < LARGEST && Segment(id) == p.segment && Class(id) == cls < WARM && |taken| == TRIES
      requires want.Some? ==> DueAtTail(want.value, id, p, limit, now, !taken[TRIES - 1], flushed)
      requires forall l :: ListLock(l) !in locks
      modifies this
      ensures Inv(s) && removed + (if found.Some? then 1 else 0) <= TRIES
      ensures found.None? ==> Pulled(old(s), s, cls, Doomed(old(s.items), now, flushed)) && locks == old(locks)
      ensures found.Some? ==> Fits(p, found.value.1)
      ensures found.Some? && p.returnItem ==>
        var x := found.value.0;
        Outcome(old(s), s, Some(x), cls, Doomed(old(s.items), now, flushed) + Evicted(p, Some(x)))
          && Holding(x, old(locks))
      ensures found.Some? && !p.returnItem ==>
        var x := found.value.0;
        Pulled(old(s), s, cls, Doomed(old(s.items), now, flushed) + Evicted(p, Some(x))) && locks == old(locks)
      ensures want.Some? && Ends(want.value) ==> found == Some((Tail(old(s.lists)[id]), want.value))
      ensures want.Some? ==> var x := Tail(old(s.lists)[id]);
        OnList(old(s), x) && old(s).items[x].linked && (want.value.Move? ==> cls + want.value.segment < |old(s.lists)|)
      ensures want.Some? && Ends(want.value) ==> var x := Tail(old(s.lists)[id]);
        SpotOf(s, x) == Done(old(s), x, want.value, cls)
      ensures want.Some? && want.value.Requeue? ==> found.None?
      ensures want.Some? && want.value.Requeue? ==> var x := Tail(old(s.lists)[id]);
        SpotOf(s, x) == MoveTo(old(s), x, id)
      ensures want.Some? && want.value.Expire? ==> old(s).items[Tail(old(s.lists)[id])].key !in s.table
    {
      ghost var doomed := Doomed(s.items, now, flushed);
      TakenBack(locks, ListLock(id));
      locks := Acquired(locks, ListLock(id));
      ghost var s0 := s;
      if want.Some? {
        TailIs(s, Tail(s.lists[id]), id);
      }
      removed, found := Search(id, cls, p, limit, now, taken, flushed, want);
      if found.Some? {
        FinishAt(found.value.0, found.value.1, id, cls, p, old(s), doomed, old(locks));
      } else {
        locks := Released(locks, ListLock(id));
      }
    }

    /** What follows a search that ended at `x`. */
    method FinishAt(x: Id, v: Verdict, id: nat, cls: nat, p: Pull, ghost s0: State, ghost doomed: set<Id>,
        ghost before: set<Lock>)
      requires Inv(s) && Pulled(s0, s, cls, doomed) && id < LARGEST && Class(id) == cls < WARM
      requires x in s.lists[id] && Fits(p, v) && ListLock(id) !in before && Holding(x, before + {ListLock(id)})
      modifies this
      ensures Inv(s)
      ensures p.returnItem ==> Outcome(s0, s, Some(x), cls, doomed + Evicted(p, Some(x))) && Holding(x, before)
      ensures !p.returnItem ==> Pulled(s0, s, cls, doomed + Evicted(p, Some(x))) && locks == before
      ensures OnList(old(s), x) && (v.Move? ==> cls + v.segment < |old(s.lists)|)
      ensures SpotOf(s, x) == Done(old(s), x, v, cls)
    {
      MoreExpendable(s0, s, cls, doomed, Evicted(p, Some(x)));
      TailIs(s, x, id);
      if v.Move? {
        ClassIs(cls, v.segment);
      }
      Finish(x, v, cls, p.returnItem, id, s0, doomed + Evicted(p, Some(x)), before, Done(s, x, v, cls));
    }

    /** `keep` says that the caller wants the item. */
    method Finish(
      x: Id, v: Verdict, cls: nat, keep: bool, id: nat, ghost s0: State, ghost expendable: set<Id>,
        ghost before: set<Lock>, ghost spot: Spot)
      requires Inv(s) && Pulled(s0, s, cls, expendable) && OnList(s, x) && s.items[x].linked
        && Class(s.items[x].lru) == cls
      requires Ends(v) && cls < WARM && (v.Evict? ==> x in expendable)
      requires ListLock(id) !in before && Holding(x, before + {ListLock(id)})
      requires (v.Move? ==> cls + v.segment < |s.lists|) && spot == Done(s, x, v, cls)
      modifies this
      ensures Inv(s) && SpotOf(s, x) == spot
      ensures keep ==> Outcome(s0, s, Some(x), cls, expendable) && Holding(x, before)
      ensures !keep ==> Pulled(s0, s, cls, expendable) && locks == before
    {
      var lock := LockOf(s.items[x].key);
      EndAndUnlock(x, v, cls, id, s0, expendable, before, spot, lock);
      if !keep {
        TakenBack(before, lock);
        Drop(x, lock, cls, s0, expendable);
      }
    }

    /** The item is moved, evicted or left, and the list unlocked. */
    method EndAndUnlock(
      x: Id, v: Verdict, cls: nat, id: nat, ghost s0: State, ghost expendable: set<Id>, ghost before: set<Lock>,
        ghost spot: Spot, ghost lock: Lock)
      requires Inv(s) && Pulled(s0, s, cls, expendable) && OnList(s, x) && s.items[x].linked
        && Class(s.items[x].lru) == cls
      requires Ends(v) && cls < WARM && (v.Evict? ==> x in expendable)
      requires ListLock(id) !in before && lock !in before && lock != ListLock(id)
      requires locks == before + {ListLock(id)} + {lock}
      requires (v.Move? ==> cls + v.segment < |s.lists|) && spot == Done(s, x, v, cls)
      modifies this
      ensures Inv(s) && Outcome(s0, s, Some(x), cls, expendable) && Same(x, old(s)) && SpotOf(s, x) == spot
      ensures locks == before + {lock}
    {
      End(x, v, cls, s0, expendable, spot);
      GivenBack(before, ListLock(id), lock);
      locks := Released(locks, ListLock(id));
    }

    /** The item is let go and unlocked. */
    method Drop(x: Id, lock: Lock, cls: nat, ghost s0: State, ghost expendable: set<Id>)
      requires Inv(s) && Outcome(s0, s, Some(x), cls, expendable) && lock in locks
      modifies this
      ensures Inv(s) && Pulled(s0, s, cls, expendable) && locks == old(locks) - {lock}
      ensures SpotOf(s, x) == old(SpotOf(s, x))
    {
      LetGo(x, cls, s0, expendable);
      locks := Released(locks, lock);
    }

    /** The search of lru_pull_tail from the tail of list `id`, whose lock is held. `taken` says which
        of the item locks it tries are taken by somebody else, `flushed` which items have been flushed. */
    method Search(
      id: nat, cls: nat, p: Pull, limit: nat, now: nat, taken: seq<bool>, flushed: set<Id>,
        ghost want: Option<Verdict>)
      returns (removed: nat, found: Option<(Id, Verdict)>)
      requires Inv(s) && id < LARGEST && Segment(id) == p.segment && Class(id) == cls < WARM && |taken| == TRIES
      requires want.Some? ==> DueAtTail(want.value, id, p, limit, now, !taken[TRIES - 1], flushed)
      modifies this
      ensures Going(old(s), s, cls, now, flushed)
      ensures removed + (if found.Some? then 1 else 0) <= TRIES
      ensures found.None? ==> locks == old(locks)
      ensures found.Some? ==> EndedAt(found.value.0, found.value.1, id, p, limit, now, flushed, old(locks))
      ensures want.Some? && Ends(want.value) ==> found == Some((Tail(old(s.lists)[id]), want.value)) && s == old(s)
      ensures want.Some? ==> OnList(old(s), Tail(old(s.lists)[id]))
      ensures want.Some? && want.value.Requeue? ==> found.None?
      ensures want.Some? && want.value.Requeue? ==> var x := Tail(old(s.lists)[id]);
        SpotOf(s, x) == MoveTo(old(s), x, id)
      ensures want.Some? && want.value.Expire? ==> old(s).items[Tail(old(s.lists)[id])].key !in s.table
    {
      ghost var s0, locks0 := s, locks;
      removed, found := 0, None;
      var tries := TRIES;
      assert want.Some? ==> OnList(s, Tail(s.lists[id])) by {
        if want.Some? {
          TailIs(s, Tail(s.lists[id]), id);
        }
      }
      var search := if |s.lists[id]| > 0 then s.lists[id][|s.lists[id]| - 1] else NULL;
      while tries > 0 && search != NULL
        invariant Going(s0, s, cls, now, flushed) && 0 <= tries && locks == locks0
        invariant At(s.lists[id], search) && removed + tries <= TRIES && found.None?
        invariant Underway(s0, s, id, want, tries, search)
        decreases tries, Place(s.lists[id], search)
      {
        var x: Id := search;
        search := Prev(s.lists[id], x);
        PrevIs(s.lists[id], x);
        if x !in s.items {
          if p.crawlBlocks {
            return 0, None;
          }
        } else {
          tries := tries - 1;
          var v := Turn(x, id, cls, p, limit, now, taken[tries], flushed, s0, search, want, tries + 1);
          if v.Some? && Ends(v.value) {
            found := Some((x, v.value));
            return;
          }
          removed := removed + if v.Some? then 1 else 0;
        }
      }
    }

    /** One turn of the search. */
    method Turn(
      x: Id, id: nat, cls: nat, p: Pull, limit: nat, now: nat, taken: bool, flushed: set<Id>, ghost s0: State,
        ghost search: int, ghost want: Option<Verdict>, ghost tries: int)
      returns (v: Option<Verdict>)
      requires Going(s0, s, cls, now, flushed) && id < LARGEST && Class(id) == cls
      requires x in s.items && x in s.lists[id] && At(s.lists[id], search) && search != x
      requires search == Prev(s.lists[id], x) && Underway(s0, s, id, want, tries, x)
      requires want.Some? && Begins(s0, s, id, tries, x) ==> Due(x, want.value, id, p, limit, now, !taken, flushed)
      modifies this
      ensures Going(s0, s, cls, now, flushed) && At(s.lists[id], search)
      ensures v.None? || !Ends(v.value) ==> locks == old(locks)
      ensures v.Some? && Ends(v.value) ==> s == old(s) && EndedAt(x, v.value, id, p, limit, now, flushed, old(locks))
      ensures v.None? || !Ends(v.value) ==> Underway(s0, s, id, want, tries - 1, search)
      ensures v.Some? && Ends(v.value) && want.Some? ==>
        if want.value.Expire? then s0.items[Tail(s0.lists[id])].key !in s.table
        else v == want && s == s0 && x == Tail(s0.lists[id])
    {
      ghost var was := s;
      ghost var first := if want.Some? && Begins(s0, s, id, tries, x) then want else None;
      v := Try(x, id, cls, p, limit, now, taken, flushed, s0, search, first);
      if v.None? || !Ends(v.value) {
        TailIs(was, x, id);
        UnderwayOn(s0, was, s, id, want, tries, x, v, search);
      }
    }

    /** One item of the search: nothing if it cannot be locked; else it is judged, and reclaimed or
        requeued and unlocked again, or kept locked. `search` is where the search goes on. */
    method Try(
      x: Id, id: nat, cls: nat, p: Pull, limit: nat, now: nat, taken: bool, flushed: set<Id>, ghost s0: State,
        ghost search: int, ghost want: Option<Verdict>)
      returns (v: Option<Verdict>)
      requires Inv(s) && Pulled(s0, s, cls, Doomed(s0.items, now, flushed)) && id < LARGEST && Class(id) == cls
      requires x in s.items && x in s.lists[id] && At(s.lists[id], search) && search != x
      requires want.Some? ==> Due(x, want.value, id, p, limit, now, !taken, flushed)
      modifies this
      ensures Inv(s) && Pulled(s0, s, cls, Doomed(s0.items, now, flushed)) && At(s.lists[id], search)
      ensures v.None? || !Ends(v.value) ==> locks == old(locks)
      ensures v.Some? && Ends(v.value) ==> s == old(s) && EndedAt(x, v.value, id, p, limit, now, flushed, old(locks))
      ensures OnList(old(s), x) && (v.Some? && v.value.Requeue? ==> SpotOf(s, x) == MoveTo(old(s), x, id))
      ensures v.Some? && v.value.Expire? ==> SpotOf(s, x) == TakeOut(old(s), x)
      ensures v.None? ==> s == old(s)
      ensures v.Some? ==> Ends(v.value) || v.value.Requeue? || v.value.Expire?
      ensures want.Some? ==> v == want
    {
      var lock := LockOf(s.items[x].key);
      v := LockAndJudge(x, id, p, limit, now, taken, flushed);
      if v.Some? {
        TakenBack(old(locks), lock);
        Deal(x, id, cls, v.value, now, flushed, s0, search);
        if !Ends(v.value) {
          locks := Released(locks, lock);
        }
      }
    }

    method LockAndJudge(x: Id, id: nat, p: Pull, limit: nat, now: nat, taken: bool, flushed: set<Id>)
      returns (v: Option<Verdict>)
      requires x in s.items && id < |s.sizesBytes|
      modifies this`locks
      ensures v.None? <==> taken || LockOf(s.items[x].key) in old(locks)
      ensures v.None? ==> locks == old(locks)
      ensures v.Some? ==> Holding(x, old(locks))
      ensures v.Some? ==> v.value == Judge(s.items[x], x, p, s.sizesBytes[id] > limit, now, flushed)
    {
      var lock := LockOf(s.items[x].key);
      if !taken && lock !in locks {
        locks := Acquired(locks, lock);
        v := Some(Judge(s.items[x], x, p, s.sizesBytes[id] > limit, now, flushed));
      } else {
        v := None;
      }
    }

    /** An item that does not end the search is reclaimed or requeued. */
    method Deal(x: Id, id: nat, cls: nat, v: Verdict, now: nat, flushed: set<Id>, ghost s0: State, ghost search: int)
      requires Inv(s) && Pulled(s0, s, cls, Doomed(s0.items, now, flushed)) && id < LARGEST && Class(id) == cls
      requires x in s.items && x in s.lists[id] && At(s.lists[id], search) && search != x
      requires v.Expire? ==> Dead(s.items[x], x, now, flushed)
      modifies this`s
      ensures Inv(s) && Pulled(s0, s, cls, Doomed(s0.items, now, flushed)) && At(s.lists[id], search)
      ensures !v.Expire? && !v.Requeue? ==> s == old(s)
      ensures OnList(old(s), x) && (v.Requeue? ==> SpotOf(s, x) == MoveTo(old(s), x, id))
      ensures v.Expire? ==> SpotOf(s, x) == TakeOut(old(s), x)
    {
      TailIs(s, x, id);
      StillAt(s.lists[id], x, search);
      if v.Expire? {
        DoomedStill(s0, s, x, now, flushed);
        Expire(x, cls, s0, Doomed(s0.items, now, flushed));
      } else if v.Requeue? {
        Requeue(x, cls, s0, Doomed(s0.items, now, flushed));
      }
    }

    /** The search ends at `x`: move it, evict it or let it be. */
    method End(x: Id, v: Verdict, cls: nat, ghost s0: State, ghost expendable: set<Id>, ghost spot: Spot)
      requires Inv(s) && Pulled(s0, s, cls, expendable) && OnList(s, x) && s.items[x].linked
        && Class(s.items[x].lru) == cls
      requires Ends(v) && cls < WARM && (v.Evict? ==> x in expendable)
      requires (v.Move? ==> cls + v.segment < |s.lists|) && spot == Done(s, x, v, cls)
      modifies this`s
      ensures Inv(s) && Outcome(s0, s, Some(x), cls, expendable) && Same(x, old(s)) && SpotOf(s, x) == spot
    {
      if v.Move? {
        Move(x, v.segment, cls, s0, expendable);
      } else if v.Evict? {
        Evict(x, cls, s0, expendable);
      } else {
        Leave(x, cls, s0, expendable);
      }
    }

    method LetGo(x: Id, cls: nat, ghost s0: State, ghost expendable: set<Id>)
      requires Inv(s) && Outcome(s0, s, Some(x), cls, expendable)
      modifies this`s
      ensures Inv(s) && Pulled(s0, s, cls, expendable)
      ensures SpotOf(s, x) == old(SpotOf(s, x))
    {
      RemovedSpot(s, x);
      RemoveKeeps(s, x);
      s := Remove(s, x);
    }

    method Leave(x: Id, cls: nat, ghost s0: State, ghost expendable: set<Id>)
      requires Inv(s) && Pulled(s0, s, cls, expendable) && x in s.items
      modifies this`s
      ensures Inv(s) && Outcome(s0, s, Some(x), cls, expendable) && Same(x, old(s))
      ensures SpotOf(s, x) == old(SpotOf(s, x))
    {
      StaysPuts(s0, s, x, cls, expendable);
      s := Ref(s, x);
    }

    method Move(x: Id, segment: nat, cls: nat, ghost s0: State, ghost expendable: set<Id>)
      requires Inv(s) && Pulled(s0, s, cls, expendable) && OnList(s, x) && s.items[x].linked
      requires Class(s.items[x].lru) == cls < WARM && (segment == WARM || segment == COLD)
      modifies this`s
      ensures Inv(s) && Outcome(s0, s, Some(x), cls, expendable) && Same(x, old(s))
      ensures cls + segment < |old(s.lists)| && SpotOf(s, x) == MoveTo(old(s), x, cls + segment)
    {
      ClassIs(cls, segment);
      var lru := cls + segment;
      MovedSpot(s, x, lru);
      MovedKeeps(s, x, lru);
      MovedOutcome(s0, s, x, lru, cls, expendable);
      s := Ref(s, x);
      s := Set(s, x, s.items[x].(active := false));
      s := Relist(s, x, lru);
    }

    method Evict(x: Id, cls: nat, ghost s0: State, ghost expendable: set<Id>)
      requires Inv(s) && Pulled(s0, s, cls, expendable) && OnList(s, x) && s.items[x].linked
      requires Class(s.items[x].lru) == cls && x in expendable
      modifies this`s
      ensures Inv(s) && Outcome(s0, s, Some(x), cls, expendable) && Same(x, old(s))
      ensures SpotOf(s, x) == TakeOut(old(s), x)
    {
      EvictedSpot(s, x);
      EvictedOutcome(s0, s, x, cls, expendable);
      RefKeeps(s, x);
      s := Ref(s, x);
      UnlinkKeeps(s, x);
      s := Unlink(s, x);
    }

    method Expire(x: Id, cls: nat, ghost s0: State, ghost expendable: set<Id>)
      requires Inv(s) && Pulled(s0, s, cls, expendable) && OnList(s, x) && s.items[x].linked
      requires Class(s.items[x].lru) == cls && x in expendable
      modifies this`s
      ensures Inv(s) && Pulled(s0, s, cls, expendable)
      ensures var l := old(s.items[x].lru);
        old(l < |s.lists|) && l < |s.lists| && s.lists[l] == Without(old(s.lists[l]), x)
      ensures SpotOf(s, x) == TakeOut(old(s), x)
    {
      ReclaimSpot(s, x);
      ReclaimPulls(s0, s, x, cls, expendable);
      ReclaimKeeps(s, x);
      ReclaimIs(s, x);
      s := Ref(s, x);
      s := Unlink(s, x);
      s := Remove(s, x);
    }

    method Requeue(x: Id, cls: nat, ghost s0: State, ghost expendable: set<Id>)
      requires Inv(s) && Pulled(s0, s, cls, expendable) && OnList(s, x) && s.items[x].linked
      requires Class(s.items[x].lru) == cls
      modifies this`s
      ensures Inv(s) && Pulled(s0, s, cls, expendable)
      ensures var l := old(s.items[x].lru);
        old(l < |s.lists|) && l < |s.lists| && s.lists[l] == [x] + Without(old(s.lists[l]), x)
      ensures SpotOf(s, x) == MoveTo(old(s), x, old(s).items[x].lru)
    {
      var l := s.items[x].lru;
      CyclePulls(s0, s, x, l, cls, expendable);
      CycleKeeps(s, x, l);
      CycleIs(s, x, l);
      CycleSpot(s, x, l);
      s := Ref(s, x);
      s := Set(s, x, s.items[x].(active := false));
      s := Relist(s, x, l);
      s := Remove(s, x);
    }
  }

  // ---- a lock that is kept and not handed over ----

  const LONER := Item([7], 1, true, 1, 1, 0, 0, false, false)

  /** A cache of one item, in the HOT segment of class 1. */
  function Lone(): State {
    State(map[0 := LONER], map[LONER.key := 0], seq(LARGEST, l => if l == 1 then [0] else []),
      seq(LARGEST, l => if l == 1 then 1 else 0), seq(LARGEST, l => if l == 1 then 1 else 0), 1, multiset{}, multiset{})
  }

  lemma LonePlaces()
    ensures PlacesOk(Lone().items, Lone().lists)
  {}

  lemma LoneSizes()
    ensures SizesOk(Lone().items, Lone().lists, Lone().sizes, Lone().sizesBytes)
  {
    var s := Lone();
    forall l | 0 <= l < LARGEST
      ensures SizeOk(s.lists[l], s.items, s.sizes[l], s.sizesBytes[l])
    {
      if l == 1 {
        assert [0][1..] == [];
      }
    }
  }

  lemma LoneInv()
    ensures Inv(Lone())
  {
    LonePlaces();
    LoneSizes();
  }

  /** A pull that asks for an item. */
  function AskingPull(): Pull {
    Pull(HOT, false, true, false, 100, 20, 40, 3600, true, true)
  }

  /** Whenever a pull asks for an item and ends at the tail of a HOT or WARM list, it hands nothing over and
      keeps the tail's lock and a reference to it. */
  method AskedForStaysLocked(c: Cache, cls: nat, p: Pull, now: nat, taken: seq<bool>, flushed: set<Id>)
    returns (it: Option<Id>, ret: Option<Id>)
    requires Inv(c.s) && 0 < cls < WARM && p.segment in {HOT, WARM} && p.returnItem && |taken| == TRIES
    requires c.LiveTail(cls + p.segment, now, !taken[TRIES - 1], flushed)
    requires !Circles(c.s.items[Tail(c.s.lists[cls + p.segment])], p)
    requires forall id :: ListLock(id) !in c.locks
    modifies c
    ensures Inv(c.s) && ret.None? && it == Some(Tail(old(c.s.lists)[cls + p.segment]))
    ensures it.value in c.s.holders && c.Holding(it.value, old(c.locks))
  {
    var removed;
    removed, it, ret := c.PullTail(cls, p, now, taken, flushed);
  }

  /** So it is for the one item. */
  method LonerStaysLocked(c: Cache) returns (it: Option<Id>, ret: Option<Id>)
    requires c.s == Lone() && c.locks == {}
    modifies c
    ensures Inv(c.s) && it == Some(0) && ret.None? && 0 in c.s.holders && c.Holding(0, {})
  {
    LoneInv();
    it, ret := AskedForStaysLocked(c, 1, AskingPull(), 0, [false, false, false, false, false], {});
  }
}
