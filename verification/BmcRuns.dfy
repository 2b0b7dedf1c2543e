/** Runs of the slot steps of all cores in any order. */
module BmcRuns {
  import opened Bmc

  // ---- what a valid slot stores ----

  /** A reply whose name ends in a space, before any line end. */
  predicate Proper(reply: seq<Byte>) {
    var n := |Name(reply)|;
    |reply| > KEY_AT + n && reply[KEY_AT + n] == SPACE && forall i :: 0 <= i < KEY_AT + n ==> reply[i] != LF
  }

  /** A valid slot is the one its hash belongs to, and stores a reply for a name with that hash. */
  predicate SlotOk(i: nat, e: Entry) {
    EntryOk(e) && (e.valid ==> Slot(e.hash) == i && Proper(Content(e)) && Fnv(Name(Content(e))) == e.hash)
  }

  lemma {:induction false} NoLines(s: seq<Byte>)
    requires forall i :: 0 <= i < |s| ==> s[i] != LF
    ensures Lines(s) == 0
    decreases |s|
  {
    if |s| > 0 {
      NoLines(s[..|s| - 1]);
    }
  }

  /** Nothing before the second line end is left out. */
  lemma {:induction false} StoreReaches(reply: seq<Byte>, j: nat, m: nat)
    requires j <= m <= |reply| && m <= MAX_DATA && forall i :: 0 <= i < m ==> reply[i] != LF
    ensures StoreFrom(reply, j) >= m
    decreases m - j
  {
    if j < m {
      NoLines(reply[..j]);
      StoreReaches(reply, j + 1, m);
    }
  }

  lemma SliceOfPrefix(s: seq<Byte>, n: nat, from: nat, end: nat)
    requires from <= end <= n <= |s|
    ensures s[..n][from..end] == s[from..end]
  {
    var x, y := s[..n][from..end], s[from..end];
    assert |x| == |y| && forall i :: 0 <= i < |x| ==> x[i] == y[i];
  }

  /** A prefix that reaches past the name has the same name. */
  lemma NameOfPrefix(reply: seq<Byte>, n: nat)
    requires Proper(reply) && KEY_AT + |Name(reply)| < n <= |reply|
    ensures Name(reply[..n]) == Name(reply) && Proper(reply[..n])
  {
    var k, prefix := |Name(reply)|, reply[..n];
    SpanHas(reply, KEY_AT, MAX_KEY, false);
    SpanIs(prefix, KEY_AT, MAX_KEY, false, k);
    SliceOfPrefix(reply, n, KEY_AT, KEY_AT + k);
  }

  /** A copy of a proper reply holds its name, complete or not, whatever was there before. */
  lemma CopyHasName(e: Entry, hash: Word, reply: seq<Byte>)
    requires EntryOk(e) && Proper(reply) && !UpToDate(e, hash, reply)
    ensures var c := Content(Filled(e, hash, reply));
      c == reply[..StoreLen(reply)] && Proper(c) && Name(c) == Name(reply)
  {
    StoreReaches(reply, 0, KEY_AT + |Name(reply)| + 1);
    NameOfPrefix(reply, StoreLen(reply));
    assert Content(Filled(e, hash, reply)) == reply[..StoreLen(reply)];
  }

  /** A reply does no harm to a slot if the copy is complete, or the slot is not valid, or it has the
      reply's hash already. */
  predicate Harmless(e: Entry, hash: Word, reply: seq<Byte>) {
    Complete(reply) || !e.valid || e.hash == hash
  }

  /** Exactly those leave the slot in order. */
  lemma FillOkIff(i: nat, e: Entry, hash: Word, reply: seq<Byte>)
    requires SlotOk(i, e) && Proper(reply) && hash == Fnv(Name(reply)) && i == Slot(hash)
    ensures SlotOk(i, Filled(e, hash, reply)) <==> Harmless(e, hash, reply)
  {
    if !UpToDate(e, hash, reply) {
      CopyHasName(e, hash, reply);
    }
  }

  lemma {:induction false} SameUpTo(e: Entry, reply: seq<Byte>, off: nat, end: nat)
    requires EntryOk(e) && KEY_AT <= off <= end < |reply| && end < e.len && end - KEY_AT <= MAX_KEY
    requires forall i :: off <= i < end ==> reply[i] == e.data[i] && reply[i] != SPACE
    requires reply[end] == SPACE && e.data[end] == SPACE
    ensures SameFrom(e, reply, off)
    decreases end - off
  {
    if off < end {
      SameUpTo(e, reply, off + 1, end);
    }
  }

  lemma {:induction false} SameMeans(e: Entry, reply: seq<Byte>, off: nat, i: nat)
    requires EntryOk(e) && SameFrom(e, reply, off) && KEY_AT <= off <= i < |reply| && i < e.len && i - KEY_AT < MAX_KEY
    requires forall j :: off <= j < i ==> reply[j] != SPACE || e.data[j] != SPACE
    ensures reply[i] == e.data[i]
    decreases i - off
  {
    if off < i {
      SameMeans(e, reply, off + 1, i);
    }
  }

  lemma NamesSame(e: Entry, reply: seq<Byte>)
    requires EntryOk(e) && Proper(Content(e)) && Proper(reply) && Name(Content(e)) == Name(reply)
    ensures SameFrom(e, reply, KEY_AT)
  {
    var c, n := Content(e), |Name(reply)|;
    SpanHas(reply, KEY_AT, MAX_KEY, false);
    forall i | KEY_AT <= i < KEY_AT + n
      ensures reply[i] == e.data[i] && reply[i] != SPACE
    {
      assert Name(c)[i - KEY_AT] == Name(reply)[i - KEY_AT];
    }
    SameUpTo(e, reply, KEY_AT, KEY_AT + n);
  }

  lemma SameNames(e: Entry, reply: seq<Byte>)
    requires EntryOk(e) && Proper(Content(e)) && Proper(reply) && SameFrom(e, reply, KEY_AT)
    ensures Name(Content(e)) == Name(reply)
  {
    var c := Content(e);
    SpanHas(c, KEY_AT, MAX_KEY, false);
    SpanHas(reply, KEY_AT, MAX_KEY, false);
    var m, n := |Name(c)|, |Name(reply)|;
    if m != n {
      SameMeans(e, reply, KEY_AT, KEY_AT + if m < n then m else n);
    }
    forall i | KEY_AT <= i < KEY_AT + n
      ensures c[i] == reply[i]
    {
      SameMeans(e, reply, KEY_AT, i);
    }
    assert c[KEY_AT..KEY_AT + n] == reply[KEY_AT..KEY_AT + n];
  }

  /** The comparison is right about slots and replies that are well formed: a slot is spared only if
      it holds a reply for the very same name. */
  lemma SameIffNames(e: Entry, reply: seq<Byte>)
    requires EntryOk(e) && Proper(Content(e)) && Proper(reply)
    ensures SameFrom(e, reply, KEY_AT) <==> Name(Content(e)) == Name(reply)
  {
    if SameFrom(e, reply, KEY_AT) {
      SameNames(e, reply);
    }
    if Name(Content(e)) == Name(reply) {
      NamesSame(e, reply);
    }
  }

  /** A key found at the name's place is no longer than the name. */
  lemma KeyInName(e: Entry, key: seq<Byte>)
    requires EntryOk(e) && Proper(Content(e)) && |key| <= MAX_KEY && SPACE !in key
      && e.data[KEY_AT..KEY_AT + |key|] == key
    ensures key <= Name(Content(e))
  {
    var c, n := Content(e), |key|;
    assert c[KEY_AT + |Name(c)|] == e.data[KEY_AT + |Name(c)|] == SPACE;
    assert forall j :: 0 <= j < n ==> key[j] in key && e.data[KEY_AT..KEY_AT + n][j] == e.data[KEY_AT + j] == key[j];
    assert n <= |Name(c)|;
    SliceOfPrefix(e.data, e.len, KEY_AT, KEY_AT + n);
    assert Name(c)[..n] == c[KEY_AT..KEY_AT + n];
  }

  /** What a GET copies out of a slot in order is a reply for a name that has the key's hash and begins
      with the key; it is the key's own exactly if the name ends where the key does. */
  lemma CopiedIsForKey(i: nat, e: Entry, k: Saved)
    requires SlotOk(i, e) && SavedOk(k) && SPACE !in k.key && Copied(e, k) != []
    ensures Copied(e, k) == Content(e) && k.key <= Name(Content(e)) && Fnv(Name(Content(e))) == Fnv(k.key)
    ensures KEY_AT + |k.key| < e.len && (Name(Content(e)) == k.key <==> Content(e)[KEY_AT + |k.key|] == SPACE)
  {
    KeyInName(e, k.key);
    SpanHas(Content(e), KEY_AT, MAX_KEY, false);
  }

  // ---- runs ----

  /** What happens to one slot under its lock. `Read` is a GET copying out of the slot of the key it
      saved. */
  datatype Step = Invalidate(slot: nat) | Fill(slot: nat, hash: Word, reply: seq<Byte>) | Read(slot: nat, saved: Saved)

  function After(e: Entry, step: Step): (e': Entry)
    requires EntryOk(e)
    ensures EntryOk(e')
  {
    match step
    case Invalidate(_) => e.(valid := false)
    case Fill(_, hash, reply) => Filled(e, hash, reply)
    case Read(_, saved) => e
  }

  /** Slot `i`, which was `e` to begin with, after the first `n` steps of all cores. */
  function Then(e: Entry, steps: seq<Step>, n: nat, i: nat): (e': Entry)
    requires EntryOk(e) && n <= |steps|
    ensures EntryOk(e')
  {
    if n == 0 then e
    else
      var e1 := Then(e, steps, n - 1, i);
      if steps[n - 1].slot == i then After(e1, steps[n - 1]) else e1
  }

  /** A reply that fills slot `i` to the end. */
  predicate Fills(step: Step, i: nat) {
    step.Fill? && step.slot == i && Complete(step.reply)
  }

  lemma InvalidStays(e: Entry, step: Step)
    requires EntryOk(e) && !e.valid && !(step.Fill? && Complete(step.reply))
    ensures !After(e, step).valid
  {
  }

  lemma {:induction false} StaysInvalid(e: Entry, steps: seq<Step>, m: nat, n: nat, i: nat)
    requires EntryOk(e) && m <= n <= |steps| && !Then(e, steps, m, i).valid
    requires forall k :: m <= k < n ==> !Fills(steps[k], i)
    ensures !Then(e, steps, n, i).valid
    decreases n
  {
    if m < n {
      StaysInvalid(e, steps, m, n - 1, i);
      if steps[n - 1].slot == i {
        InvalidStays(Then(e, steps, n - 1, i), steps[n - 1]);
      }
    }
  }

  /** No GET copies anything out of a slot between an invalidation of the slot and its next
      completed fill. */
  lemma NoCopyAfterInvalidation(e: Entry, steps: seq<Step>, m: nat, n: nat)
    requires EntryOk(e) && m < n < |steps|
    requires steps[m].Invalidate? && steps[n].Read? && steps[m].slot == steps[n].slot
    requires |steps[n].saved.key| <= MAX_KEY && Copied(Then(e, steps, n, steps[n].slot), steps[n].saved) != []
    ensures exists k :: m < k < n && Fills(steps[k], steps[n].slot)
  {
    var i := steps[n].slot;
    if forall k :: m < k < n ==> !Fills(steps[k], i) {
      StaysInvalid(e, steps, m + 1, n, i);
    }
  }

  /** A reply has a name, and the hash and the slot are those of the name. */
  predicate Hashed(step: Step) {
    step.Fill? ==> Proper(step.reply) && step.hash == Fnv(Name(step.reply)) && step.slot == Slot(step.hash)
  }

  /** Step `k` does slot `i` no harm. */
  predicate Spares(e: Entry, steps: seq<Step>, k: nat, i: nat)
    requires EntryOk(e) && k < |steps|
  {
    steps[k].Fill? && steps[k].slot == i ==> Harmless(Then(e, steps, k, i), steps[k].hash, steps[k].reply)
  }

  lemma StepOkIff(e: Entry, steps: seq<Step>, k: nat, i: nat)
    requires EntryOk(e) && k < |steps| && Hashed(steps[k]) && SlotOk(i, Then(e, steps, k, i))
    ensures SlotOk(i, Then(e, steps, k + 1, i)) <==> Spares(e, steps, k, i)
  {
    if steps[k].Fill? && steps[k].slot == i {
      FillOkIff(i, Then(e, steps, k, i), steps[k].hash, steps[k].reply);
    }
  }

  /** Slot `i` is in order at every moment of the first `n` steps. */
  predicate InOrder(e: Entry, steps: seq<Step>, n: nat, i: nat)
    requires EntryOk(e) && n <= |steps|
  {
    SlotOk(i, Then(e, steps, n, i)) && (n > 0 ==> InOrder(e, steps, n - 1, i))
  }

  predicate Spared(e: Entry, steps: seq<Step>, n: nat, i: nat)
    requires EntryOk(e) && n <= |steps|
  {
    n > 0 ==> Spares(e, steps, n - 1, i) && Spared(e, steps, n - 1, i)
  }

  /** Whatever the cores do, a slot that is valid stores a reply for a name with its hash, in the place
      that hash belongs to, at every moment of a run exactly if no fill does it harm. */
  lemma {:induction false} ValidSlotsMatch(e: Entry, steps: seq<Step>, n: nat, i: nat)
    requires n <= |steps| && SlotOk(i, e) && forall k :: 0 <= k < n ==> Hashed(steps[k])
    ensures InOrder(e, steps, n, i) <==> Spared(e, steps, n, i)
    decreases n
  {
    if n > 0 {
      ValidSlotsMatch(e, steps, n - 1, i);
      if InOrder(e, steps, n - 1, i) {
        StepOkIff(e, steps, n - 1, i);
      }
    }
  }

  /** "eqc" and "qbj". */
  const FIRST: seq<Byte> := [101, 113, 99]
  const SECOND: seq<Byte> := [113, 98, 106]
  const SHARED := 2582416

  /** "VALUE name " with nothing after it. */
  function CutReply(name: seq<Byte>): seq<Byte> {
    [86, 65, 76, 85, 69, SPACE] + name + [SPACE]
  }

  lemma HashOfThree(x: Byte, y: Byte, z: Byte)
    ensures Fnv([x, y, z]) == FnvStep(FnvStep(FnvStep(FNV_BASIS, x), y), z)
  {
    assert [x, y, z][..2] == [x, y] && [x, y][..1] == [x] && [x][..0] == [];
    assert FnvFrom(FNV_BASIS, [x]) == FnvStep(FNV_BASIS, x);
    assert FnvFrom(FNV_BASIS, [x, y]) == FnvStep(FnvStep(FNV_BASIS, x), y);
  }

  lemma HashOfFirst()
    ensures Fnv(FIRST) == Word(1435832416)
  {
    HashOfThree(101, 113, 99);
  }

  lemma HashOfSecond()
    ensures Fnv(SECOND) == Word(4279582416)
  {
    HashOfThree(113, 98, 106);
  }

  /** Two names with different hashes and the same slot. */
  lemma SlotsCollide()
    ensures Fnv(FIRST) != Fnv(SECOND) && Slot(Fnv(FIRST)) == Slot(Fnv(SECOND)) == SHARED
  {
    HashOfFirst();
    HashOfSecond();
  }

  lemma CutReplyIs(name: seq<Byte>)
    requires |name| == 3 && forall i :: 0 <= i < 3 ==> name[i] != SPACE && name[i] != LF
    ensures Name(CutReply(name)) == name && Proper(CutReply(name)) && !Complete(CutReply(name))
  {
    var reply := CutReply(name);
    SpanIs(reply, KEY_AT, MAX_KEY, false, 3);
    assert reply[KEY_AT..KEY_AT + 3] == name;
    NoLines(reply[..StoreLen(reply)]);
  }

  /** "VALUE name 0 0" and an empty value. */
  function WholeReply(name: seq<Byte>): seq<Byte> {
    CutReply(name) + [48, SPACE, 48, CR, LF, CR, LF]
  }

  lemma LineMore(s: seq<Byte>, b: Byte)
    ensures Lines(s + [b]) == Lines(s) + if b == LF then 1 else 0
  {
    assert (s + [b])[..|s|] == s;
  }

  lemma {:induction false} LinesGrow(s: seq<Byte>, n: nat)
    requires n <= |s|
    ensures Lines(s[..n]) <= Lines(s)
    decreases |s| - n
  {
    if n < |s| {
      assert s[..n + 1][..n] == s[..n];
      LinesGrow(s, n + 1);
    } else {
      assert s[..n] == s;
    }
  }

  /** A reply of two lines, and no more, is stored whole. */
  lemma {:induction false} StoresWhole(reply: seq<Byte>, j: nat)
    requires j <= |reply| <= MAX_DATA && |reply| > 0 && Lines(reply[..|reply| - 1]) == 1
    ensures StoreFrom(reply, j) == |reply|
    decreases |reply| - j
  {
    if j < |reply| {
      assert reply[..|reply| - 1][..j] == reply[..j];
      LinesGrow(reply[..|reply| - 1], j);
      StoresWhole(reply, j + 1);
    }
  }

  lemma WholeReplyLines(name: seq<Byte>)
    requires |name| == 3 && forall i :: 0 <= i < 3 ==> name[i] != SPACE && name[i] != LF
    ensures var reply := WholeReply(name);
      |reply| == 17 && Lines(reply[..16]) == 1 && Lines(reply) == 2
  {
    var reply, cut := WholeReply(name), CutReply(name) + [48, SPACE, 48, CR];
    NoLines(cut);
    LineMore(cut, LF);
    LineMore(cut + [LF], CR);
    assert reply[..16] == cut + [LF] + [CR];
    LineMore(reply[..16], LF);
    assert reply == reply[..16] + [LF];
  }

  lemma WholeReplyIs(name: seq<Byte>)
    requires |name| == 3 && forall i :: 0 <= i < 3 ==> name[i] != SPACE && name[i] != LF
    ensures Name(WholeReply(name)) == name && Proper(WholeReply(name)) && Complete(WholeReply(name))
  {
    var reply := WholeReply(name);
    SpanIs(reply, KEY_AT, MAX_KEY, false, 3);
    assert reply[KEY_AT..KEY_AT + 3] == name;
    WholeReplyLines(name);
    StoresWhole(reply, 0);
    assert reply[..|reply|] == reply;
  }

  /** A reply for the first name that is complete, and one for the second that is cut short. */
  function HarmfulSteps(): seq<Step> {
    [Fill(SHARED, Fnv(FIRST), WholeReply(FIRST)), Fill(SHARED, Fnv(SECOND), CutReply(SECOND))]
  }

  lemma FirstFillWorks(e: Entry)
    requires EntryOk(e) && !e.valid
    ensures var e1 := Filled(e, Fnv(FIRST), WholeReply(FIRST)); SlotOk(SHARED, e1) && e1.valid && e1.hash == Fnv(FIRST)
  {
    SlotsCollide();
    WholeReplyIs(FIRST);
    FillOkIff(SHARED, e, Fnv(FIRST), WholeReply(FIRST));
  }

  /** And harm is done: after these two steps a slot that was in order is valid, with the first name's
      hash, over a reply for the second. */
  lemma CutReplyDoesHarm(e: Entry)
    requires EntryOk(e) && !e.valid
    ensures Hashed(HarmfulSteps()[0]) && Hashed(HarmfulSteps()[1])
    ensures SlotOk(SHARED, e) && SlotOk(SHARED, Then(e, HarmfulSteps(), 1, SHARED))
    ensures var e2 := Then(e, HarmfulSteps(), 2, SHARED);
      e2.valid && e2.hash == Fnv(FIRST) && Name(Content(e2)) == SECOND && !SlotOk(SHARED, e2)
  {
    SlotsCollide();
    WholeReplyIs(FIRST);
    CutReplyIs(SECOND);
    FirstFillWorks(e);
    var e1 := Filled(e, Fnv(FIRST), WholeReply(FIRST));
    assert Then(e, HarmfulSteps(), 1, SHARED) == e1;
    CutOver(e1);
  }

  lemma CutOver(e: Entry)
    requires SlotOk(SHARED, e) && e.valid && e.hash == Fnv(FIRST)
    ensures var e' := Filled(e, Fnv(SECOND), CutReply(SECOND));
      e'.valid && e'.hash == Fnv(FIRST) && Name(Content(e')) == SECOND && !SlotOk(SHARED, e')
  {
    SlotsCollide();
    CutReplyIs(SECOND);
    CopyHasName(e, Fnv(SECOND), CutReply(SECOND));
    FillOkIff(SHARED, e, Fnv(SECOND), CutReply(SECOND));
  }

  // ---- where the bytes come from ----

  /** Does the step write into the slot it locks, whose entry is `e`? */
  predicate Writes(e: Entry, step: Step)
    requires EntryOk(e)
  {
    step.Fill? && !UpToDate(e, step.hash, step.reply)
  }

  /** The slot holds the reply up to its second line end. */
  predicate Holds(e: Entry, reply: seq<Byte>) {
    EntryOk(e) && Content(e) == reply[..StoreLen(reply)]
  }

  /** Step `k` invalidates slot `i` or writes into it. */
  predicate Changes(e: Entry, steps: seq<Step>, k: nat, i: nat)
    requires EntryOk(e) && k < |steps|
  {
    steps[k].slot == i && (steps[k].Invalidate? || Writes(Then(e, steps, k, i), steps[k]))
  }

  /** No step from `m` to `n` changes slot `i`. */
  ghost predicate Quiet(e: Entry, steps: seq<Step>, m: nat, n: nat, i: nat)
    requires EntryOk(e) && n <= |steps|
    decreases n
  {
    n <= m || (!Changes(e, steps, n - 1, i) && Quiet(e, steps, m, n - 1, i))
  }

  lemma AfterIs(e: Entry, step: Step)
    requires EntryOk(e) && After(e, step).valid
    ensures !step.Invalidate? && (After(e, step) == e || Writes(e, step))
  {
  }

  lemma WrittenIs(e: Entry, step: Step)
    requires EntryOk(e) && Writes(e, step)
    ensures Holds(After(e, step), step.reply)
  {
    assert Content(After(e, step)) == step.reply[..StoreLen(step.reply)];
  }

  /** What a valid slot holds is the reply that last wrote into it, and it has not been invalidated
      since. */
  lemma {:induction false} ValidSlotsHoldLastReply(e: Entry, steps: seq<Step>, n: nat, i: nat) returns (m: nat)
    requires EntryOk(e) && n <= |steps| && !e.valid
    requires Then(e, steps, n, i).valid
    ensures m < n && Changes(e, steps, m, i) && steps[m].Fill?
    ensures Holds(Then(e, steps, n, i), steps[m].reply)
    ensures Quiet(e, steps, m + 1, n, i)
    decreases n
  {
    assert n > 0;
    var e1, step := Then(e, steps, n - 1, i), steps[n - 1];
    if step.slot == i && Writes(e1, step) {
      m := n - 1;
      WrittenIs(e1, step);
    } else {
      if step.slot == i {
        AfterIs(e1, step);
      }
      m := ValidSlotsHoldLastReply(e, steps, n - 1, i);
    }
  }
}
