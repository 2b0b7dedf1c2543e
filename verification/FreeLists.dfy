/** The free lists of the slab classes in memory: the head and length of each, and the link fields of the
    chunks, which all lists share. */
module FreeLists {
  import opened LruList
  import opened LruLists

  function Last(list: seq<nat>): int {
    if |list| > 0 then list[|list| - 1] else NULL
  }

  /** No tail is kept in memory; these are what they would be. */
  function Lasts(lists: seq<seq<nat>>): seq<int> {
    seq(|lists|, k requires 0 <= k < |lists| => Last(lists[k]))
  }

  lemma LastsUpdate(lists: seq<seq<nat>>, k: nat, list: seq<nat>)
    requires k < |lists|
    ensures Lasts(lists[k := list]) == Lasts(lists)[k := Last(list)]
  {}

  lemma CutFirst(list: seq<nat>)
    requires |list| > 0
    ensures Cut(list, 0) == list[1..]
  {}

  predicate Counted(lists: seq<seq<nat>>, counts: seq<int>) {
    |counts| == |lists| && forall k :: 0 <= k < |lists| ==> counts[k] == |lists[k]|
  }

  class Slots {
    const slots: array<int>
    /** sl_curr. */
    const counts: array<int>
    const prev: array<int>
    const next: array<int>
    ghost var lists: seq<seq<nat>>

    constructor (classes: nat, chunks: nat)
      ensures Valid() && lists == seq(classes, _ => []) && next.Length == chunks
      ensures fresh(slots) && fresh(counts) && fresh(prev) && fresh(next)
    {
      slots, counts := new int[classes](_ => NULL), new int[classes](_ => 0);
      prev, next := new int[chunks], new int[chunks];
      lists := seq(classes, _ => []);
    }

    predicate Separate() {
      && slots != counts && slots != prev && slots != next && counts != prev && counts != next && prev != next
      && slots.Length == counts.Length && prev.Length == next.Length
    }

    ghost predicate Valid()
      reads this, slots, counts, prev, next
    {
      && Separate() && Counted(lists, counts[..])
      && AllLinked(lists, slots[..], Lasts(lists), prev[..], next[..])
    }

    /** The links as seen from list `k`. */
    ghost function View(k: nat, last: int): Links
      requires k < slots.Length
      reads slots, prev, next
    {
      Links(slots[k], last, prev[..], next[..])
    }

    lemma Here(k: nat)
      requires Valid() && k < |lists|
      ensures k < slots.Length && k < counts.Length && Linked(lists[k], View(k, Last(lists[k])))
        && counts[k] == |lists[k]|
    {
      assert LinkedThere(lists, slots[..], Lasts(lists), prev[..], next[..], k);
      assert counts[..][k] == |lists[k]|;
    }

    /** The heads of the other lists are what they were, and the lengths but for list `k`'s. */
    ghost predicate Elsewhere(k: nat, slots0: seq<int>, counts0: seq<int>, n: int)
      reads slots, counts
    {
      && k < |slots0| == slots.Length && k < |counts0| == counts.Length
      && slots[..] == slots0[k := slots[k]] && counts[..] == counts0[k := n]
    }

    lemma Assemble(k: nat, slots0: seq<int>, counts0: seq<int>, lists0: seq<seq<nat>>, list: seq<nat>)
      requires Separate() && k < |lists0| && lists == lists0[k := list] && Elsewhere(k, slots0, counts0, |list|)
      requires Counted(lists0, counts0)
      requires AllLinked(lists0[k := list], slots0[k := slots[k]], Lasts(lists0)[k := Last(list)], prev[..], next[..])
      ensures Valid()
    {
      LastsUpdate(lists0, k, list);
    }

    method LinkIn(k: nat, it: nat, ghost last: int, ghost last': int)
      requires Separate() && k < slots.Length && it < next.Length && (slots[k] == NULL || 0 <= slots[k] < prev.Length)
      requires last' == if last == NULL then it else last
      modifies slots, counts, prev, next
      ensures View(k, last') == HeadLinked(old(View(k, last)), it)
      ensures Elsewhere(k, old(slots[..]), old(counts[..]), old(counts[k]) + 1)
    {
      prev[it] := NULL;
      next[it] := slots[k];
      if next[it] != NULL {
        prev[next[it]] := it;
      }
      slots[k] := it;
      counts[k] := counts[k] + 1;
    }

    method LinkOut(k: nat, it: nat, ghost last: int, ghost last': int)
      requires Separate() && k < slots.Length && Sane(View(k, last), it)
      requires last' == if last == it then prev[it] else last
      modifies slots, counts, prev, next
      ensures View(k, last') == Unhooked(old(View(k, last)), it)
      ensures Elsewhere(k, old(slots[..]), old(counts[..]), old(counts[k]) - 1)
    {
      if slots[k] == it {
        slots[k] := next[it];
      }
      if next[it] != NULL {
        prev[next[it]] := prev[it];
      }
      if prev[it] != NULL {
        next[prev[it]] := next[it];
      }
      counts[k] := counts[k] - 1;
    }

    method HeadOut(k: nat, it: nat, ghost last: int, ghost last': int)
      requires Separate() && k < slots.Length && Sane(View(k, last), it) && slots[k] == it && prev[it] == NULL
      requires last' == if last == it then NULL else last
      modifies slots, counts, prev, next
      ensures View(k, last') == Unhooked(old(View(k, last)), it)
      ensures Elsewhere(k, old(slots[..]), old(counts[..]), old(counts[k]) - 1)
    {
      slots[k] := next[it];
      if next[it] != NULL {
        prev[next[it]] := NULL;
      }
      counts[k] := counts[k] - 1;
    }

    /** do_slabs_free: the chunk becomes the head. */
    method Push(k: nat, it: nat)
      requires Valid() && k < |lists| && it < next.Length && Absent(lists, it)
      modifies this`lists, slots, counts, prev, next
      ensures Valid() && lists == old(lists)[k := [it] + old(lists)[k]]
    {
      Here(k);
      ghost var list, l := [it] + lists[k], View(k, Last(lists[k]));
      HeadLinkedOk(lists[k], l, it);
      HeadLinkedTouches(lists[k], l, it);
      OneChanges(lists, slots[..], Lasts(lists), l, k, list, HeadLinked(l, it), list);
      LinkIn(k, it, Last(lists[k]), Last(list));
      lists := lists[k := list];
      Assemble(k, old(slots[..]), old(counts[..]), old(lists), list);
    }

    /** slab_rebalance_cut_free of the chunk at place `i`. */
    method CutFree(k: nat, it: nat, ghost i: nat)
      requires Valid() && k < |lists| && i < |lists[k]| && lists[k][i] == it
      modifies this`lists, slots, counts, prev, next
      ensures Valid() && lists == old(lists)[k := Cut(old(lists)[k], i)]
    {
      Here(k);
      ghost var list, l := Cut(lists[k], i), View(k, Last(lists[k]));
      UnhookedOk(lists[k], l, i);
      UnhookedTouches(lists[k], l, i);
      OneChanges(lists, slots[..], Lasts(lists), l, k, list, Unhooked(l, it), lists[k]);
      LinkOut(k, it, Last(lists[k]), Last(list));
      lists := lists[k := list];
      Assemble(k, old(slots[..]), old(counts[..]), old(lists), list);
    }

    /** The head of the list comes off, as in do_slabs_alloc. */
    method Pop(k: nat) returns (it: nat)
      requires Valid() && k < |lists| && |lists[k]| > 0
      modifies this`lists, slots, counts, prev, next
      ensures Valid() && it == old(lists)[k][0] && it < next.Length && lists == old(lists)[k := old(lists)[k][1..]]
    {
      Here(k);
      it := slots[k];
      ghost var list, l := Cut(lists[k], 0), View(k, Last(lists[k]));
      CutFirst(lists[k]);
      LinkedSane(lists[k], l, 0);
      UnhookedOk(lists[k], l, 0);
      UnhookedTouches(lists[k], l, 0);
      OneChanges(lists, slots[..], Lasts(lists), l, k, list, Unhooked(l, it), lists[k]);
      HeadOut(k, it, Last(lists[k]), Last(list));
      lists := lists[k := list];
      Assemble(k, old(slots[..]), old(counts[..]), old(lists), list);
    }
  }
}
