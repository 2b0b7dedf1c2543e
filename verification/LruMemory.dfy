/** The LRU lists in memory: heads and tails by list, and the link fields all lists share, updated in
    place. */
module LruMemory {
  import opened LruList
  import opened LruLists

  class Lrus {
    const heads: array<int>
    const tails: array<int>
    const prev: array<int>
    const next: array<int>
    /** The items of each list in order, head first. */
    ghost var lists: seq<seq<nat>>

    constructor (lists: nat, items: nat)
      ensures Valid() && this.lists == seq(lists, _ => []) && next.Length == items
      ensures fresh(heads) && fresh(tails) && fresh(prev) && fresh(next)
    {
      heads, tails := new int[lists](_ => NULL), new int[lists](_ => NULL);
      prev, next := new int[items], new int[items];
      this.lists := seq(lists, _ => []);
    }

    /** Four arrays, none of them the other. */
    predicate Separate() {
      && heads != tails && heads != prev && heads != next && tails != prev && tails != next && prev != next
      && heads.Length == tails.Length && prev.Length == next.Length
    }

    ghost function View(k: nat): Links
      requires Separate() && k < heads.Length
      reads heads, tails, prev, next
    {
      Links(heads[k], tails[k], prev[..], next[..])
    }

    ghost predicate Valid()
      reads this, heads, tails, prev, next
    {
      Separate() && AllLinked(lists, heads[..], tails[..], prev[..], next[..])
    }

    lemma Here(k: nat)
      requires Valid() && k < |lists|
      ensures k < heads.Length && Linked(lists[k], View(k))
    {
      assert LinkedThere(lists, heads[..], tails[..], prev[..], next[..], k);
    }

    /** do_item_link_q: the item becomes the head. */
    method LinkQ(k: nat, it: nat)
      requires Valid() && k < |lists| && it < next.Length && Absent(lists, it)
      modifies this, heads, tails, prev, next
      ensures Valid() && lists == old(lists)[k := [it] + old(lists)[k]]
    {
      Here(k);
      ghost var l, heads0, tails0 := View(k), heads[..], tails[..];
      HeadLinkedOk(lists[k], l, it);
      HeadLinkedTouches(lists[k], l, it);
      OneChanges(lists, heads0, tails0, l, k, [it] + lists[k], HeadLinked(l, it), [it] + lists[k]);
      HeadLink(k, it);
      lists := lists[k := [it] + lists[k]];
      Assemble(k, heads0, tails0);
    }

    method HeadLink(k: nat, it: nat)
      requires Separate() && k < heads.Length && it < next.Length && (heads[k] == NULL || 0 <= heads[k] < prev.Length)
      modifies heads, tails, prev, next
      ensures View(k) == HeadLinked(old(View(k)), it) && Elsewhere(k, old(heads[..]), old(tails[..]))
    {
      prev[it] := NULL;
      next[it] := heads[k];
      if next[it] != NULL {
        prev[next[it]] := it;
      }
      heads[k] := it;
      if tails[k] == NULL {
        tails[k] := it;
      }
    }

    /** The heads and tails of the other lists are what they were. */
    ghost predicate Elsewhere(k: nat, heads0: seq<int>, tails0: seq<int>)
      reads heads, tails
    {
      && |heads0| == heads.Length && |tails0| == tails.Length && k < heads.Length && k < tails.Length
      && heads[..] == heads0[k := heads[k]] && tails[..] == tails0[k := tails[k]]
    }

    lemma Assemble(k: nat, heads0: seq<int>, tails0: seq<int>)
      requires Separate() && k < |lists| && Elsewhere(k, heads0, tails0)
      requires AllLinked(lists, heads0[k := heads[k]], tails0[k := tails[k]], prev[..], next[..])
      ensures Valid()
    {}

    /** do_item_linktail_q: the crawler becomes the tail. */
    method LinkTailQ(k: nat, it: nat)
      requires Valid() && k < |lists| && it < next.Length && Absent(lists, it)
      modifies this, heads, tails, prev, next
      ensures Valid() && lists == old(lists)[k := old(lists)[k] + [it]]
    {
      Here(k);
      ghost var l, heads0, tails0 := View(k), heads[..], tails[..];
      TailLinkedOk(lists[k], l, it);
      TailLinkedTouches(lists[k], l, it);
      OneChanges(lists, heads0, tails0, l, k, lists[k] + [it], TailLinked(l, it), lists[k] + [it]);
      TailLink(k, it);
      lists := lists[k := lists[k] + [it]];
      Assemble(k, heads0, tails0);
    }

    method TailLink(k: nat, it: nat)
      requires Separate() && k < heads.Length && it < next.Length && (tails[k] == NULL || 0 <= tails[k] < prev.Length)
      modifies heads, tails, prev, next
      ensures View(k) == TailLinked(old(View(k)), it) && Elsewhere(k, old(heads[..]), old(tails[..]))
    {
      prev[it] := tails[k];
      next[it] := NULL;
      if prev[it] != NULL {
        next[prev[it]] := it;
      }
      tails[k] := it;
      if heads[k] == NULL {
        heads[k] := it;
      }
    }

    /** The link changes of do_item_unlink_q and do_item_unlinktail_q. */
    method Unhook(k: nat, it: nat)
      requires Separate() && k < heads.Length && Sane(View(k), it)
      modifies heads, tails, prev, next
      ensures View(k) == Unhooked(old(View(k)), it) && Elsewhere(k, old(heads[..]), old(tails[..]))
    {
      if heads[k] == it {
        heads[k] := next[it];
      }
      if tails[k] == it {
        tails[k] := prev[it];
      }
      if next[it] != NULL {
        prev[next[it]] := prev[it];
      }
      if prev[it] != NULL {
        next[prev[it]] := next[it];
      }
    }

    /** do_item_unlink_q. */
    method UnlinkQ(k: nat, it: nat, ghost i: nat)
      requires Valid() && k < |lists| && i < |lists[k]| && lists[k][i] == it
      modifies this, heads, tails, prev, next
      ensures Valid() && lists == old(lists)[k := Cut(old(lists)[k], i)]
    {
      Here(k);
      ghost var l, heads0, tails0 := View(k), heads[..], tails[..];
      UnhookedOk(lists[k], l, i);
      UnhookedTouches(lists[k], l, i);
      OneChanges(lists, heads0, tails0, l, k, Cut(lists[k], i), Unhooked(l, it), lists[k]);
      Unhook(k, it);
      lists := lists[k := Cut(lists[k], i)];
      Assemble(k, heads0, tails0);
    }

    /** do_item_unlinktail_q on a crawler that is on the list at `i`, or whose removal has already been
        done. */
    method UnlinkTailQ(k: nat, it: nat, ghost on: bool, ghost i: nat)
      requires Valid() && k < |lists|
      requires if on then i < |lists[k]| && lists[k][i] == it else Sane(View(k), it) && Unhooked(View(k), it) == View(k)
      modifies this, heads, tails, prev, next
      ensures Valid() && lists == if on then old(lists)[k := Cut(old(lists)[k], i)] else old(lists)
    {
      Here(k);
      ghost var l, heads0, tails0, lists' := View(k), heads[..], tails[..], lists;
      if on {
        UnhookedOk(lists[k], l, i);
        UnhookedTouches(lists[k], l, i);
        OneChanges(lists, heads0, tails0, l, k, Cut(lists[k], i), Unhooked(l, it), lists[k]);
        lists' := lists[k := Cut(lists[k], i)];
      } else {
        assert heads0[k := l.head] == heads0 && tails0[k := l.tail] == tails0;
      }
      Unhook(k, it);
      lists := lists';
      Assemble(k, heads0, tails0);
    }

    /** do_item_crawl_q with the crawler at the head: it is popped off. */
    method Pop(k: nat, it: nat)
      requires Separate() && k < heads.Length && Sane(View(k), it)
      modifies heads, prev
      ensures View(k) == Popped(old(View(k)), it) && Elsewhere(k, old(heads[..]), old(tails[..]))
    {
      if next[it] != NULL {
        heads[k] := next[it];
        prev[next[it]] := NULL;
      }
    }

    /** do_item_crawl_q with an item before the crawler, first half. */
    method SwingOut(k: nat, it: nat)
      requires Separate() && k < heads.Length && Sane(View(k), it) && prev[it] != NULL && prev[it] != it
        && next[it] != it
      modifies heads, tails, prev, next
      ensures View(k) == SwungOut(old(View(k)), it) && Elsewhere(k, old(heads[..]), old(tails[..]))
    {
      if heads[k] == prev[it] {
        heads[k] := it;
      }
      if tails[k] == it {
        tails[k] := prev[it];
      }
      if next[it] != NULL {
        next[prev[it]] := next[it];
        prev[next[it]] := prev[it];
      } else {
        next[prev[it]] := NULL;
      }
    }

    /** Second half. */
    method SwingIn(k: nat, it: nat, p: nat)
      requires Separate() && k < heads.Length && it < next.Length && prev[it] == p < prev.Length && p != it
      requires prev[p] == NULL || 0 <= prev[p] < next.Length
      modifies prev, next
      ensures View(k) == SwungIn(old(View(k)), it, p)
    {
      next[it] := prev[it];
      prev[it] := prev[next[it]];
      prev[next[it]] := it;
      if prev[it] != NULL {
        next[prev[it]] := it;
      }
    }

    method Swing(k: nat, it: nat, ghost i: nat)
      requires Valid() && k < |lists| && 0 < i < |lists[k]| && lists[k][i] == it
      modifies heads, tails, prev, next
      ensures Sane(old(View(k)), it) && old(prev[it]) == lists[k][i - 1] && Sane(old(View(k)), old(prev[it]))
      ensures View(k) == Swung(old(View(k)), it) && Elsewhere(k, old(heads[..]), old(tails[..]))
    {
      Here(k);
      LinkedSane(lists[k], View(k), i);
      LinkedSane(lists[k], View(k), i - 1);
      Neighbours(lists[k], i, i);
      var p := prev[it];
      SwingOut(k, it);
      SwingIn(k, it, p);
    }

    method CrawlOff(k: nat, it: nat)
      requires Valid() && k < |lists| && |lists[k]| > 0 && lists[k][0] == it
      modifies this, heads, prev
      ensures Valid() && lists == old(lists)[k := Crawled(old(lists)[k], 0)]
      ensures Sane(old(View(k)), it) && View(k) == Popped(old(View(k)), it)
    {
      Here(k);
      ghost var l, heads0, tails0, list := View(k), heads[..], tails[..], lists[k];
      PoppedOk(list, l);
      PoppedTouches(list, l);
      OneChanges(lists, heads0, tails0, l, k, Crawled(list, 0), Popped(l, it), list);
      Pop(k, it);
      lists := lists[k := Crawled(list, 0)];
      Assemble(k, heads0, tails0);
    }

    method CrawlPast(k: nat, it: nat, ghost i: nat) returns (r: int)
      requires Valid() && k < |lists| && 0 < i < |lists[k]| && lists[k][i] == it
      modifies this, heads, tails, prev, next
      ensures Valid() && lists == old(lists)[k := SwapBack(old(lists)[k], i)] && r == old(lists)[k][i - 1]
    {
      Here(k);
      ghost var l, heads0, tails0, list := View(k), heads[..], tails[..], lists[k];
      SwungOk(list, l, i);
      SwungTouches(list, l, i);
      OneChanges(lists, heads0, tails0, l, k, SwapBack(list, i), Swung(l, it), list);
      Swing(k, it, i);
      assert View(k) == Swung(l, it);
      r := next[it];
      lists := lists[k := SwapBack(list, i)];
      Assemble(k, heads0, tails0);
    }

    /** do_item_crawl_q: the crawler changes places with the item before it and that item is
        returned; at the head it is popped off and NULL returned. */
    method CrawlQ(k: nat, it: nat, ghost i: nat) returns (r: int)
      requires Valid() && k < |lists| && i < |lists[k]| && lists[k][i] == it
      modifies this, heads, tails, prev, next
      ensures Valid() && lists == old(lists)[k := Crawled(old(lists)[k], i)] && r == Before(old(lists)[k], i)
      ensures i == 0 ==> Sane(old(View(k)), it) && View(k) == Popped(old(View(k)), it)
    {
      Here(k);
      LinkedSane(lists[k], View(k), i);
      if prev[it] == NULL {
        CrawlOff(k, it);
        r := NULL;
      } else {
        r := CrawlPast(k, it, i);
      }
    }
  }

  /** The list after a turn of the crawler at position `i`. */
  function Crawled(list: seq<nat>, i: nat): seq<nat>
    requires i < |list|
  {
    if i > 0 then SwapBack(list, i) else if |list| > 1 then list[1..] else list
  }
}
