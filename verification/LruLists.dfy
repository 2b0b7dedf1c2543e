/** Many lists over one set of link fields: a change to one of them leaves the others linked, because
    no item is on two. */
module LruLists {
  import opened LruList

  /** No item is on two lists. */
  ghost predicate Apart(lists: seq<seq<nat>>) {
    forall k, m, x :: 0 <= k < |lists| && 0 <= m < |lists| && x in lists[k] && x in lists[m] ==> k == m
  }

  ghost predicate Absent(lists: seq<seq<nat>>, x: nat) {
    forall k :: 0 <= k < |lists| ==> x !in lists[k]
  }

  predicate LinkedThere(lists: seq<seq<nat>>, heads: seq<int>, tails: seq<int>, prev: seq<int>, next: seq<int>,
    k: nat) {
    k < |lists| && k < |heads| && k < |tails| && Linked(lists[k], Links(heads[k], tails[k], prev, next))
  }

  /** All lists are spelled out by the heads, the tails and the link fields they share. */
  ghost predicate AllLinked(lists: seq<seq<nat>>, heads: seq<int>, tails: seq<int>, prev: seq<int>, next: seq<int>) {
    && |lists| == |heads| == |tails| && Apart(lists)
    && forall k :: 0 <= k < |lists| ==> LinkedThere(lists, heads, tails, prev, next, k)
  }

  /** From `l` to `l'` no link field has changed outside `xs`. */
  predicate Touches(l: Links, l': Links, xs: seq<nat>) {
    && |l.prev| == |l.next| == |l'.prev| == |l'.next|
    && forall x :: 0 <= x < |l.prev| && x !in xs ==> l'.prev[x] == l.prev[x] && l'.next[x] == l.next[x]
  }

  lemma HeadLinkedTouches(list: seq<nat>, l: Links, it: nat)
    requires Linked(list, l) && it < |l.prev|
    ensures Touches(l, HeadLinked(l, it), [it] + list)
  {
    assert it in [it] + list && forall x :: x in list ==> x in [it] + list;
    assert |list| > 0 ==> l.head == list[0] && list[0] in list;
  }

  lemma TailLinkedTouches(list: seq<nat>, l: Links, it: nat)
    requires Linked(list, l) && it < |l.prev|
    ensures Touches(l, TailLinked(l, it), list + [it])
  {
    assert it in list + [it] && forall x :: x in list ==> x in list + [it];
    assert |list| > 0 ==> l.tail == list[|list| - 1] && list[|list| - 1] in list;
  }

  /** The items next to a list item are on the list. */
  lemma NeighboursListed(list: seq<nat>, l: Links, i: nat)
    requires Linked(list, l) && i < |list|
    ensures Sane(l, list[i])
    ensures l.next[list[i]] != NULL ==> l.next[list[i]] in list
    ensures l.prev[list[i]] != NULL ==> l.prev[list[i]] in list
  {
    LinkedSane(list, l, i);
    assert i + 1 < |list| ==> list[i + 1] in list;
    assert i > 0 ==> list[i - 1] in list;
  }

  lemma UnhookedTouches(list: seq<nat>, l: Links, i: nat)
    requires Linked(list, l) && i < |list|
    ensures Sane(l, list[i]) && Touches(l, Unhooked(l, list[i]), list)
  {
    NeighboursListed(list, l, i);
  }

  lemma PoppedTouches(list: seq<nat>, l: Links)
    requires Linked(list, l) && |list| > 0
    ensures Sane(l, list[0]) && Touches(l, Popped(l, list[0]), list)
  {
    NeighboursListed(list, l, 0);
  }

  lemma SwungTouches(list: seq<nat>, l: Links, i: nat)
    requires Linked(list, l) && 0 < i < |list|
    ensures Sane(l, list[i]) && l.prev[list[i]] == list[i - 1] && Sane(l, list[i - 1])
    ensures Touches(l, Swung(l, list[i]), list)
  {
    LinkedSane(list, l, i);
    NeighboursListed(list, l, i);
    NeighboursListed(list, l, i - 1);
    assert list[i] in list && list[i - 1] in list;
  }

  /** A list none of whose items was touched is still linked. */
  lemma StillLinked(list: seq<nat>, head: int, tail: int, l: Links, l': Links, xs: seq<nat>)
    requires Linked(list, Links(head, tail, l.prev, l.next)) && Touches(l, l', xs)
    requires forall x :: x in list ==> x !in xs
    ensures Linked(list, Links(head, tail, l'.prev, l'.next))
  {
    var was, now := Links(head, tail, l.prev, l.next), Links(head, tail, l'.prev, l'.next);
    forall i | 0 <= i < |list|
      ensures LinkedAt(list, now, i)
    {
      LinkedSane(list, was, i);
      assert list[i] in list;
    }
    LinkedIntro(list, now);
  }

  /** List `k` becomes `list'`, and the others stay as they are. */
  lemma OneChanges(
    lists: seq<seq<nat>>, heads: seq<int>, tails: seq<int>, l: Links, k: nat, list': seq<nat>, l': Links, xs: seq<nat>)
    requires AllLinked(lists, heads, tails, l.prev, l.next) && k < |lists|
    requires Linked(list', l') && Touches(l, l', xs)
    requires forall m, x :: 0 <= m < |lists| && m != k && x in lists[m] ==> x !in xs && x !in list'
    ensures AllLinked(lists[k := list'], heads[k := l'.head], tails[k := l'.tail], l'.prev, l'.next)
  {
    var lists', heads', tails' := lists[k := list'], heads[k := l'.head], tails[k := l'.tail];
    forall m | 0 <= m < |lists|
      ensures LinkedThere(lists', heads', tails', l'.prev, l'.next, m)
    {
      if m != k {
        assert LinkedThere(lists, heads, tails, l.prev, l.next, m);
        StillLinked(lists[m], heads[m], tails[m], l, l', xs);
      }
    }
  }
}
