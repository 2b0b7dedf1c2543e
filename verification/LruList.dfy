/** One LRU list as it is linked in memory, and the shuffles on it: linking at the head or tail,
    unlinking, and the crawler changing places with the item before it. Items are numbered;
    `prev` and `next` are their link fields. */
module LruList {
  import opened Sequences

  const NULL := -1

  datatype Links = Links(head: int, tail: int, prev: seq<int>, next: seq<int>)

  /** The element after position `i`, or NULL at the end. */
  function After(list: seq<nat>, i: int): int
    requires 0 <= i < |list|
  {
    if i + 1 < |list| then list[i + 1] else NULL
  }

  function Before(list: seq<nat>, i: int): int
    requires 0 <= i < |list|
  {
    if i > 0 then list[i - 1] else NULL
  }

  predicate InRange(list: seq<nat>, l: Links) {
    |l.prev| == |l.next| && forall i :: 0 <= i < |list| ==> list[i] < |l.next|
  }

  /** The link fields, head and tail spell out `list`. */
  predicate Linked(list: seq<nat>, l: Links) {
    && InRange(list, l) && Distinct(list)
    && l.head == (if |list| > 0 then list[0] else NULL)
    && l.tail == (if |list| > 0 then list[|list| - 1] else NULL)
    && (forall i {:trigger l.next[list[i]]} :: 0 <= i < |list| ==> l.next[list[i]] == After(list, i))
    && (forall i {:trigger l.prev[list[i]]} :: 0 <= i < |list| ==> l.prev[list[i]] == Before(list, i))
  }

  function Cut(list: seq<nat>, i: nat): seq<nat>
    requires i < |list|
  {
    list[..i] + list[i + 1..]
  }

  function SwapBack(list: seq<nat>, i: nat): seq<nat>
    requires 0 < i < |list|
  {
    list[i - 1 := list[i]][i := list[i - 1]]
  }

  // ---- what the code does to the links ----

  /** do_item_link_q. */
  function HeadLinked(l: Links, it: nat): Links
    requires it < |l.prev| == |l.next| && (l.head == NULL || 0 <= l.head < |l.prev|)
  {
    var prev := l.prev[it := NULL];
    Links(it, if l.tail == NULL then it else l.tail,
      if l.head != NULL then prev[l.head := it] else prev, l.next[it := l.head])
  }

  /** do_item_linktail_q. */
  function TailLinked(l: Links, it: nat): Links
    requires it < |l.prev| == |l.next| && (l.tail == NULL || 0 <= l.tail < |l.prev|)
  {
    var next := l.next[it := NULL];
    Links(if l.head == NULL then it else l.head, it,
      l.prev[it := l.tail], if l.tail != NULL then next[l.tail := it] else next)
  }

  predicate Sane(l: Links, it: nat) {
    && it < |l.prev| == |l.next|
    && (l.next[it] == NULL || 0 <= l.next[it] < |l.prev|) && (l.prev[it] == NULL || 0 <= l.prev[it] < |l.next|)
  }

  /** The body do_item_unlink_q and do_item_unlinktail_q share. */
  function Unhooked(l: Links, it: nat): Links
    requires Sane(l, it)
  {
    var n, p := l.next[it], l.prev[it];
    Links(if l.head == it then n else l.head, if l.tail == it then p else l.tail,
      if n != NULL then l.prev[n := p] else l.prev, if p != NULL then l.next[p := n] else l.next)
  }

  /** The head case of do_item_crawl_q. */
  function Popped(l: Links, it: nat): Links
    requires Sane(l, it)
  {
    if l.next[it] != NULL then l.(head := l.next[it], prev := l.prev[l.next[it] := NULL]) else l
  }

  /** The other case, first half: the item before the crawler is tied to the one after it. */
  function SwungOut(l: Links, it: nat): Links
    requires Sane(l, it) && l.prev[it] != NULL
  {
    var p, n := l.prev[it], l.next[it];
    Links(if l.head == p then it else l.head, if l.tail == it then p else l.tail,
      if n != NULL then l.prev[n := p] else l.prev, l.next[p := n])
  }

  /** Second half: the crawler goes in front of that item. */
  function SwungIn(l: Links, it: nat, p: nat): Links
    requires it < |l.prev| == |l.next| && p < |l.prev| && (l.prev[p] == NULL || 0 <= l.prev[p] < |l.next|)
  {
    var pp := l.prev[p];
    var next := l.next[it := p];
    l.(prev := l.prev[it := pp][p := it], next := if pp != NULL then next[pp := it] else next)
  }

  function Swung(l: Links, it: nat): Links
    requires Sane(l, it) && l.prev[it] != NULL && Sane(l, l.prev[it])
  {
    SwungIn(SwungOut(l, it), it, l.prev[it])
  }

  // ---- each is the list operation it is meant to be ----

  lemma LinkedSane(list: seq<nat>, l: Links, i: nat)
    requires Linked(list, l) && i < |list|
    ensures l.next[list[i]] == After(list, i) && l.prev[list[i]] == Before(list, i) && Sane(l, list[i])
  {}

  /** Positions are told apart by their elements. */
  lemma SamePlace(list: seq<nat>, i: int, j: int)
    requires Distinct(list) && 0 <= i < |list| && 0 <= j < |list|
    ensures list[i] == list[j] <==> i == j
  {}

  /** Position `k`'s two links are right. */
  predicate LinkedAt(list: seq<nat>, l: Links, k: int)
    requires InRange(list, l) && 0 <= k < |list|
  {
    l.next[list[k]] == After(list, k) && l.prev[list[k]] == Before(list, k)
  }

  lemma LinkedIntro(list: seq<nat>, l: Links)
    requires InRange(list, l) && Distinct(list)
    requires l.head == (if |list| > 0 then list[0] else NULL)
      && l.tail == (if |list| > 0 then list[|list| - 1] else NULL)
    requires forall k :: 0 <= k < |list| ==> LinkedAt(list, l, k)
    ensures Linked(list, l)
  {
    forall k | 0 <= k < |list|
      ensures l.next[list[k]] == After(list, k) && l.prev[list[k]] == Before(list, k)
    {
      assert LinkedAt(list, l, k);
    }
  }

  lemma HeadLinkedAt(list: seq<nat>, l: Links, it: nat, k: nat)
    requires Linked(list, l) && it !in list && it < |l.prev| && k <= |list|
    ensures InRange([it] + list, HeadLinked(l, it)) && LinkedAt([it] + list, HeadLinked(l, it), k)
  {
    if k > 0 {
      LinkedSane(list, l, k - 1);
      SamePlace(list, 0, k - 1);
    }
  }

  lemma HeadLinkedOk(list: seq<nat>, l: Links, it: nat)
    requires Linked(list, l) && it !in list && it < |l.prev|
    ensures Linked([it] + list, HeadLinked(l, it))
  {
    forall k | 0 <= k <= |list|
      ensures InRange([it] + list, HeadLinked(l, it)) && LinkedAt([it] + list, HeadLinked(l, it), k)
    {
      HeadLinkedAt(list, l, it, k);
    }
    LinkedIntro([it] + list, HeadLinked(l, it));
  }

  lemma TailLinkedAt(list: seq<nat>, l: Links, it: nat, k: nat)
    requires Linked(list, l) && it !in list && it < |l.prev| && k <= |list|
    ensures InRange(list + [it], TailLinked(l, it)) && LinkedAt(list + [it], TailLinked(l, it), k)
  {
    if k < |list| {
      LinkedSane(list, l, k);
      SamePlace(list, |list| - 1, k);
    }
  }

  lemma TailLinkedOk(list: seq<nat>, l: Links, it: nat)
    requires Linked(list, l) && it !in list && it < |l.prev|
    ensures Linked(list + [it], TailLinked(l, it))
  {
    forall k | 0 <= k <= |list|
      ensures InRange(list + [it], TailLinked(l, it)) && LinkedAt(list + [it], TailLinked(l, it), k)
    {
      TailLinkedAt(list, l, it, k);
    }
    LinkedIntro(list + [it], TailLinked(l, it));
  }

  lemma UnhookedAt(list: seq<nat>, l: Links, i: nat, j: nat)
    requires Linked(list, l) && i < |list| && j < |list| && j != i
    ensures Sane(l, list[i])
    ensures Unhooked(l, list[i]).next[list[j]] == if j + 1 == i then After(list, i) else After(list, j)
    ensures Unhooked(l, list[i]).prev[list[j]] == if j == i + 1 then Before(list, i) else Before(list, j)
  {
    LinkedSane(list, l, i);
    LinkedSane(list, l, j);
    if i > 0 {
      SamePlace(list, i - 1, j);
    }
    if i + 1 < |list| {
      SamePlace(list, i + 1, j);
    }
  }

  lemma CutShape(list: seq<nat>, l: Links, i: nat)
    requires Linked(list, l) && i < |list|
    ensures Sane(l, list[i]) && InRange(Cut(list, i), Unhooked(l, list[i])) && Distinct(Cut(list, i))
    ensures Unhooked(l, list[i]).head == (if |list| > 1 then Cut(list, i)[0] else NULL)
    ensures Unhooked(l, list[i]).tail == (if |list| > 1 then Cut(list, i)[|list| - 2] else NULL)
  {
    LinkedSane(list, l, i);
    SamePlace(list, 0, i);
    SamePlace(list, |list| - 1, i);
  }

  /** Neighbours after a cut: those of the element itself, but for the gap being closed. */
  lemma CutNeighbours(list: seq<nat>, i: nat, k: nat)
    requires i < |list| && k < |list| - 1
    ensures var j := if k < i then k else k + 1;
      Cut(list, i)[k] == list[j]
      && After(Cut(list, i), k) == (if j + 1 == i then After(list, i) else After(list, j))
      && Before(Cut(list, i), k) == (if j == i + 1 then Before(list, i) else Before(list, j))
  {}

  lemma CutLinkedAt(list: seq<nat>, l: Links, i: nat, k: nat)
    requires Linked(list, l) && i < |list| && k < |list| - 1
    ensures Sane(l, list[i]) && InRange(Cut(list, i), Unhooked(l, list[i]))
      && LinkedAt(Cut(list, i), Unhooked(l, list[i]), k)
  {
    CutShape(list, l, i);
    CutNeighbours(list, i, k);
    UnhookedAt(list, l, i, if k < i then k else k + 1);
  }

  lemma UnhookedOk(list: seq<nat>, l: Links, i: nat)
    requires Linked(list, l) && i < |list|
    ensures Sane(l, list[i]) && Linked(Cut(list, i), Unhooked(l, list[i]))
  {
    CutShape(list, l, i);
    forall k | 0 <= k < |list| - 1
      ensures LinkedAt(Cut(list, i), Unhooked(l, list[i]), k)
    {
      CutLinkedAt(list, l, i, k);
    }
    LinkedIntro(Cut(list, i), Unhooked(l, list[i]));
  }

  lemma PoppedOk(list: seq<nat>, l: Links)
    requires Linked(list, l) && |list| > 0
    ensures Sane(l, list[0]) && Linked(if |list| > 1 then list[1..] else list, Popped(l, list[0]))
  {
    LinkedSane(list, l, 0);
    var list', l' := list[1..], Popped(l, list[0]);
    if |list| > 1 {
      forall k | 0 <= k < |list'|
        ensures l'.next[list'[k]] == After(list', k) && l'.prev[list'[k]] == Before(list', k)
      {
        LinkedSane(list, l, k + 1);
      }
    }
  }

  /** After the pop the crawler is off the list, and unhooking it once more changes nothing. */
  lemma PoppedThenUnhooked(list: seq<nat>, l: Links)
    requires Linked(list, l) && |list| > 1
    ensures Sane(l, list[0]) && Sane(Popped(l, list[0]), list[0])
    ensures Linked(list[1..], Popped(l, list[0])) && Unhooked(Popped(l, list[0]), list[0]) == Popped(l, list[0])
  {
    PoppedOk(list, l);
    LinkedSane(list, l, 0);
    var l1 := Popped(l, list[0]);
    assert l1.prev[list[0]] == NULL && l1.next[list[0]] == l1.head == list[1];
    assert l1.prev[list[1] := NULL] == l1.prev;
    assert Unhooked(l1, list[0]) == l1;
  }

  /** Around the crawler no two neighbours coincide. */
  lemma Neighbours(list: seq<nat>, i: nat, j: nat)
    requires Distinct(list) && 0 < i < |list| && j < |list|
    ensures (list[i] == list[j] <==> i == j) && (list[i - 1] == list[j] <==> i - 1 == j) && list[i - 1] != list[i]
    ensures i > 1 ==> (list[i - 2] == list[j] <==> i - 2 == j) && list[i - 2] != list[i] && list[i - 2] != list[i - 1]
    ensures i + 1 < |list| ==>
      (list[i + 1] == list[j] <==> i + 1 == j) && list[i + 1] != list[i] && list[i + 1] != list[i - 1]
  {}

  lemma SwungNextAt(list: seq<nat>, l: Links, i: nat, j: nat)
    requires Linked(list, l) && 0 < i < |list| && j < |list|
    ensures Sane(l, list[i]) && l.prev[list[i]] == list[i - 1] && Sane(l, list[i - 1])
    ensures Swung(l, list[i]).next[list[j]]
      == if j == i then list[i - 1] else if j == i - 1 then After(list, i) else if j == i - 2 then list[i]
        else After(list, j)
  {
    LinkedSane(list, l, i);
    LinkedSane(list, l, i - 1);
    LinkedSane(list, l, j);
    Neighbours(list, i, j);
  }

  lemma SwungPrevAt(list: seq<nat>, l: Links, i: nat, j: nat)
    requires Linked(list, l) && 0 < i < |list| && j < |list|
    ensures Sane(l, list[i]) && l.prev[list[i]] == list[i - 1] && Sane(l, list[i - 1])
    ensures Swung(l, list[i]).prev[list[j]]
      == if j == i then Before(list, i - 1) else if j == i - 1 then list[i] else if j == i + 1 then list[i - 1]
        else Before(list, j)
  {
    LinkedSane(list, l, i);
    LinkedSane(list, l, i - 1);
    LinkedSane(list, l, j);
    Neighbours(list, i, j);
  }

  lemma SwapBackDistinct(list: seq<nat>, i: nat)
    requires Distinct(list) && 0 < i < |list|
    ensures Distinct(SwapBack(list, i))
  {}

  lemma SwungEnds(list: seq<nat>, l: Links, i: nat)
    requires Linked(list, l) && 0 < i < |list|
    ensures Sane(l, list[i]) && l.prev[list[i]] == list[i - 1] && Sane(l, list[i - 1])
    ensures Swung(l, list[i]).head == (if i == 1 then list[i] else list[0])
    ensures Swung(l, list[i]).tail == (if i == |list| - 1 then list[i - 1] else list[|list| - 1])
  {
    LinkedSane(list, l, i);
    LinkedSane(list, l, i - 1);
    SamePlace(list, 0, i - 1);
    SamePlace(list, |list| - 1, i);
  }

  lemma SwungShape(list: seq<nat>, l: Links, i: nat)
    requires Linked(list, l) && 0 < i < |list|
    ensures Sane(l, list[i]) && l.prev[list[i]] == list[i - 1] && Sane(l, list[i - 1])
    ensures InRange(SwapBack(list, i), Swung(l, list[i])) && Distinct(SwapBack(list, i))
    ensures Swung(l, list[i]).head == SwapBack(list, i)[0] && Swung(l, list[i]).tail == SwapBack(list, i)[|list| - 1]
  {
    SwungEnds(list, l, i);
    SwapBackDistinct(list, i);
  }

  lemma SwungLinkedAt(list: seq<nat>, l: Links, i: nat, k: nat)
    requires Linked(list, l) && 0 < i < |list| && k < |list|
    ensures Sane(l, list[i]) && l.prev[list[i]] == list[i - 1] && Sane(l, list[i - 1])
    ensures InRange(SwapBack(list, i), Swung(l, list[i])) && LinkedAt(SwapBack(list, i), Swung(l, list[i]), k)
  {
    SwungShape(list, l, i);
    var j := if k == i then i - 1 else if k == i - 1 then i else k;
    SwungNextAt(list, l, i, j);
    SwungPrevAt(list, l, i, j);
  }

  lemma SwungOk(list: seq<nat>, l: Links, i: nat)
    requires Linked(list, l) && 0 < i < |list|
    ensures Sane(l, list[i]) && l.prev[list[i]] == list[i - 1] && Sane(l, list[i - 1])
    ensures Linked(SwapBack(list, i), Swung(l, list[i])) && Swung(l, list[i]).next[list[i]] == list[i - 1]
  {
    SwungNextAt(list, l, i, i);
    SwungShape(list, l, i);
    forall k | 0 <= k < |list|
      ensures LinkedAt(SwapBack(list, i), Swung(l, list[i]), k)
    {
      SwungLinkedAt(list, l, i, k);
    }
    LinkedIntro(SwapBack(list, i), Swung(l, list[i]));
  }
}
