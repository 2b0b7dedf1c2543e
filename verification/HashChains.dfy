/** The chains of a hash table in memory: a head for each bucket, and one h_next field for each item, which
    all chains share. */
module HashChains {
  import opened LruLists
  import opened Sequences

  const NULL := -1

  /** The item at place `i`, or NULL at the end. */
  function ItemAt(list: seq<nat>, i: nat): int {
    if i < |list| then list[i] else NULL
  }

  /** The head and the h_next fields spell out `list`. */
  predicate Chained(list: seq<nat>, head: int, next: seq<int>) {
    && Distinct(list) && head == ItemAt(list, 0)
    && (forall i :: 0 <= i < |list| ==> list[i] < |next|)
    && (forall i {:trigger next[list[i]]} :: 0 <= i < |list| ==> next[list[i]] == ItemAt(list, i + 1))
  }

  lemma ChainedNext(list: seq<nat>, head: int, next: seq<int>, i: nat)
    requires Chained(list, head, next) && i < |list|
    ensures list[i] < |next| && next[list[i]] == ItemAt(list, i + 1)
  {}

  lemma ChainedIntro(list: seq<nat>, head: int, next: seq<int>)
    requires Distinct(list) && head == ItemAt(list, 0)
    requires forall i :: 0 <= i < |list| ==> list[i] < |next| && next[list[i]] == ItemAt(list, i + 1)
    ensures Chained(list, head, next)
  {}

  function Cut(list: seq<nat>, i: nat): seq<nat>
    requires i < |list|
  {
    list[..i] + list[i + 1..]
  }

  lemma PushChained(list: seq<nat>, head: int, next: seq<int>, it: nat)
    requires Chained(list, head, next) && it !in list && it < |next|
    ensures Chained([it] + list, it, next[it := head])
  {
    var list', next' := [it] + list, next[it := head];
    forall i | 0 <= i < |list'|
      ensures list'[i] < |next'| && next'[list'[i]] == ItemAt(list', i + 1)
    {
      if i > 0 {
        ChainedNext(list, head, next, i - 1);
      }
    }
    ChainedIntro(list', it, next');
  }

  lemma RestChained(list: seq<nat>, head: int, next: seq<int>)
    requires Chained(list, head, next) && |list| > 0
    ensures 0 <= head < |next| && Chained(list[1..], next[head], next)
  {
    forall i | 0 <= i < |list| - 1
      ensures list[1..][i] < |next| && next[list[1..][i]] == ItemAt(list[1..], i + 1)
    {
      ChainedNext(list, head, next, i + 1);
    }
    ChainedNext(list, head, next, 0);
    ChainedIntro(list[1..], next[head], next);
  }

  /** A list none of whose items has been touched. */
  lemma StillChained(list: seq<nat>, head: int, next: seq<int>, next': seq<int>, xs: set<nat>)
    requires Chained(list, head, next) && |next'| == |next|
    requires forall x :: 0 <= x < |next| && x !in xs ==> next'[x] == next[x]
    requires forall x :: x in list ==> x !in xs
    ensures Chained(list, head, next')
  {
    forall i | 0 <= i < |list|
      ensures list[i] < |next'| && next'[list[i]] == ItemAt(list, i + 1)
    {
      ChainedNext(list, head, next, i);
      assert list[i] in list;
    }
    ChainedIntro(list, head, next');
  }

  /** The item at place `i` taken out behind the one before it, its own link cleared. */
  function CutNext(list: seq<nat>, next: seq<int>, i: nat): seq<int>
    requires i < |list| && forall k :: 0 <= k < |list| ==> list[k] < |next|
  {
    if i == 0 then next[list[0] := NULL] else next[list[i] := NULL][list[i - 1] := next[list[i]]]
  }

  lemma CutAt(list: seq<nat>, head: int, next: seq<int>, i: nat, k: nat)
    requires Chained(list, head, next) && i < |list| && k < |list| - 1
    ensures Cut(list, i)[k] < |next| && CutNext(list, next, i)[Cut(list, i)[k]] == ItemAt(Cut(list, i), k + 1)
  {
    var j := if k < i then k else k + 1;
    ChainedNext(list, head, next, i);
    ChainedNext(list, head, next, j);
    assert Cut(list, i)[k] == list[j];
  }

  lemma CutDistinct(list: seq<nat>, i: nat)
    requires Distinct(list) && i < |list|
    ensures Distinct(Cut(list, i)) && forall x :: x in Cut(list, i) ==> x in list
  {}

  lemma CutChained(list: seq<nat>, head: int, next: seq<int>, i: nat)
    requires Chained(list, head, next) && i < |list|
    ensures list[i] < |next|
    ensures Chained(Cut(list, i), if i == 0 then next[list[0]] else head, CutNext(list, next, i))
  {
    ChainedNext(list, head, next, i);
    CutDistinct(list, i);
    forall k | 0 <= k < |list| - 1
      ensures Cut(list, i)[k] < |next| && CutNext(list, next, i)[Cut(list, i)[k]] == ItemAt(Cut(list, i), k + 1)
    {
      CutAt(list, head, next, i, k);
    }
    ChainedIntro(Cut(list, i), if i == 0 then next[list[0]] else head, CutNext(list, next, i));
  }

  // ---- all chains ----

  predicate ChainedThere(lists: seq<seq<nat>>, heads: seq<int>, next: seq<int>, k: nat) {
    k < |lists| && k < |heads| && Chained(lists[k], heads[k], next)
  }

  ghost predicate AllChained(lists: seq<seq<nat>>, heads: seq<int>, next: seq<int>) {
    && |lists| == |heads| && Apart(lists)
    && forall k :: 0 <= k < |lists| ==> ChainedThere(lists, heads, next, k)
  }

  /** Chain `k` becomes `list'`, and the others stay as they are. */
  lemma OneChanges(
    lists: seq<seq<nat>>, heads: seq<int>, next: seq<int>, k: nat, list': seq<nat>, head': int, next': seq<int>,
      xs: set<nat>)
    requires AllChained(lists, heads, next) && k < |lists| && Chained(list', head', next') && |next'| == |next|
    requires forall x :: 0 <= x < |next| && x !in xs ==> next'[x] == next[x]
    requires forall m, x :: 0 <= m < |lists| && m != k && x in lists[m] ==> x !in xs && x !in list'
    ensures AllChained(lists[k := list'], heads[k := head'], next')
  {
    var lists', heads' := lists[k := list'], heads[k := head'];
    forall m | 0 <= m < |lists|
      ensures ChainedThere(lists', heads', next', m)
    {
      if m != k {
        assert ChainedThere(lists, heads, next, m);
        StillChained(lists[m], heads[m], next, next', xs);
      }
    }
  }

  lemma PushOne(lists: seq<seq<nat>>, heads: seq<int>, next: seq<int>, k: nat, it: nat)
    requires AllChained(lists, heads, next) && k < |lists| && Absent(lists, it) && it < |next|
    ensures AllChained(lists[k := [it] + lists[k]], heads[k := it], next[it := heads[k]])
  {
    assert ChainedThere(lists, heads, next, k);
    PushChained(lists[k], heads[k], next, it);
    OneChanges(lists, heads, next, k, [it] + lists[k], it, next[it := heads[k]], {it});
  }

  lemma PopOne(lists: seq<seq<nat>>, heads: seq<int>, next: seq<int>, k: nat)
    requires AllChained(lists, heads, next) && k < |lists| && |lists[k]| > 0
    ensures heads[k] == lists[k][0] < |next| && AllChained(lists[k := lists[k][1..]], heads[k := next[heads[k]]], next)
    ensures Absent(lists[k := lists[k][1..]], lists[k][0])
  {
    assert ChainedThere(lists, heads, next, k);
    RestChained(lists[k], heads[k], next);
    assert lists[k][0] in lists[k] && forall x :: x in lists[k][1..] ==> x in lists[k];
    OneChanges(lists, heads, next, k, lists[k][1..], next[heads[k]], next, {});
  }

  lemma CutOne(lists: seq<seq<nat>>, heads: seq<int>, next: seq<int>, k: nat, i: nat)
    requires AllChained(lists, heads, next) && k < |lists| && i < |lists[k]|
    ensures forall j :: 0 <= j < |lists[k]| ==> lists[k][j] < |next|
    ensures AllChained(lists[k := Cut(lists[k], i)], heads[k := if i == 0 then next[lists[k][0]] else heads[k]],
      CutNext(lists[k], next, i))
  {
    var list := lists[k];
    assert ChainedThere(lists, heads, next, k);
    CutChained(list, heads[k], next, i);
    CutDistinct(list, i);
    var xs := set x | x in list;
    assert list[i] in list && (i > 0 ==> list[i - 1] in list);
    OneChanges(lists, heads, next, k, Cut(list, i),
      if i == 0 then next[list[0]] else heads[k], CutNext(list, next, i), xs);
  }

  /** The head of one chain becomes the head of another. */
  lemma MoveOne(lists: seq<seq<nat>>, heads: seq<int>, next: seq<int>, from: nat, to: nat)
    requires AllChained(lists, heads, next) && from < |lists| && to < |lists| && from != to && |lists[from]| > 0
    ensures heads[from] == lists[from][0] < |next|
    ensures var it := lists[from][0];
      AllChained(lists[from := lists[from][1..]][to := [it] + lists[to]], heads[from := next[it]][to := it],
        next[it := heads[to]])
  {
    PopOne(lists, heads, next, from);
    PushOne(lists[from := lists[from][1..]], heads[from := next[heads[from]]], next, to, lists[from][0]);
  }

  /** Empty chains in front. */
  lemma MoreChains(lists: seq<seq<nat>>, heads: seq<int>, next: seq<int>, more: seq<seq<nat>>, nulls: seq<int>)
    requires AllChained(lists, heads, next) && |more| == |nulls|
    requires forall k :: 0 <= k < |more| ==> more[k] == [] && nulls[k] == NULL
    ensures AllChained(more + lists, nulls + heads, next)
  {
    var n := |more|;
    forall k | 0 <= k < n + |lists|
      ensures ChainedThere(more + lists, nulls + heads, next, k)
    {
      if k >= n {
        assert ChainedThere(lists, heads, next, k - n);
      }
    }
    forall k, m, x | 0 <= k < n + |lists| && 0 <= m < n + |lists| && x in (more + lists)[k] && x in (more + lists)[m]
      ensures k == m
    {
      assert k >= n && m >= n && x in lists[k - n] && x in lists[m - n];
    }
  }

  lemma FewerChains(lists: seq<seq<nat>>, heads: seq<int>, next: seq<int>, n: nat)
    requires AllChained(lists, heads, next) && n <= |lists|
    ensures AllChained(lists[..n], heads[..n], next)
  {
    forall k | 0 <= k < n
      ensures ChainedThere(lists[..n], heads[..n], next, k)
    {
      assert ChainedThere(lists, heads, next, k);
    }
  }
}
