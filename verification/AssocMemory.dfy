/** The growing hash table in memory: bucket arrays of pointers to items, and the items' h_next fields. Items
    are numbered. */
module AssocMemory {
  import opened Assoc
  import opened HashChains
  import opened LruLists
  import opened Numbers
  import opened Options

  /** The items of a chain. */
  function Loaded(items: seq<Item>, list: seq<nat>): (c: Chain)
    ensures |c| == |list|
  {
    seq(|list|, i requires 0 <= i < |list| => if list[i] < |items| then items[list[i]] else Item([], []))
  }

  /** All chains. */
  function Contents(items: seq<Item>, lists: seq<seq<nat>>): (cs: seq<Chain>)
    ensures |cs| == |lists| && forall k :: 0 <= k < |lists| ==> cs[k] == Loaded(items, lists[k])
  {
    seq(|lists|, k requires 0 <= k < |lists| => Loaded(items, lists[k]))
  }

  /** The table that chains stand for: first those of the new buckets, then those of the old ones. */
  function TableOf(items: seq<Item>, lists: seq<seq<nat>>, power: nat, n: nat, expanding: bool, cursor: nat): Table
    requires n <= |lists|
  {
    Table(power, Contents(items, lists[..n]), Contents(items, lists[n..]), expanding, cursor)
  }

  /** Which of them a hash value selects. */
  function Selects(t: Table, hv: nat): (k: nat)
    requires Shaped(t)
  {
    if InOld(t, hv) then |t.primary| + LowBits(hv, t.power - 1) else LowBits(hv, t.power)
  }

  lemma SelectsBucket(items: seq<Item>, lists: seq<seq<nat>>, power: nat, n: nat, expanding: bool, cursor: nat, hv: nat)
    requires n <= |lists| && Shaped(TableOf(items, lists, power, n, expanding, cursor))
    ensures var t := TableOf(items, lists, power, n, expanding, cursor);
      Selects(t, hv) < |lists| && Bucket(t, hv) == Loaded(items, lists[Selects(t, hv)])
  {}

  lemma SelectsSet(items: seq<Item>, lists: seq<seq<nat>>, power: nat, n: nat, expanding: bool, cursor: nat, hv: nat,
    list: seq<nat>)
    requires n <= |lists| && Shaped(TableOf(items, lists, power, n, expanding, cursor))
    ensures var t := TableOf(items, lists, power, n, expanding, cursor);
      && Selects(t, hv) < |lists|
      && TableOf(items, lists[Selects(t, hv) := list], power, n, expanding, cursor)
        == SetBucket(t, hv, Loaded(items, list))
  {
    var t := TableOf(items, lists, power, n, expanding, cursor);
    var t' := TableOf(items, lists[Selects(t, hv) := list], power, n, expanding, cursor);
    assert t'.primary == SetBucket(t, hv, Loaded(items, list)).primary;
    assert t'.former == SetBucket(t, hv, Loaded(items, list)).former;
  }

  class HashTable {
    const hash: Hash
    const items: seq<Item>
    const hNext: array<int>
    var power: nat
    var primary: array<int>
    var former: array<int>
    var expanding: bool
    var cursor: nat
    /** The items on each chain, those of the new buckets first. */
    ghost var lists: seq<seq<nat>>

    ghost function Heads(): seq<int>
      reads this, primary, former
    {
      primary[..] + if expanding then former[..] else []
    }

    ghost predicate Wired()
      reads this, primary, former, hNext
    {
      && primary != former && hNext != primary && hNext != former && hNext.Length == |items|
      && AllChained(lists, Heads(), hNext[..])
    }

    ghost function View(): Table
      reads this, primary, former, hNext
      requires Wired()
    {
      TableOf(items, lists, power, primary.Length, expanding, cursor)
    }

    /** The arrays have the sizes the power says. */
    ghost predicate Sized()
      reads this, primary, former
    {
      && primary != former && primary.Length == Pow2(power)
      && (expanding ==> power >= 1 && former.Length == Pow2(power - 1) && cursor < former.Length)
    }

    ghost predicate Ok()
      reads this, primary, former, hNext
    {
      Wired() && Sized()
    }

    /** The chain a hash value selects. */
    ghost function Where(hv: nat): (k: nat)
      requires Sized()
      reads this, primary, former
      ensures k < |Heads()|
    {
      if expanding && LowBits(hv, power - 1) >= cursor then primary.Length + LowBits(hv, power - 1)
        else LowBits(hv, power)
    }

    lemma WhereIs(hv: nat)
      requires Ok()
      ensures Shaped(View()) && Where(hv) == Selects(View(), hv)
    {}

    /** assoc_init. */
    constructor (hash: Hash, items: seq<Item>, power: nat)
      ensures Ok() && fresh(primary) && fresh(former) && fresh(hNext)
      ensures View() == Blank(power) && this.hash == hash && this.items == items
    {
      this.hash, this.items, this.power := hash, items, power;
      hNext := new int[|items|];
      primary := new int[Pow2(power)](_ => NULL);
      former := new int[0];
      expanding, cursor := false, 0;
      lists := seq(Pow2(power), _ => []);
    }

    /** The head of the chain: old table ahead of the cursor, new table otherwise. */
    method Head(hv: nat) returns (it: int)
      requires Sized()
      ensures it == Heads()[Where(hv)]
    {
      if expanding && LowBits(hv, power - 1) >= cursor {
        it := former[LowBits(hv, power - 1)];
      } else {
        it := primary[LowBits(hv, power)];
      }
    }

    method SetHead(hv: nat, it: int)
      requires Sized()
      modifies primary, former
      ensures Heads() == old(Heads())[Where(hv) := it]
    {
      if expanding && LowBits(hv, power - 1) >= cursor {
        former[LowBits(hv, power - 1)] := it;
      } else {
        primary[LowBits(hv, power)] := it;
      }
    }

    /** What becomes of the table when a chain changes. */
    lemma ChainSet(hv: nat, list: seq<nat>, t: Table)
      requires Ok() && t == View()
      ensures Where(hv) < |lists| && Shaped(t) && Bucket(t, hv) == Loaded(items, lists[Where(hv)])
      ensures TableOf(items, lists[Where(hv) := list], power, primary.Length, expanding, cursor)
        == SetBucket(t, hv, Loaded(items, list))
    {
      WhereIs(hv);
      SelectsSet(items, lists, power, primary.Length, expanding, cursor, hv, list);
      SelectsBucket(items, lists, power, primary.Length, expanding, cursor, hv);
    }

    /** The pointer writes of assoc_insert: the item becomes the head of its chain. */
    method Hook(it: nat, hv: nat)
      requires Ok() && it < |items| && Absent(lists, it) && Where(hv) < |lists|
      modifies this`lists, primary, former, hNext
      ensures Ok() && lists == old(lists)[old(Where(hv)) := [it] + old(lists)[old(Where(hv))]]
    {
      ghost var k, next, heads := Where(hv), hNext[..], Heads();
      PushOne(lists, heads, next, k, it);
      var head := Head(hv);
      hNext[it] := head;
      SetHead(hv, it);
      assert hNext[..] == next[it := head] && Heads() == heads[k := it];
      lists := lists[k := [it] + lists[k]];
    }

    /** assoc_insert. */
    method Insert(it: nat, hv: nat)
      requires Ok() && it < |items| && Absent(lists, it)
      modifies this`lists, primary, former, hNext
      ensures Ok() && Shaped(old(View())) && View() == Assoc.Insert(old(View()), items[it], hv)
    {
      ChainSet(hv, [it] + lists[Where(hv)], View());
      LoadedPush(items, it, lists[Where(hv)]);
      Hook(it, hv);
    }

    /** _hashitem_before: the item with the key, or NULL, and the item before it, or NULL if it is the
        head. `i` is its place. */
    method HashItemBefore(key: Key, hv: nat) returns (prev: int, it: int, ghost i: nat)
      requires Ok() && Where(hv) < |lists|
      ensures i == Position(Loaded(items, lists[Where(hv)]), key)
      ensures it == ItemAt(lists[Where(hv)], i) && prev == if i == 0 then NULL else lists[Where(hv)][i - 1]
    {
      ghost var list := lists[Where(hv)];
      assert ChainedThere(lists, Heads(), hNext[..], Where(hv));
      it := Head(hv);
      prev, i := NULL, 0;
      while it != NULL && items[it].key != key
        invariant i <= |list| && it == ItemAt(list, i) && prev == (if i == 0 then NULL else list[i - 1])
        invariant it != NULL ==> 0 <= it < |items|
        invariant forall j :: 0 <= j < i ==> Loaded(items, list)[j].key != key
        decreases |list| - i
      {
        ChainedNext(list, ItemAt(list, 0), hNext[..], i);
        prev, it, i := it, hNext[it], i + 1;
        if i < |list| {
          ChainedNext(list, ItemAt(list, 0), hNext[..], i);
        }
      }
      PositionIs(Loaded(items, list), key, i);
    }

    /** assoc_find. */
    method Find(key: Key, hv: nat) returns (it: int)
      requires Ok()
      ensures Shaped(View()) && (it == NULL <==> Assoc.Find(View(), key, hv).None?)
      ensures it != NULL ==> 0 <= it < |items| && Assoc.Find(View(), key, hv) == Some(items[it])
    {
      ChainSet(hv, [], View());
      ghost var list := lists[Where(hv)];
      assert ChainedThere(lists, Heads(), hNext[..], Where(hv));
      it := Head(hv);
      ghost var i := 0;
      while it != NULL && items[it].key != key
        invariant i <= |list| && it == ItemAt(list, i)
        invariant it != NULL ==> 0 <= it < |items|
        invariant forall j :: 0 <= j < i ==> Loaded(items, list)[j].key != key
        decreases |list| - i
      {
        ChainedNext(list, ItemAt(list, 0), hNext[..], i);
        it, i := hNext[it], i + 1;
        if i < |list| {
          ChainedNext(list, ItemAt(list, 0), hNext[..], i);
        }
      }
      PositionIs(Loaded(items, list), key, i);
    }

    /** The pointer writes of assoc_delete. */
    method Unhook(hv: nat, prev: int, it: nat, ghost i: nat)
      requires Ok() && Where(hv) < |lists| && i < |lists[Where(hv)]| && it == lists[Where(hv)][i] && it < |items|
      requires if i == 0 then prev == NULL else prev == lists[Where(hv)][i - 1] && 0 <= prev < |items|
      modifies this`lists, primary, former, hNext
      ensures Ok() && lists == old(lists)[old(Where(hv)) := Cut(old(lists)[old(Where(hv))], i)]
    {
      ghost var k, next, heads := Where(hv), hNext[..], Heads();
      CutOne(lists, heads, next, k, i);
      assert ChainedThere(lists, heads, next, k);
      var nxt := hNext[it];
      hNext[it] := NULL;
      if prev == NULL {
        SetHead(hv, nxt);
      } else {
        hNext[prev] := nxt;
      }
      assert hNext[..] == CutNext(lists[k], next, i);
      assert Heads() == heads[k := if i == 0 then nxt else heads[k]];
      lists := lists[k := Cut(lists[k], i)];
    }

    /** The key is on the chain, and the items around it have link fields. */
    lemma KeyIsThere(hv: nat, key: Key, i: nat, t: Table)
      requires Ok() && t == View() && Shaped(t) && Assoc.Find(t, key, hv).Some?
      requires Where(hv) < |lists| && i == Position(Loaded(items, lists[Where(hv)]), key)
      ensures i < |lists[Where(hv)]| && lists[Where(hv)][i] < |items| && (i > 0 ==> lists[Where(hv)][i - 1] < |items|)
    {
      ChainSet(hv, [], t);
      assert ChainedThere(lists, Heads(), hNext[..], Where(hv));
    }

    /** What assoc_delete makes of the table, `i` being the place of the key. */
    lemma CutIsDelete(hv: nat, key: Key, i: nat, t: Table, list: seq<nat>)
      requires Ok() && t == View() && Shaped(t) && Where(hv) < |lists| && list == lists[Where(hv)]
      requires i == Position(Loaded(items, list), key) < |list|
      ensures TableOf(items, lists[Where(hv) := Cut(list, i)], power, primary.Length, expanding, cursor)
        == Assoc.Delete(t, key, hv)
    {
      ChainSet(hv, Cut(list, i), t);
      LoadedCut(items, list, i);
      DeleteIs(t, key, hv, Loaded(items, list), i);
    }

    /** assoc_delete; its assert is that the key is on the chain. */
    method Delete(key: Key, hv: nat)
      requires Ok() && Shaped(View()) && Assoc.Find(View(), key, hv).Some?
      modifies this`lists, primary, former, hNext
      ensures Ok() && Shaped(old(View())) && View() == Assoc.Delete(old(View()), key, hv)
    {
      var prev, it;
      ghost var i;
      prev, it, i := HashItemBefore(key, hv);
      KeyIsThere(hv, key, i, View());
      CutIsDelete(hv, key, i, View(), lists[Where(hv)]);
      Unhook(hv, prev, it, i);
    }

    /** assoc_expand; `granted` says whether the allocation succeeds. */
    method Expand(granted: bool)
      requires Ok() && Shaped(View()) && !expanding
      modifies this`power, this`primary, this`former, this`expanding, this`cursor, this`lists
      ensures Ok() && Shaped(old(View())) && View() == Assoc.Expand(old(View()), granted)
      ensures primary == old(primary) || fresh(primary)
      ensures former == old(former) || former == old(primary)
    {
      if granted {
        var n := Pow2(power + 1);
        ghost var heads, more, nulls := Heads(), seq(n, _ => []), seq(n, _ => NULL);
        MoreChains(lists, heads, hNext[..], more, nulls);
        former := primary;
        primary := new int[n](_ => NULL);
        power, expanding, cursor := power + 1, true, 0;
        assert primary[..] == nulls && Heads() == nulls + heads;
        lists := more + lists;
        Doubled(items, more, old(lists), n);
      }
    }

    /** In the middle of migrating the old bucket: the chain from `it` on is still to be moved, and moving
        it gives `goal`. */
    ghost predicate Moving(it: int, goal: seq<Chain>, olds: seq<seq<nat>>)
      reads this, primary, former, hNext
    {
      var n := primary.Length;
      && primary != former && hNext != primary && hNext != former && hNext.Length == |items|
      && Sized() && expanding && |lists| == n + former.Length && |olds| == former.Length
      && AllChained(lists, Heads()[n + cursor := it], hNext[..])
      && lists[n..] == olds[cursor := lists[n + cursor]]
      && Push(Contents(items, lists[..n]), Loaded(items, lists[n + cursor]), hash, power) == goal
    }

    /** The pointer writes for one item of it. */
    method Rehang(it: nat, bucket: nat) returns (next: int)
      requires hNext != primary && it < hNext.Length && bucket < primary.Length
      modifies primary, hNext
      ensures next == old(hNext[it]) && hNext[..] == old(hNext[..])[it := old(primary[bucket])]
      ensures primary[..] == old(primary[..])[bucket := it]
    {
      next := hNext[it];
      hNext[it] := primary[bucket];
      primary[bucket] := it;
    }

    /** One item of it. */
    method MoveItem(it: nat, ghost goal: seq<Chain>, ghost olds: seq<seq<nat>>) returns (next: int)
      requires Moving(it, goal, olds)
      modifies this`lists, primary, hNext
      ensures Moving(next, goal, olds)
      ensures |lists| == |old(lists)| && primary.Length + cursor < |lists|
      ensures |lists[primary.Length + cursor]| < |old(lists)[primary.Length + cursor]|
    {
      ghost var n, heads, links, news := primary.Length, Heads()[primary.Length + cursor := it], hNext[..], primary[..];
      ghost var from := n + cursor;
      MovingIs(it, goal, olds);
      var bucket := LowBits(hash(items[it].key), power);
      MoveOne(lists, heads, links, from, bucket);
      PushNext(items, lists, n, from, bucket, hash, power);
      next := Rehang(it, bucket);
      HeadsMoved(news, former[..], from, bucket, it, next);
      ghost var rest := lists[from][1..];
      OldsMoved(lists, olds, n, cursor, bucket, rest, [it] + lists[bucket]);
      lists := lists[from := rest][bucket := [it] + lists[bucket]];
    }

    /** The next item to move is the head of what is left, and there is none exactly if nothing is left. */
    lemma MovingIs(it: int, goal: seq<Chain>, olds: seq<seq<nat>>)
      requires Moving(it, goal, olds)
      ensures var list := lists[primary.Length + cursor];
        if it == NULL then list == [] && Contents(items, lists[..primary.Length]) == goal
        else |list| > 0 && it == list[0] && 0 <= it < |items|
    {
      assert ChainedThere(lists, Heads()[primary.Length + cursor := it], hNext[..], primary.Length + cursor);
    }

    lemma MovingStarts()
      requires Ok() && expanding
      ensures Shaped(View())
      ensures Moving(former[cursor], Push(View().primary, View().former[cursor], hash, power), lists[primary.Length..])
    {
      WhereIs(0);
      var n := primary.Length;
      assert Heads()[n + cursor := former[cursor]] == Heads();
      assert lists[n..][cursor := lists[n + cursor]] == lists[n..];
    }

    /** The loop of the migration. */
    method MoveAll(ghost goal: seq<Chain>, ghost olds: seq<seq<nat>>)
      requires Ok() && expanding && Moving(former[cursor], goal, olds)
      modifies this`lists, primary, hNext
      ensures Moving(NULL, goal, olds)
    {
      var it := former[cursor];
      while it != NULL
        invariant Moving(it, goal, olds)
        decreases |lists[primary.Length + cursor]|
      {
        MovingIs(it, goal, olds);
        it := MoveItem(it, goal, olds);
      }
    }

    /** The old bucket is emptied, the cursor goes on, and after the last bucket the old table goes. */
    method Pass(ghost goal: seq<Chain>, ghost olds: seq<seq<nat>>)
      requires Moving(NULL, goal, olds)
      modifies this`cursor, this`expanding, this`lists, former
      ensures Ok() && power == old(power) && primary == old(primary) && cursor == old(cursor) + 1
      ensures expanding <==> cursor < |olds|
      ensures Contents(items, lists[..primary.Length]) == goal
      ensures lists[primary.Length..] == if expanding then olds[old(cursor) := []] else []
    {
      MovingIs(NULL, goal, olds);
      ghost var n, heads := primary.Length, Heads()[primary.Length + cursor := NULL];
      former[cursor] := NULL;
      assert Heads() == heads;
      assert lists[n..] == olds[cursor := []] && lists[..n][n..] == [] && lists[..n][..n] == lists[..n];
      cursor := cursor + 1;
      if cursor == Pow2(power - 1) {
        expanding := false;
        FewerChains(lists, heads, hNext[..], n);
        lists := lists[..n];
        assert Heads() == heads[..n];
      }
    }

    /** The bucket-migration body of the maintenance thread; `locked` says that the item lock
        of the cursor's bucket was not to be had, and then nothing happens. */
    method MigrateBucket(locked: bool)
      requires Ok() && expanding
      modifies this`cursor, this`expanding, this`lists, primary, former, hNext
      ensures Ok() && Shaped(old(View()))
      ensures View() == if locked then old(View()) else Migrate(old(View()), hash)
    {
      MovingStarts();
      ghost var t, olds := View(), lists[primary.Length..];
      if !locked {
        ghost var goal := Push(t.primary, t.former[cursor], hash, power);
        MoveAll(goal, olds);
        Pass(goal, olds);
        OldsLeft(items, olds, t.cursor);
      }
    }
  }

  lemma OldsLeft(items: seq<Item>, olds: seq<seq<nat>>, i: nat)
    requires i < |olds|
    ensures Contents(items, olds[i := []]) == Contents(items, olds)[i := []]
  {}

  lemma HeadsMoved(p: seq<int>, f: seq<int>, from: nat, to: nat, it: int, next: int)
    requires to < |p| <= from < |p| + |f|
    ensures (p[to := it] + f)[from := next] == (p + f)[from := it][from := next][to := it]
      && (p + f)[from := it][to] == p[to]
  {}

  lemma OldsMoved(lists: seq<seq<nat>>, olds: seq<seq<nat>>, n: nat, cursor: nat, to: nat, rest: seq<nat>,
    more: seq<nat>)
    requires to < n <= n + cursor < |lists| == n + |olds| && lists[n..] == olds[cursor := lists[n + cursor]]
    ensures lists[n + cursor := rest][to := more][n..] == olds[cursor := rest]
  {
    assert forall k :: 0 <= k < |olds| && k != cursor ==> lists[n + k] == lists[n..][k] == olds[k];
  }

  lemma Doubled(items: seq<Item>, more: seq<seq<nat>>, lists: seq<seq<nat>>, n: nat)
    requires |more| == n && forall k :: 0 <= k < n ==> more[k] == []
    ensures Contents(items, (more + lists)[..n]) == seq(n, _ => [])
      && Contents(items, (more + lists)[n..]) == Contents(items, lists)
  {
    assert (more + lists)[..n] == more && (more + lists)[n..] == lists;
  }

  /** Moving the first item of chain `from` to chain `to` is a step of pushing the one on the others. */
  lemma PushNext(items: seq<Item>, lists: seq<seq<nat>>, n: nat, from: nat, to: nat, hash: Hash, power: nat)
    requires n == Pow2(power) && to < n <= from < |lists| && |lists[from]| > 0 && lists[from][0] < |items|
    requires to == LowBits(hash(items[lists[from][0]].key), power)
    ensures var lists' := lists[from := lists[from][1..]][to := [lists[from][0]] + lists[to]];
      Push(Contents(items, lists'[..n]), Loaded(items, lists[from][1..]), hash, power)
        == Push(Contents(items, lists[..n]), Loaded(items, lists[from]), hash, power)
  {
    var it, rest := lists[from][0], lists[from][1..];
    var lists' := lists[from := rest][to := [it] + lists[to]];
    LoadedPush(items, it, lists[to]);
    LoadedPush(items, it, rest);
    assert lists[from] == [it] + rest;
    assert Loaded(items, lists[from])[1..] == Loaded(items, rest);
    assert Contents(items, lists'[..n])
      == Contents(items, lists[..n])[to := [items[it]] + Contents(items, lists[..n])[to]];
  }

  lemma PositionIs(c: Chain, key: Key, i: nat)
    requires i <= |c| && (forall j :: 0 <= j < i ==> c[j].key != key) && (i < |c| ==> c[i].key == key)
    ensures Position(c, key) == i
  {}

  lemma DeleteIs(t: Table, key: Key, hv: nat, c: Chain, i: nat)
    requires Shaped(t) && Bucket(t, hv) == c && i == Position(c, key) < |c|
    ensures Assoc.Delete(t, key, hv) == SetBucket(t, hv, c[..i] + c[i + 1..])
  {}

  lemma LoadedCut(items: seq<Item>, list: seq<nat>, i: nat)
    requires i < |list|
    ensures Loaded(items, Cut(list, i)) == Loaded(items, list)[..i] + Loaded(items, list)[i + 1..]
  {}

  lemma LoadedPush(items: seq<Item>, it: nat, list: seq<nat>)
    requires it < |items|
    ensures Loaded(items, [it] + list) == [items[it]] + Loaded(items, list)
  {}
}
