/** The crawler thread on the list in memory: a turn of its loop, link by link, is a turn of Crawler. */
module CrawlerMemory {
  import opened Crawler
  import opened LruList
  import opened LruLists
  import opened LruMemory
  import opened Sequences

  /** The crawler at `i` has come by item `x`. */
  function Counted(c: Crawl, i: nat, x: nat): Crawl
    requires 0 < i < |c.list|
  {
    var list := SwapBack(c.list, i);
    var left := if c.remaining > 0 then c.remaining - 1 else 0;
    if c.remaining == 1 then c.(list := Cut(list, i - 1), remaining := left, over := true)
    else c.(list := list, remaining := left, passed := c.passed + [x])
  }

  /** The crawl after a turn with the crawler at `i`. */
  function Advanced(c: Crawl, i: nat): Crawl
    requires i < |c.list|
  {
    if i == 0 then c.(list := c.list[1..], over := true) else Counted(c, i, c.list[i - 1])
  }

  /** The crawler is on the list as long as the crawl goes on. */
  lemma TickLeaves(c: Crawl)
    requires Running(c)
    ensures c.crawler in Tick(c).list <==> !Tick(c).over
    ensures Tick(c) == Advanced(c, Index(c.list, c.crawler))
  {
    var i := Index(c.list, c.crawler);
    if i > 0 {
      SwapBackDistinct(c.list, i);
      assert SwapBack(c.list, i)[i - 1] == c.crawler;
    } else {
      assert Cut(c.list, 0) == c.list[1..];
    }
  }

  /** An uncapped crawl that nothing disturbs: what is behind the crawler has been passed, last first. */
  ghost predicate Underway(c: Crawl, list: seq<nat>) {
    c.remaining == 0 &&
    if c.over then c.list == list && c.passed == Reversed(list)
    else Running(c) && Ahead(c) + Behind(c) == list && c.passed == Reversed(Behind(c))
  }

  lemma Starting(list: seq<nat>, crawler: nat)
    requires Distinct(list) && crawler !in list
    ensures Underway(Start(list, crawler, 0), list)
  {
    IndexOf(list + [crawler], crawler, |list|);
  }

  /** An item goes from ahead to behind. */
  lemma MovesOn(
    ahead: seq<nat>, behind: seq<nat>, passed: seq<nat>, x: nat, ahead': seq<nat>, behind': seq<nat>, passed': seq<nat>)
    requires ahead == ahead' + [x] && behind' == [x] + behind && passed' == passed + [x] && passed == Reversed(behind)
    ensures ahead' + behind' == ahead + behind && passed' == Reversed(behind') && |ahead'| < |ahead|
  {
    assert behind'[1..] == behind;
  }

  lemma GoingOn(c: Crawl, list: seq<nat>)
    requires !c.over && Underway(c, list) && Index(c.list, c.crawler) > 0 && !Tick(c).over
    ensures Underway(Tick(c), list) && |Ahead(Tick(c))| < |Ahead(c)|
  {
    TurnMoves(c);
    var c', x := Tick(c), c.list[Index(c.list, c.crawler) - 1];
    MovesOn(Ahead(c), Behind(c), c.passed, x, Ahead(c'), Behind(c'), c'.passed);
  }

  lemma Going(c: Crawl, list: seq<nat>)
    requires !c.over && Underway(c, list)
    ensures Underway(Tick(c), list) && (!Tick(c).over ==> |Ahead(Tick(c))| < |Ahead(c)|)
  {
    TickLeaves(c);
    if Index(c.list, c.crawler) > 0 {
      GoingOn(c, list);
    } else {
      assert Ahead(c) + Behind(c) == Behind(c);
    }
  }

  /** A crawler of list `k` that leaves it is on no list. */
  lemma OnNoOther(lists: seq<seq<nat>>, k: nat, crawler: nat, list': seq<nat>)
    requires Apart(lists) && k < |lists| && crawler in lists[k] && crawler !in list'
    ensures Absent(lists[k := list'], crawler)
  {}

  class Crawling {
    const lru: Lrus
    const k: nat
    const crawler: nat
    var remaining: nat
    var over: bool
    /** The items returned to the loop. */
    var passed: seq<nat>

    constructor (lru: Lrus, k: nat, crawler: nat)
      ensures this.lru == lru && this.k == k && this.crawler == crawler && over && passed == []
    {
      this.lru, this.k, this.crawler, over, remaining, passed := lru, k, crawler, true, 0, [];
    }

    ghost function View(): Crawl
      requires k < |lru.lists|
      reads this, lru
    {
      Crawl(lru.lists[k], crawler, remaining, passed, over)
    }

    ghost predicate Ok()
      reads this, lru, lru.heads, lru.tails, lru.prev, lru.next
    {
      && lru.Valid() && k < |lru.lists| && Distinct(lru.lists[k]) && crawler < lru.next.Length
      && (if over then Absent(lru.lists, crawler) else crawler in lru.lists[k])
    }

    /** do_lru_crawler_start with `cap` as the caller gave it: 0 for none. */
    method Begin(cap: nat)
      requires Ok() && over
      modifies this, lru, lru.heads, lru.tails, lru.prev, lru.next
      ensures Ok() && View() == Start(old(lru.lists)[k], crawler, cap) && lru.lists == old(lru.lists)[k := lru.lists[k]]
    {
      remaining := if cap > 0 then cap + 1 else 0;
      passed, over := [], false;
      lru.LinkTailQ(k, crawler);
      lru.Here(k);
      assert crawler in lru.lists[k];
    }

    /** lru_crawler_class_done after do_item_crawl_q has found nothing: the crawler is alone on the
        list, or off it already. */
    method Retire(ghost list: seq<nat>, ghost l: Links)
      requires lru.Valid() && k < |lru.lists| && Linked(list, l) && |list| > 0 && list[0] == crawler
      requires Sane(l, crawler) && lru.View(k) == Popped(l, crawler) && lru.lists[k] == Crawled(list, 0)
      modifies this`over, lru, lru.heads, lru.tails, lru.prev, lru.next
      ensures over && lru.Valid() && lru.lists == old(lru.lists)[k := list[1..]]
    {
      over := true;
      LinkedSane(list, l, 0);
      if |list| > 1 {
        PoppedThenUnhooked(list, l);
      } else {
        assert Cut(list, 0) == list[1..];
      }
      lru.UnlinkTailQ(k, crawler, |list| == 1, 0);
    }

    /** lru_crawler_class_done with the crawler somewhere in the list. */
    method Stop(ghost i: nat)
      requires lru.Valid() && k < |lru.lists| && i < |lru.lists[k]| && lru.lists[k][i] == crawler
      modifies this`over, lru, lru.heads, lru.tails, lru.prev, lru.next
      ensures over && lru.Valid() && lru.lists == old(lru.lists)[k := Cut(old(lru.lists)[k], i)]
    {
      over := true;
      lru.UnlinkTailQ(k, crawler, true, i);
    }

    /** The count of a turn that came by an item, the crawler being at `i`. */
    method Count(search: nat, ghost i: nat)
      requires lru.Valid() && k < |lru.lists| && i < |lru.lists[k]| && lru.lists[k][i] == crawler && !over
      modifies this, lru, lru.heads, lru.tails, lru.prev, lru.next
      ensures lru.Valid() && remaining == (if old(remaining) > 0 then old(remaining) - 1 else 0)
      ensures over == (old(remaining) == 1) && passed == (if over then old(passed) else old(passed) + [search])
      ensures lru.lists == if over then old(lru.lists)[k := Cut(old(lru.lists)[k], i)] else old(lru.lists)
    {
      if remaining > 0 {
        remaining := remaining - 1;
        if remaining < 1 {
          Stop(i);
          return;
        }
      }
      passed := passed + [search];
    }

    /** do_item_crawl_q and what follows from what it returns, the crawler being at `i`. */
    method Advance(ghost i: nat)
      requires lru.Valid() && k < |lru.lists| && i < |lru.lists[k]| && lru.lists[k][i] == crawler && !over
      modifies this, lru, lru.heads, lru.tails, lru.prev, lru.next
      ensures lru.Valid() && k < |lru.lists| && lru.lists == old(lru.lists)[k := lru.lists[k]]
      ensures View() == Advanced(old(View()), i)
    {
      lru.Here(k);
      ghost var list, l := lru.lists[k], lru.View(k);
      LinkedSane(list, l, i);
      var search := lru.CrawlQ(k, crawler, i);
      if search == NULL {
        Retire(list, l);
      } else {
        Count(search, i - 1);
      }
    }

    /** A turn of the inner loop: on this list a turn of the model, on the others nothing. */
    method Turn()
      requires Ok() && !over
      modifies this, lru, lru.heads, lru.tails, lru.prev, lru.next
      ensures Ok() && View() == Tick(old(View())) && lru.lists == old(lru.lists)[k := lru.lists[k]]
    {
      ghost var c := View();
      TickLeaves(c);
      if Tick(c).over {
        OnNoOther(lru.lists, k, crawler, Tick(c).list);
      }
      Advance(Index(lru.lists[k], crawler));
      lru.Here(k);
    }

    /** A whole crawl with nobody else about: every item once, tail to head, and all lists as they were. */
    method CrawlAll()
      requires Ok() && over
      modifies this, lru, lru.heads, lru.tails, lru.prev, lru.next
      ensures Ok() && over && lru.lists == old(lru.lists) && passed == Reversed(old(lru.lists)[k])
    {
      ghost var list := lru.lists[k];
      Starting(list, crawler);
      Begin(0);
      while !over
        invariant Ok() && Underway(View(), list) && lru.lists == old(lru.lists)[k := lru.lists[k]]
        decreases !over, if over then 0 else |Ahead(View())|
      {
        Going(View(), list);
        Turn();
      }
    }
  }
}
