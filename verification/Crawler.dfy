/** A crawl through a live LRU list. The crawler is a list element that starts at the tail and,
    step by step, changes places with the item before it, while workers link new items at the
    head and unlink items anywhere between its steps. */
module Crawler {
  import opened LruList
  import opened Sequences

  /** `passed` are the items the crawler has looked at, in order; `remaining` as in the source: 0
      for no cap, n + 1 for at most n items. */
  datatype Crawl = Crawl(list: seq<nat>, crawler: nat, remaining: nat, passed: seq<nat>, over: bool)

  predicate Running(c: Crawl) {
    !c.over && c.crawler in c.list && Distinct(c.list)
  }

  /** lru_crawler_class_done: the crawler is taken out of the list. */
  function Done(c: Crawl): Crawl
    requires c.crawler in c.list
  {
    c.(list := Cut(c.list, Index(c.list, c.crawler)), over := true)
  }

  /** One turn of the crawler thread's inner loop over this list. */
  function Tick(c: Crawl): Crawl
    requires Running(c)
  {
    var i := Index(c.list, c.crawler);
    if i == 0 then Done(c)
    else
      var moved := c.(list := SwapBack(c.list, i));
      var left := if c.remaining > 0 then c.remaining - 1 else 0;
      if c.remaining > 0 && left < 1
      then moved.(list := Cut(moved.list, i - 1), remaining := left, over := true)
      else moved.(remaining := left, passed := c.passed + [c.list[i - 1]])
  }

  datatype Step = Turn | LinkHead(x: nat) | Unlink(x: nat)

  predicate Enabled(c: Crawl, s: Step) {
    && Running(c)
    && match s
       case Turn => true
       case LinkHead(x) => x !in c.list
       case Unlink(x) => x in c.list && x != c.crawler
  }

  function Next(c: Crawl, s: Step): Crawl
    requires Enabled(c, s)
  {
    match s
    case Turn => Tick(c)
    case LinkHead(x) => c.(list := [x] + c.list)
    case Unlink(x) => c.(list := Cut(c.list, Index(c.list, x)))
  }

  /** do_lru_crawler_start: the crawler becomes the tail. */
  function Start(list: seq<nat>, crawler: nat, remaining: nat): Crawl {
    Crawl(list + [crawler], crawler, if remaining > 0 then remaining + 1 else 0, [], false)
  }

  // ---- the items that stay put ----

  /** The list cut down to the items of `keep`. */
  function Only(list: seq<nat>, keep: set<nat>): seq<nat> {
    if |list| == 0 then []
    else if list[0] in keep then [list[0]] + Only(list[1..], keep) else Only(list[1..], keep)
  }

  function Reversed(list: seq<nat>): (r: seq<nat>)
    ensures |r| == |list|
  {
    if |list| == 0 then [] else Reversed(list[1..]) + [list[0]]
  }

  lemma {:induction false} OnlyAppend(a: seq<nat>, b: seq<nat>, keep: set<nat>)
    ensures Only(a + b, keep) == Only(a, keep) + Only(b, keep)
    decreases |a|
  {
    if |a| == 0 {
      assert a + b == b;
    } else {
      assert (a + b)[1..] == a[1..] + b;
      OnlyAppend(a[1..], b, keep);
    }
  }

  /** Neither linking nor unlinking concerns an item of `keep`. */
  predicate SparesStep(s: Step, keep: set<nat>) {
    match s
    case Turn => true
    case LinkHead(x) => x !in keep
    case Unlink(x) => x !in keep
  }

  /** Cutting a stranger out does not show. */
  lemma OnlyCut(list: seq<nat>, i: nat, keep: set<nat>)
    requires i < |list| && list[i] !in keep
    ensures Only(Cut(list, i), keep) == Only(list, keep)
  {
    assert list == list[..i] + ([list[i]] + list[i + 1..]);
    OnlyAppend(list[..i], list[i + 1..], keep);
    OnlyAppend(list[..i], [list[i]] + list[i + 1..], keep);
    assert ([list[i]] + list[i + 1..])[1..] == list[i + 1..];
  }

  /** Ahead of the crawler and behind it. */
  function Ahead(c: Crawl): seq<nat>
    requires c.crawler in c.list
  {
    c.list[..Index(c.list, c.crawler)]
  }

  function Behind(c: Crawl): seq<nat>
    requires c.crawler in c.list
  {
    c.list[Index(c.list, c.crawler) + 1..]
  }

  /** The crawl so far, as the staying items see it: their order is `order`, and those behind the
      crawler are exactly those passed, in reverse. */
  ghost predicate OnCourse(c: Crawl, keep: set<nat>, order: seq<nat>) {
    && Running(c) && c.crawler !in keep
    && Only(Ahead(c), keep) + Only(Behind(c), keep) == order
    && Only(c.passed, keep) == Reversed(Only(Behind(c), keep))
  }

  lemma IndexOf(list: seq<nat>, x: nat, i: nat)
    requires Distinct(list) && i < |list| && list[i] == x
    ensures x in list && Index(list, x) == i
  {}

  /** A turn takes one item from ahead to behind. */
  lemma TurnMoves(c: Crawl)
    requires Running(c) && Index(c.list, c.crawler) > 0 && !Tick(c).over
    ensures var c', x := Tick(c), c.list[Index(c.list, c.crawler) - 1];
      Running(c') && Ahead(c) == Ahead(c') + [x] && Behind(c') == [x] + Behind(c) && c'.passed == c.passed + [x]
  {
    var i := Index(c.list, c.crawler);
    SwapBackDistinct(c.list, i);
    IndexOf(Tick(c).list, c.crawler, i - 1);
  }

  /** The staying items when one goes from ahead to behind. */
  lemma OnlyMoves(ahead: seq<nat>, x: nat, behind: seq<nat>, keep: set<nat>)
    ensures Only(ahead, keep) + Only([x] + behind, keep) == Only(ahead + [x], keep) + Only(behind, keep)
  {
    OnlyAppend(ahead, [x], keep);
    OnlyAppend([x], behind, keep);
    var a, one, b := Only(ahead, keep), Only([x], keep), Only(behind, keep);
    assert a + one + b == a + (one + b);
  }

  lemma OnlyPasses(passed: seq<nat>, x: nat, behind: seq<nat>, keep: set<nat>)
    requires Only(passed, keep) == Reversed(Only(behind, keep))
    ensures Only(passed + [x], keep) == Reversed(Only([x] + behind, keep))
  {
    OnlyAppend(passed, [x], keep);
    OnlyAppend([x], behind, keep);
    OnlyOne(x, keep);
    var b := Only(behind, keep);
    if x in keep {
      assert ([x] + b)[1..] == b;
    } else {
      assert [] + b == b && Only(passed, keep) + [] == Only(passed, keep);
    }
  }

  lemma OnlyOne(x: nat, keep: set<nat>)
    ensures Only([x], keep) == if x in keep then [x] else []
  {
    assert [x][1..] == [];
  }

  lemma TurnKeeps(c: Crawl, keep: set<nat>, order: seq<nat>)
    requires OnCourse(c, keep, order) && Index(c.list, c.crawler) > 0 && !Tick(c).over
    ensures OnCourse(Tick(c), keep, order)
  {
    var c', x := Tick(c), c.list[Index(c.list, c.crawler) - 1];
    TurnMoves(c);
    OnlyMoves(Ahead(c'), x, Behind(c), keep);
    OnlyPasses(c.passed, x, Behind(c), keep);
  }

  lemma LinkKeeps(c: Crawl, x: nat, keep: set<nat>, order: seq<nat>)
    requires OnCourse(c, keep, order) && x !in c.list && x !in keep
    ensures OnCourse(Next(c, LinkHead(x)), keep, order)
  {
    var i := Index(c.list, c.crawler);
    var c' := Next(c, LinkHead(x));
    IndexOf(c'.list, c.crawler, i + 1);
    assert Ahead(c') == [x] + Ahead(c) && Behind(c') == Behind(c);
    assert ([x] + Ahead(c))[1..] == Ahead(c);
  }

  lemma UnlinkAhead(c: Crawl, j: nat, keep: set<nat>)
    requires Running(c) && j < Index(c.list, c.crawler) && c.list[j] !in keep
    ensures var c' := c.(list := Cut(c.list, j));
      && Running(c') && Only(Ahead(c'), keep) == Only(Ahead(c), keep) && Behind(c') == Behind(c)
  {
    CutAhead(c, j);
    OnlyCut(Ahead(c), j, keep);
  }

  lemma CutFront(list: seq<nat>, i: nat, j: nat)
    requires j < i < |list|
    ensures var cut := Cut(list, j);
      cut[i - 1] == list[i] && cut[..i - 1] == Cut(list[..i], j) && cut[i..] == list[i + 1..]
  {
    var x, y := Cut(list, j)[..i - 1], Cut(list[..i], j);
    assert |x| == |y| && forall k :: 0 <= k < |x| ==> x[k] == y[k];
  }

  lemma CutAhead(c: Crawl, j: nat)
    requires Running(c) && j < Index(c.list, c.crawler)
    ensures var c' := c.(list := Cut(c.list, j));
      Running(c') && Ahead(c') == Cut(Ahead(c), j) && Behind(c') == Behind(c)
  {
    CutFront(c.list, Index(c.list, c.crawler), j);
    CutDistinct(c.list, j);
    IndexOf(Cut(c.list, j), c.crawler, Index(c.list, c.crawler) - 1);
  }

  lemma CutParts(list: seq<nat>, i: nat, j: nat)
    requires i < j < |list|
    ensures var cut := Cut(list, j);
      cut[i] == list[i] && cut[..i] == list[..i] && cut[i + 1..] == Cut(list[i + 1..], j - i - 1)
  {
    var x, y := Cut(list, j)[i + 1..], Cut(list[i + 1..], j - i - 1);
    assert |x| == |y| && forall k :: 0 <= k < |x| ==> x[k] == y[k];
  }

  lemma CutDistinct(list: seq<nat>, j: nat)
    requires Distinct(list) && j < |list|
    ensures Distinct(Cut(list, j))
  {}

  lemma CutBehind(c: Crawl, j: nat)
    requires Running(c) && Index(c.list, c.crawler) < j < |c.list|
    ensures var c', i := c.(list := Cut(c.list, j)), Index(c.list, c.crawler);
      Running(c') && Ahead(c') == Ahead(c) && Behind(c') == Cut(Behind(c), j - i - 1)
  {
    CutParts(c.list, Index(c.list, c.crawler), j);
    CutDistinct(c.list, j);
    IndexOf(Cut(c.list, j), c.crawler, Index(c.list, c.crawler));
  }

  lemma UnlinkBehind(c: Crawl, j: nat, keep: set<nat>)
    requires Running(c) && Index(c.list, c.crawler) < j < |c.list| && c.list[j] !in keep
    ensures var c' := c.(list := Cut(c.list, j));
      && Running(c') && Ahead(c') == Ahead(c) && Only(Behind(c'), keep) == Only(Behind(c), keep)
  {
    CutBehind(c, j);
    OnlyCut(Behind(c), j - Index(c.list, c.crawler) - 1, keep);
  }

  lemma UnlinkKeeps(c: Crawl, x: nat, keep: set<nat>, order: seq<nat>)
    requires OnCourse(c, keep, order) && x in c.list && x != c.crawler && x !in keep
    ensures OnCourse(Next(c, Unlink(x)), keep, order)
  {
    var j := Index(c.list, x);
    if j < Index(c.list, c.crawler) {
      UnlinkAhead(c, j, keep);
    } else {
      UnlinkBehind(c, j, keep);
    }
  }

  // ---- a whole crawl ----

  ghost predicate Crawls(c: Crawl, steps: seq<Step>, keep: set<nat>, after: Crawl)
    decreases |steps|
  {
    if |steps| == 0 then after == c
    else Enabled(c, steps[0]) && SparesStep(steps[0], keep) && Crawls(Next(c, steps[0]), steps[1..], keep, after)
  }

  /** An uncapped crawl has come to its end. */
  lemma {:induction false} CrawlFrom(c: Crawl, steps: seq<Step>, keep: set<nat>, order: seq<nat>, after: Crawl)
    requires OnCourse(c, keep, order) && c.remaining == 0 && Crawls(c, steps, keep, after) && after.over
    ensures Only(after.passed, keep) == Reversed(order) && Only(after.list, keep) == order
    decreases |steps|
  {
    var s := steps[0];
    var c' := Next(c, s);
    match s
    case LinkHead(x) =>
      LinkKeeps(c, x, keep, order);
      CrawlFrom(c', steps[1..], keep, order, after);
    case Unlink(x) =>
      UnlinkKeeps(c, x, keep, order);
      CrawlFrom(c', steps[1..], keep, order, after);
    case Turn =>
      if Index(c.list, c.crawler) > 0 {
        TurnKeeps(c, keep, order);
        CrawlFrom(c', steps[1..], keep, order, after);
      } else {
        assert Ahead(c) == [] && c'.list == Behind(c);
        assert order == Only(Behind(c), keep);
        assert |steps[1..]| == 0;
      }
  }

  /** Every item that stays on the list through a full crawl is visited exactly once, tail to
      head, whatever is linked at the head or unlinked meanwhile; and when the crawler is gone
      those items are in the order they started in. */
  lemma FullCrawlVisitsAll(list: seq<nat>, crawler: nat, steps: seq<Step>, keep: set<nat>, after: Crawl)
    requires Distinct(list) && crawler !in list && crawler !in keep
    requires Crawls(Start(list, crawler, 0), steps, keep, after) && after.over
    ensures Only(after.passed, keep) == Reversed(Only(list, keep))
    ensures Only(after.list, keep) == Only(list, keep)
  {
    var c := Start(list, crawler, 0);
    IndexOf(c.list, crawler, |list|);
    assert Ahead(c) == list && Behind(c) == [];
    CrawlFrom(c, steps, keep, Only(list, keep), after);
  }

  /** A capped crawl looks at no more than its cap. */
  lemma {:induction false} CapHolds(c: Crawl, steps: seq<Step>, keep: set<nat>, after: Crawl)
    requires Crawls(c, steps, keep, after) && c.remaining > 0
    ensures |after.passed| + (if after.over then 0 else after.remaining) <= |c.passed| + c.remaining
    ensures |after.passed| <= |c.passed| + c.remaining - 1
    decreases |steps|
  {
    if |steps| > 0 {
      var c' := Next(c, steps[0]);
      if c'.over {
        assert |steps[1..]| == 0;
      } else {
        CapHolds(c', steps[1..], keep, after);
      }
    }
  }
}
