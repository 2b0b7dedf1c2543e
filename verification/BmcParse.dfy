/** A GET on its way in: the tail calls of bmc_hash_keys walk the packet head along the keys. */
module BmcParse {
  import opened Bmc
  import BmcMemory
  import opened Options

  const HEADERS := 50
  const ETH := 14
  const MAX_KEYS := 30

  // ---- the request ----

  /** The length of the word at `r`, as far as the kernel looks. */
  function Len(s: seq<Byte>, r: nat): (n: nat)
    ensures r <= |s| ==> r + n <= |s|
  {
    Span(s, r, MAX_KEY + 1, true)
  }

  predicate Bad(n: nat) {
    n == 0 || n > MAX_KEY
  }

  /** The word at `r` ends the request. */
  predicate Last(s: seq<Byte>, r: nat) {
    r + Len(s, r) < |s| && s[r + Len(s, r)] == CR
  }

  /** Where the walk should stop: at the first word that is no key or that ends the request. */
  function Stop(s: seq<Byte>, r: nat): Option<nat>
    decreases |s| - r
  {
    if r >= |s| then None
    else if Bad(Len(s, r)) || Last(s, r) then Some(r)
    else Stop(s, r + Len(s, r) + 1)
  }

  /** The key at `r` as it is saved. */
  function KeyAt(s: seq<Byte>, r: nat): (k: Saved)
    requires r <= |s|
  {
    var key := s[r..r + Len(s, r)];
    Saved(Fnv(key), key)
  }

  /** The hash in the i-th slot looked at, if that slot was valid. */
  function Seen(look: seq<Option<Word>>, i: nat): Option<Word> {
    if i < |look| then look[i] else None
  }

  /** The keys from `r` on whose slots, as `look` finds them one after the other, hold their hash. */
  function Likely(s: seq<Byte>, r: nat, i: nat, look: seq<Option<Word>>): seq<Saved>
    decreases |s| - r
  {
    if r >= |s| || Bad(Len(s, r)) then []
    else
      var k := KeyAt(s, r);
      var rest := if Last(s, r) then [] else Likely(s, r + Len(s, r) + 1, i + 1, look);
      if Seen(look, i) == Some(k.hash) then [k] + rest else rest
  }

  lemma SpanShift(s: seq<Byte>, r: nat, most: nat)
    requires r <= |s|
    ensures Span(s[r..], 0, most, true) == Span(s, r, most, true)
  {
    var n := Span(s, r, most, true);
    SpanHas(s, r, most, true);
    SpanIs(s[r..], 0, most, true, n);
  }

  /** How many of the likely keys come before the stop. */
  function Early(s: seq<Byte>, r: nat, i: nat, look: seq<Option<Word>>): nat
    decreases |s| - r
  {
    if r >= |s| || Bad(Len(s, r)) || Last(s, r) then 0
    else (if Seen(look, i) == Some(KeyAt(s, r).hash) then 1 else 0) + Early(s, r + Len(s, r) + 1, i + 1, look)
  }

  /** How many words come before the stop. */
  function Before(s: seq<Byte>, r: nat): nat
    decreases |s| - r
  {
    if r >= |s| || Bad(Len(s, r)) || Last(s, r) then 0 else 1 + Before(s, r + Len(s, r) + 1)
  }

  /** The walk gets to its stop: the stopping word is far enough from the end of the packet for the head to
      be moved there, there is room to save the keys before it, and the kernel, which lets one packet make
      no more than `calls` tail calls, allows one for every word. */
  predicate Walkable(s: seq<Byte>, look: seq<Option<Word>>, calls: nat) {
    && Stop(s, 0).Some? && Stop(s, 0).value + ETH <= |s|
    && Early(s, 0, 0, look) < MAX_KEYS && Before(s, 0) < calls
  }

  /** The tail calls a walk to the stop leaves. */
  function CallsLeft(s: seq<Byte>, calls: nat): (n: nat) {
    if Before(s, 0) < calls then calls - 1 - Before(s, 0) else 0
  }

  lemma OneKey(s: seq<Byte>, r: nat, i: nat, look: seq<Option<Word>>, next: nat)
    requires r < |s| && !Bad(Len(s, r)) && !Last(s, r) && next == r + Len(s, r) + 1
    ensures |Likely(s, r, i, look)| <= 1 + |Likely(s, next, i + 1, look)|
  {}

  lemma LastKey(s: seq<Byte>, r: nat, i: nat, look: seq<Option<Word>>)
    requires r >= |s| || Bad(Len(s, r)) || Last(s, r)
    ensures |Likely(s, r, i, look)| <= 1
  {}

  /** Every key that is saved takes a word. */
  lemma {:induction false} KeysAreWords(s: seq<Byte>, r: nat, i: nat, look: seq<Option<Word>>)
    ensures |Likely(s, r, i, look)| <= Before(s, r) + 1
    decreases |s| - r
  {
    if r >= |s| || Bad(Len(s, r)) || Last(s, r) {
      LastKey(s, r, i, look);
    } else {
      var next := r + Len(s, r) + 1;
      OneKey(s, r, i, look, next);
      KeysAreWords(s, next, i + 1, look);
    }
  }

  lemma {:induction false} StopIsAhead(s: seq<Byte>, r: nat)
    ensures Stop(s, r).Some? ==> Stop(s, r).value >= r
    decreases |s| - r
  {
    if r < |s| && !Bad(Len(s, r)) && !Last(s, r) {
      StopIsAhead(s, r + Len(s, r) + 1);
    }
  }

  predicate AllSaved(keys: seq<Saved>) {
    forall i :: 0 <= i < |keys| ==> SavedOk(keys[i])
  }

  function Add(keys: seq<Saved>, k: Saved, seen: Option<Word>): seq<Saved> {
    if seen == Some(k.hash) then keys + [k] else keys
  }

  datatype Journey = Journey(stop: Option<nat>, likely: seq<Saved>, early: nat, before: nat)

  /** The walk from the i-th word, at `r`, on, with `keys` saved before. */
  function Walk(s: seq<Byte>, r: nat, i: nat, keys: seq<Saved>, look: seq<Option<Word>>): Journey
    decreases |s| - r
  {
    if r >= |s| then Journey(None, keys, |keys|, i)
    else if Bad(Len(s, r)) then Journey(Some(r), keys, |keys|, i)
    else
      var keys' := Add(keys, KeyAt(s, r), Seen(look, i));
      if Last(s, r) then Journey(Some(r), keys', |keys|, i)
      else Walk(s, r + Len(s, r) + 1, i + 1, keys', look)
  }

  lemma AddThen(keys: seq<Saved>, k: Saved, seen: Option<Word>, rest: seq<Saved>)
    ensures Add(keys, k, seen) + rest == keys + (if seen == Some(k.hash) then [k] + rest else rest)
    ensures |Add(keys, k, seen)| == |keys| + if seen == Some(k.hash) then 1 else 0
  {
    assert keys + ([k] + rest) == keys + [k] + rest;
  }

  lemma {:induction false} WalkIs(s: seq<Byte>, r: nat, i: nat, keys: seq<Saved>, look: seq<Option<Word>>)
    ensures Walk(s, r, i, keys, look)
      == Journey(Stop(s, r), keys + Likely(s, r, i, look), |keys| + Early(s, r, i, look), i + Before(s, r))
    decreases |s| - r
  {
    if r < |s| && !Bad(Len(s, r)) {
      var k, next := KeyAt(s, r), r + Len(s, r) + 1;
      if Last(s, r) {
        AddThen(keys, k, Seen(look, i), []);
      } else {
        AddThen(keys, k, Seen(look, i), Likely(s, next, i + 1, look));
        WalkIs(s, next, i + 1, Add(keys, k, Seen(look, i)), look);
      }
    }
  }

  /** The walk has come to the word at `r`, the i-th, and has saved `keys`. */
  ghost predicate AtWord(s: seq<Byte>, r: nat, i: nat, keys: seq<Saved>, look: seq<Option<Word>>) {
    Walk(s, r, i, keys, look) == Walk(s, 0, 0, [], look) && AllSaved(keys)
  }

  lemma AddSaved(keys: seq<Saved>, k: Saved, seen: Option<Word>)
    requires AllSaved(keys) && SavedOk(k)
    ensures AllSaved(Add(keys, k, seen))
  {}

  lemma WalkOn(s: seq<Byte>, r: nat, i: nat, keys: seq<Saved>, look: seq<Option<Word>>, r': nat, keys': seq<Saved>)
    requires r < |s| && !Bad(Len(s, r)) && !Last(s, r)
    requires r' == r + Len(s, r) + 1 && keys' == Add(keys, KeyAt(s, r), Seen(look, i))
    ensures Walk(s, r', i + 1, keys', look) == Walk(s, r, i, keys, look)
  {}

  lemma NextWord(s: seq<Byte>, r: nat, i: nat, keys: seq<Saved>, look: seq<Option<Word>>, r': nat, keys': seq<Saved>)
    requires AtWord(s, r, i, keys, look) && r < |s| && !Bad(Len(s, r)) && !Last(s, r)
    requires r' == r + Len(s, r) + 1 && keys' == Add(keys, KeyAt(s, r), Seen(look, i))
    ensures AtWord(s, r', i + 1, keys', look)
  {
    WalkOn(s, r, i, keys, look, r', keys');
    AddSaved(keys, KeyAt(s, r), Seen(look, i));
  }

  lemma LastWord(s: seq<Byte>, r: nat, i: nat, keys: seq<Saved>, look: seq<Option<Word>>)
    requires AtWord(s, r, i, keys, look) && r < |s| && !Bad(Len(s, r)) && Last(s, r)
    ensures Likely(s, 0, 0, look) == Add(keys, KeyAt(s, r), Seen(look, i)) && AllSaved(Likely(s, 0, 0, look))
    ensures Stop(s, 0) == Some(r) && Early(s, 0, 0, look) == |keys| && Before(s, 0) == i
  {
    WalkIs(s, 0, 0, [], look);
  }

  lemma WalkEnds(s: seq<Byte>, r: nat, i: nat, keys: seq<Saved>, look: seq<Option<Word>>, calls: nat)
    requires AtWord(s, r, i, keys, look) && (|keys| >= MAX_KEYS || r + ETH > |s| || i >= calls)
    ensures !Walkable(s, look, calls)
  {
    StopIsAhead(s, r);
    WalkIs(s, r, i, keys, look);
    WalkIs(s, 0, 0, [], look);
  }

  // ---- the packet ----

  const PAGE := 4096

  /** A packet in its page: the bytes from `head` to `tail`, with headroom down to `floor`. */
  class Frame {
    const mem: array<Byte>
    const floor: nat
    var head: nat
    var tail: nat

    constructor (mem: array<Byte>, floor: nat, head: nat, tail: nat)
      requires floor <= head <= tail <= mem.Length <= PAGE
      ensures Valid() && this.mem == mem && this.floor == floor && this.head == head && this.tail == tail
    {
      this.mem, this.floor, this.head, this.tail := mem, floor, head, tail;
    }

    ghost predicate Valid()
      reads this
    {
      floor <= head <= tail <= mem.Length <= PAGE
    }

    function Packet(): seq<Byte>
      reads this, mem
      requires Valid()
    {
      mem[..][head..tail]
    }

    /** bpf_xdp_adjust_head: refused below the headroom and within an Ethernet header of the end. */
    method AdjustHead(delta: int) returns (ok: bool)
      requires Valid()
      modifies this`head
      ensures Valid() && ok == (floor <= old(head) + delta && old(head) + delta + ETH <= tail)
      ensures head == if ok then old(head) + delta else old(head)
    {
      ok := floor <= head + delta && head + delta + ETH <= tail;
      if ok {
        head := head + delta;
      }
    }
  }

  datatype Action = Pass | Drop | Tx | TailCall

  /** The walk ends at a last key, and some keys are likely to be answered. */
  predicate Asks(s: seq<Byte>, look: seq<Option<Word>>) {
    Stop(s, 0).Some? && !Bad(Len(s, Stop(s, 0).value)) && Likely(s, 0, 0, look) != []
  }

  /** How the walk over the keys of `s` ends: with the head back at the start of the packet, or
      `stranded` among the keys. */
  ghost predicate Walked(
    s: seq<Byte>, look: seq<Option<Word>>, calls: nat, stranded: bool, action: Action, keys: seq<Saved>) {
    && (stranded <==> !Walkable(s, look, calls))
    && (action == TailCall <==> !stranded && Asks(s, look))
    && (action == TailCall ==> keys == Likely(s, 0, 0, look) && AllSaved(keys) && |keys| <= MAX_KEYS)
    && (action == TailCall || action == Pass)
  }

  lemma StrandedIs(s: seq<Byte>, r: nat, i: nat, keys: seq<Saved>, look: seq<Option<Word>>, calls: nat)
    requires AtWord(s, r, i, keys, look) && (|keys| >= MAX_KEYS || r + ETH > |s| || i >= calls)
    ensures Walked(s, look, calls, true, Pass, keys)
  {
    WalkEnds(s, r, i, keys, look, calls);
  }

  lemma BadIs(s: seq<Byte>, r: nat, i: nat, keys: seq<Saved>, look: seq<Option<Word>>, calls: nat)
    requires AtWord(s, r, i, keys, look) && r + ETH <= |s| && |keys| < MAX_KEYS && i < calls && Bad(Len(s, r))
    ensures Walked(s, look, calls, false, Pass, keys)
  {
    WalkIs(s, 0, 0, [], look);
  }

  lemma LastIs(s: seq<Byte>, r: nat, i: nat, keys: seq<Saved>, look: seq<Option<Word>>, calls: nat)
    requires AtWord(s, r, i, keys, look) && r + ETH <= |s| && |keys| < MAX_KEYS && i < calls
    requires !Bad(Len(s, r)) && Last(s, r)
    ensures CallsLeft(s, calls) == calls - 1 - i
    ensures var all := Add(keys, KeyAt(s, r), Seen(look, i));
      Walked(s, look, calls, false, if |all| > 0 then TailCall else Pass, all)
  {
    LastWord(s, r, i, keys, look);
  }

  lemma KeyIs(s: seq<Byte>, r: nat, payload: seq<Byte>)
    requires r <= |s| && payload == s[r..]
    ensures Len(payload, 0) == Len(s, r) && KeyAt(s, r).key == payload[..Len(s, r)]
      && (r < |s| ==> (Last(s, r) <==> Last(payload, 0)))
  {
    SpanShift(s, r, MAX_KEY + 1);
  }

  method ReadKey(payload: seq<Byte>, ghost s: seq<Byte>, ghost r: nat) returns (k: Saved, len: nat, done: bool)
    requires r < |s| && payload == s[r..]
    ensures k == KeyAt(s, r) && len == Len(s, r) && (!Bad(len) ==> (done <==> Last(s, r)))
  {
    var hash;
    hash, len, done := BmcMemory.HashKey(payload);
    KeyIs(s, r, payload);
    k := Saved(hash, payload[..len]);
  }

  /** A walk under way. */
  datatype Walker = Walker(s: seq<Byte>, look: seq<Option<Word>>, r: nat, i: nat, keys: seq<Saved>)

  type Underway = w: Walker | AtWord(w.s, w.r, w.i, w.keys, w.look) witness Walker([], [], 0, 0, [])

  ghost function Onward(w: Underway): Underway
    requires w.r < |w.s| && !Bad(Len(w.s, w.r)) && !Last(w.s, w.r)
  {
    var r', keys' := w.r + Len(w.s, w.r) + 1, Add(w.keys, KeyAt(w.s, w.r), Seen(w.look, w.i));
    NextWord(w.s, w.r, w.i, w.keys, w.look, r', keys');
    Walker(w.s, w.look, r', w.i + 1, keys')
  }

  /** What one run of bmc_hash_keys makes of the word it finds. */
  datatype Found = Full | NoKey | End(keys: seq<Saved>) | More(keys: seq<Saved>, n: nat)

  /** One run of bmc_hash_keys, up to the moving of the head: the packet is the request from the
      walker's word on, `keys` are the keys saved so far. */
  method HashOne(payload: seq<Byte>, keys: seq<Saved>, seen: Option<Word>, ghost calls: nat, ghost w: Underway)
    returns (f: Found, ghost w': Underway)
    requires w.r + ETH <= |w.s| && payload == w.s[w.r..] && keys == w.keys && seen == Seen(w.look, w.i) && w.i < calls
    ensures f.Full? ==> Walked(w.s, w.look, calls, true, Pass, keys)
    ensures f.NoKey? ==> Walked(w.s, w.look, calls, false, Pass, keys)
    ensures f.End? ==> Walked(w.s, w.look, calls, false, if |f.keys| > 0 then TailCall else Pass, f.keys)
    ensures f.End? ==> CallsLeft(w.s, calls) == calls - 1 - w.i
    ensures f.More? ==> f.n > 0 && w' == Walker(w.s, w.look, w.r + f.n, w.i + 1, f.keys)
    ensures f.More? && (w'.r + ETH > |w.s| || w'.i >= calls) ==> Walked(w.s, w.look, calls, true, Pass, f.keys)
  {
    w' := w;
    if |keys| >= MAX_KEYS {
      StrandedIs(w.s, w.r, w.i, keys, w.look, calls);
      return Full, w;
    }
    var k, len, done := ReadKey(payload, w.s, w.r);
    if len == 0 || len > MAX_KEY {
      BadIs(w.s, w.r, w.i, keys, w.look, calls);
      return NoKey, w;
    }
    var keys' := Add(keys, k, seen);
    if done {
      LastIs(w.s, w.r, w.i, keys, w.look, calls);
      return End(keys'), w;
    }
    w' := Onward(w);
    if w'.r + ETH > |w.s| || w'.i >= calls {
      StrandedIs(w.s, w'.r, w'.i, keys', w.look, calls);
    }
    return More(keys', len + 1), w';
  }

  /** The tail calls of bmc_hash_keys over one GET, whose first key is `off` bytes into the payload
      of the packet that began at `base`. `look` is what it finds in the slots of the keys, `calls` how many
      tail calls the kernel allows, the one that leads here among them, and `left` how many are left. */
  method HashKeys(x: Frame, base: nat, off: nat, look: seq<Option<Word>>, calls: nat)
    returns (action: Action, keys: seq<Saved>, left: nat)
    requires x.Valid() && x.floor <= base && x.head == base + HEADERS + off && x.head + ETH <= x.tail && calls > 0
    modifies x`head
    ensures x.Valid() && Walked(old(x.Packet()), look, calls, x.head != base, action, keys)
    ensures action == TailCall ==> left == CallsLeft(old(x.Packet()), calls)
  {
    ghost var s := x.Packet();
    ghost var w: Underway := Walker(s, look, 0, 0, []);
    action, keys, left := Pass, [], calls - 1;
    var readOff, i := off, 0;
    while true
      invariant x.Valid() && w.r + ETH <= |s| && x.head == base + HEADERS + readOff == base + HEADERS + off + w.r
      invariant w.s == s && w.look == look && w.keys == keys && w.i == i == calls - 1 - left && action == Pass
      decreases left
    {
      var f;
      assert x.Packet() == s[w.r..];
      f, w := HashOne(x.Packet(), keys, Seen(look, i), calls, w);
      if f.Full? {
        return;
      }
      if f.NoKey? {
        var _ := x.AdjustHead(-(HEADERS + readOff));
        return;
      }
      keys := f.keys;
      if f.End? {
        action := if |keys| > 0 then TailCall else Pass;
        var _ := x.AdjustHead(-(HEADERS + readOff));
        return;
      }
      var ok := x.AdjustHead(f.n);
      if !ok || left == 0 {
        return;
      }
      readOff, i, left := readOff + f.n, i + 1, left - 1;
    }
  }
}
