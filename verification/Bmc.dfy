/** The slots of the in-kernel cache: filled from replies on their way out, invalidated by requests
    on their way in, read to answer requests. Every lock section is one step. */
module Bmc {

  type Byte = bv8

  datatype Word = Word(bits: bv32)

  const MAX_KEY := 250
  const MAX_DATA := 1303
  const MAX_PACKET := 1500
  const COUNT := 3250000
  const KEY_AT := 6

  const SPACE: Byte := 32
  const CR: Byte := 13
  const LF: Byte := 10

  // ---- the key hash ----

  const FNV_BASIS := Word(2166136261)

  /** One byte into the hash; a `char` is signed, so its top bit is extended. */
  function FnvStep(h: Word, b: Byte): Word {
    Word((h.bits ^ (if b < 128 then b as bv32 else 0xffff_ff00 | (b as bv32))) * 16777619)
  }

  function FnvFrom(h: Word, s: seq<Byte>): Word {
    if |s| == 0 then h else FnvStep(FnvFrom(h, s[..|s| - 1]), s[|s| - 1])
  }

  function Fnv(s: seq<Byte>): Word {
    FnvFrom(FNV_BASIS, s)
  }

  /** It is the 32-bit FNV-1a hash: the published hashes of "", "a" and "fo". */
  lemma FnvKnown()
    ensures Fnv([]) == Word(0x811c9dc5) && Fnv([97]) == Word(0xe40c292c) && Fnv([102, 111]) == Word(0x6222e842)
  {
    assert [102, 111][..1] == [102] && [102][..0] == [] && [97][..0] == [];
    assert FnvStep(FNV_BASIS, 102) == Word(0xe30c2799);
  }

  /** The slot a hash belongs to. */
  function Slot(h: Word): (i: nat)
    ensures i < COUNT
  {
    (h.bits as int) % COUNT
  }

  // ---- names ----

  /** A byte that ends a name: a space, or a carriage return where that counts too. */
  predicate Mark(b: Byte, cr: bool) {
    b == SPACE || (cr && b == CR)
  }

  /** How many bytes from `at` on, `most` at the most, come before the first mark. */
  function Span(s: seq<Byte>, at: nat, most: nat, cr: bool): (n: nat)
    ensures n <= most && (at <= |s| ==> at + n <= |s|)
    decreases most, |s|
  {
    if most == 0 || at >= |s| || Mark(s[at], cr) then 0 else 1 + Span(s, at + 1, most - 1, cr)
  }

  /** A span goes exactly as far as there is neither a mark nor the end nor the limit. */
  lemma {:induction false} SpanIs(s: seq<Byte>, at: nat, most: nat, cr: bool, n: nat)
    requires n <= most && at + n <= |s|
    requires forall i :: at <= i < at + n ==> !Mark(s[i], cr)
    requires n == most || at + n == |s| || Mark(s[at + n], cr)
    ensures Span(s, at, most, cr) == n
    decreases n
  {
    if n > 0 {
      SpanIs(s, at + 1, most - 1, cr, n - 1);
    }
  }

  lemma {:induction false} SpanHas(s: seq<Byte>, at: nat, most: nat, cr: bool)
    requires at <= |s|
    ensures var n := Span(s, at, most, cr);
      (forall i :: at <= i < at + n ==> !Mark(s[i], cr)) && (n == most || at + n == |s| || Mark(s[at + n], cr))
    decreases most
  {
    if !(most == 0 || at >= |s| || Mark(s[at], cr)) {
      SpanHas(s, at + 1, most - 1, cr);
    }
  }

  /** The name in a VALUE reply, as far as the kernel looks. */
  function Name(reply: seq<Byte>): (name: seq<Byte>)
    ensures |name| <= MAX_KEY
  {
    if |reply| < KEY_AT then [] else reply[KEY_AT..KEY_AT + Span(reply, KEY_AT, MAX_KEY, false)]
  }

  // ---- slots ----

  datatype Entry = Entry(valid: bool, hash: Word, len: nat, data: seq<Byte>)

  predicate EntryOk(e: Entry) {
    e.len <= MAX_DATA == |e.data|
  }

  /** The bytes a slot holds. */
  function Content(e: Entry): seq<Byte>
    requires EntryOk(e)
  {
    e.data[..e.len]
  }

  function Lines(s: seq<Byte>): nat {
    if |s| == 0 then 0 else Lines(s[..|s| - 1]) + if s[|s| - 1] == LF then 1 else 0
  }

  /** How much of a reply is stored: up to its second line end. */
  function StoreFrom(reply: seq<Byte>, j: nat): (n: nat)
    requires j <= |reply| && j <= MAX_DATA
    ensures j <= n <= |reply| && n <= MAX_DATA
    decreases |reply| - j
  {
    if j >= MAX_DATA || j >= |reply| || Lines(reply[..j]) >= 2 then j else StoreFrom(reply, j + 1)
  }

  function StoreLen(reply: seq<Byte>): (n: nat)
    ensures n <= |reply| && n <= MAX_DATA
  {
    StoreFrom(reply, 0)
  }

  predicate Complete(reply: seq<Byte>) {
    Lines(reply[..StoreLen(reply)]) == 2
  }

  /** The comparison of names that spares an up-to-date slot. */
  predicate SameFrom(e: Entry, reply: seq<Byte>, off: nat)
    requires EntryOk(e)
    decreases |reply| - off
  {
    if off - KEY_AT >= MAX_KEY || off >= |reply| || off >= e.len
      || (reply[off] == SPACE && e.data[off] == SPACE) then true
    else e.data[off] == reply[off] && SameFrom(e, reply, off + 1)
  }

  predicate UpToDate(e: Entry, hash: Word, reply: seq<Byte>)
    requires EntryOk(e)
  {
    e.valid && e.hash == hash && SameFrom(e, reply, KEY_AT)
  }

  /** A slot after a reply with that hash has passed. An incomplete copy leaves `valid` and the
      slot's hash alone. */
  function Filled(e: Entry, hash: Word, reply: seq<Byte>): (e': Entry)
    requires EntryOk(e)
    ensures EntryOk(e')
  {
    if UpToDate(e, hash, reply) then e
    else
      var n := StoreLen(reply);
      var e1 := e.(len := n, data := reply[..n] + e.data[n..]);
      if Complete(reply) then e1.(valid := true, hash := hash) else e1
  }

  /** A request's key as saved for the reply: its hash and its bytes. */
  datatype Saved = Saved(hash: Word, key: seq<Byte>)

  predicate SavedOk(k: Saved) {
    |k.key| <= MAX_KEY && k.hash == Fnv(k.key)
  }

  predicate Hit(e: Entry, k: Saved)
    requires EntryOk(e) && |k.key| <= MAX_KEY
  {
    e.valid && e.hash == k.hash && e.data[KEY_AT..KEY_AT + |k.key|] == k.key
  }

  /** What a slot contributes to the answer. */
  function Copied(e: Entry, k: Saved): seq<Byte>
    requires EntryOk(e) && |k.key| <= MAX_KEY
  {
    if Hit(e, k) then Content(e) else []
  }
}
