/** The byte loops of the kernel programs over packets and slots. */
module BmcMemory {
  import opened Bmc

  lemma FnvMore(s: seq<Byte>, at: nat, n: nat)
    requires at + n < |s|
    ensures Fnv(s[at..at + n + 1]) == FnvStep(Fnv(s[at..at + n]), s[at + n])
  {
    var t := s[at..at + n + 1];
    assert t[..|t| - 1] == s[at..at + n];
  }

  /** The key loop of bmc_hash_keys: up to a space, a carriage return, the end of the packet or one
      byte more than a key can have. */
  method HashKey(payload: seq<Byte>) returns (hash: Word, keyLen: nat, done: bool)
    ensures keyLen == Span(payload, 0, MAX_KEY + 1, true) && keyLen <= |payload| && hash == Fnv(payload[..keyLen])
    ensures done <==> keyLen < |payload| && keyLen <= MAX_KEY && payload[keyLen] == CR
  {
    hash, keyLen, done := FNV_BASIS, 0, false;
    var off := 0;
    while off < MAX_KEY + 1 && off + 1 <= |payload|
      invariant 0 <= off == keyLen <= MAX_KEY + 1 && off <= |payload| && hash == Fnv(payload[0..off]) && !done
      invariant forall i :: 0 <= i < off ==> !Mark(payload[i], true)
    {
      if payload[off] == CR {
        done := true;
        break;
      } else if payload[off] == SPACE {
        break;
      } else {
        FnvMore(payload, 0, off);
        hash := FnvStep(hash, payload[off]);
        keyLen := keyLen + 1;
      }
      off := off + 1;
    }
    SpanIs(payload, 0, MAX_KEY + 1, true, keyLen);
  }

  /** The hash loop of bmc_update_cache. */
  method HashName(reply: seq<Byte>) returns (hash: Word)
    ensures hash == Fnv(Name(reply))
  {
    hash := FNV_BASIS;
    var off := KEY_AT;
    while off - KEY_AT < MAX_KEY && off + 1 <= |reply| && reply[off] != SPACE
      invariant KEY_AT <= off <= KEY_AT + MAX_KEY && (off == KEY_AT || off <= |reply|)
      invariant hash == Fnv(if off <= |reply| then reply[KEY_AT..off] else [])
      invariant forall i :: KEY_AT <= i < off ==> i < |reply| && !Mark(reply[i], false)
    {
      FnvMore(reply, KEY_AT, off - KEY_AT);
      hash := FnvStep(hash, reply[off]);
      off := off + 1;
    }
    if KEY_AT <= |reply| {
      SpanIs(reply, KEY_AT, MAX_KEY, false, off - KEY_AT);
    }
  }

  /** The comparison loop of bmc_update_cache. */
  method Differs(e: Entry, reply: seq<Byte>) returns (diff: bool)
    requires EntryOk(e)
    ensures diff <==> !SameFrom(e, reply, KEY_AT)
  {
    diff := false;
    var off := KEY_AT;
    while off - KEY_AT < MAX_KEY && off + 1 <= |reply| && off < e.len && (reply[off] != SPACE || e.data[off] != SPACE)
      invariant KEY_AT <= off && (SameFrom(e, reply, KEY_AT) <==> SameFrom(e, reply, off)) && !diff
      decreases MAX_KEY + KEY_AT - off
    {
      if e.data[off] != reply[off] {
        diff := true;
        break;
      }
      off := off + 1;
    }
  }

  lemma LinesMore(s: seq<Byte>, j: nat)
    requires j < |s|
    ensures Lines(s[..j + 1]) == Lines(s[..j]) + if s[j] == LF then 1 else 0
  {
    assert s[..j + 1][..j] == s[..j];
  }

  lemma OverlayMore(s: seq<Byte>, under: seq<Byte>, j: nat)
    requires j < |s| && j < |under|
    ensures (s[..j] + under[j..])[j := s[j]] == s[..j + 1] + under[j + 1..]
  {
  }

  /** The copy loop of bmc_update_cache. */
  method Store(e: Entry, reply: seq<Byte>) returns (e': Entry, count: nat)
    requires EntryOk(e)
    ensures var n := StoreLen(reply); e' == e.(len := n, data := reply[..n] + e.data[n..]) && count == Lines(reply[..n])
  {
    count, e' := 0, e.(len := 0);
    var j := 0;
    assert reply[..0] + e.data[0..] == e.data;
    while j < MAX_DATA && j + 1 <= |reply| && count < 2
      invariant 0 <= j <= MAX_DATA && j <= |reply| && count == Lines(reply[..j])
      invariant e' == e.(len := j, data := reply[..j] + e.data[j..])
      invariant StoreFrom(reply, 0) == StoreFrom(reply, j)
    {
      OverlayMore(reply, e.data, j);
      LinesMore(reply, j);
      e' := e'.(data := e'.data[j := reply[j]], len := e'.len + 1);
      if reply[j] == LF {
        count := count + 1;
      }
      j := j + 1;
    }
  }

  // ---- the scanner for set requests ----

  datatype Scanner = Scanner(setFound: bool, keyFound: bool, hash: Word)

  const IDLE := Scanner(false, false, FNV_BASIS)

  predicate SetAt(s: seq<Byte>, off: nat) {
    off + 3 <= |s| && s[off] == 's' as Byte && s[off + 1] == 'e' as Byte && s[off + 2] == 't' as Byte
  }

  /** The hashes of the keys that bmc_invalidate_cache finds from `off` on. */
  function Scan(s: seq<Byte>, off: nat, st: Scanner): seq<Word>
    decreases |s| - off
  {
    if off >= MAX_PACKET || off >= |s| then []
    else if !st.setFound && SetAt(s, off) then Scan(s, off + 4, st.(setFound := true))
    else if !st.keyFound && st.setFound && s[off] != SPACE then
      if s[off] == CR then Scan(s, off + 1, st.(setFound := false))
      else Scan(s, off + 1, st.(keyFound := true, hash := FnvStep(FNV_BASIS, s[off])))
    else if st.keyFound then
      if s[off] == SPACE then [st.hash] + Scan(s, off + 1, Scanner(false, false, st.hash))
      else Scan(s, off + 1, st.(hash := FnvStep(st.hash, s[off])))
    else Scan(s, off + 1, st)
  }

  predicate Covers(hashes: seq<Word>, i: nat) {
    exists k :: 0 <= k < |hashes| && Slot(hashes[k]) == i
  }

  /** The slots of these hashes are invalid, the others as before. */
  ghost predicate Dropped(before: seq<Entry>, slots: seq<Entry>, hashes: seq<Word>) {
    && |slots| == |before| == COUNT
    && forall i :: 0 <= i < COUNT ==> slots[i] == if Covers(hashes, i) then before[i].(valid := false) else before[i]
  }

  lemma CoversMore(hashes: seq<Word>, h: Word, i: nat)
    ensures Covers(hashes + [h], i) <==> Covers(hashes, i) || Slot(h) == i
  {
    var more := hashes + [h];
    if Covers(hashes, i) {
      var k :| 0 <= k < |hashes| && Slot(hashes[k]) == i;
      assert Slot(more[k]) == i;
    }
    assert more[|hashes|] == h;
  }

  lemma DroppedMore(before: seq<Entry>, slots: seq<Entry>, hashes: seq<Word>, h: Word)
    requires Dropped(before, slots, hashes)
    ensures Dropped(before, slots[Slot(h) := slots[Slot(h)].(valid := false)], hashes + [h])
  {
    forall i | 0 <= i < COUNT
      ensures Covers(hashes + [h], i) <==> Covers(hashes, i) || Slot(h) == i
    {
      CoversMore(hashes, h, i);
    }
  }

  class Cache {
    const slots: array<Entry>

    /** Array maps start zeroed. */
    constructor ()
      ensures slots.Length == COUNT && fresh(slots) && forall i :: 0 <= i < COUNT ==>
        EntryOk(slots[i]) && !slots[i].valid
    {
      var e := Entry(false, Word(0), 0, seq(MAX_DATA, _ => 0));
      slots := new Entry[COUNT](_ => e);
    }

    /** bmc_update_cache. */
    method UpdateCache(reply: seq<Byte>)
      requires slots.Length == COUNT && forall i :: 0 <= i < COUNT ==> EntryOk(slots[i])
      modifies slots
      ensures var hash := Fnv(Name(reply));
        slots[Slot(hash)] == Filled(old(slots[Slot(hash)]), hash, reply) &&
        forall i :: 0 <= i < COUNT && i != Slot(hash) ==> slots[i] == old(slots[i])
    {
      var hash := HashName(reply);
      var i := Slot(hash);
      if slots[i].valid && slots[i].hash == hash {
        var diff := Differs(slots[i], reply);
        if !diff {
          return;
        }
      }
      var e, count := Store(slots[i], reply);
      slots[i] := e;
      if count == 2 {
        slots[i] := e.(valid := true, hash := hash);
      }
    }

    method Drop(hash: Word)
      requires slots.Length == COUNT
      modifies slots
      ensures slots[..] == old(slots[..])[Slot(hash) := old(slots[Slot(hash)]).(valid := false)]
    {
      var i := Slot(hash);
      if slots[i].valid {
        slots[i] := slots[i].(valid := false);
      }
    }

    /** bmc_invalidate_cache: the slots of the keys found, and no others. */
    method InvalidateCache(payload: seq<Byte>)
      requires slots.Length == COUNT
      modifies slots
      ensures Dropped(old(slots[..]), slots[..], Scan(payload, 0, IDLE))
    {
      var st := IDLE;
      var off := 0;
      ghost var found: seq<Word> := [];
      while off < MAX_PACKET && off + 1 <= |payload|
        invariant 0 <= off
        invariant Scan(payload, 0, IDLE) == found + Scan(payload, off, st)
        invariant Dropped(old(slots[..]), slots[..], found)
        decreases |payload| - off
      {
        if !st.setFound && SetAt(payload, off) {
          st := st.(setFound := true);
          off := off + 3;
        } else if !st.keyFound && st.setFound && payload[off] != SPACE {
          if payload[off] == CR {
            st := st.(setFound := false, keyFound := false);
          } else {
            st := st.(hash := FnvStep(FNV_BASIS, payload[off]), keyFound := true);
          }
        } else if st.keyFound {
          if payload[off] == SPACE {
            DroppedMore(old(slots[..]), slots[..], found, st.hash);
            Drop(st.hash);
            found := found + [st.hash];
            st := st.(setFound := false, keyFound := false);
          } else {
            st := st.(hash := FnvStep(st.hash, payload[off]));
          }
        }
        off := off + 1;
      }
      assert found + [] == found;
    }
  }

  // ---- what the scanner finds ----

  lemma {:induction false} ScanSpaces(s: seq<Byte>, off: nat, at: nat, h: Word)
    requires off <= at <= |s| && at <= MAX_PACKET && forall i :: off <= i < at ==> s[i] == SPACE
    ensures Scan(s, off, Scanner(true, false, h)) == Scan(s, at, Scanner(true, false, h))
    decreases at - off
  {
    if off < at {
      ScanSpaces(s, off + 1, at, h);
    }
  }

  /** Reading a key byte by byte, the first `at` bytes of which have been read. */
  lemma {:induction false} ScanKey(s: seq<Byte>, off: nat, n: nat, at: nat)
    requires 0 < at <= n && off + n < |s| && off + n < MAX_PACKET
    requires forall i :: off <= i < off + n ==> s[i] != SPACE
    requires s[off + n] == SPACE
    ensures Scan(s, off + at, Scanner(true, true, Fnv(s[off..off + at]))) ==
      [Fnv(s[off..off + n])] + Scan(s, off + n + 1, Scanner(false, false, Fnv(s[off..off + n])))
    decreases n - at
  {
    if at < n {
      FnvMore(s, off, at);
      ScanKey(s, off, n, at + 1);
    }
  }

  lemma ScanSet(s: seq<Byte>, off: nat, h: Word)
    requires SetAt(s, off) && off < MAX_PACKET
    ensures Scan(s, off, Scanner(false, false, h)) == Scan(s, off + 4, Scanner(true, false, h))
  {
  }

  lemma ScanFirst(s: seq<Byte>, at: nat, h: Word)
    requires at < |s| && at < MAX_PACKET && s[at] != SPACE && s[at] != CR
    ensures Scan(s, at, Scanner(true, false, h)) == Scan(s, at + 1, Scanner(true, true, Fnv(s[at..at + 1])))
  {
    FnvMore(s, at, 0);
    assert s[at..at] == [];
  }

  lemma ScanToKey(s: seq<Byte>, off: nat, at: nat, h: Word)
    requires SetAt(s, off) && off + 4 <= at < |s| && at < MAX_PACKET && forall i :: off + 4 <= i < at ==> s[i] == SPACE
    ensures Scan(s, off, Scanner(false, false, h)) == Scan(s, at, Scanner(true, false, h))
  {
    ScanSet(s, off, h);
    ScanSpaces(s, off + 4, at, h);
  }

  lemma ScanFromKey(s: seq<Byte>, at: nat, n: nat, h: Word)
    requires n > 0 && at + n < |s| && at + n < MAX_PACKET
    requires s[at] != CR && (forall i :: at <= i < at + n ==> s[i] != SPACE) && s[at + n] == SPACE
    ensures var key := s[at..at + n];
      Scan(s, at, Scanner(true, false, h)) == [Fnv(key)] + Scan(s, at + n + 1, Scanner(false, false, Fnv(key)))
  {
    ScanFirst(s, at, h);
    ScanKey(s, at, n, 1);
  }

  /** Where the scanner is idle, a set request for a key makes it invalidate the slot of exactly the
      hash that a GET of the same key computes, and leaves it idle after the key. */
  lemma SetIsSeen(s: seq<Byte>, off: nat, at: nat, n: nat, h: Word)
    requires n > 0 && off + 4 <= at && at + n < |s| && at + n < MAX_PACKET
    requires SetAt(s, off) && forall i :: off + 4 <= i < at ==> s[i] == SPACE
    requires s[at] != CR && (forall i :: at <= i < at + n ==> s[i] != SPACE) && s[at + n] == SPACE
    ensures var key := s[at..at + n];
      Scan(s, off, Scanner(false, false, h)) == [Fnv(key)] + Scan(s, at + n + 1, Scanner(false, false, Fnv(key)))
  {
    ScanToKey(s, off, at, h);
    ScanFromKey(s, at, n, h);
  }

  lemma GetKey(key: seq<Byte>, get: seq<Byte>)
    requires |key| <= MAX_KEY && forall i :: 0 <= i < |key| ==> !Mark(key[i], true)
    requires |get| > |key| && get[..|key|] == key && Mark(get[|key|], true)
    ensures Span(get, 0, MAX_KEY + 1, true) == |key|
  {
    assert forall i :: 0 <= i < |key| ==> get[i] == get[..|key|][i];
    SpanIs(get, 0, MAX_KEY + 1, true, |key|);
  }

  lemma ReplyName(key: seq<Byte>, reply: seq<Byte>)
    requires |key| <= MAX_KEY && forall i :: 0 <= i < |key| ==> !Mark(key[i], true)
    requires |reply| > KEY_AT + |key| && reply[KEY_AT..KEY_AT + |key|] == key && reply[KEY_AT + |key|] == SPACE
    ensures Name(reply) == key
  {
    assert forall i :: KEY_AT <= i < KEY_AT + |key| ==> reply[i] == reply[KEY_AT..KEY_AT + |key|][i - KEY_AT];
    SpanIs(reply, KEY_AT, MAX_KEY, false, |key|);
  }

  /** The hash of a key is the same whether a GET, a reply or a set request brings it. */
  lemma HashesAgree(key: seq<Byte>, get: seq<Byte>, reply: seq<Byte>, request: seq<Byte>, off: nat, at: nat, h: Word)
    requires 1 <= |key| <= MAX_KEY && forall i :: 0 <= i < |key| ==> !Mark(key[i], true)
    requires |get| > |key| && get[..|key|] == key && Mark(get[|key|], true)
    requires |reply| > KEY_AT + |key| && reply[KEY_AT..KEY_AT + |key|] == key && reply[KEY_AT + |key|] == SPACE
    requires off + 4 <= at && at + |key| < |request| && at + |key| < MAX_PACKET && SetAt(request, off)
    requires (forall i :: off + 4 <= i < at ==> request[i] == SPACE) && request[at..at + |key|] == key
      && request[at + |key|] == SPACE
    ensures Span(get, 0, MAX_KEY + 1, true) == |key| && get[..|key|] == key
    ensures Name(reply) == key
    ensures var found := Scan(request, off, Scanner(false, false, h)); |found| > 0 && found[0] == Fnv(key)
  {
    GetKey(key, get);
    ReplyName(key, reply);
    assert forall i :: at <= i < at + |key| ==> request[i] == request[at..at + |key|][i - at];
    SetIsSeen(request, off, at, |key|, h);
  }

  /** A word of the payload, followed by a space. */
  predicate IsWord(s: seq<Byte>, a: nat, b: nat) {
    a < b < |s| && s[b] == SPACE && forall i :: a <= i < b ==> s[i] != SPACE
  }

  /** In the middle of a word that began at `start`. */
  predicate Reading(s: seq<Byte>, start: nat, off: nat, h: Word) {
    start < off <= |s| && h == Fnv(s[start..off]) && forall i :: start <= i < off ==> s[i] != SPACE
  }

  lemma ReadFirst(s: seq<Byte>, off: nat)
    requires off < |s| && s[off] != SPACE
    ensures Reading(s, off, off + 1, FnvStep(FNV_BASIS, s[off]))
  {
    FnvMore(s, off, 0);
    assert s[off..off] == [];
  }

  lemma ReadMore(s: seq<Byte>, start: nat, off: nat, h: Word)
    requires Reading(s, start, off, h) && off < |s| && s[off] != SPACE
    ensures Reading(s, start, off + 1, FnvStep(h, s[off]))
  {
    FnvMore(s, start, off - start);
  }

  /** Nothing else is invalidated: every hash found is that of a word of the payload. */
  lemma {:induction false} FoundAreWords(s: seq<Byte>, off: nat, st: Scanner, start: nat, k: nat)
    returns (a: nat, b: nat)
    requires k < |Scan(s, off, st)|
    requires st.keyFound ==> st.setFound && Reading(s, start, off, st.hash)
    ensures IsWord(s, a, b) && Scan(s, off, st)[k] == Fnv(s[a..b])
    decreases |s| - off
  {
    if !st.setFound && SetAt(s, off) {
      a, b := FoundAreWords(s, off + 4, st.(setFound := true), start, k);
    } else if !st.keyFound && st.setFound && s[off] != SPACE {
      if s[off] == CR {
        a, b := FoundAreWords(s, off + 1, st.(setFound := false), start, k);
      } else {
        ReadFirst(s, off);
        a, b := FoundAreWords(s, off + 1, st.(keyFound := true, hash := FnvStep(FNV_BASIS, s[off])), off, k);
      }
    } else if st.keyFound {
      if s[off] == SPACE {
        if k == 0 {
          a, b := start, off;
        } else {
          a, b := FoundAreWords(s, off + 1, Scanner(false, false, st.hash), start, k - 1);
        }
      } else {
        ReadMore(s, start, off, st.hash);
        a, b := FoundAreWords(s, off + 1, st.(hash := FnvStep(st.hash, s[off])), start, k);
      }
    } else {
      a, b := FoundAreWords(s, off + 1, st, start, k);
    }
  }
}
