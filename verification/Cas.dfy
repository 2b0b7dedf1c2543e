/** Storing, with compare-and-swap tokens: CAS is on and stale stores are off. */
module Cas {
  import Chunks
  import Decimals
  import Itoa
  import opened Options
  import Strtoull

  type Key = string
  type Bytes = string

  /** A stored value ends in a line end of two bytes. `cas` counts the ids given out so far, this value's
      included, without end; `onDisk` says that only its header is in memory. */
  datatype Value = Value(data: Bytes, cas: nat, onDisk: bool)

  datatype State = State(cache: map<Key, Value>, casId: nat)

  /** The id of a value: the 64 bits that are kept. */
  function IdOf(v: Value): nat {
    v.cas % WRAP
  }

  datatype Command = Add | Set | Replace | Append | Prepend | Cas

  datatype Result = Stored | NotStored | Exists | NotFound

  const WRAP := Strtoull.WRAP

  /** do_item_link or item_replace: the value gets a new id. */
  function Linked(s: State, key: Key, data: Bytes): State {
    State(s.cache[key := Value(data, s.casId + 1, false)], s.casId + 1)
  }

  /** What each command means. `room` says whether memory for a joined value can be had. */
  function Store(s: State, comm: Command, key: Key, data: Bytes, token: nat, room: bool): (State, Result) {
    match comm
    case Add => if key in s.cache then (s, NotStored) else (Linked(s, key, data), Stored)
    case Set => (Linked(s, key, data), Stored)
    case Replace => if key in s.cache then (Linked(s, key, data), Stored) else (s, NotStored)
    case Cas =>
      if key !in s.cache then (s, NotFound)
      else if token == IdOf(s.cache[key]) then (Linked(s, key, data), Stored)
      else (s, Exists)
    case _ =>
      if key !in s.cache then (s, NotStored)
      else if token != 0 && token != IdOf(s.cache[key]) then (s, Exists)
      else if s.cache[key].onDisk || !room then (s, NotStored)
      else (Linked(s, key, Chunks.Joined(comm == Append, s.cache[key].data, data)), Stored)
  }

  /** The value ends in a line end. */
  predicate Ended(data: Bytes) {
    |data| >= Chunks.CRLF && data[|data| - Chunks.CRLF..] == "\r\n"
  }

  ghost predicate AllEnded(s: State) {
    forall key :: key in s.cache ==> Ended(s.cache[key].data)
  }

  /** A value without its line end. */
  function Words(data: Bytes): Bytes
    requires Ended(data)
  {
    data[..|data| - Chunks.CRLF]
  }

  /** The key is there, and the client's id, if it sends one, is the one it has. */
  predicate Matches(s: State, key: Key, token: nat) {
    key in s.cache && (token == 0 || token == IdOf(s.cache[key]))
  }

  /** When a command stores: add what is not there, replace what is, join what is in memory. */
  predicate Accepts(s: State, comm: Command, key: Key, token: nat, room: bool) {
    match comm
    case Add => key !in s.cache
    case Set => true
    case Replace => key in s.cache
    case Cas => key in s.cache && token == IdOf(s.cache[key])
    case Append => Matches(s, key, token) && !s.cache[key].onDisk && room
    case Prepend => Matches(s, key, token) && !s.cache[key].onDisk && room
  }

  /** What the client is told when it does not. */
  predicate Refused(s: State, comm: Command, key: Key, token: nat, r: Result) {
    match comm
    case Cas => r == if key in s.cache then Exists else NotFound
    case Append => r == if key in s.cache && !Matches(s, key, token) then Exists else NotStored
    case Prepend => r == if key in s.cache && !Matches(s, key, token) then Exists else NotStored
    case _ => r == NotStored
  }

  /** What a command that stores leaves under the key: append the old words and then the new ones, prepend
      the new and then the old, with one line end, and any other what was sent. */
  predicate Holds(s: State, comm: Command, key: Key, data: Bytes, now: Bytes) {
    match comm
    case Append =>
      key in s.cache && (Ended(s.cache[key].data) && Ended(data) ==>
        now == Words(s.cache[key].data) + Words(data) + "\r\n")
    case Prepend =>
      key in s.cache && (Ended(s.cache[key].data) && Ended(data) ==>
        now == Words(data) + Words(s.cache[key].data) + "\r\n")
    case _ => now == data
  }

  /** What a client may rely on when it sends a command in `s` and is told `r`. */
  ghost predicate Obeyed(s: State, comm: Command, key: Key, data: Bytes, token: nat, room: bool, s': State, r: Result) {
    && (r == Stored <==> Accepts(s, comm, key, token, room))
    && (r == Stored ==>
      && key in s'.cache && Holds(s, comm, key, data, s'.cache[key].data) && !s'.cache[key].onDisk
      && s'.casId == s.casId + 1 == s'.cache[key].cas)
    && (r != Stored ==> s' == s && Refused(s, comm, key, token, r))
    && (forall k :: k != key ==> (k in s'.cache <==> k in s.cache) && (k in s.cache ==> s'.cache[k] == s.cache[k]))
  }

  lemma EndsOnce(a: Bytes, b: Bytes)
    requires Ended(a) && Ended(b)
    ensures Chunks.WithoutEnd(a) + b == Words(a) + Words(b) + "\r\n"
  {
    assert b == Words(b) + b[|b| - Chunks.CRLF..];
    assert Words(a) + (Words(b) + "\r\n") == Words(a) + Words(b) + "\r\n";
  }

  lemma StoreIsObeyed(s: State, comm: Command, key: Key, data: Bytes, token: nat, room: bool)
    ensures Obeyed(s, comm, key, data, token, room,
      Store(s, comm, key, data, token, room).0, Store(s, comm, key, data, token, room).1)
  {
    if key in s.cache && Ended(s.cache[key].data) && Ended(data) {
      EndsOnce(s.cache[key].data, data);
      EndsOnce(data, s.cache[key].data);
    }
  }

  // ---- incrementing and decrementing ----

  datatype DeltaResult = Ok | NonNumeric | Mismatch | DeltaNotFound | OutOfMemory

  function Changed(value: nat, incr: bool, delta: nat): nat {
    if incr then (value + delta) % WRAP else if delta > value then 0 else value - delta
  }

  function Spaces(n: nat): string {
    seq(n, _ => ' ')
  }

  /** The number over the old one, in the same space, its line end untouched. */
  function Overwritten(data: Bytes, text: string): Bytes
    requires |text| + Chunks.CRLF <= |data|
  {
    text + Spaces(|data| - |text| - Chunks.CRLF) + data[|data| - Chunks.CRLF..]
  }

  /** What a value reads as, with the memory beyond it. */
  function Number(data: Bytes, beyond: Bytes): (n: Option<nat>)
    ensures n.Some? ==> n.value < WRAP
  {
    Strtoull.SafeStrtoull(Strtoull.Text(data + beyond))
  }

  /** do_add_delta. `beyond` is the memory after the value, `alone` says that nobody else holds the item,
      `chunked` that it is too large to be a number. */
  function AddDelta(s: State, key: Key, incr: bool, delta: nat, token: nat, beyond: Bytes, chunked: bool,
    alone: bool, room: bool): (State, DeltaResult) {
    if key !in s.cache then (s, DeltaNotFound)
    else
      var v := s.cache[key];
      if |v.data| <= Chunks.CRLF || chunked || v.onDisk then (s, NonNumeric)
      else if token != 0 && token != IdOf(v) then (s, Mismatch)
      else if Number(v.data, beyond).None? then (s, NonNumeric)
      else
        var text := Decimals.Decimal(Changed(Number(v.data, beyond).value, incr, delta));
        if |text| + Chunks.CRLF <= |v.data| && alone then
          (State(s.cache[key := v.(data := Overwritten(v.data, text), cas := s.casId + 1)], s.casId + 1), Ok)
        else if room then (Linked(s, key, text + "\r\n"), Ok)
        else (s, OutOfMemory)
  }

  /** The value can be counted with: it is in memory, in one piece, not empty, and reads as a number. */
  predicate Countable(v: Value, beyond: Bytes, chunked: bool) {
    |v.data| > Chunks.CRLF && !chunked && !v.onDisk && Number(v.data, beyond).Some?
  }

  /** What a client may rely on when it counts in `s` and is told `r`: why it was refused, and that nothing
      changes then; that the value is a new one otherwise; and that no other key changes. */
  ghost predicate CountObeyed(s: State, key: Key, token: nat, beyond: Bytes, chunked: bool, room: bool, s': State,
    r: DeltaResult)
  {
    && (r == DeltaNotFound <==> key !in s.cache)
    && (r == Ok ==> Matches(s, key, token) && Countable(s.cache[key], beyond, chunked))
    && (r == Mismatch ==> key in s.cache && !Matches(s, key, token))
    && (r == NonNumeric ==> key in s.cache && !Countable(s.cache[key], beyond, chunked))
    && (r == OutOfMemory ==> !room)
    && (r == Ok ==> key in s'.cache && s'.casId == s.casId + 1 == s'.cache[key].cas && !s'.cache[key].onDisk)
    && (r != Ok ==> s' == s)
    && (forall k :: k != key ==> (k in s'.cache <==> k in s.cache) && (k in s.cache ==> s'.cache[k] == s.cache[k]))
  }

  lemma DeltaIsObeyed(s: State, key: Key, incr: bool, delta: nat, token: nat, beyond: Bytes, chunked: bool, alone: bool,
    room: bool)
    ensures CountObeyed(s, key, token, beyond, chunked, room,
      AddDelta(s, key, incr, delta, token, beyond, chunked, alone, room).0,
      AddDelta(s, key, incr, delta, token, beyond, chunked, alone, room).1)
  {}

  /** The number printed into a buffer. */
  method Text(value: nat) returns (text: string)
    requires value < WRAP
    ensures text == Decimals.Decimal(value)
  {
    var buf := new char[24];
    Itoa.AtMostTwenty(value);
    var p := Itoa.ItoaU64(value, buf, 0);
    text := buf[..p];
  }

  class Cache {
    var s: State

    method GetCasId() returns (id: nat)
      modifies this
      ensures id == old(s).casId + 1 && s == old(s).(casId := id)
    {
      s := s.(casId := s.casId + 1);
      id := s.casId;
    }

    method Link(key: Key, data: Bytes)
      modifies this
      ensures s == Linked(old(s), key, data)
    {
      var id := GetCasId();
      s := s.(cache := s.cache[key := Value(data, id, false)]);
    }

    /** do_store_item. */
    method DoStoreItem(comm: Command, key: Key, data: Bytes, token: nat, room: bool) returns (stored: Result)
      modifies this
      ensures (s, stored) == Store(old(s), comm, key, data, token, room)
      ensures Obeyed(old(s), comm, key, data, token, room, s, stored)
    {
      StoreIsObeyed(s, comm, key, data, token, room);
      var found := key in s.cache;
      stored := NotStored;
      var it := data;
      if found && comm == Add {
      } else if !found && (comm == Replace || comm == Append || comm == Prepend) {
      } else if comm == Cas {
        if !found {
          stored := NotFound;
        } else if token == IdOf(s.cache[key]) {
          Link(key, it);
          stored := Stored;
        } else {
          stored := Exists;
        }
      } else {
        var failedAlloc := false;
        if comm == Append || comm == Prepend {
          if token != 0 && token != IdOf(s.cache[key]) {
            stored := Exists;
          }
          if s.cache[key].onDisk {
            failedAlloc := true;
          } else if stored == NotStored {
            if room {
              it := Chunks.Joined(comm == Append, s.cache[key].data, data);
            } else {
              failedAlloc := true;
            }
          }
        }
        if stored == NotStored && !failedAlloc {
          Link(key, it);
          stored := Stored;
        }
      }
    }

    /** do_add_delta. */
    method DoAddDelta(key: Key, incr: bool, delta: nat, token: nat, beyond: Bytes, chunked: bool, alone: bool,
      room: bool) returns (r: DeltaResult)
      requires delta < WRAP
      modifies this
      ensures (s, r) == AddDelta(old(s), key, incr, delta, token, beyond, chunked, alone, room)
      ensures CountObeyed(old(s), key, token, beyond, chunked, room, s, r)
    {
      DeltaIsObeyed(s, key, incr, delta, token, beyond, chunked, alone, room);
      if key !in s.cache {
        return DeltaNotFound;
      }
      var v := s.cache[key];
      if |v.data| <= Chunks.CRLF || chunked || v.onDisk {
        return NonNumeric;
      }
      if token != 0 && IdOf(v) != token {
        return Mismatch;
      }
      var number := Number(v.data, beyond);
      if number.None? {
        return NonNumeric;
      }
      var text := Text(Changed(number.value, incr, delta));
      if |text| + Chunks.CRLF <= |v.data| && alone {
        var id := GetCasId();
        s := s.(cache := s.cache[key := v.(cas := id, data := Overwritten(v.data, text))]);
      } else {
        if !room {
          return OutOfMemory;
        }
        Link(key, text + "\r\n");
      }
      r := Ok;
    }
  }

  /** A number and what follows it, which begins with a blank. */
  lemma NumberIs(n: nat, tail: Bytes, beyond: Bytes)
    requires n < WRAP && |tail| > 0 && Strtoull.Blank(tail[0])
    ensures Number(Decimals.Decimal(n) + tail, beyond)
      == if n >= Strtoull.HALF && '-' in Strtoull.Text(tail + beyond) then None else Some(n)
  {
    var d := Decimals.Decimal(n);
    Decimals.DecimalReadsBack(n);
    assert d + tail + beyond == d + (tail + beyond);
    Strtoull.TextOn(d, tail + beyond);
    Strtoull.ReadsBack(n, Strtoull.Text(tail + beyond));
  }

  /** How the text of the new number is stored: over the old one, or on its own. */
  lemma NumberStored(data: Bytes, text: Bytes)
    requires Ended(data) && |text| + Chunks.CRLF <= |data|
    ensures Ended(Overwritten(data, text))
    ensures exists tail: Bytes :: Overwritten(data, text) == text + tail && |tail| > 0 && Strtoull.Blank(tail[0])
  {
    var end := data[|data| - Chunks.CRLF..];
    var tail := Spaces(|data| - |text| - Chunks.CRLF) + end;
    assert Overwritten(data, text) == text + tail;
    assert Overwritten(data, text)[|data| - Chunks.CRLF..] == end;
  }

  /** `n` is what comes of adding to `was`, in 64 bits, or of taking from it, down to 0. */
  predicate Counted(was: nat, incr: bool, delta: nat, n: nat) {
    if incr then n < WRAP && (n == was + delta || n + WRAP == was + delta)
    else n == was - delta || (n == 0 && was < delta)
  }

  lemma ChangedIsCounted(was: nat, incr: bool, delta: nat)
    requires was < WRAP && delta < WRAP
    ensures Counted(was, incr, delta, Changed(was, incr, delta))
  {}

  /** Subtracting what was added gives the number back exactly if adding it did not wrap around. */
  lemma ThereAndBack(was: nat, delta: nat)
    requires was < WRAP && delta < WRAP
    ensures Changed(Changed(was, true, delta), false, delta) == was <==> was + delta < WRAP
  {
    ChangedIsCounted(was, true, delta);
  }

  /** After an increment or decrement the value begins with the text of the old number and the delta added or
      subtracted, and it reads as that, whatever is in memory beyond it, unless the number is 2^63 or more and
      a minus sign is found behind it. */
  lemma DeltaReadsBack(s: State, key: Key, incr: bool, delta: nat, token: nat, beyond: Bytes, chunked: bool,
    alone: bool, room: bool, later: Bytes)
    requires AllEnded(s) && delta < WRAP && AddDelta(s, key, incr, delta, token, beyond, chunked, alone, room).1 == Ok
    ensures key in s.cache && Number(s.cache[key].data, beyond).Some?
    ensures var s' := AddDelta(s, key, incr, delta, token, beyond, chunked, alone, room).0;
      var n := Changed(Number(s.cache[key].data, beyond).value, incr, delta);
      && Counted(Number(s.cache[key].data, beyond).value, incr, delta, n)
      && AllEnded(s') && key in s'.cache && Decimals.Decimal(n) <= s'.cache[key].data
      && Number(s'.cache[key].data, later) == (if n >= Strtoull.HALF
        && '-' in Strtoull.Text(s'.cache[key].data[|Decimals.Decimal(n)|..] + later) then None else Some(n))
  {
    var n := Changed(Number(s.cache[key].data, beyond).value, incr, delta);
    ChangedIsCounted(Number(s.cache[key].data, beyond).value, incr, delta);
    var text := Decimals.Decimal(n);
    if |text| + Chunks.CRLF <= |s.cache[key].data| && alone {
      NumberStored(s.cache[key].data, text);
      var tail: Bytes :|
        Overwritten(s.cache[key].data, text) == text + tail && |tail| > 0 && Strtoull.Blank(tail[0]);
      NumberIs(n, tail, later);
    } else {
      NumberIs(n, "\r\n", later);
    }
  }

  // ---- runs ----

  /** `Gone` is a delete, an eviction, an expiry or a flush; `ToDisk` moves a value to the external
      store and keeps its id. */
  datatype Op =
    | DoStore(comm: Command, key: Key, data: Bytes, token: nat, room: bool)
    | DoDelta(key: Key, incr: bool, delta: nat, token: nat, beyond: Bytes, chunked: bool, alone: bool, room: bool)
    | Gone(key: Key)
    | ToDisk(key: Key)

  function Next(s: State, op: Op): State {
    match op
    case DoStore(comm, key, data, token, room) => Store(s, comm, key, data, token, room).0
    case DoDelta(key, incr, delta, token, beyond, chunked, alone, room) =>
      AddDelta(s, key, incr, delta, token, beyond, chunked, alone, room).0
    case Gone(key) => s.(cache := s.cache - {key})
    case ToDisk(key) => if key in s.cache then s.(cache := s.cache[key := s.cache[key].(onDisk := true)]) else s
  }

  function Run(s: State, ops: seq<Op>, n: nat): State
    requires n <= |ops|
  {
    if n == 0 then s else Next(Run(s, ops, n - 1), ops[n - 1])
  }

  /** No id in use is newer than the last one given out. */
  ghost predicate Fresh(s: State) {
    forall key :: key in s.cache ==> 0 < s.cache[key].cas <= s.casId
  }

  /** A value and its count, wherever it is kept. */
  function Entry(s: State, key: Key): Option<(Bytes, nat)> {
    if key in s.cache then Some((s.cache[key].data, s.cache[key].cas)) else None
  }

  /** A key's entry and the last id given out, at one moment. */
  datatype Moment = Moment(entry: Option<(Bytes, nat)>, casId: nat)

  function MomentOf(s: State, key: Key): Moment {
    Moment(Entry(s, key), s.casId)
  }

  /** An entry stays, goes, or gets an id newer than all before. */
  predicate Renew(a: Moment, b: Moment) {
    b.casId >= a.casId && (b.entry == a.entry || b.entry.None? || b.entry.value.1 == b.casId > a.casId)
  }

  lemma StepRenews(s: State, op: Op, key: Key)
    ensures Renew(MomentOf(s, key), MomentOf(Next(s, op), key))
  {
  }

  lemma StepFresh(s: State, op: Op)
    requires Fresh(s)
    ensures Fresh(Next(s, op))
  {
  }

  lemma JoinedEnds(append: bool, before: Bytes, add: Bytes)
    requires Ended(before) && Ended(add)
    ensures Ended(Chunks.Joined(append, before, add))
  {
    var first, second := if append then before else add, if append then add else before;
    var joined := Chunks.WithoutEnd(first) + second;
    assert joined[|joined| - Chunks.CRLF..] == second[|second| - Chunks.CRLF..];
  }

  lemma OwnEnd(text: Bytes)
    ensures Ended(text + "\r\n")
  {}

  lemma StoreEnded(s: State, comm: Command, key: Key, data: Bytes, token: nat, room: bool)
    requires AllEnded(s) && Ended(data)
    ensures AllEnded(Store(s, comm, key, data, token, room).0)
  {
    if key in s.cache {
      JoinedEnds(comm == Append, s.cache[key].data, data);
    }
  }

  lemma DeltaEnded(s: State, key: Key, incr: bool, delta: nat, token: nat, beyond: Bytes, chunked: bool,
    alone: bool, room: bool)
    requires AllEnded(s)
    ensures AllEnded(AddDelta(s, key, incr, delta, token, beyond, chunked, alone, room).0)
  {
    if key in s.cache && Number(s.cache[key].data, beyond).Some? {
      var text := Decimals.Decimal(Changed(Number(s.cache[key].data, beyond).value, incr, delta));
      OwnEnd(text);
      if |text| + Chunks.CRLF <= |s.cache[key].data| {
        NumberStored(s.cache[key].data, text);
      }
    }
  }

  /** What is stored, joined or counted ends in a line end, if what the clients send does. */
  lemma StepEnded(s: State, op: Op)
    requires AllEnded(s) && (op.DoStore? ==> Ended(op.data))
    ensures AllEnded(Next(s, op))
  {
    match op
    case DoStore(comm, key, data, token, room) => StoreEnded(s, comm, key, data, token, room);
    case DoDelta(key, incr, delta, token, beyond, chunked, alone, room) =>
      DeltaEnded(s, key, incr, delta, token, beyond, chunked, alone, room);
    case _ =>
  }

  lemma {:induction false} RunFresh(s: State, ops: seq<Op>, n: nat)
    requires Fresh(s) && n <= |ops|
    ensures Fresh(Run(s, ops, n))
  {
    if n > 0 {
      RunFresh(s, ops, n - 1);
      StepFresh(Run(s, ops, n - 1), ops[n - 1]);
    }
  }

  lemma RunRenews(s: State, ops: seq<Op>, i: nat, key: Key, a: Moment, b: Moment)
    requires i < |ops| && a == MomentOf(Run(s, ops, i), key) && b == MomentOf(Run(s, ops, i + 1), key)
    ensures Renew(a, b)
  {
    StepRenews(Run(s, ops, i), ops[i], key);
  }

  /** From the m-th step to the n-th a key has this entry. */
  ghost predicate Stays(s: State, ops: seq<Op>, key: Key, m: nat, n: nat, entry: Option<(Bytes, nat)>) {
    n <= |ops| && forall k {:trigger Run(s, ops, k)} :: m <= k <= n ==> Entry(Run(s, ops, k), key) == entry
  }

  lemma StaysOn(s: State, ops: seq<Op>, key: Key, m: nat, n: nat, entry: Option<(Bytes, nat)>)
    requires 0 < n <= |ops| && Stays(s, ops, key, m, n - 1, entry) && MomentOf(Run(s, ops, n), key).entry == entry
    ensures Stays(s, ops, key, m, n, entry)
  {}

  lemma SameId(a: nat, b: nat)
    requires a <= b < a + WRAP && a % WRAP == b % WRAP
    ensures a == b
  {
    var d := b - a;
    assert d % WRAP == 0;
  }

  /** From any moment on, a key keeps its value and id, or is gone, or has an id newer than any there
      was at that moment. */
  lemma {:induction false} Renewed(s: State, ops: seq<Op>, m: nat, n: nat, key: Key, a: Moment, c: Moment)
    requires m <= n <= |ops| && a == MomentOf(Run(s, ops, m), key) && c == MomentOf(Run(s, ops, n), key)
    ensures c.casId >= a.casId
    ensures Stays(s, ops, key, m, n, c.entry) || c.entry.None? || c.entry.value.1 > a.casId
    decreases n
  {
    if m < n {
      var b := MomentOf(Run(s, ops, n - 1), key);
      Renewed(s, ops, m, n - 1, key, a, b);
      RunRenews(s, ops, n - 1, key, b, c);
      if b.entry == c.entry && Stays(s, ops, key, m, n - 1, c.entry) {
        StaysOn(s, ops, key, m, n, c.entry);
      }
    }
  }

  /** The id read at one moment and matched at another is that of the same value. */
  lemma MatchedIsSame(s0: State, s1: State, key: Key)
    requires Fresh(s0) && Fresh(s1) && key in s0.cache && key in s1.cache
    requires IdOf(s0.cache[key]) == IdOf(s1.cache[key]) && s1.casId < s0.cache[key].cas + WRAP
    ensures s1.cache[key].cas <= s0.casId
  {
    var was, now := s0.cache[key].cas, s1.cache[key].cas;
    if was <= now {
      SameId(was, now);
    }
  }

  /** A compare-and-swap succeeds only if the value has not changed since its id was read, as long as fewer
      than 2^64 ids have been given out since that id. */
  lemma CasMeansUnchanged(s: State, ops: seq<Op>, m: nat, n: nat, s0: State, s1: State)
    requires m <= n < |ops| && s0 == Run(s, ops, m) && s1 == Run(s, ops, n)
    requires Fresh(s) && ops[n].DoStore? && ops[n].comm == Cas
    requires ops[n].key in s0.cache && ops[n].token == IdOf(s0.cache[ops[n].key])
    requires s1.casId < s0.cache[ops[n].key].cas + WRAP
    requires Store(s1, Cas, ops[n].key, ops[n].data, ops[n].token, ops[n].room).1 == Stored
    ensures Stays(s, ops, ops[n].key, m, n, Entry(s0, ops[n].key))
  {
    RunFresh(s, ops, m);
    RunFresh(s, ops, n);
    Renewed(s, ops, m, n, ops[n].key, MomentOf(s0, ops[n].key), MomentOf(s1, ops[n].key));
    MatchedIsSame(s0, s1, ops[n].key);
    assert Entry(Run(s, ops, m), ops[n].key) == Entry(s1, ops[n].key);
  }

  // ---- and when they have been ----

  const NAME: Key := "k"

  /** "a" is stored, then "b" 2^64 times, and then "c" if the value has the id "a" had. */
  function Overtaken(): (ops: seq<Op>)
    ensures |ops| == WRAP + 2
  {
    [DoStore(Set, NAME, "a\r\n", 0, true)] + seq(WRAP, _ => DoStore(Set, NAME, "b\r\n", 0, true))
    + [DoStore(Cas, NAME, "c\r\n", 1, true)]
  }

  lemma {:induction false} AfterSets(n: nat)
    requires n <= WRAP
    ensures Run(State(map[], 0), Overtaken(), n + 1)
      == State(map[NAME := Value(if n == 0 then "a\r\n" else "b\r\n", n + 1, false)], n + 1)
  {
    var s, ops := State(map[], 0), Overtaken();
    if n == 0 {
      assert Run(s, ops, 0) == s && ops[0] == DoStore(Set, NAME, "a\r\n", 0, true);
    } else {
      AfterSets(n - 1);
      assert ops[n] == DoStore(Set, NAME, "b\r\n", 0, true);
    }
  }

  /** It is stored, over another value than the one whose id it was given. */
  lemma OvertakenStores()
    ensures var s, ops := State(map[], 0), Overtaken();
      && Fresh(s) && ops[WRAP + 1].DoStore? && ops[WRAP + 1].comm == Cas
      && NAME in Run(s, ops, 1).cache && IdOf(Run(s, ops, 1).cache[NAME]) == ops[WRAP + 1].token
      && Store(Run(s, ops, WRAP + 1), Cas, NAME, "c\r\n", ops[WRAP + 1].token, true).1 == Stored
      && Entry(Run(s, ops, 1), NAME) == Some(("a\r\n", 1))
      && Entry(Run(s, ops, WRAP + 1), NAME) == Some(("b\r\n", WRAP + 1))
  {
    AfterSets(0);
    AfterSets(WRAP);
  }
}
