/** Replies over UDP: the pieces added to a connection are spread over messages of bounded size, each
    behind a header of its own. */
module Udp {
  import opened Numbers
  import opened Options
  import opened Sequences

  type Byte = Octet

  const MAX_PAYLOAD := 1400
  const HEADER := 8
  const IOV_MAX := 1024

  /** An entry of the iov list: room for a header, or bytes to send. */
  datatype Iov = Head | Piece(bytes: seq<Byte>)

  function Data(v: Iov): seq<Byte> {
    if v.Head? then [] else v.bytes
  }

  function Size1(v: Iov): nat {
    if v.Head? then HEADER else |v.bytes|
  }

  function Size(msg: seq<Iov>): nat {
    if |msg| == 0 then 0 else Size(msg[..|msg| - 1]) + Size1(msg[|msg| - 1])
  }

  /** The bytes of a message without its header. */
  function Bytes(msg: seq<Iov>): seq<Byte> {
    if |msg| == 0 then [] else Bytes(msg[..|msg| - 1]) + Data(msg[|msg| - 1])
  }

  function Payload(msgs: seq<seq<Iov>>): seq<Byte> {
    if |msgs| == 0 then [] else Payload(msgs[..|msgs| - 1]) + Bytes(msgs[|msgs| - 1])
  }

  /** One header, in front; no more entries and no more bytes than a message may have. */
  predicate Good(msg: seq<Iov>) {
    && 0 < |msg| <= IOV_MAX && msg[0].Head?
    && (forall k :: 0 < k < |msg| ==> msg[k].Piece?)
    && Size(msg) <= MAX_PAYLOAD
  }

  predicate AllGood(msgs: seq<seq<Iov>>) {
    forall i :: 0 <= i < |msgs| ==> Good(msgs[i])
  }

  // ---- a new message, and an entry more in the last one ----

  function Opened(msgs: seq<seq<Iov>>): seq<seq<Iov>> {
    msgs + [[Head]]
  }

  function Pushed(msgs: seq<seq<Iov>>, v: Iov): seq<seq<Iov>>
    requires |msgs| > 0
  {
    msgs[..|msgs| - 1] + [msgs[|msgs| - 1] + [v]]
  }

  lemma OpenedKeeps(msgs: seq<seq<Iov>>)
    requires AllGood(msgs)
    ensures AllGood(Opened(msgs)) && Payload(Opened(msgs)) == Payload(msgs)
      && Flatten(Opened(msgs)) == Flatten(msgs) + [Head]
  {
    var more := Opened(msgs);
    assert more[..|more| - 1] == msgs;
    assert [Head][..0] == [];
    assert Size([Head]) == HEADER && Bytes([Head]) == [];
    assert Payload(msgs) + [] == Payload(msgs);
  }

  lemma EntryMore(msg: seq<Iov>, v: Iov)
    ensures Size(msg + [v]) == Size(msg) + Size1(v)
    ensures Bytes(msg + [v]) == Bytes(msg) + Data(v)
  {
    assert (msg + [v])[..|msg|] == msg;
  }

  lemma PayloadLast(front: seq<seq<Iov>>, msg: seq<Iov>)
    ensures Payload(front + [msg]) == Payload(front) + Bytes(msg)
  {
    assert (front + [msg])[..|front|] == front;
  }

  lemma PushedIs(msgs: seq<seq<Iov>>, v: Iov)
    requires |msgs| > 0
    ensures Flatten(Pushed(msgs, v)) == Flatten(msgs) + [v]
    ensures Payload(Pushed(msgs, v)) == Payload(msgs) + Data(v)
  {
    var front, msg := msgs[..|msgs| - 1], msgs[|msgs| - 1];
    FlattenLast(front, msg + [v]);
    PayloadLast(front, msg + [v]);
    EntryMore(msg, v);
    SeqAssociative(Flatten(front), msg, [v]);
    SeqAssociative(Payload(front), Bytes(msg), Data(v));
  }

  lemma SeqAssociative<T>(a: seq<T>, b: seq<T>, c: seq<T>)
    ensures a + (b + c) == a + b + c
  {
  }

  lemma PushedKeeps(msgs: seq<seq<Iov>>, bytes: seq<Byte>)
    requires |msgs| > 0 && AllGood(msgs)
    requires |msgs[|msgs| - 1]| < IOV_MAX && Size(msgs[|msgs| - 1]) + |bytes| <= MAX_PAYLOAD
    ensures AllGood(Pushed(msgs, Piece(bytes)))
  {
    EntryMore(msgs[|msgs| - 1], Piece(bytes));
  }

  lemma FlatSplit(msgs: seq<seq<Iov>>, i: nat)
    requires i < |msgs|
    ensures |Flatten(msgs[..i])| + |msgs[i]| == |Flatten(msgs[..i + 1])| <= |Flatten(msgs)|
  {
    FlattenMore(msgs, i);
    FlattenPrefix(msgs, i + 1);
  }

  /** `bytes` have been added behind what was there; all messages but the last are as they were. */
  ghost predicate Extends(msgs: seq<seq<Iov>>, msgs': seq<seq<Iov>>, bytes: seq<Byte>) {
    && 0 < |msgs| <= |msgs'| && msgs'[..|msgs| - 1] == msgs[..|msgs| - 1]
    && Payload(msgs') == Payload(msgs) + bytes
  }

  lemma ExtendsTwice(a: seq<seq<Iov>>, b: seq<seq<Iov>>, c: seq<seq<Iov>>, x: seq<Byte>, y: seq<Byte>)
    requires Extends(a, b, x) && Extends(b, c, y)
    ensures Extends(a, c, x + y)
  {
    assert c[..|a| - 1] == c[..|b| - 1][..|a| - 1];
    assert b[..|a| - 1] == b[..|b| - 1][..|a| - 1];
    assert Payload(a) + x + y == Payload(a) + (x + y);
  }

  lemma ExtendsNothing(a: seq<seq<Iov>>, b: seq<seq<Iov>>, c: seq<seq<Iov>>, y: seq<Byte>)
    requires Extends(a, b, []) && Extends(b, c, y)
    ensures Extends(a, c, y)
  {
    ExtendsTwice(a, b, c, [], y);
    assert [] + y == y;
  }

  lemma ExtendsMore(a: seq<seq<Iov>>, b: seq<seq<Iov>>, c: seq<seq<Iov>>, buf: seq<Byte>, n: nat, k: nat)
    requires n + k <= |buf| && Extends(a, b, buf[..n]) && Extends(b, c, buf[n..][..k])
    ensures Extends(a, c, buf[..n + k])
  {
    ExtendsTwice(a, b, c, buf[..n], buf[n..][..k]);
    assert buf[..n] + buf[n..][..k] == buf[..n + k];
  }

  lemma PushedExtends(msgs: seq<seq<Iov>>, bytes: seq<Byte>)
    requires |msgs| > 0
    ensures Extends(msgs, Pushed(msgs, Piece(bytes)), bytes)
  {
    PushedIs(msgs, Piece(bytes));
  }

  lemma OpenedExtends(msgs: seq<seq<Iov>>)
    requires |msgs| > 0 && AllGood(msgs)
    ensures Extends(msgs, Opened(msgs), [])
  {
    OpenedKeeps(msgs);
  }

  lemma SameExtends(msgs: seq<seq<Iov>>)
    requires |msgs| > 0
    ensures Extends(msgs, msgs, [])
  {
    assert Payload(msgs) + [] == Payload(msgs);
  }

  // ---- chunked items ----

  /** The first `len` bytes of a chain of chunks. */
  function First(chunks: seq<seq<Byte>>, len: nat): (r: seq<Byte>)
    ensures |r| <= len
  {
    if |chunks| == 0 then []
    else
      var front, chunk := First(chunks[..|chunks| - 1], len), chunks[|chunks| - 1];
      front + chunk[..if len - |front| > |chunk| then |chunk| else len - |front|]
  }

  lemma FirstMore(chunks: seq<seq<Byte>>, i: nat, len: nat)
    requires i < |chunks|
    ensures var front, chunk := First(chunks[..i], len), chunks[i];
      First(chunks[..i + 1], len) == front + chunk[..if len - |front| > |chunk| then |chunk| else len - |front|]
  {
    assert chunks[..i + 1][..i] == chunks[..i];
  }

  lemma ExtendsChunk(a: seq<seq<Iov>>, b: seq<seq<Iov>>, c: seq<seq<Iov>>, chunks: seq<seq<Byte>>, i: nat, len: nat)
    requires i < |chunks| && Extends(a, b, First(chunks[..i], len))
    requires var left := len - |First(chunks[..i], len)|; Extends(b, c,
      chunks[i][..if left > |chunks[i]| then |chunks[i]| else left])
    ensures Extends(a, c, First(chunks[..i + 1], len))
    ensures var left := len - |First(chunks[..i], len)|;
      |First(chunks[..i + 1], len)| == |First(chunks[..i], len)| + if left > |chunks[i]| then |chunks[i]| else left
  {
    var left := len - |First(chunks[..i], len)|;
    ExtendsTwice(a, b, c, First(chunks[..i], len), chunks[i][..if left > |chunks[i]| then |chunks[i]| else left]);
    FirstMore(chunks, i, len);
  }

  lemma {:induction false} FirstIs(chunks: seq<seq<Byte>>, len: nat)
    ensures var all := Flatten(chunks); First(chunks, len) == if len < |all| then all[..len] else all
    decreases |chunks|
  {
    if |chunks| > 0 {
      FirstIs(chunks[..|chunks| - 1], len);
    }
  }

  // ---- datagrams ----

  function Header(id: nat, i: nat, n: nat): (h: seq<Byte>)
    ensures |h| == HEADER
  {
    [High(id), Low(id), High(i), Low(i), High(n), Low(n), 0, 0]
  }

  /** Message `i` of `n` on the wire. */
  function Datagram(id: nat, i: nat, n: nat, msg: seq<Iov>): seq<Byte> {
    Header(id, i, n) + Bytes(msg)
  }

  lemma {:induction false} SizeIs(msg: seq<Iov>)
    requires |msg| > 0 && msg[0].Head? && forall k :: 0 < k < |msg| ==> msg[k].Piece?
    ensures Size(msg) == HEADER + |Bytes(msg)|
    decreases |msg|
  {
    var front := msg[..|msg| - 1];
    if |msg| > 1 {
      SizeIs(front);
    } else {
      assert front == [];
    }
  }

  /** No datagram exceeds the limit, header included. */
  lemma DatagramFits(id: nat, i: nat, n: nat, msg: seq<Iov>)
    requires Good(msg)
    ensures |Datagram(id, i, n, msg)| == Size(msg) <= MAX_PAYLOAD
  {
    SizeIs(msg);
  }

  function Datagrams(id: nat, msgs: seq<seq<Iov>>): (grams: seq<seq<Byte>>)
    ensures |grams| == |msgs| && forall i :: 0 <= i < |msgs| ==> grams[i] == Datagram(id, i, |msgs|, msgs[i])
  {
    seq(|msgs|, i requires 0 <= i < |msgs| => Datagram(id, i, |msgs|, msgs[i]))
  }

  /** What a receiver makes of the datagrams in the order of their sequence numbers. */
  function Reassembled(grams: seq<seq<Byte>>): seq<Byte>
    requires forall i :: 0 <= i < |grams| ==> |grams[i]| >= HEADER
  {
    if |grams| == 0 then [] else Reassembled(grams[..|grams| - 1]) + grams[|grams| - 1][HEADER..]
  }

  lemma {:induction false} ReassembledPrefix(grams: seq<seq<Byte>>, msgs: seq<seq<Iov>>, id: nat, n: nat)
    requires |grams| == |msgs| && forall i :: 0 <= i < |msgs| ==> grams[i] == Datagram(id, i, n, msgs[i])
    ensures (forall i :: 0 <= i < |grams| ==> |grams[i]| >= HEADER) && Reassembled(grams) == Payload(msgs)
    decreases |msgs|
  {
    var last := |msgs| - 1;
    if |msgs| > 0 {
      ReassembledPrefix(grams[..last], msgs[..last], id, n);
      assert grams[last][HEADER..] == Bytes(msgs[last]);
    }
  }

  /** Stripping the headers gives back exactly the bytes that were added. */
  lemma ReceiverGetsAll(id: nat, msgs: seq<seq<Iov>>)
    ensures (forall i :: 0 <= i < |msgs| ==> |Datagrams(id, msgs)[i]| >= HEADER)
    ensures Reassembled(Datagrams(id, msgs)) == Payload(msgs)
  {
    ReassembledPrefix(Datagrams(id, msgs), msgs, id, |msgs|);
  }

  /** The sequence number and the number of datagrams, as a receiver reads them. */
  function Numbered(g: seq<Byte>): nat
    requires |g| >= HEADER
  {
    Number(g[2], g[3])
  }

  function Counted(g: seq<Byte>): nat
    requires |g| >= HEADER
  {
    Number(g[4], g[5])
  }

  predicate Labelled(g: seq<Byte>, i: nat, n: nat) {
    |g| >= HEADER && Numbered(g) == i && Counted(g) == n
  }

  lemma DatagramReads(id: nat, i: nat, n: nat, msg: seq<Iov>)
    ensures Labelled(Datagram(id, i, n, msg), i % 0x10000, n % 0x10000)
    ensures Labelled(Datagram(id, i, n, msg), i, n) <==> i < 0x10000 && n < 0x10000
    ensures Datagram(id, i, n, msg)[HEADER..] == Bytes(msg)
  {
    NumberIs(i);
    NumberIs(n);
  }

  /** Every datagram carries its number and their count exactly if there are fewer than 65536. */
  lemma NumbersFit(id: nat, msgs: seq<seq<Iov>>, grams: seq<seq<Byte>>)
    requires grams == Datagrams(id, msgs)
    ensures (forall i :: 0 <= i < |msgs| ==> Labelled(grams[i], i, |msgs|)) <==> |msgs| < 0x10000
  {
    forall i | 0 <= i < |msgs|
      ensures Labelled(grams[i], i, |msgs|) <==> |msgs| < 0x10000
    {
      DatagramReads(id, i, |msgs|, msgs[i]);
    }
    if |msgs| >= 0x10000 {
      assert !Labelled(grams[0], 0, |msgs|);
    }
  }

  /** With 65537, the last one has the number of the first, and says there are no others. */
  lemma NumbersRunOut(id: nat, msgs: seq<seq<Iov>>)
    requires |msgs| == 0x10001
    ensures Labelled(Datagrams(id, msgs)[0x10000], 0, 1)
  {
    DatagramReads(id, 0x10000, 0x10001, msgs[0x10000]);
  }

  /** What arrived last with the number `k`. */
  function Find(arrived: seq<seq<Byte>>, k: nat): Option<seq<Byte>> {
    if |arrived| == 0 then None
    else
      var g := arrived[|arrived| - 1];
      if |g| >= HEADER && Numbered(g) == k then Some(g) else Find(arrived[..|arrived| - 1], k)
  }

  /** A receiver goes by the numbers from 0 to `n`. */
  function Received(arrived: seq<seq<Byte>>, n: nat): seq<Byte> {
    if n == 0 then []
    else
      var g := Find(arrived, n - 1);
      Received(arrived, n - 1) + if g.Some? && |g.value| >= HEADER then g.value[HEADER..] else []
  }

  lemma {:induction false} FindIs(arrived: seq<seq<Byte>>, k: nat, g: seq<Byte>)
    requires g in arrived && |g| >= HEADER && Numbered(g) == k
    ensures var found := Find(arrived, k);
      found.Some? && found.value in arrived && |found.value| >= HEADER && Numbered(found.value) == k
    decreases |arrived|
  {
    var n := |arrived| - 1;
    if !(|arrived[n]| >= HEADER && Numbered(arrived[n]) == k) {
      assert g in arrived[..n];
      FindIs(arrived[..n], k, g);
    }
  }

  /** The datagrams have arrived, in any order and any of them more than once. */
  predicate Arrived(arrived: seq<seq<Byte>>, grams: seq<seq<Byte>>) {
    (forall g :: g in arrived ==> g in grams) && forall i :: 0 <= i < |grams| ==> grams[i] in arrived
  }

  /** Datagram `i` has the number `i` and message `i`. */
  predicate Told(grams: seq<seq<Byte>>, msgs: seq<seq<Iov>>) {
    |grams| == |msgs| && forall i :: 0 <= i < |msgs| ==>
      |grams[i]| >= HEADER && Numbered(grams[i]) == i && grams[i][HEADER..] == Bytes(msgs[i])
  }

  lemma SmallNumber(id: nat, i: nat, n: nat, msg: seq<Iov>)
    requires i < 0x10000
    ensures var g := Datagram(id, i, n, msg); |g| >= HEADER && Numbered(g) == i && g[HEADER..] == Bytes(msg)
  {
    NumberIs(i);
  }

  /** Up to 65536 datagrams are told apart by their numbers. */
  lemma NumbersTell(id: nat, msgs: seq<seq<Iov>>)
    requires |msgs| <= 0x10000
    ensures Told(Datagrams(id, msgs), msgs)
  {
    forall i | 0 <= i < |msgs|
      ensures var g := Datagrams(id, msgs)[i]; |g| >= HEADER && Numbered(g) == i && g[HEADER..] == Bytes(msgs[i])
    {
      SmallNumber(id, i, |msgs|, msgs[i]);
    }
  }

  lemma FindsIt(grams: seq<seq<Byte>>, msgs: seq<seq<Iov>>, arrived: seq<seq<Byte>>, k: nat)
    requires Told(grams, msgs) && Arrived(arrived, grams) && k < |msgs|
    ensures Find(arrived, k) == Some(grams[k])
  {
    FindIs(arrived, k, grams[k]);
  }

  lemma {:induction false} ReceivedPart(grams: seq<seq<Byte>>, msgs: seq<seq<Iov>>, arrived: seq<seq<Byte>>, n: nat)
    requires Told(grams, msgs) && Arrived(arrived, grams) && n <= |msgs|
    ensures Received(arrived, n) == Payload(msgs[..n])
  {
    if n > 0 {
      ReceivedPart(grams, msgs, arrived, n - 1);
      FindsIt(grams, msgs, arrived, n - 1);
      assert msgs[..n][..n - 1] == msgs[..n - 1];
    }
  }

  /** In whatever order they arrive, a receiver that goes by the numbers gets the bytes back. */
  lemma ReceiverReorders(id: nat, msgs: seq<seq<Iov>>, arrived: seq<seq<Byte>>)
    requires Arrived(arrived, Datagrams(id, msgs)) && |msgs| <= 0x10000
    ensures Received(arrived, |msgs|) == Payload(msgs)
  {
    NumbersTell(id, msgs);
    ReceivedPart(Datagrams(id, msgs), msgs, arrived, |msgs|);
    assert msgs[..|msgs|] == msgs;
  }

  // ---- the headers put in front ----

  /** Where each message begins in the list of all entries. */
  function Begins(msgs: seq<seq<Iov>>): (starts: seq<nat>)
    ensures |starts| == |msgs| && forall k :: 0 <= k < |msgs| ==> starts[k] == |Flatten(msgs[..k])|
  {
    seq(|msgs|, k requires 0 <= k < |msgs| => |Flatten(msgs[..k])|)
  }

  predicate Rising(starts: seq<nat>, n: nat) {
    (forall k :: 0 <= k < |starts| ==> starts[k] < n) && forall j, k :: 0 <= j < k < |starts| ==> starts[j] < starts[k]
  }

  /** The entries with the first `i` headers put in. */
  function Filled(hs: seq<seq<Byte>>, entries: seq<Iov>, starts: seq<nat>, i: nat): (r: seq<Iov>)
    requires i <= |hs| == |starts| && Rising(starts, |entries|)
    ensures |r| == |entries|
  {
    if i == 0 then entries else Filled(hs, entries, starts, i - 1)[starts[i - 1] := Piece(hs[i - 1])]
  }

  lemma {:induction false} FilledHere(hs: seq<seq<Byte>>, entries: seq<Iov>, starts: seq<nat>, i: nat, k: nat)
    requires k < i <= |hs| == |starts| && Rising(starts, |entries|)
    ensures Filled(hs, entries, starts, i)[starts[k]] == Piece(hs[k])
  {
    if k < i - 1 {
      FilledHere(hs, entries, starts, i - 1, k);
    }
  }

  lemma {:induction false} FilledElse(hs: seq<seq<Byte>>, entries: seq<Iov>, starts: seq<nat>, i: nat, j: nat)
    requires i <= |hs| == |starts| && Rising(starts, |entries|) && j < |entries| && j !in starts
    ensures Filled(hs, entries, starts, i)[j] == entries[j]
  {
    if i > 0 {
      FilledElse(hs, entries, starts, i - 1, j);
      assert starts[i - 1] in starts;
    }
  }

  lemma {:induction false} BeginsApart(msgs: seq<seq<Iov>>, j: nat, k: nat)
    requires j < k <= |msgs|
    ensures |Flatten(msgs[..j])| + |msgs[j]| <= |Flatten(msgs[..k])|
    decreases k - j
  {
    FlattenMore(msgs, k - 1);
    if j < k - 1 {
      BeginsApart(msgs, j, k - 1);
    }
  }

  predicate Started(msgs: seq<seq<Iov>>) {
    forall k :: 0 <= k < |msgs| ==> |msgs[k]| > 0
  }

  lemma BeginsRise(msgs: seq<seq<Iov>>)
    requires Started(msgs)
    ensures Rising(Begins(msgs), |Flatten(msgs)|)
  {
    forall j, k | 0 <= j < k <= |msgs|
      ensures |Flatten(msgs[..j])| < |Flatten(msgs[..k])|
    {
      BeginsApart(msgs, j, k);
    }
    assert msgs[..|msgs|] == msgs;
  }

  /** Nothing begins inside a message. */
  lemma NoneInside(msgs: seq<seq<Iov>>, k: nat, p: nat)
    requires Started(msgs) && k < |msgs| && 0 < p < |msgs[k]|
    ensures |Flatten(msgs[..k])| + p !in Begins(msgs)
  {
    forall j | 0 <= j < |msgs|
      ensures Begins(msgs)[j] != |Flatten(msgs[..k])| + p
    {
      if j < k {
        BeginsApart(msgs, j, k);
      } else if k < j {
        BeginsApart(msgs, k, j);
      }
    }
  }

  /** Part `k` of the joined parts. */
  lemma PartAt(parts: seq<seq<Iov>>, k: nat, at: nat)
    requires k < |parts| && at == |Flatten(parts[..k])|
    ensures at + |parts[k]| <= |Flatten(parts)| && Flatten(parts)[at..at + |parts[k]|] == parts[k]
  {
    FlattenAt(parts, k, 0, |parts[k]|);
    assert parts[k][0..|parts[k]|] == parts[k];
  }

  lemma FilledAt(hs: seq<seq<Byte>>, msgs: seq<seq<Iov>>, all: seq<Iov>, k: nat, at: nat, p: nat)
    requires Started(msgs) && |hs| == |msgs| && k < |msgs| && at == |Flatten(msgs[..k])| && p < |msgs[k]|
    requires Rising(Begins(msgs), |Flatten(msgs)|) && all == Filled(hs, Flatten(msgs), Begins(msgs), |msgs|)
    ensures at + p < |all| && all[at + p] == if p == 0 then Piece(hs[k]) else msgs[k][p]
  {
    PartAt(msgs, k, at);
    if p == 0 {
      FilledHere(hs, Flatten(msgs), Begins(msgs), |msgs|, k);
    } else {
      NoneInside(msgs, k, p);
      FilledElse(hs, Flatten(msgs), Begins(msgs), |msgs|, at + p);
      assert Flatten(msgs)[at..at + |msgs[k]|][p] == msgs[k][p];
    }
  }

  /** A message once all headers are in. */
  lemma FilledPart(hs: seq<seq<Byte>>, msgs: seq<seq<Iov>>, all: seq<Iov>, k: nat, at: nat)
    requires Started(msgs) && |hs| == |msgs| && k < |msgs| && at == |Flatten(msgs[..k])|
    requires Rising(Begins(msgs), |Flatten(msgs)|) && all == Filled(hs, Flatten(msgs), Begins(msgs), |msgs|)
    ensures at + |msgs[k]| <= |all| && all[at..at + |msgs[k]|] == [Piece(hs[k])] + msgs[k][1..]
  {
    PartAt(msgs, k, at);
    var part, goal := all[at..at + |msgs[k]|], [Piece(hs[k])] + msgs[k][1..];
    forall p | 0 <= p < |msgs[k]|
      ensures part[p] == goal[p]
    {
      FilledAt(hs, msgs, all, k, at, p);
    }
  }

  lemma {:induction false} BytesMore(front: seq<Iov>, rest: seq<Iov>)
    ensures Bytes(front + rest) == Bytes(front) + Bytes(rest)
    decreases |rest|
  {
    var n := |rest| - 1;
    if n < 0 {
      assert front + rest == front;
    } else {
      BytesMore(front, rest[..n]);
      assert front + rest == front + rest[..n] + [rest[n]];
      EntryMore(front + rest[..n], rest[n]);
      SeqAssociative(Bytes(front), Bytes(rest[..n]), Data(rest[n]));
    }
  }

  lemma BytesOne(v: Iov)
    ensures Bytes([v]) == Data(v)
  {
    EntryMore([], v);
    assert [] + [v] == [v] && [] + Data(v) == Data(v);
  }

  lemma HeadIsEmpty(msg: seq<Iov>, h: seq<Byte>)
    requires |msg| > 0 && msg[0].Head?
    ensures Bytes([Piece(h)] + msg[1..]) == h + Bytes(msg)
  {
    BytesOne(Piece(h));
    BytesOne(Head);
    BytesMore([Piece(h)], msg[1..]);
    BytesMore([Head], msg[1..]);
    assert msg == [Head] + msg[1..];
    assert [] + Bytes(msg[1..]) == Bytes(msg[1..]);
  }

  /** The headers of a reply of `n` messages. */
  function Headers(id: nat, n: nat): (hs: seq<seq<Byte>>)
    ensures |hs| == n && forall k :: 0 <= k < n ==> hs[k] == Header(id, k, n)
  {
    seq(n, k requires 0 <= k < n => Header(id, k, n))
  }

  method WriteHeader(hdr: array<Byte>, at: nat, id: nat, i: nat, n: nat)
    requires at + HEADER <= hdr.Length
    modifies hdr
    ensures hdr[at..at + HEADER] == Header(id, i, n)
  {
    var h := Header(id, i, n);
    forall k | 0 <= k < HEADER {
      hdr[at + k] := h[k];
    }
  }
}
