/** Answering a GET from the slots: bmc_prepare_packet and the tail calls of bmc_write_reply. */
module BmcReply {
  import opened Bmc
  import opened BmcParse
  import opened Numbers
  import opened Options
  import opened Sequences

  const ROOM := 128
  const END: seq<Byte> := ['E' as Byte, 'N' as Byte, 'D' as Byte, CR, LF]

  // ---- memory ----

  /** `m` with `bytes` written at `at`. */
  function Overlay(m: seq<Byte>, at: nat, bytes: seq<Byte>): (r: seq<Byte>)
    requires at + |bytes| <= |m|
    ensures |r| == |m| && r[at..at + |bytes|] == bytes
  {
    m[..at] + bytes + m[at + |bytes|..]
  }

  lemma OverlayTwice(m: seq<Byte>, at: nat, a: seq<Byte>, b: seq<Byte>)
    requires at + |a| + |b| <= |m|
    ensures Overlay(Overlay(m, at, a), at + |a|, b) == Overlay(m, at, a + b)
  {
  }

  lemma OverlayMore(m: seq<Byte>, at: nat, data: seq<Byte>, n: nat, k: nat)
    requires n + k <= |data| && at + n + k <= |m|
    ensures Overlay(Overlay(m, at, data[..n]), at + n, data[n..n + k]) == Overlay(m, at, data[..n + k])
  {
    OverlayTwice(m, at, data[..n], data[n..n + k]);
    assert data[..n + k] == data[..n] + data[n..n + k];
  }

  lemma OverlayAgain(m: seq<Byte>, at: nat, a: seq<Byte>, a': seq<Byte>, b: seq<Byte>)
    requires at + |a| + |b| <= |m| && |a'| == |a|
    ensures Overlay(Overlay(m, at, a + b), at, a') == Overlay(m, at, a' + b)
  {
  }

  lemma OverlayThrice(m: seq<Byte>, at: nat, a: seq<Byte>, b: seq<Byte>, c: seq<Byte>, a': seq<Byte>)
    requires at + |a| + |b| + |c| <= |m| && |a'| == |a|
    ensures Overlay(Overlay(Overlay(m, at, a + b), at + |a| + |b|, c), at, a') == Overlay(m, at, a' + (b + c))
  {
    OverlayTwice(m, at, a + b, c);
    assert a + b + c == a + (b + c);
    OverlayAgain(m, at, a, a', b + c);
  }

  lemma OverlayRest(m: seq<Byte>, at: nat, a: seq<Byte>, from: nat, to: nat)
    requires at + |a| <= from <= to <= |m|
    ensures Overlay(m, at, a)[from..to] == m[from..to]
  {
    var r := Overlay(m, at, a);
    assert forall i :: from <= i < to ==> r[i] == m[i];
  }

  // ---- headers ----

  /** Where each header byte of the answer comes from: the addresses and ports change places. */
  function Partner(i: nat): (k: nat)
    requires i < HEADERS
    ensures k < HEADERS
  {
    if i < 6 then i + 6
    else if i < 12 then i - 6
    else if 26 <= i < 30 then i + 4
    else if 30 <= i < 34 then i - 4
    else if 34 <= i < 36 then i + 2
    else if 36 <= i < 38 then i - 2
    else i
  }

  function Swapped(h: seq<Byte>): (h': seq<Byte>)
    requires |h| == HEADERS
    ensures |h'| == HEADERS
  {
    seq(HEADERS, i requires 0 <= i < HEADERS => h[Partner(i)])
  }

  /** A header byte for a payload of `n` bytes: the IP and UDP lengths, the IP checksum, and no UDP
      checksum. */
  function Stamp(b: Byte, i: nat, n: nat, sum: (Byte, Byte)): Byte {
    if i == 16 then High(HEADERS - ETH + n) as Byte
    else if i == 17 then Low(HEADERS - ETH + n) as Byte
    else if i == 24 then sum.0
    else if i == 25 then sum.1
    else if i == 38 then High(16 + n) as Byte
    else if i == 39 then Low(16 + n) as Byte
    else if i == 40 || i == 41 then 0
    else b
  }

  function Stamped(h: seq<Byte>, n: nat, sum: (Byte, Byte)): (h': seq<Byte>)
    requires |h| == HEADERS
    ensures |h'| == HEADERS
  {
    seq(HEADERS, i requires 0 <= i < HEADERS => Stamp(h[i], i, n, sum))
  }

  // ---- answers ----

  predicate EntriesOk(entries: seq<Entry>) {
    forall i :: 0 <= i < |entries| ==> EntryOk(entries[i])
  }

  predicate Fit(keys: seq<Saved>) {
    forall i :: 0 <= i < |keys| ==> |keys[i].key| <= MAX_KEY
  }

  /** What each key contributes, its slot being in the state its call finds. */
  predicate ArePieces(pieces: seq<seq<Byte>>, keys: seq<Saved>, entries: seq<Entry>)
    requires |keys| == |entries| && Fit(keys) && EntriesOk(entries)
  {
    |pieces| == |keys| && forall i {:trigger pieces[i]} :: 0 <= i < |keys| ==> pieces[i] == Copied(entries[i], keys[i])
  }

  function Answers(keys: seq<Saved>, entries: seq<Entry>): (pieces: seq<seq<Byte>>)
    requires |keys| == |entries| && Fit(keys) && EntriesOk(entries)
    ensures ArePieces(pieces, keys, entries)
  {
    seq(|keys|, i requires 0 <= i < |keys| => Copied(entries[i], keys[i]))
  }

  lemma JoinedGrows(pieces: seq<seq<Byte>>, i: nat, j: nat)
    requires i <= j <= |pieces|
    ensures |Flatten(pieces[..i])| <= |Flatten(pieces[..j])|
  {
    FlattenPrefix(pieces[..j], i);
    assert pieces[..j][..i] == pieces[..i];
  }

  lemma SliceGrows(s: seq<Byte>, at: nat, i: nat)
    requires at + i < |s|
    ensures s[at..at + i + 1] == s[at..at + i] + [s[at + i]]
  {
    var x, y := s[at..at + i + 1], s[at..at + i] + [s[at + i]];
    assert |x| == |y| && forall k :: 0 <= k < |x| ==> x[k] == y[k];
  }

  /** The comparison loop of bmc_write_reply. */
  method Matches(e: Entry, k: Saved) returns (hit: bool)
    requires EntryOk(e) && |k.key| <= MAX_KEY
    ensures hit <==> e.data[KEY_AT..KEY_AT + |k.key|] == k.key
  {
    hit := true;
    var i := 0;
    while i < MAX_KEY && i < |k.key|
      invariant 0 <= i <= |k.key|
      invariant hit <==> e.data[KEY_AT..KEY_AT + i] == k.key[..i]
    {
      SliceGrows(e.data, KEY_AT, i);
      SliceGrows(k.key, 0, i);
      if k.key[i] != e.data[KEY_AT + i] {
        hit := false;
      }
      i := i + 1;
    }
    assert k.key[..i] == k.key;
  }

  /** `n` bytes of the entry are in place, and nothing else has changed. */
  ghost predicate CopiedTo(m: seq<Byte>, m': seq<Byte>, head: nat, tail: nat, e: Entry, n: nat) {
    n <= e.len <= |e.data| && head + n <= tail <= |m| && m' == Overlay(m, head, e.data[..n])
  }

  /** The copy loops of bmc_write_reply: eight bytes at a time, then one. */
  method CopyOut(x: Frame, e: Entry) returns (written: nat)
    requires x.Valid() && EntryOk(e)
    modifies x.mem
    ensures written == Min(e.len, x.tail - x.head)
    ensures x.mem[..] == Overlay(old(x.mem[..]), x.head, e.data[..written])
  {
    ghost var m := x.mem[..];
    written := CopyWords(x, e);
    written := CopyRest(x, e, written, m);
  }

  method CopyWords(x: Frame, e: Entry) returns (written: nat)
    requires x.Valid() && EntryOk(e)
    modifies x.mem
    ensures CopiedTo(old(x.mem[..]), x.mem[..], x.head, x.tail, e, written)
  {
    written := 0;
    ghost var m := x.mem[..];
    while written + 8 < MAX_DATA && written + 8 <= e.len && x.head + written + 8 <= x.tail
      invariant CopiedTo(m, x.mem[..], x.head, x.tail, e, written)
    {
      Put(x, written, e, 8, m);
      written := written + 8;
    }
  }

  method CopyRest(x: Frame, e: Entry, start: nat, ghost m: seq<Byte>) returns (written: nat)
    requires x.Valid() && EntryOk(e) && |m| == x.mem.Length && CopiedTo(m, x.mem[..], x.head, x.tail, e, start)
    modifies x.mem
    ensures written == Min(e.len, x.tail - x.head) && CopiedTo(m, x.mem[..], x.head, x.tail, e, written)
  {
    written := start;
    while written < MAX_DATA && written < e.len && x.head + written + 1 <= x.tail
      invariant CopiedTo(m, x.mem[..], x.head, x.tail, e, written)
    {
      Put(x, written, e, 1, m);
      written := written + 1;
    }
  }

  /** Bytes into the page. */
  method Poke(x: Frame, at: nat, bytes: seq<Byte>)
    requires at + |bytes| <= x.mem.Length
    modifies x.mem
    ensures x.mem[..] == Overlay(old(x.mem[..]), at, bytes)
  {
    forall i | 0 <= i < |bytes| {
      x.mem[at + i] := bytes[i];
    }
  }

  /** One store of `n` bytes, `off` bytes having been copied before. */
  method Put(x: Frame, off: nat, e: Entry, n: nat, ghost m: seq<Byte>)
    requires x.Valid() && x.head + off + n <= x.tail && off + n <= e.len && |m| == x.mem.Length
    requires CopiedTo(m, x.mem[..], x.head, x.tail, e, off)
    modifies x.mem
    ensures CopiedTo(m, x.mem[..], x.head, x.tail, e, off + n)
  {
    OverlayMore(m, x.head, e.data, off, n);
    Poke(x, x.head + off, e.data[off..off + n]);
  }

  /** The lock section of bmc_write_reply. */
  method CopyHit(x: Frame, k: Saved, e: Entry) returns (written: nat)
    requires x.Valid() && EntryOk(e) && |k.key| <= MAX_KEY
    modifies x.mem
    ensures written == Min(|Copied(e, k)|, x.tail - x.head)
    ensures x.mem[..] == Overlay(old(x.mem[..]), x.head, Copied(e, k)[..written])
  {
    written := 0;
    if e.valid && k.hash == e.hash {
      var hit := Matches(e, k);
      if hit {
        written := CopyOut(x, e);
        assert e.data[..written] == Content(e)[..written];
      }
    }
  }

  /** bmc_prepare_packet: the headers of the answer go in front of the request. */
  method Prepare(x: Frame) returns (ok: bool)
    requires x.Valid() && x.head + HEADERS + ETH <= x.tail
    modifies x`head, x.mem
    ensures x.Valid() && (ok <==> x.floor + ROOM <= old(x.head))
    ensures !ok ==> x.head == old(x.head) && x.mem[..] == old(x.mem[..])
    ensures ok ==> x.head == old(x.head) - ROOM + HEADERS
    ensures ok ==>
      x.mem[..] == Overlay(old(x.mem[..]), old(x.head) - ROOM,
        Swapped(old(x.mem[..])[old(x.head)..old(x.head) + HEADERS]))
  {
    ok := x.AdjustHead(-ROOM);
    if ok {
      var h := x.mem[..][x.head + ROOM..x.head + ROOM + HEADERS];
      Poke(x, x.head, Swapped(h));
      ok := x.AdjustHead(HEADERS);
    }
  }

  /** An answer being written: into page `m` at `base`, with headers `h` and these pieces. */
  datatype Job = Job(m: seq<Byte>, base: nat, h: seq<Byte>, pieces: seq<seq<Byte>>)

  /** Where the pieces before the i-th end. */
  function At(j: Job, i: nat): nat
    requires i <= |j.pieces|
  {
    j.base + HEADERS + |Flatten(j.pieces[..i])|
  }

  /** The page with the headers and the pieces before the i-th written. */
  ghost predicate Written(j: Job, i: nat, mem: seq<Byte>) {
    |j.h| == HEADERS && i <= |j.pieces| && At(j, i) <= |j.m|
      && mem == Overlay(j.m, j.base, j.h + Flatten(j.pieces[..i]))
  }

  lemma WrittenMore(j: Job, i: nat, mem: seq<Byte>)
    requires i < |j.pieces| && Written(j, i, mem) && At(j, i) + |j.pieces[i]| <= |mem|
    ensures Written(j, i + 1, Overlay(mem, At(j, i), j.pieces[i])) && At(j, i + 1) == At(j, i) + |j.pieces[i]|
  {
    var a := j.h + Flatten(j.pieces[..i]);
    FlattenMore(j.pieces, i);
    OverlayTwice(j.m, j.base, a, j.pieces[i]);
    assert a + j.pieces[i] == j.h + Flatten(j.pieces[..i + 1]);
  }

  /** The copying part of one run of bmc_write_reply: the piece goes in whole, or up to the end of the
      packet. */
  method AnswerOne(x: Frame, k: Saved, e: Entry, ghost j: Job, ghost i: nat) returns (written: nat)
    requires x.Valid() && EntryOk(e) && |k.key| <= MAX_KEY && i < |j.pieces| && j.pieces[i] == Copied(e, k)
    requires Written(j, i, x.mem[..]) && x.head == At(j, i)
    modifies x.mem
    ensures x.head + written <= x.tail && written <= |j.pieces[i]|
      && (written < |j.pieces[i]| ==> x.head + written == x.tail)
    ensures written == |j.pieces[i]| ==> Written(j, i + 1, x.mem[..])
    ensures At(j, i + 1) == x.head + |j.pieces[i]|
  {
    FlattenMore(j.pieces, i);
    if At(j, i) + |j.pieces[i]| <= x.mem.Length {
      WrittenMore(j, i, x.mem[..]);
    }
    written := CopyHit(x, k, e);
    assert j.pieces[i][..|j.pieces[i]|] == j.pieces[i];
  }

  /** The whole answer. */
  function Payload(j: Job): seq<Byte> {
    Flatten(j.pieces) + END
  }

  /** The packet is the headers, with lengths that fit, and the answer. */
  predicate IsAnswer(j: Job, packet: seq<Byte>, sum: (Byte, Byte)) {
    |j.h| == HEADERS && packet == Stamped(j.h, |Payload(j)|, sum) + Payload(j)
  }

  lemma HeadersIn(j: Job, mem: seq<Byte>)
    requires Written(j, |j.pieces|, mem)
    ensures mem[j.base..j.base + HEADERS] == j.h
  {
    var a := Flatten(j.pieces[..|j.pieces|]);
    assert mem[j.base..j.base + |j.h + a|] == j.h + a;
    assert mem[j.base..j.base + HEADERS] == mem[j.base..j.base + |j.h + a|][..HEADERS];
  }

  lemma Resealed(m: seq<Byte>, base: nat, h: seq<Byte>, f: seq<Byte>, end: seq<Byte>, h': seq<Byte>, mem: seq<Byte>,
      at: nat)
    requires at == base + |h| + |f| && at + |end| <= |m| && |h'| == |h| && mem == Overlay(m, base, h + f)
    ensures Overlay(Overlay(mem, at, end), base, h') == Overlay(m, base, h' + (f + end))
  {
    OverlayThrice(m, base, h, f, end, h');
  }

  lemma PayloadIs(j: Job)
    ensures At(j, |j.pieces|) + |END| == j.base + HEADERS + |Payload(j)|
    ensures j.pieces[..|j.pieces|] == j.pieces && At(j, |j.pieces|) == j.base + HEADERS + |Flatten(j.pieces)|
  {
    assert j.pieces[..|j.pieces|] == j.pieces;
  }

  lemma SentPage(j: Job, mem: seq<Byte>, h': seq<Byte>)
    requires Written(j, |j.pieces|, mem) && At(j, |j.pieces|) + |END| <= |mem| && |h'| == HEADERS
    ensures j.base + HEADERS + |Payload(j)| == At(j, |j.pieces|) + |END|
    ensures Overlay(Overlay(mem, At(j, |j.pieces|), END), j.base, h') == Overlay(j.m, j.base, h' + Payload(j))
  {
    PayloadIs(j);
    Resealed(j.m, j.base, j.h, Flatten(j.pieces), END, h', mem, At(j, |j.pieces|));
  }

  lemma SentIs(j: Job, mem: seq<Byte>, h': seq<Byte>)
    requires Written(j, |j.pieces|, mem) && At(j, |j.pieces|) + |END| <= |mem| && |h'| == HEADERS
    ensures var sent := Overlay(Overlay(mem, At(j, |j.pieces|), END), j.base, h');
      sent[j.base..At(j, |j.pieces|) + |END|] == h' + Payload(j)
  {
    SentPage(j, mem, h');
  }

  function Sealed(m: seq<Byte>, at: nat, base: nat, n: nat, sum: (Byte, Byte)): (sent: seq<Byte>)
    requires at + |END| == base + HEADERS + n <= |m|
    ensures |sent| == |m|
  {
    Overlay(Overlay(m, at, END), base, Stamped(m[base..base + HEADERS], n, sum))
  }

  /** The end mark at `at`, lengths for `n` bytes in the headers at the head, and the packet cut to size. */
  method Seal(x: Frame, at: nat, n: nat, sum: (Byte, Byte))
    requires x.Valid() && at + |END| == x.head + HEADERS + n <= x.tail
    modifies x`tail, x.mem
    ensures x.Valid() && x.tail == x.head + HEADERS + n
    ensures x.mem[..] == Sealed(old(x.mem[..]), at, x.head, n, sum)
  {
    var h := Stamped(x.mem[..][x.head..x.head + HEADERS], n, sum);
    Poke(x, at, END);
    Poke(x, x.head, h);
    x.tail := x.head + HEADERS + n;
  }

  lemma SealedIs(j: Job, m: seq<Byte>, at: nat, n: nat, sum: (Byte, Byte), packet: seq<Byte>)
    requires Written(j, |j.pieces|, m) && at == At(j, |j.pieces|) && at + |END| == j.base + HEADERS + n <= |m|
    requires packet == Sealed(m, at, j.base, n, sum)[j.base..j.base + HEADERS + n]
    ensures IsAnswer(j, packet, sum)
  {
    PayloadIs(j);
    HeadersIn(j, m);
    SentIs(j, m, Stamped(j.h, n, sum));
  }

  /** Sealed, the packet is `packet`. */
  method SealAs(x: Frame, at: nat, n: nat, sum: (Byte, Byte), ghost m: seq<Byte>, ghost packet: seq<Byte>)
    requires x.Valid() && at + |END| == x.head + HEADERS + n <= x.tail && m == x.mem[..]
    requires packet == Sealed(m, at, x.head, n, sum)[x.head..x.head + HEADERS + n]
    modifies x`tail, x.mem
    ensures x.Valid() && x.Packet() == packet
  {
    Seal(x, at, n, sum);
  }

  /** The end of bmc_write_reply: the end mark, the headers, and the packet cut to size. */
  method Send(x: Frame, writeOff: nat, written: nat, sum: (Byte, Byte), ghost j: Job) returns (ok: bool)
    requires x.Valid() && x.floor <= j.base && Written(j, |j.pieces|, x.mem[..])
    requires x.head == j.base + HEADERS + writeOff && x.head + written == At(j, |j.pieces|)
      && x.head + written + |END| <= x.tail
    modifies x`head, x`tail, x.mem
    ensures ok && x.Valid() && x.head == j.base && IsAnswer(j, x.Packet(), sum)
  {
    var at, n := x.head + written, writeOff + written + |END|;
    ghost var m := x.mem[..];
    ghost var packet := Sealed(m, at, j.base, n, sum)[j.base..j.base + HEADERS + n];
    SealedIs(j, m, at, n, sum, packet);
    ok := x.AdjustHead(-(HEADERS + writeOff));
    if ok {
      SealAs(x, at, n, sum, m, packet);
    }
  }

  /** The packet has room for the answer, and for the head to be moved to its last piece. */
  predicate RoomFor(j: Job, tail: nat) {
    var n := |j.pieces|;
    At(j, n) + |END| <= tail && (n > 1 ==> At(j, n - 1) + ETH <= tail)
  }

  /** What becomes of the request, decided by the pieces and the room. */
  function Decided(j: Job, tail: nat): Action {
    if Flatten(j.pieces) == [] then Pass else if RoomFor(j, tail) then Tx else Drop
  }

  /** And by the tail calls left: there has to be one from every piece to the next. */
  function Fate(j: Job, tail: nat, calls: nat): Action {
    if |j.pieces| > calls + 1 then Drop else Decided(j, tail)
  }

  lemma Ends(j: Job)
    ensures At(j, 0) == j.base + HEADERS && At(j, |j.pieces|) == j.base + HEADERS + |Flatten(j.pieces)|
  {
    assert j.pieces[..|j.pieces|] == j.pieces;
  }

  lemma AtGrows(j: Job, i: nat, k: nat)
    requires i <= k <= |j.pieces|
    ensures At(j, i) <= At(j, k)
  {
    JoinedGrows(j.pieces, i, k);
  }

  lemma DropIs(j: Job, tail: nat)
    requires |j.pieces| > 1 && At(j, |j.pieces| - 1) + ETH > tail && |Flatten(j.pieces)| > 0
    ensures Decided(j, tail) == Drop
  {
  }

  lemma SomeWritten(j: Job, i: nat)
    requires i <= |j.pieces| && At(j, i) > At(j, 0)
    ensures |Flatten(j.pieces)| > 0
  {
    AtGrows(j, i, |j.pieces|);
    Ends(j);
  }

  lemma NoRoomLater(j: Job, i: nat, tail: nat)
    requires 0 < i < |j.pieces| && At(j, i) + ETH > tail && At(j, 0) + ETH <= tail
    ensures Decided(j, tail) == Drop
  {
    AtGrows(j, i, |j.pieces| - 1);
    SomeWritten(j, i);
    DropIs(j, tail);
  }

  lemma NoRoomAtEnd(j: Job, tail: nat)
    requires At(j, |j.pieces|) > At(j, 0) && At(j, |j.pieces|) + |END| > tail
    ensures Decided(j, tail) == Drop
  {
    Ends(j);
  }

  lemma RoomAtEnd(j: Job, tail: nat)
    requires |j.pieces| > 0 && At(j, |j.pieces|) > At(j, 0) && At(j, |j.pieces|) + |END| <= tail
      && At(j, |j.pieces| - 1) + ETH <= tail
    ensures Decided(j, tail) == Tx
  {
    Ends(j);
  }

  lemma NothingWritten(j: Job, mem: seq<Byte>, tail: nat)
    requires Written(j, |j.pieces|, mem) && At(j, |j.pieces|) == At(j, 0) && j.base + ROOM <= tail <= |mem|
    ensures Decided(j, tail) == Pass && mem[j.base + ROOM..tail] == j.m[j.base + ROOM..tail]
  {
    Ends(j);
    OverlayRest(j.m, j.base, j.h + Flatten(j.pieces[..|j.pieces|]), j.base + ROOM, tail);
  }

  /** A run of bmc_write_reply for a key that is not the last. */
  method AnswerNext(x: Frame, k: Saved, e: Entry, ghost j: Job, ghost i: nat) returns (ok: bool, written: nat)
    requires x.Valid() && EntryOk(e) && |k.key| <= MAX_KEY && i + 1 < |j.pieces| && j.pieces[i] == Copied(e, k)
    requires Written(j, i, x.mem[..]) && x.head == At(j, i) && At(j, 0) + ETH <= x.tail
    modifies x`head, x.mem
    ensures x.Valid()
    ensures ok ==> Written(j, i + 1, x.mem[..])
    ensures ok ==> x.head == At(j, i + 1) == old(x.head) + written && x.head + ETH <= x.tail
    ensures !ok ==> Decided(j, x.tail) == Drop
  {
    written := AnswerOne(x, k, e, j, i);
    ok := x.AdjustHead(written);
    if !ok {
      NoRoomLater(j, i + 1, x.tail);
    }
  }

  /** The end of the last run of bmc_write_reply, after `written` bytes of the last piece. */
  method Conclude(x: Frame, writeOff: nat, written: nat, sum: (Byte, Byte), ghost j: Job) returns (action: Action)
    requires x.Valid() && x.floor <= j.base && j.base + ROOM + ETH <= x.tail && x.head + ETH <= x.tail && |j.pieces| > 0
    requires x.head == At(j, |j.pieces| - 1) == j.base + HEADERS + writeOff
    requires x.head + written <= At(j, |j.pieces|) && x.head + written <= x.tail && |j.m| == x.mem.Length
    requires if x.head + written < At(j, |j.pieces|) then x.head + written == x.tail
      else Written(j, |j.pieces|, x.mem[..])
    modifies x`head, x`tail, x.mem
    ensures x.Valid() && action == Decided(j, old(x.tail))
    ensures action == Tx ==> x.head == j.base && IsAnswer(j, x.Packet(), sum)
    ensures action == Pass ==>
      x.head == j.base + ROOM && x.tail == old(x.tail) && x.Packet() == j.m[j.base + ROOM..x.tail]
  {
    Ends(j);
    if writeOff > 0 || written > 0 {
      if x.head + written + |END| <= x.tail {
        RoomAtEnd(j, x.tail);
        var ok := Send(x, writeOff, written, sum, j);
        action := if ok then Tx else Drop;
      } else {
        NoRoomAtEnd(j, x.tail);
        action := Drop;
      }
    } else {
      NothingWritten(j, x.mem[..], x.tail);
      var _ := x.AdjustHead(ROOM - HEADERS);
      action := Pass;
    }
  }

  /** The tail calls of bmc_write_reply: what is sent is the whole pieces in the order of the keys and
      the end mark; what is passed on is the request as it came. */
  method Reply(x: Frame, keys: seq<Saved>, entries: seq<Entry>, sum: (Byte, Byte), calls: nat, ghost j: Job)
    returns (action: Action)
    requires x.Valid() && x.floor <= j.base && x.head == At(j, 0) && j.base + ROOM + ETH <= x.tail
    requires 0 < |keys| == |entries| <= MAX_KEYS && Fit(keys) && EntriesOk(entries)
      && ArePieces(j.pieces, keys, entries)
    requires Written(j, 0, x.mem[..])
    modifies x`head, x`tail, x.mem
    ensures x.Valid() && action == Fate(j, old(x.tail), calls)
    ensures action == Tx ==> x.head == j.base && IsAnswer(j, x.Packet(), sum)
    ensures action == Pass ==>
      x.head == j.base + ROOM && x.tail == old(x.tail) && x.Packet() == j.m[j.base + ROOM..x.tail]
  {
    Ends(j);
    var ok, writeOff := ReplyButLast(x, keys, entries, calls, j);
    if !ok {
      return Drop;
    }
    action := AnswerLast(x, keys[|keys| - 1], entries[|keys| - 1], writeOff, sum, j);
  }

  /** The last run of bmc_write_reply. */
  method AnswerLast(x: Frame, k: Saved, e: Entry, writeOff: nat, sum: (Byte, Byte), ghost j: Job)
    returns (action: Action)
    requires x.Valid() && x.floor <= j.base && j.base + ROOM + ETH <= x.tail && x.head + ETH <= x.tail
    requires EntryOk(e) && |k.key| <= MAX_KEY && |j.pieces| > 0 && j.pieces[|j.pieces| - 1] == Copied(e, k)
    requires Written(j, |j.pieces| - 1, x.mem[..]) && x.head == At(j, |j.pieces| - 1) == j.base + HEADERS + writeOff
    modifies x`head, x`tail, x.mem
    ensures x.Valid() && action == Decided(j, old(x.tail)) && |j.m| == x.mem.Length
    ensures action == Tx ==> x.head == j.base && IsAnswer(j, x.Packet(), sum)
    ensures action == Pass ==>
      x.head == j.base + ROOM && x.tail == old(x.tail) && x.Packet() == j.m[j.base + ROOM..x.tail]
  {
    var written := AnswerOne(x, k, e, j, |j.pieces| - 1);
    action := Conclude(x, writeOff, written, sum, j);
  }

  /** All runs of bmc_write_reply but the last, as far as there are tail calls. */
  method ReplyButLast(x: Frame, keys: seq<Saved>, entries: seq<Entry>, calls: nat, ghost j: Job)
    returns (ok: bool, writeOff: nat)
    requires x.Valid() && x.head == At(j, 0) && At(j, 0) + ETH <= x.tail
    requires 0 < |keys| == |entries| && Fit(keys) && EntriesOk(entries) && ArePieces(j.pieces, keys, entries)
    requires Written(j, 0, x.mem[..])
    modifies x`head, x.mem
    ensures x.Valid()
    ensures ok ==> Written(j, |keys| - 1, x.mem[..]) && |keys| <= calls + 1
    ensures ok ==> x.head == At(j, |keys| - 1) == At(j, 0) + writeOff && x.head + ETH <= x.tail
    ensures !ok ==> Fate(j, x.tail, calls) == Drop
  {
    ok, writeOff := true, 0;
    var i, left := 0, calls;
    while i < |keys| - 1
      invariant x.Valid() && 0 <= i < |keys| && x.head + ETH <= x.tail && ok && 0 <= left && i + left == calls
      invariant Written(j, i, x.mem[..]) && x.head == At(j, i) == At(j, 0) + writeOff
    {
      var written;
      ok, written := AnswerNext(x, keys[i], entries[i], j, i);
      if !ok || left == 0 {
        return false, writeOff;
      }
      i, left, writeOff := i + 1, left - 1, writeOff + written;
    }
  }

  // ---- a GET from end to end ----

  const GET_AT := 4

  /** The space loop of bmc_rx_filter: where the first key begins in the payload. */
  method SkipSpaces(payload: seq<Byte>) returns (off: nat)
    ensures off == FirstKey(payload, GET_AT)
  {
    off := GET_AT;
    while off < MAX_PACKET && off + 1 <= |payload| && payload[off] == SPACE
      invariant FirstKey(payload, GET_AT) == FirstKey(payload, off)
      decreases |payload| - off
    {
      off := off + 1;
    }
  }

  function FirstKey(payload: seq<Byte>, off: nat): (r: nat)
    ensures r >= off
    decreases |payload| - off
  {
    if off < MAX_PACKET && off < |payload| && payload[off] == SPACE then FirstKey(payload, off + 1) else off
  }

  /** Where in the packet the keys begin, if the packet gets as far as the key programs. */
  function KeysAt(packet: seq<Byte>): Option<nat>
    requires HEADERS <= |packet|
  {
    var off := FirstKey(packet[HEADERS..], GET_AT);
    if off < MAX_PACKET && HEADERS + off + ETH <= |packet| then Some(HEADERS + off) else None
  }

  /** The packet is the one that came, after the walk over its keys, if it was walked to its stop. */
  predicate Intact(packet: seq<Byte>, look: seq<Option<Word>>, calls: nat)
    requires HEADERS <= |packet|
  {
    KeysAt(packet).None? || Walkable(packet[KeysAt(packet).value..], look, calls)
  }

  /** Its walk leads to keys to be answered. */
  predicate Asked(packet: seq<Byte>, look: seq<Option<Word>>, calls: nat)
    requires HEADERS <= |packet|
  {
    KeysAt(packet).Some? && Intact(packet, look, calls) && Asks(packet[KeysAt(packet).value..], look)
  }

  /** The tail calls left when it has been walked. */
  function Left(packet: seq<Byte>, calls: nat): nat
    requires HEADERS <= |packet| && KeysAt(packet).Some?
  {
    CallsLeft(packet[KeysAt(packet).value..], calls)
  }

  /** Passed on, the packet is the one that came: its walk did not strand, and the tail call to
      bmc_prepare_packet, which puts the headers of an answer in front if it has the room, was not the last. */
  predicate Kept(packet: seq<Byte>, look: seq<Option<Word>>, calls: nat, roomy: bool)
    requires HEADERS <= |packet|
  {
    Intact(packet, look, calls) && !(Asked(packet, look, calls) && Left(packet, calls) == 1 && roomy)
  }

  /** The packet gets as far as bmc_write_reply. */
  predicate Replied(packet: seq<Byte>, look: seq<Option<Word>>, calls: nat, roomy: bool)
    requires HEADERS <= |packet|
  {
    Asked(packet, look, calls) && Left(packet, calls) >= 2 && roomy
  }

  /** The answer to the packet: the keys' pieces behind the packet's headers, turned around. */
  function AnswerTo(m: seq<Byte>, head: nat, keys: seq<Saved>, entries: seq<Entry>): Job
    requires |keys| == |entries| && Fit(keys) && EntriesOk(entries) && ROOM <= head && head + HEADERS <= |m|
  {
    Job(m, head - ROOM, Swapped(m[head..head + HEADERS]), Answers(keys, entries))
  }

  lemma StartOf(m: seq<Byte>, base: nat, h: seq<Byte>, pieces: seq<seq<Byte>>)
    requires |h| == HEADERS && base + HEADERS <= |m|
    ensures var j := Job(m, base, h, pieces); Written(j, 0, Overlay(m, base, h)) && At(j, 0) == base + HEADERS
  {
    assert h + Flatten(pieces[..0]) == h;
  }

  /** The programs after bmc_prepare_packet. */
  method AnswerPrepared(x: Frame, keys: seq<Saved>, entries: seq<Entry>, sum: (Byte, Byte), calls: nat, ghost j: Job)
    returns (action: Action)
    requires x.Valid() && x.floor <= j.base && x.head == j.base + HEADERS && j.base + ROOM + ETH <= x.tail
    requires 0 < |keys| == |entries| <= MAX_KEYS && Fit(keys) && EntriesOk(entries)
    requires |j.h| == HEADERS && j.base + HEADERS <= |j.m| && j.pieces == Answers(keys, entries)
    requires x.mem[..] == Overlay(j.m, j.base, j.h)
    modifies x`head, x`tail, x.mem
    ensures x.Valid() && action == Fate(j, old(x.tail), calls)
    ensures action == Tx ==> IsAnswer(j, x.Packet(), sum)
    ensures action == Pass ==>
      x.head == j.base + ROOM && x.tail == old(x.tail) && x.Packet() == j.m[j.base + ROOM..x.tail]
  {
    StartOf(j.m, j.base, j.h, j.pieces);
    action := Reply(x, keys, entries, sum, calls, j);
  }

  /** bmc_prepare_packet and the programs after it, for a packet with saved keys. */
  method Answer(x: Frame, keys: seq<Saved>, entries: seq<Entry>, sum: (Byte, Byte), calls: nat)
    returns (action: Action)
    requires x.Valid() && x.head + HEADERS + ETH <= x.tail
    requires 0 < |keys| == |entries| <= MAX_KEYS && Fit(keys) && EntriesOk(entries)
    modifies x`head, x`tail, x.mem
    ensures x.Valid()
    ensures calls < 2 || x.floor + ROOM > old(x.head) ==> action == Pass
    ensures calls >= 2 && x.floor + ROOM <= old(x.head) ==>
      action == Fate(AnswerTo(old(x.mem[..]), old(x.head), keys, entries), old(x.tail), calls - 2)
    ensures action == Pass ==>
      (x.Packet() == old(x.Packet()) <==> calls != 1 || x.floor + ROOM > old(x.head))
    ensures action == Tx ==>
      old(x.head) >= ROOM && IsAnswer(AnswerTo(old(x.mem[..]), old(x.head), keys, entries), x.Packet(), sum)
  {
    ghost var m, head, p := x.mem[..], x.head, x.Packet();
    if calls == 0 {
      return Pass;
    }
    var ok := Prepare(x);
    if !ok {
      return Pass;
    }
    if calls == 1 {
      assert |x.Packet()| > |p|;
      return Pass;
    }
    action := AnswerPrepared(x, keys, entries, sum, calls - 2, AnswerTo(m, head, keys, entries));
  }

  /** The keys of a GET are found in the packet and looked up: `answer` says that there is something to
      answer from, and then the head is back at the packet. */
  method Find(x: Frame, look: seq<Option<Word>>, calls: nat) returns (answer: bool, keys: seq<Saved>, left: nat)
    requires x.Valid() && x.head + HEADERS + GET_AT <= x.tail
    modifies x`head
    ensures x.Valid() && (x.head == old(x.head) <==> Intact(old(x.Packet()), look, calls))
    ensures answer <==> Asked(old(x.Packet()), look, calls)
    ensures answer ==> x.head == old(x.head) && left == Left(old(x.Packet()), calls)
    ensures answer ==> 0 < |keys| <= MAX_KEYS && Fit(keys)
    ensures answer ==> keys == Likely(old(x.Packet())[KeysAt(old(x.Packet())).value..], 0, 0, look)
  {
    answer, keys, left := false, [], 0;
    ghost var p := x.Packet();
    var base := x.head;
    var off := SkipSpaces(x.Packet()[HEADERS..]);
    if off < MAX_PACKET {
      var ok := x.AdjustHead(HEADERS + off);
      if ok && calls > 0 {
        assert x.Packet() == p[HEADERS + off..];
        var action;
        action, keys, left := HashKeys(x, base, off, look, calls);
        answer := action == TailCall;
      }
    }
  }

  /** A GET from end to end, when the kernel allows it `calls` tail calls. What becomes of it is decided by its
      words, the slots and the room; a packet that is passed on is the one that came in exactly if the walk over
      its keys does not strand and does not end one call short of an answer; a packet that is sent answers it. */
  method Get(x: Frame, look: seq<Option<Word>>, entries: seq<Entry>, sum: (Byte, Byte), calls: nat)
    returns (action: Action, keys: seq<Saved>)
    requires x.Valid() && x.head + HEADERS + GET_AT <= x.tail && |entries| == MAX_KEYS && EntriesOk(entries)
    modifies x`head, x`tail, x.mem
    ensures x.Valid()
    ensures action == Pass ==>
      (x.Packet() == old(x.Packet()) <==> Kept(old(x.Packet()), look, calls, x.floor + ROOM <= old(x.head)))
    ensures !Replied(old(x.Packet()), look, calls, x.floor + ROOM <= old(x.head)) ==> action == Pass
    ensures var p := old(x.Packet());
      Replied(p, look, calls, x.floor + ROOM <= old(x.head)) ==>
      && |keys| <= MAX_KEYS && Fit(keys) && keys == Likely(p[KeysAt(p).value..], 0, 0, look)
      && action == Fate(AnswerTo(old(x.mem[..]), old(x.head), keys, entries[..|keys|]), old(x.tail), Left(p, calls) - 2)
    ensures action == Tx ==>
      && old(x.head) >= ROOM && |keys| <= MAX_KEYS && Fit(keys)
      && IsAnswer(AnswerTo(old(x.mem[..]), old(x.head), keys, entries[..|keys|]), x.Packet(), sum)
    ensures action == Tx ==> 2 * |keys| < calls
  {
    var answer, left;
    ghost var p := x.Packet();
    answer, keys, left := Find(x, look, calls);
    if answer {
      KeysAreWords(p[KeysAt(p).value..], 0, 0, look);
      action := Answer(x, keys, entries[..|keys|], sum, left);
    } else {
      action := Pass;
    }
  }

  // ---- what the client sees ----

  lemma StampedAt(j: Job, packet: seq<Byte>, sum: (Byte, Byte), i: nat)
    requires IsAnswer(j, packet, sum) && i < HEADERS
    ensures packet[i] == Stamp(j.h[i], i, |Payload(j)|, sum) && |packet| == HEADERS + |Payload(j)|
  {
  }

  /** The two-byte number at `at`. */
  function Field(packet: seq<Byte>, at: nat): nat
    requires at + 1 < |packet|
  {
    Number(packet[at] as nat, packet[at + 1] as nat)
  }

  lemma FieldIs(packet: seq<Byte>, at: nat, n: nat)
    requires at + 1 < |packet| && n < 0x10000 && packet[at] == High(n) as Byte && packet[at + 1] == Low(n) as Byte
    ensures Field(packet, at) == n
  {
    OctetReadsBack(High(n));
    OctetReadsBack(Low(n));
    NumberIs(n);
  }

  lemma IpLength(j: Job, packet: seq<Byte>, sum: (Byte, Byte))
    requires IsAnswer(j, packet, sum) && |packet| <= PAGE
    ensures Field(packet, 16) == HEADERS - ETH + |Payload(j)|
  {
    StampedAt(j, packet, sum, 16);
    StampedAt(j, packet, sum, 17);
    FieldIs(packet, 16, HEADERS - ETH + |Payload(j)|);
  }

  lemma UdpLength(j: Job, packet: seq<Byte>, sum: (Byte, Byte))
    requires IsAnswer(j, packet, sum) && |packet| <= PAGE
    ensures Field(packet, 38) == 16 + |Payload(j)|
  {
    StampedAt(j, packet, sum, 38);
    StampedAt(j, packet, sum, 39);
    FieldIs(packet, 38, 16 + |Payload(j)|);
  }

  /** The lengths in the headers of an answer are those of the packet. */
  lemma LengthsMatch(j: Job, packet: seq<Byte>, sum: (Byte, Byte))
    requires IsAnswer(j, packet, sum) && |packet| <= PAGE
    ensures Field(packet, 16) == |packet| - ETH
    ensures Field(packet, 38) == |packet| - ETH - 20
  {
    StampedAt(j, packet, sum, 16);
    IpLength(j, packet, sum);
    UdpLength(j, packet, sum);
  }

  /** An answer goes back where the request came from. */
  lemma AnswerGoesBack(j: Job, request: seq<Byte>, packet: seq<Byte>, sum: (Byte, Byte))
    requires |request| >= HEADERS && j.h == Swapped(request[..HEADERS]) && IsAnswer(j, packet, sum)
    ensures packet[0..6] == request[6..12] && packet[6..12] == request[0..6]
    ensures packet[26..30] == request[30..34] && packet[30..34] == request[26..30]
    ensures packet[34..36] == request[36..38] && packet[36..38] == request[34..36]
    ensures packet[42..50] == request[42..50]
  {
    var h := Stamped(j.h, |Payload(j)|, sum);
    assert packet[..HEADERS] == h;
    assert forall i :: 0 <= i < HEADERS ==> packet[i] == h[i] == Stamp(request[Partner(i)], i, |Payload(j)|, sum);
  }

  /** "aaaaaaaaaaaaaaaa b", with its line end. */
  function ShortKeys(): seq<Byte> {
    seq(16, _ => 97) + [SPACE, 98, CR, LF]
  }

  lemma ShortKeysStop()
    ensures Stop(ShortKeys(), 0) == Some(17) && |ShortKeys()| == 20
  {
    var s := ShortKeys();
    SpanIs(s, 0, MAX_KEY + 1, true, 16);
    SpanIs(s, 17, MAX_KEY + 1, true, 1);
    assert Stop(s, 17) == Some(17);
  }

  /** A request for these keys behind headers `h`. */
  function Request(h: seq<Byte>, keys: seq<Byte>): seq<Byte> {
    h + ([103, 101, 116, SPACE] + keys)
  }

  lemma Split(h: seq<Byte>, get: seq<Byte>, keys: seq<Byte>)
    requires |h| == HEADERS && |get| == GET_AT
    ensures (h + (get + keys))[HEADERS..] == get + keys && (h + (get + keys))[HEADERS + GET_AT..] == keys
  {}

  lemma KeysAtOnce(packet: seq<Byte>)
    requires HEADERS + GET_AT + ETH <= |packet| && packet[HEADERS + GET_AT] != SPACE
    ensures KeysAt(packet) == Some(HEADERS + GET_AT)
  {
    assert packet[HEADERS..][GET_AT] == packet[HEADERS + GET_AT];
  }

  lemma RequestKeys(h: seq<Byte>, keys: seq<Byte>)
    requires |h| == HEADERS && |keys| >= ETH && keys[0] != SPACE
    ensures |Request(h, keys)| == HEADERS + GET_AT + |keys|
    ensures KeysAt(Request(h, keys)) == Some(HEADERS + GET_AT) && Request(h, keys)[HEADERS + GET_AT..] == keys
  {
    Split(h, [103, 101, 116, SPACE], keys);
    assert Request(h, keys)[HEADERS + GET_AT..][0] == keys[0];
    KeysAtOnce(Request(h, keys));
  }

  /** A request whose keys strand is passed on as something else. */
  method StrandedIsLost(x: Frame, ghost h: seq<Byte>, ghost s: seq<Byte>, look: seq<Option<Word>>, entries: seq<Entry>,
      sum: (Byte, Byte), calls: nat) returns (action: Action)
    requires x.Valid() && |h| == HEADERS && |s| >= ETH && s[0] != SPACE && x.Packet() == Request(h, s)
    requires |entries| == MAX_KEYS && EntriesOk(entries) && !Walkable(s, look, calls)
    modifies x`head, x`tail, x.mem
    ensures x.Valid() && action == Pass && x.Packet() != Request(h, s)
  {
    RequestKeys(h, s);
    var keys;
    action, keys := Get(x, look, entries, sum, calls);
  }

  /** So a request whose second key is too close to the end of the packet is lost, whatever the slots hold. */
  method ShortRequestIsLost(
    x: Frame, ghost h: seq<Byte>, look: seq<Option<Word>>, entries: seq<Entry>, sum: (Byte, Byte), calls: nat)
    returns (action: Action)
    requires x.Valid() && |h| == HEADERS && x.Packet() == Request(h, ShortKeys())
    requires |entries| == MAX_KEYS && EntriesOk(entries)
    modifies x`head, x`tail, x.mem
    ensures x.Valid() && action == Pass && x.Packet() != Request(h, ShortKeys())
  {
    ShortKeysStop();
    action := StrandedIsLost(x, h, ShortKeys(), look, entries, sum, calls);
  }

  // ---- and one that is answered ----

  lemma OneKey(s: seq<Byte>, look: seq<Option<Word>>, calls: nat)
    requires |s| >= ETH && Last(s, 0) && !Bad(Len(s, 0)) && Seen(look, 0) == Some(KeyAt(s, 0).hash) && calls > 0
    ensures Walkable(s, look, calls) && Asks(s, look) && Likely(s, 0, 0, look) == [KeyAt(s, 0)]
      && CallsLeft(s, calls) == calls - 1
  {}

  lemma OnePiece(j: Job, piece: seq<Byte>)
    requires j.pieces == [piece]
    ensures Flatten(j.pieces) == piece && At(j, 1) == j.base + HEADERS + |piece|
  {
    assert j.pieces[..0] == [] && j.pieces[..1] == j.pieces;
    assert [] + piece == piece;
  }

  /** The answer to a request for one key, whose slot holds a reply for it. */
  lemma HitFate(j: Job, e: Entry, k: Saved, tail: nat, calls: nat)
    requires EntryOk(e) && |k.key| <= MAX_KEY && Hit(e, k) && e.len > 0 && j.pieces == [Copied(e, k)]
    requires j.base + HEADERS + e.len + |END| <= tail
    ensures Fate(j, tail, calls) == Tx && Payload(j) == e.data[..e.len] + END
  {
    OnePiece(j, Copied(e, k));
  }

  /** A request for one key that is cached is answered with what is cached, if there is room for it and the
      kernel allows three tail calls. */
  method HitIsAnswered(x: Frame, ghost h: seq<Byte>, ghost s: seq<Byte>, look: seq<Option<Word>>, entries: seq<Entry>,
      sum: (Byte, Byte), calls: nat) returns (action: Action)
    requires x.Valid() && |h| == HEADERS && |s| >= ETH && s[0] != SPACE && x.Packet() == Request(h, s)
    requires |entries| == MAX_KEYS && EntriesOk(entries) && entries[0].len > 0
    requires Last(s, 0) && !Bad(Len(s, 0)) && Seen(look, 0) == Some(KeyAt(s, 0).hash) && Hit(entries[0], KeyAt(s, 0))
    requires x.floor + ROOM <= x.head && calls >= 3
    requires x.head - ROOM + HEADERS + entries[0].len + |END| <= x.tail
    modifies x`head, x`tail, x.mem
    ensures x.Valid() && action == Tx && |x.Packet()| > HEADERS
    ensures x.Packet()[HEADERS..] == entries[0].data[..entries[0].len] + END
  {
    RequestKeys(h, s);
    OneKey(s, look, calls);
    ghost var m, head, tail, k := x.mem[..], x.head, x.tail, KeyAt(s, 0);
    var keys;
    action, keys := Get(x, look, entries, sum, calls);
    ghost var j := AnswerTo(m, head, keys, entries[..|keys|]);
    assert j.pieces == [Copied(entries[0], k)];
    HitFate(j, entries[0], k, tail, calls - 3);
  }

  /** `n` words "a", then one of fourteen letters and the line end. */
  function Crowd(n: nat): seq<Byte> {
    seq(2 * n + 16, i requires 0 <= i => if i < 2 * n then if i % 2 == 0 then 97 else SPACE
      else if i < 2 * n + 14 then 97 else if i == 2 * n + 14 then CR else LF)
  }

  lemma CrowdWord(n: nat, k: nat)
    requires k <= n
    ensures Len(Crowd(n), 2 * k) == (if k < n then 1 else 14) && (Last(Crowd(n), 2 * k) <==> k == n)
  {
    SpanIs(Crowd(n), 2 * k, MAX_KEY + 1, true, if k < n then 1 else 14);
  }

  /** From the i-th word, at `r`, it is `before` words without a hit to the stop. */
  predicate Ahead(s: seq<Byte>, r: nat, i: nat, before: nat, stop: nat) {
    Stop(s, r) == Some(stop) && Before(s, r) == before && Early(s, r, i, []) == 0
  }

  lemma OneLetter(s: seq<Byte>, r: nat, i: nat, before: nat, stop: nat)
    requires r < |s| && Len(s, r) == 1 && !Last(s, r) && Ahead(s, r + 2, i + 1, before, stop)
    ensures Ahead(s, r, i, before + 1, stop)
  {}

  lemma LastLetters(s: seq<Byte>, r: nat, i: nat)
    requires r < |s| && Len(s, r) == 14 && Last(s, r)
    ensures Ahead(s, r, i, 0, r)
  {}

  lemma {:induction false} CrowdWalk(n: nat, k: nat)
    requires k <= n
    ensures Ahead(Crowd(n), 2 * k, k, n - k, 2 * n)
    decreases n - k
  {
    CrowdWord(n, k);
    if k < n {
      CrowdWalk(n, k + 1);
      OneLetter(Crowd(n), 2 * k, k, n - k - 1, 2 * n);
    } else {
      LastLetters(Crowd(n), 2 * k, k);
    }
  }

  /** A walk over `n` words and a last one is allowed exactly if there are more than `n` tail calls. */
  lemma CrowdIsWalked(n: nat, calls: nat)
    ensures Walkable(Crowd(n), [], calls) <==> n < calls
  {
    CrowdWalk(n, 0);
  }

  /** With more words than tail calls, a request is lost, whatever the slots hold. */
  method CrowdIsLost(x: Frame, n: nat, ghost h: seq<Byte>, look: seq<Option<Word>>, entries: seq<Entry>,
      sum: (Byte, Byte), calls: nat) returns (action: Action)
    requires x.Valid() && |h| == HEADERS && x.Packet() == Request(h, Crowd(n)) && n >= calls
    requires |entries| == MAX_KEYS && EntriesOk(entries)
    modifies x`head, x`tail, x.mem
    ensures x.Valid() && action == Pass && x.Packet() != Request(h, Crowd(n))
  {
    CrowdWalk(n, 0);
    action := StrandedIsLost(x, h, Crowd(n), look, entries, sum, calls);
  }
}
