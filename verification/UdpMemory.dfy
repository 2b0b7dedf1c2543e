/** The iov and message lists of a connection, grown in place. Allocation succeeds. */
module UdpMemory {
  import opened Sequences
  import opened Udp

  /** msg_iov and msg_iovlen: an array, a place in it, and a number of entries. */
  datatype Msg = Msg(base: array?<Iov>, start: nat, iovlen: nat)

  /** The message headers describe the messages: each begins where the ones before it end, in the
      current list. */
  ghost predicate Describes(headers: seq<Msg>, msgs: seq<seq<Iov>>, iov: array<Iov>)
    decreases |msgs|
  {
    var n := |msgs| - 1;
    |headers| == |msgs| && (n >= 0 ==>
      headers[n] == Msg(iov, |Flatten(msgs[..n])|, |msgs[n]|) && Describes(headers[..n], msgs[..n], iov))
  }

  lemma DescribesPushed(headers: seq<Msg>, msgs: seq<seq<Iov>>, iov: array<Iov>, v: Iov)
    requires |msgs| > 0 && Describes(headers, msgs, iov)
    ensures var n := |msgs| - 1; Describes(headers[n := headers[n].(iovlen := headers[n].iovlen + 1)], Pushed(msgs, v),
      iov)
  {
    var n, more := |msgs| - 1, Pushed(msgs, v);
    assert more[..n] == msgs[..n] && headers[n := headers[n].(iovlen := headers[n].iovlen + 1)][..n] == headers[..n];
  }

  /** The last message ends where the list does. */
  lemma EndOfLast(headers: seq<Msg>, msgs: seq<seq<Iov>>, iov: array<Iov>)
    requires |msgs| > 0 && Describes(headers, msgs, iov)
    ensures headers[|msgs| - 1].start + headers[|msgs| - 1].iovlen == |Flatten(msgs)|
  {
    FlatSplit(msgs, |msgs| - 1);
    assert msgs[..|msgs|] == msgs;
  }

  lemma {:induction false} Lengths(headers: seq<Msg>, msgs: seq<seq<Iov>>, iov: array<Iov>)
    requires Describes(headers, msgs, iov)
    ensures forall k {:trigger headers[k]} :: 0 <= k < |msgs| ==> headers[k].iovlen == |msgs[k]|
    decreases |msgs|
  {
    var n := |msgs| - 1;
    if n >= 0 {
      Lengths(headers[..n], msgs[..n], iov);
      assert forall k :: 0 <= k < n ==> headers[..n][k] == headers[k] && msgs[..n][k] == msgs[k];
    }
  }

  lemma {:induction false} Starts(headers: seq<Msg>, msgs: seq<seq<Iov>>, iov: array<Iov>, i: nat)
    requires Describes(headers, msgs, iov) && i < |msgs|
    ensures headers[i] == Msg(iov, |Flatten(msgs[..i])|, |msgs[i]|)
    decreases |msgs|
  {
    var n := |msgs| - 1;
    if i < n {
      Starts(headers[..n], msgs[..n], iov, i);
      assert msgs[..n][..i] == msgs[..i];
    }
  }

  lemma PushedEntry(msgs: seq<seq<Iov>>, v: Iov)
    requires |msgs| > 0
    ensures var n := |msgs| - 1;
      Flatten(Pushed(msgs, v)) == Flatten(msgs) + [v] && Size(Pushed(msgs, v)[n]) == Size(msgs[n]) + Size1(v)
  {
    PushedIs(msgs, v);
    EntryMore(msgs[|msgs| - 1], v);
  }

  /** The entries, the headers and the size of the last message are those of the messages. */
  ghost predicate Holds(entries: seq<Iov>, headers: seq<Msg>, bytes: nat, msgs: seq<seq<Iov>>, iov: array<Iov>) {
    entries == Flatten(msgs) && Describes(headers, msgs, iov) && (|msgs| > 0 ==> bytes == Size(msgs[|msgs| - 1]))
  }

  lemma HoldsPushed(
    entries: seq<Iov>, headers: seq<Msg>, bytes: nat, msgs: seq<seq<Iov>>, iov: array<Iov>, v: Iov,
    entries': seq<Iov>, headers': seq<Msg>, msgs': seq<seq<Iov>>)
    requires |msgs| > 0 && Holds(entries, headers, bytes, msgs, iov)
    requires entries' == entries + [v] && msgs' == Pushed(msgs, v)
    requires var n := |msgs| - 1; headers' == headers[n := headers[n].(iovlen := headers[n].iovlen + 1)]
    ensures Holds(entries', headers', bytes + Size1(v), msgs', iov)
  {
    PushedEntry(msgs, v);
    DescribesPushed(headers, msgs, iov, v);
  }

  lemma DescribesOpened(headers: seq<Msg>, msgs: seq<seq<Iov>>, iov: array<Iov>)
    requires Describes(headers, msgs, iov)
    ensures Describes(headers + [Msg(iov, |Flatten(msgs)|, 0)], msgs + [[]], iov)
  {
    assert (msgs + [[]])[..|msgs|] == msgs && (headers + [Msg(iov, |Flatten(msgs)|, 0)])[..|msgs|] == headers;
  }

  lemma OpenedGood(msgs: seq<seq<Iov>>)
    requires AllGood(msgs)
    ensures AllGood(Opened(msgs)) && Size(Opened(msgs)[|msgs|]) == HEADER
  {
    OpenedKeeps(msgs);
    assert [Head][..0] == [];
  }

  lemma PushedEmpty(msgs: seq<seq<Iov>>)
    ensures Pushed(msgs + [[]], Head) == Opened(msgs)
  {
    var empty: seq<Iov> := [];
    assert empty + [Head] == [Head];
    assert (msgs + [empty])[..|msgs|] == msgs;
  }

  class Conn {
    var iov: array<Iov>
    var iovused: nat
    var msglist: array<Msg>
    var msgused: nat
    var msgbytes: nat
    ghost var msgs: seq<seq<Iov>>

    /** The lists hold the messages. */
    ghost predicate Wired()
      reads this, iov, msglist
    {
      && 0 < iov.Length && iovused <= iov.Length && 0 < msglist.Length && msgused <= msglist.Length
      && Holds(iov[..iovused], msglist[..msgused], msgbytes, msgs, iov)
    }

    ghost predicate Valid()
      reads this, iov, msglist
    {
      Wired() && AllGood(msgs)
    }

    constructor (iovsize: nat, msgsize: nat)
      requires iovsize > 0 && msgsize > 0
      ensures Valid() && msgs == [] && fresh(iov) && fresh(msglist)
    {
      iov := new Iov[iovsize];
      msglist := new Msg[msgsize];
      iovused, msgused, msgbytes, msgs := 0, 0, 0, [];
    }

    /** The loop of ensure_iov_space: every message header is pointed at the new list. */
    method Repoint()
      requires msgused <= msglist.Length && msgused == |msgs|
      requires forall k {:trigger msglist[k]} :: 0 <= k < msgused ==> msglist[k].iovlen == |msgs[k]|
      modifies msglist
      ensures Describes(msglist[..msgused], msgs, iov)
    {
      var i, iovnum := 0, 0;
      while i < msgused
        invariant 0 <= i <= msgused && iovnum == |Flatten(msgs[..i])| && Describes(msglist[..i], msgs[..i], iov)
        invariant forall k {:trigger msglist[k]} :: i <= k < msgused ==> msglist[k].iovlen == |msgs[k]|
      {
        ghost var before := msglist[..i];
        msglist[i] := msglist[i].(base := iov, start := iovnum);
        FlatSplit(msgs, i);
        assert msglist[..i + 1][..i] == before && msgs[..i + 1][..i] == msgs[..i];
        iovnum := iovnum + msglist[i].iovlen;
        i := i + 1;
      }
      assert msgs[..i] == msgs;
    }

    /** ensure_iov_space: a longer list if need be. */
    method EnsureIovSpace()
      requires Wired()
      modifies this`iov, msglist
      ensures Wired() && iovused < iov.Length && (iov == old(iov) || fresh(iov))
    {
      if iovused >= iov.Length {
        var was := iov[..];
        var more := new Iov[iov.Length * 2](i => if 0 <= i < |was| then was[i] else Head);
        assert more[..iovused] == was[..iovused];
        Lengths(msglist[..msgused], msgs, iov);
        iov := more;
        Repoint();
      }
    }

    /** The array writes for an entry more: it goes where the last message ends. */
    method Store(v: Iov)
      requires 0 < msgused <= msglist.Length && iovused < iov.Length
      requires msglist[msgused - 1].start + msglist[msgused - 1].iovlen == iovused
      modifies iov, msglist
      ensures iov[..iovused + 1] == old(iov[..iovused]) + [v]
      ensures var n := msgused - 1; var m := old(msglist[n]);
        msglist[..msgused] == old(msglist[..msgused])[n := m.(iovlen := m.iovlen + 1)]
    {
      var m := msglist[msgused - 1];
      iov[m.start + m.iovlen] := v;
      msglist[msgused - 1] := m.(iovlen := m.iovlen + 1);
    }

    /** An entry more in the last message. */
    method Put(v: Iov)
      requires Wired() && msgused > 0 && iovused < iov.Length
      modifies this`iovused, this`msgbytes, this`msgs, iov, msglist
      ensures Wired() && msgs == Pushed(old(msgs), v)
    {
      ghost var headers, entries, was := msglist[..msgused], iov[..iovused], msgs;
      EndOfLast(headers, msgs, iov);
      assert headers[msgused - 1] == msglist[msgused - 1];
      Store(v);
      ghost var bytes := msgbytes;
      msgbytes := msgbytes + Size1(v);
      iovused := iovused + 1;
      msgs := Pushed(msgs, v);
      HoldsPushed(entries, headers, bytes, was, iov, v, iov[..iovused], msglist[..msgused], msgs);
    }

    method GrowMsglist()
      requires Wired()
      modifies this`msglist
      ensures Wired() && msgused < msglist.Length && (msglist == old(msglist) || fresh(msglist))
    {
      if msglist.Length == msgused {
        var was := msglist[..];
        var more := new Msg[msglist.Length * 2](i => if 0 <= i < |was| then was[i] else Msg(null, 0, 0));
        assert more[..msgused] == was[..msgused];
        msglist := more;
      }
    }

    /** add_msghdr: a new message, with room for its header. */
    method AddMsghdr()
      requires Valid()
      modifies this, iov, msglist
      ensures Valid() && msgused > 0 && msgbytes == HEADER && msgs == Opened(old(msgs))
      ensures (iov == old(iov) || fresh(iov)) && (msglist == old(msglist) || fresh(msglist))
    {
      GrowMsglist();
      OpenEmpty();
      EnsureIovSpace();
      OpenedGood(old(msgs));
      PushedEmpty(old(msgs));
      Put(Head);
    }

    method OpenEmpty()
      requires Wired() && msgused < msglist.Length
      modifies this`msgused, this`msgbytes, this`msgs, msglist
      ensures Wired() && msgs == old(msgs) + [[]]
    {
      ghost var headers := msglist[..msgused];
      DescribesOpened(headers, msgs, iov);
      FlattenLast(msgs, []);
      msglist[msgused] := Msg(iov, iovused, 0);
      msgbytes := 0;
      msgused := msgused + 1;
      msgs := msgs + [[]];
      assert msglist[..msgused] == headers + [Msg(iov, iovused, 0)];
    }

    /** A new message if the last one is full. */
    method MakeRoom()
      requires Valid() && msgused > 0
      modifies this, iov, msglist
      ensures Valid() && msgused > 0 && (iov == old(iov) || fresh(iov)) && (msglist == old(msglist) || fresh(msglist))
      ensures msgbytes < MAX_PAYLOAD && |msgs[msgused - 1]| < IOV_MAX && Extends(old(msgs), msgs, [])
    {
      var m := msglist[msgused - 1];
      assert m == msglist[..msgused][msgused - 1];
      SameExtends(msgs);
      if m.iovlen == IOV_MAX || msgbytes >= MAX_PAYLOAD {
        OpenedExtends(msgs);
        AddMsghdr();
      }
    }

    /** A piece that fits into the last message. */
    method Append(bytes: seq<Byte>)
      requires Valid() && msgused > 0 && msgbytes + |bytes| <= MAX_PAYLOAD && |msgs[msgused - 1]| < IOV_MAX
      modifies this`iov, this`iovused, this`msgbytes, this`msgs, iov, msglist
      ensures Valid() && Extends(old(msgs), msgs, bytes) && (iov == old(iov) || fresh(iov))
    {
      EnsureIovSpace();
      PushedKeeps(msgs, bytes);
      PushedExtends(msgs, bytes);
      Put(Piece(bytes));
    }

    /** One turn of the loop of add_iov: as much of `buf` as the message, or a new one, takes. */
    method AddPart(buf: seq<Byte>) returns (len: nat)
      requires Valid() && msgused > 0
      modifies this, iov, msglist
      ensures Valid() && msgused > 0 && (iov == old(iov) || fresh(iov)) && (msglist == old(msglist) || fresh(msglist))
      ensures len <= |buf| && (|buf| > 0 ==> len > 0) && Extends(old(msgs), msgs, buf[..len])
    {
      MakeRoom();
      var leftover := if |buf| + msgbytes > MAX_PAYLOAD then |buf| + msgbytes - MAX_PAYLOAD else 0;
      len := |buf| - leftover;
      ghost var before := msgs;
      Append(buf[..len]);
      ExtendsNothing(old(msgs), before, msgs, buf[..len]);
    }

    /** The same from `done` on, the bytes before having been added since `was`. */
    method AddNext(buf: seq<Byte>, done: nat, ghost was: seq<seq<Iov>>) returns (done': nat)
      requires Valid() && msgused > 0 && done <= |buf| && Extends(was, msgs, buf[..done])
      modifies this, iov, msglist
      ensures Valid() && msgused > 0 && (iov == old(iov) || fresh(iov)) && (msglist == old(msglist) || fresh(msglist))
      ensures done <= done' <= |buf| && (done < |buf| ==> done < done') && Extends(was, msgs, buf[..done'])
    {
      ghost var before := msgs;
      var len := AddPart(buf[done..]);
      ExtendsMore(was, before, msgs, buf, done, len);
      done' := done + len;
    }

    /** add_iov over UDP: the bytes are added behind those already there, spread over messages. */
    method AddIov(buf: seq<Byte>)
      requires Valid() && msgused > 0
      modifies this, iov, msglist
      ensures Valid() && msgused > 0 && Extends(old(msgs), msgs, buf)
      ensures (iov == old(iov) || fresh(iov)) && (msglist == old(msglist) || fresh(msglist))
    {
      var done := AddPart(buf);
      while done < |buf|
        invariant done <= |buf| && Valid() && msgused > 0 && Extends(old(msgs), msgs, buf[..done])
        invariant (iov == old(iov) || fresh(iov)) && (msglist == old(msglist) || fresh(msglist))
      {
        done := AddNext(buf, done, old(msgs));
      }
      assert buf[..done] == buf;
    }

    /** add_chunked_item_iovs: the first `len` bytes of a chunked item. */
    method AddChunks(chunks: seq<seq<Byte>>, len: nat)
      requires Valid() && msgused > 0
      modifies this, iov, msglist
      ensures Valid() && msgused > 0 && Extends(old(msgs), msgs, First(chunks, len))
    {
      var i, left := 0, len;
      SameExtends(msgs);
      while i < |chunks|
        invariant 0 <= i <= |chunks| && Valid() && msgused > 0 && Extends(old(msgs), msgs, First(chunks[..i], len))
        invariant left == len - |First(chunks[..i], len)|
        invariant (iov == old(iov) || fresh(iov)) && (msglist == old(msglist) || fresh(msglist))
      {
        ghost var before := msgs;
        var todo := if left > |chunks[i]| then |chunks[i]| else left;
        AddIov(chunks[i][..todo]);
        ExtendsChunk(old(msgs), before, msgs, chunks, i, len);
        left, i := left - todo, i + 1;
      }
      assert chunks[..i] == chunks;
    }

    /** The entries of message `i`, if its header is in order. */
    ghost function Entries(i: nat): seq<Iov>
      reads this, iov, msglist
    {
      if i < msglist.Length && msglist[i].base == iov && msglist[i].start + msglist[i].iovlen <= iov.Length
      then iov[msglist[i].start..msglist[i].start + msglist[i].iovlen] else []
    }

    /** build_udp_headers: the headers are written one after the other, and each is put in front of its
        message. What is then sent are the datagrams. */
    method BuildHeaders(id: nat) returns (hdr: array<Byte>)
      requires Valid()
      modifies iov
      ensures fresh(hdr)
      ensures forall i :: 0 <= i < |msgs| ==> Bytes(Entries(i)) == Datagrams(id, msgs)[i]
    {
      ghost var hs := Headers(id, msgused);
      BeginsRise(msgs);
      hdr := PutHeaders(id, hs);
      forall k | 0 <= k < |msgs|
        ensures Bytes(Entries(k)) == Datagrams(id, msgs)[k]
      {
        HeaderIs(k);
        EntriesAre(hs, k);
        assert Good(msgs[k]);
        HeadIsEmpty(msgs[k], hs[k]);
      }
    }

    lemma HeaderIs(k: nat)
      requires msgused <= msglist.Length && Describes(msglist[..msgused], msgs, iov) && k < |msgs|
      ensures k < msglist.Length && msglist[k] == Msg(iov, |Flatten(msgs[..k])|, |msgs[k]|)
    {
      assert msglist[..msgused][k] == msglist[k];
      Starts(msglist[..msgused], msgs, iov, k);
    }

    lemma EntriesAre(hs: seq<seq<Byte>>, k: nat)
      requires Started(msgs) && k < |msgs| == |hs| && Rising(Begins(msgs), |Flatten(msgs)|)
      requires k < msglist.Length && msglist[k] == Msg(iov, |Flatten(msgs[..k])|, |msgs[k]|)
      requires iovused <= iov.Length && iov[..iovused] == Filled(hs, Flatten(msgs), Begins(msgs), |msgs|)
      ensures Entries(k) == [Piece(hs[k])] + msgs[k][1..]
    {
      var m := msglist[k];
      FilledPart(hs, msgs, iov[..iovused], k, m.start);
      assert iov[..iovused][m.start..m.start + m.iovlen] == iov[m.start..m.start + m.iovlen];
    }

    /** Its loop: `at` is how far the headers have been written. */
    method PutHeaders(id: nat, ghost hs: seq<seq<Byte>>) returns (hdr: array<Byte>)
      requires iovused <= iov.Length && msgused <= msglist.Length && Describes(msglist[..msgused], msgs, iov)
      requires iov[..iovused] == Flatten(msgs) && |hs| == |msgs| == msgused && Rising(Begins(msgs), |Flatten(msgs)|)
      requires forall i :: 0 <= i < msgused ==> hs[i] == Header(id, i, msgused)
      modifies iov
      ensures fresh(hdr) && iov[..iovused] == Filled(hs, Flatten(msgs), Begins(msgs), msgused)
    {
      hdr := new Byte[8 * msgused];
      var i, at := 0, 0;
      while i < msgused
        invariant 0 <= i <= msgused && at == 8 * i && iov[..iovused] == Filled(hs, Flatten(msgs), Begins(msgs), i)
      {
        WriteHeader(hdr, at, id, i, msgused);
        PutHeader(i, hdr[at..at + HEADER], hs);
        i, at := i + 1, at + 8;
      }
    }

    /** One header in front of its message. */
    method PutHeader(i: nat, h: seq<Byte>, ghost hs: seq<seq<Byte>>)
      requires iovused <= iov.Length && msgused <= msglist.Length && Describes(msglist[..msgused], msgs, iov)
      requires i < |msgs| == |hs| && h == hs[i] && Rising(Begins(msgs), |Flatten(msgs)|)
      requires iov[..iovused] == Filled(hs, Flatten(msgs), Begins(msgs), i)
      modifies iov
      ensures iov[..iovused] == Filled(hs, Flatten(msgs), Begins(msgs), i + 1)
    {
      ghost var entries := iov[..iovused];
      HeaderIs(i);
      iov[msglist[i].start] := Piece(h);
      assert iov[..iovused] == entries[msglist[i].start := Piece(h)];
    }
  }
}
