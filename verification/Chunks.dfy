/** Chunked items: append and prepend copy values into a chain of chunks that grows as it fills, as long as
    there are chunks to be had. */
module Chunks {
  import opened Numbers
  import opened Sequences

  type Byte = char

  /** A chunk with room for `size` bytes; `used` is the length of its data. */
  datatype Chunk = Chunk(size: nat, data: seq<Byte>)

  predicate Full(c: Chunk) {
    |c.data| == c.size
  }

  /** No chunk holds more than its size, and all but the last are full. */
  predicate Packed(chain: seq<Chunk>) {
    && |chain| > 0
    && (forall i :: 0 <= i < |chain| ==> |chain[i].data| <= chain[i].size)
    && (forall i :: 0 <= i < |chain| - 1 ==> Full(chain[i]))
  }

  function Content(chain: seq<Chunk>): seq<Byte> {
    if |chain| == 0 then [] else Content(chain[..|chain| - 1]) + chain[|chain| - 1].data
  }

  function Last(chain: seq<Chunk>): Chunk
    requires |chain| > 0
  {
    chain[|chain| - 1]
  }

  /** Bytes into the last chunk. */
  function Filled(chain: seq<Chunk>, bytes: seq<Byte>): seq<Chunk>
    requires |chain| > 0
  {
    chain[|chain| - 1 := Last(chain).(data := Last(chain).data + bytes)]
  }

  lemma FilledIs(chain: seq<Chunk>, bytes: seq<Byte>)
    requires Packed(chain) && |bytes| <= Last(chain).size - |Last(chain).data|
    ensures Packed(Filled(chain, bytes)) && Content(Filled(chain, bytes)) == Content(chain) + bytes
  {
    var n, more := |chain| - 1, Filled(chain, bytes);
    assert more[..n] == chain[..n];
    assert Content(chain[..n]) + (chain[n].data + bytes) == Content(chain[..n]) + chain[n].data + bytes;
  }

  /** do_item_alloc_chunk: a chunk for what remains, up to the largest there is. */
  function Grown(chain: seq<Chunk>, remain: nat, limit: nat): seq<Chunk> {
    chain + [Chunk(Min(remain, limit), [])]
  }

  lemma GrownIs(chain: seq<Chunk>, remain: nat, limit: nat)
    requires Packed(chain) && Full(Last(chain))
    ensures Packed(Grown(chain, remain, limit)) && Content(Grown(chain, remain, limit)) == Content(chain)
  {
    var more := Grown(chain, remain, limit);
    assert more[..|chain|] == chain;
    assert Content(chain) + [] == Content(chain);
  }

  const CRLF := 2

  /** The data of an item: a chain of chunks, or one piece. */
  datatype Source = Chunked(chunks: seq<seq<Byte>>) | Flat(data: seq<Byte>)

  function Bytes(src: Source): seq<Byte> {
    match src
    case Chunked(chunks) => Flatten(chunks)
    case Flat(data) => data
  }

  function WithoutEnd(data: seq<Byte>): seq<Byte> {
    if |data| >= CRLF then data[..|data| - CRLF] else []
  }

  /** The two values joined, without the line end of the first. */
  function Joined(append: bool, before: seq<Byte>, add: seq<Byte>): seq<Byte> {
    if append then WithoutEnd(before) + add else WithoutEnd(add) + before
  }

  /** `done` bytes of the source have been read when the reader is `copied` bytes into chunk `sch`. */
  ghost predicate Reading(src: seq<seq<Byte>>, sch: nat, copied: nat, done: nat) {
    && sch <= |src| && (if sch < |src| then copied <= |src[sch]| else copied == 0)
    && done == |Flatten(src[..sch])| + copied
  }

  lemma PrefixGrows(all: seq<Byte>, done: nat, todo: nat)
    requires done + todo <= |all|
    ensures all[..done] + all[done..done + todo] == all[..done + todo]
  {
    var x, y := all[..done] + all[done..done + todo], all[..done + todo];
    assert |x| == |y| && forall i :: 0 <= i < |x| ==> x[i] == y[i];
  }

  lemma ReadOn(src: seq<seq<Byte>>, sch: nat, copied: nat, done: nat, todo: nat)
    requires Reading(src, sch, copied, done) && sch < |src| && copied + todo <= |src[sch]|
    ensures done + todo <= |Flatten(src)|
      && Flatten(src)[..done] + src[sch][copied..copied + todo] == Flatten(src)[..done + todo]
    ensures if copied + todo == |src[sch]| then Reading(src, sch + 1, 0, done + todo)
      else Reading(src, sch, copied + todo, done + todo)
  {
    FlattenAt(src, sch, copied, copied + todo);
    FlattenMore(src, sch);
    PrefixGrows(Flatten(src), done, todo);
  }

  lemma ReadAll(src: seq<seq<Byte>>, done: nat)
    requires Reading(src, |src|, 0, done)
    ensures done == |Flatten(src)|
  {
    assert src[..|src|] == src;
  }

  /** Of `all`, what has been added to `was` is the whole, or a beginning of it if that was not possible. */
  predicate Added(ok: bool, was: seq<Byte>, now: seq<Byte>, all: seq<Byte>) {
    if ok then now == was + all else was <= now <= was + all
  }

  lemma BeginningAdded(was: seq<Byte>, now: seq<Byte>, all: seq<Byte>, done: nat, len: nat)
    requires done <= len <= |all| && now == was + all[..done]
    ensures Added(false, was, now, all[..len])
  {
    assert all[..len][..done] == all[..done];
    assert was + all[..len] == (was + all[..done]) + all[..len][done..];
  }

  lemma AddedAfter(first: seq<Byte>, now: seq<Byte>, second: seq<Byte>, ok: bool)
    requires Added(ok, first, now, second)
    ensures Added(ok, [], now, first + second)
  {}

  lemma AddedPart(now: seq<Byte>, first: seq<Byte>, second: seq<Byte>)
    requires Added(false, [], now, first)
    ensures Added(false, [], now, first + second)
  {}

  class Item {
    var chain: seq<Chunk>
    /** How many more chunks the allocator has. */
    var left: nat

    constructor (size: nat, left: nat)
      ensures chain == [Chunk(size, [])] && this.left == left
    {
      chain, this.left := [Chunk(size, [])], left;
    }

    /** The search for free space: the last chunk of a packed chain. */
    method FreeChunk() returns (i: nat)
      requires Packed(chain)
      ensures i == |chain| - 1
    {
      i := 0;
      while Full(chain[i]) && i + 1 < |chain|
        invariant 0 <= i < |chain|
      {
        i := i + 1;
      }
    }

    /** As much as fits, and a new chunk if that fills the last one. */
    method Take(bytes: seq<Byte>, remain: nat, limit: nat) returns (ok: bool)
      requires Packed(chain) && |bytes| <= remain && |bytes| <= Last(chain).size - |Last(chain).data|
      modifies this
      ensures Packed(chain) && Content(chain) == Content(old(chain)) + bytes
      ensures ok <==> old(left) > 0 || |bytes| < Last(old(chain)).size - |Last(old(chain)).data|
      ensures |chain| + left == |old(chain)| + old(left) && (!ok ==> left == 0)
      ensures ok && limit > 0 && remain > |bytes| ==> !Full(Last(chain))
    {
      FilledIs(chain, bytes);
      chain := Filled(chain, bytes);
      if Full(Last(chain)) {
        if left == 0 {
          return false;
        }
        GrownIs(chain, remain - |bytes|, limit);
        chain, left := Grown(chain, remain - |bytes|, limit), left - 1;
      }
      return true;
    }

    /** Once round the loop over the source's chunks. */
    method CopySome(src: seq<seq<Byte>>, sch: nat, copied: nat, len: nat, remain: nat, limit: nat,
        ghost was: seq<Byte>) returns (ok: bool, sch': nat, copied': nat, remain': nat)
      requires Packed(chain) && sch < |src| && 0 < remain <= len && Reading(src, sch, copied, len - remain)
      requires limit > 0 && len <= |Flatten(src)| && Content(chain) == was + Flatten(src)[..len - remain]
      modifies this
      ensures |chain| + left == |old(chain)| + old(left) && (!ok ==> left == 0)
      ensures Packed(chain) && sch <= sch' <= |src| && remain' <= remain
      ensures Reading(src, sch', copied', len - remain') && Content(chain) == was + Flatten(src)[..len - remain']
      ensures ok && remain' == remain ==> sch' > sch || (Full(Last(old(chain))) && !Full(Last(chain)))
    {
      var todo := Min(remain, Min(Last(chain).size - |Last(chain).data|, |src[sch]| - copied));
      ReadOn(src, sch, copied, len - remain, todo);
      ghost var before := was + Flatten(src)[..len - remain] + src[sch][copied..copied + todo];
      assert before == was + (Flatten(src)[..len - remain] + src[sch][copied..copied + todo]);
      ok := Take(src[sch][copied..copied + todo], remain, limit);
      remain' := remain - todo;
      if copied + todo == |src[sch]| {
        copied', sch' := 0, sch + 1;
      } else {
        copied', sch' := copied + todo, sch;
      }
    }

    /** _store_item_copy_chunks from a chunked item. */
    method CopyChunks(src: seq<seq<Byte>>, len: nat, limit: nat) returns (ok: bool)
      requires Packed(chain) && limit > 0 && len <= |Flatten(src)|
      modifies this
      ensures Packed(chain) && Added(ok, Content(old(chain)), Content(chain), Flatten(src)[..len])
      ensures |chain| + left == |old(chain)| + old(left) && (!ok ==> left == 0)
    {
      var dch := FreeChunk();
      var remain, sch, copied := len, 0, 0;
      while sch < |src| && remain > 0
        invariant Packed(chain) && 0 <= remain <= len && Reading(src, sch, copied, len - remain)
        invariant |chain| + left == |old(chain)| + old(left)
        invariant Content(chain) == Content(old(chain)) + Flatten(src)[..len - remain]
        decreases remain, |src| - sch, if Full(Last(chain)) then 1 else 0
      {
        ok, sch, copied, remain := CopySome(src, sch, copied, len, remain, limit, Content(old(chain)));
        if !ok {
          BeginningAdded(Content(old(chain)), Content(chain), Flatten(src), len - remain, len);
          return;
        }
      }
      if sch == |src| {
        ReadAll(src, len - remain);
      }
      assert remain == 0;
      return true;
    }

    /** _store_item_copy_chunks from a flat item. */
    method CopyFlat(src: seq<Byte>, len: nat, limit: nat) returns (ok: bool)
      requires Packed(chain) && limit > 0 && len <= |src|
      modifies this
      ensures Packed(chain) && Added(ok, Content(old(chain)), Content(chain), src[..len])
      ensures |chain| + left == |old(chain)| + old(left) && (!ok ==> left == 0)
    {
      var dch := FreeChunk();
      var done := 0;
      while len > done
        invariant Packed(chain) && 0 <= done <= len && |chain| + left == |old(chain)| + old(left)
        invariant Content(chain) == Content(old(chain)) + src[..done]
        decreases len - done, if Full(Last(chain)) then 1 else 0
      {
        var todo := Min(Last(chain).size - |Last(chain).data|, len - done);
        PrefixGrows(src, done, todo);
        ok := Take(src[done..done + todo], len - done, limit);
        done := done + todo;
        if !ok {
          BeginningAdded(Content(old(chain)), Content(chain), src, done, len);
          return;
        }
      }
      return true;
    }

    /** Either way, by the kind of the source. */
    method CopyFrom(src: Source, len: nat, limit: nat) returns (ok: bool)
      requires Packed(chain) && limit > 0 && len <= |Bytes(src)|
      modifies this
      ensures Packed(chain) && Added(ok, Content(old(chain)), Content(chain), Bytes(src)[..len])
      ensures |chain| + left == |old(chain)| + old(left) && (!ok ==> left == 0)
    {
      match src
      case Chunked(chunks) => ok := CopyChunks(chunks, len, limit);
      case Flat(data) => ok := CopyFlat(data, len, limit);
    }

    /** One value without its line end and then another. */
    method CopyBoth(first: Source, second: Source, limit: nat) returns (ok: bool)
      requires Packed(chain) && Content(chain) == [] && limit > 0 && |Bytes(first)| >= CRLF
      modifies this
      ensures Packed(chain) && Added(ok, [], Content(chain), WithoutEnd(Bytes(first)) + Bytes(second))
      ensures |chain| + left == |old(chain)| + old(left) && (!ok ==> left == 0)
    {
      ghost var part := WithoutEnd(Bytes(first));
      ok := CopyFrom(first, |Bytes(first)| - CRLF, limit);
      if !ok {
        AddedPart(Content(chain), part, Bytes(second));
        return;
      }
      assert Content(chain) == part;
      ok := CopyFrom(second, |Bytes(second)|, limit);
      assert Bytes(second)[..|Bytes(second)|] == Bytes(second);
      AddedAfter(part, Content(chain), Bytes(second), ok);
    }

    /** _store_item_copy_data into an empty chunked item: the two values with one line end, or, once the
        chunks have run out, a beginning of that. */
    method CopyData(append: bool, before: Source, add: Source, limit: nat) returns (ok: bool)
      requires Packed(chain) && Content(chain) == [] && limit > 0 && |Bytes(before)| >= CRLF && |Bytes(add)| >= CRLF
      modifies this
      ensures Packed(chain) && Added(ok, [], Content(chain), Joined(append, Bytes(before), Bytes(add)))
      ensures |chain| + left == |old(chain)| + old(left) && (!ok ==> left == 0)
    {
      if append {
        ok := CopyBoth(before, add, limit);
      } else {
        ok := CopyBoth(add, before, limit);
      }
    }
  }

  /** _store_item_copy_data into a flat item: the second value over the line end of the first. */
  method JoinFlat(append: bool, before: seq<Byte>, add: seq<Byte>) returns (buf: array<Byte>)
    requires |before| >= CRLF && |add| >= CRLF
    ensures buf[..] == Joined(append, before, add)
  {
    var first, second := if append then before else add, if append then add else before;
    buf := new Byte[|first| + |second| - CRLF];
    forall i | 0 <= i < |first| {
      buf[i] := first[i];
    }
    forall i | 0 <= i < |second| {
      buf[|first| - CRLF + i] := second[i];
    }
  }
}
