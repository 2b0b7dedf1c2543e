/** The bipartite buffer in memory: one array and its cursors, updated in place. */
module BipMemory {
  import opened BipBuffer

  class Buffer {
    var data: array<Byte>
    var aStart: nat
    var aEnd: nat
    var bEnd: nat
    var bInuse: bool

    ghost function View(): Bip
      reads this, data
    {
      Bip(data[..], aStart, aEnd, bEnd, bInuse)
    }

    /** bipbuf_new. */
    constructor (size: nat)
      ensures fresh(data) && View() == Init(size)
    {
      data := new Byte[size](_ => 0);
      aStart, aEnd, bEnd := 0, 0, 0;
      bInuse := false;
      new;
      assert data[..] == seq(size, _ => 0);
    }

    /** bipbuf_unused. */
    method Unused() returns (n: nat)
      requires Valid(View())
      ensures n == BipBuffer.Unused(View())
    {
      if bInuse {
        n := aStart - bEnd;
      } else {
        n := data.Length - aEnd;
      }
    }

    method CheckForSwitch()
      requires Valid(View())
      modifies this`bInuse
      ensures View() == Switch(old(View()))
    {
      if data.Length - aEnd < aStart - bEnd {
        bInuse := true;
      }
    }

    /** bipbuf_request: the position of `n` free bytes in a row, or nothing. */
    method Request(n: nat) returns (ok: bool, pos: nat)
      requires Valid(View())
      ensures ok <==> n <= BipBuffer.Unused(View())
      ensures ok ==> pos == Slot(View()) && pos + n <= data.Length && (pos >= aEnd || pos + n <= aStart) && pos >= bEnd
    {
      var room := Unused();
      ok := room >= n;
      pos := if bInuse then bEnd else aEnd;
    }

    /** bipbuf_push. */
    method Push(n: nat) returns (r: nat)
      requires Valid(View())
      modifies this`aEnd, this`bEnd, this`bInuse
      ensures View() == BipBuffer.Push(old(View()), n) && Valid(View())
      ensures r == if n <= old(BipBuffer.Unused(View())) then n else 0
    {
      var room := Unused();
      if room < n {
        return 0;
      }
      if bInuse {
        bEnd := bEnd + n;
      } else {
        aEnd := aEnd + n;
      }
      CheckForSwitch();
      return n;
    }

    /** Bytes written where a request points. */
    method Write(pos: nat, d: seq<Byte>)
      requires Valid(View()) && |d| <= BipBuffer.Unused(View()) && pos == Slot(View())
      modifies data
      ensures View() == Fill(old(View()), d) && Valid(View())
    {
      forall i | 0 <= i < |d| {
        data[pos + i] := d[i];
      }
      assert data[..] == old(data[..])[..pos] + d + old(data[..])[pos + |d|..];
    }

    /** bipbuf_offer. */
    method Offer(d: seq<Byte>) returns (r: nat)
      requires Valid(View())
      modifies this`aEnd, this`bEnd, this`bInuse, data
      ensures View() == BipBuffer.Offer(old(View()), d) && Valid(View())
      ensures r == if |d| <= old(BipBuffer.Unused(View())) then |d| else 0
    {
      var room := Unused();
      if room < |d| {
        return 0;
      }
      Write(if bInuse then bEnd else aEnd, d);
      if bInuse {
        bEnd := bEnd + |d|;
      } else {
        aEnd := aEnd + |d|;
      }
      CheckForSwitch();
      return |d|;
    }

    /** bipbuf_peek_all: all of region A at once. */
    method PeekAll() returns (ok: bool, s: seq<Byte>)
      requires Valid(View())
      ensures ok <==> aStart < aEnd
      ensures ok ==> s == RegionA(View()) && s <= Content(View())
    {
      ok := aStart != aEnd;
      s := data[aStart..aEnd];
    }

    /** bipbuf_poll. */
    method Poll(n: nat) returns (ok: bool)
      requires Valid(View())
      modifies this`aStart, this`aEnd, this`bEnd, this`bInuse
      ensures View() == BipBuffer.Poll(old(View()), n)
      ensures ok <==> old(aStart < aEnd && aStart + n <= data.Length)
    {
      if aStart == aEnd || data.Length < aStart + n {
        return false;
      }
      aStart := aStart + n;
      if aStart == aEnd {
        if bInuse {
          aStart, aEnd := 0, bEnd;
          bEnd, bInuse := 0, false;
        } else {
          aStart, aEnd := 0, 0;
        }
      }
      if data.Length - aEnd < aStart - bEnd {
        bInuse := true;
      }
      return true;
    }
  }
}
