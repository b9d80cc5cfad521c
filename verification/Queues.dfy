/** The byte rings between the parts of a modem (tx_queue and rx_queue in src/v34_uart.c, tq
    and rq in src/v32bis_data.c, the pending rings of the start-up sessions). */
module Queues {
  import opened Bits
  import Ring

  class ByteQueue {
    const buf: array<Byte>
    var head: nat
    var tail: nat

    ghost predicate Valid()
      reads this
    {
      buf.Length > 0 && head < buf.Length && tail < buf.Length
    }

    ghost function Items(): (items: seq<Byte>)
      requires Valid()
      reads this, buf
      ensures |items| < buf.Length
    {
      Ring.Items(buf[..], head, tail)
    }

    /** One place stays unused. */
    ghost function Room(): nat
      requires Valid()
      reads this, buf
    {
      buf.Length - 1 - |Items()|
    }

    constructor (size: nat)
      requires size > 0
      ensures Valid() && Items() == [] && fresh(buf) && buf.Length == size
    {
      buf := new Byte[size](i => 0);
      head, tail := 0, 0;
    }

    /** Stores a byte unless the ring is full. */
    method Put(b: Byte) returns (ok: bool)
      requires Valid()
      modifies this`tail, buf
      ensures Valid() && ok == (old(Room()) > 0)
      ensures Items() == if ok then old(Items()) + [b] else old(Items())
    {
      var next := Ring.Wrap(tail, buf.Length);
      Ring.Full(buf[..], head, tail);
      if next == head {
        return false;
      }
      Ring.Push(buf[..], head, tail, b);
      ghost var before := buf[..];
      buf[tail] := b;
      assert buf[..] == before[tail := b];
      tail := next;
      return true;
    }

    method Empty() returns (empty: bool)
      requires Valid()
      ensures empty <==> Items() == []
    {
      Ring.Full(buf[..], head, tail);
      return head == tail;
    }

    method Take() returns (b: Byte)
      requires Valid() && Items() != []
      modifies this`head
      ensures Valid() && old(Items()) == [b] + Items()
    {
      Ring.Full(buf[..], head, tail);
      Ring.Pop(buf[..], head, tail);
      b := buf[head];
      head := Ring.Wrap(head, buf.Length);
    }

    /** The queued bytes that lie together from the head on. */
    method Chunk() returns (chunk: seq<Byte>)
      requires Valid()
      ensures chunk <= Items() && (Items() != [] ==> chunk != [])
    {
      var end := if tail >= head then tail else buf.Length;
      chunk := buf[head..end];
    }

    /** Moves the head past bytes of the chunk: `(head + n) & (size - 1)`. */
    method Skip(n: nat)
      requires Valid() && n <= |Items()|
      modifies this`head
      ensures Valid() && Items() == old(Items())[n..]
    {
      SkipItems(buf[..], head, tail, n);
      head := if head + n < buf.Length then head + n else head + n - buf.Length;
    }

    /** Stores bytes until the ring is full. */
    method Write(bytes: seq<Byte>) returns (written: nat)
      requires Valid()
      modifies this`tail, buf
      ensures Valid() && written == (if |bytes| <= old(Room()) then |bytes| else old(Room()))
      ensures Items() == old(Items()) + bytes[..written]
    {
      ghost var start, room := Items(), Room();
      written := 0;
      while written < |bytes|
        invariant Valid() && written <= |bytes| && written <= room && Room() == room - written
        invariant Items() == start + bytes[..written]
      {
        var ok := Put(bytes[written]);
        if !ok {
          break;
        }
        OneMore(start, bytes, written);
        written := written + 1;
      }
    }

    /** Takes up to `capacity` bytes. */
    method Read(capacity: nat) returns (bytes: seq<Byte>)
      requires Valid()
      modifies this`head
      ensures Valid() && old(Items()) == bytes + Items()
      ensures |bytes| == if capacity <= |old(Items())| then capacity else |old(Items())|
    {
      ghost var start := Items();
      bytes := [];
      while |bytes| < capacity
        invariant Valid() && |bytes| <= capacity && start == bytes + Items()
      {
        var empty := Empty();
        if empty {
          break;
        }
        ghost var before := Items();
        var b := Take();
        OneLess(bytes, b, Items(), before);
        bytes := bytes + [b];
      }
    }
  }

  lemma SkipItems(buf: seq<Byte>, head: nat, tail: nat, n: nat)
    requires head < |buf| && tail < |buf| && n <= |Ring.Items(buf, head, tail)|
    ensures var next := if head + n < |buf| then head + n else head + n - |buf|;
      next < |buf| && Ring.Items(buf, next, tail) == Ring.Items(buf, head, tail)[n..]
  {
  }

  lemma OneMore(start: seq<Byte>, bytes: seq<Byte>, n: nat)
    requires n < |bytes|
    ensures start + bytes[..n] + [bytes[n]] == start + bytes[..n + 1]
  {
    assert bytes[..n + 1] == bytes[..n] + [bytes[n]];
  }

  lemma OneLess(taken: seq<Byte>, b: Byte, rest: seq<Byte>, before: seq<Byte>)
    requires before == [b] + rest
    ensures taken + before == taken + [b] + rest
  {
  }
}
