/** The stream object of src/v42_stream.c with its two rings and its assembling buffer. */
module HdlcStream {
  import opened Wrappers
  import opened Bits
  import opened Hdlc
  import opened StreamSpec
  import opened Transducer
  import HdlcCodec
  import Ring

  const TX_SIZE := 16384
  const FRAME_SLOTS := 8

  class Stream {
    const tx: array<bool>
    var txHead: nat
    var txTail: nat
    const assembling: array<bool>
    var assembled: nat
    var inFrame: bool
    const frames: array<seq<bool>>
    var frameHead: nat
    var frameTail: nat

    ghost predicate Ok()
      reads this, tx, assembling, frames
    {
      && tx.Length == TX_SIZE && txHead < TX_SIZE && txTail < TX_SIZE
      && assembling.Length == MAX_BITS && assembled <= MAX_BITS
      && frames.Length == FRAME_SLOTS && frameHead < FRAME_SLOTS && frameTail < FRAME_SLOTS
    }

    ghost function Waiting(): seq<bool>
      requires Ok()
      reads this, tx, assembling, frames
    {
      Ring.Items(tx[..], txHead, txTail)
    }

    ghost function State(): Cutter
      requires Ok()
      reads this, tx, assembling, frames
    {
      Cutter(assembling[..assembled], inFrame)
    }

    ghost function Pieces(): (q: seq<seq<bool>>)
      requires Ok()
      reads this, tx, assembling, frames
      ensures |q| <= FRAMES
    {
      Ring.Items(frames[..], frameHead, frameTail)
    }

    constructor ()
      ensures Ok() && fresh(tx) && fresh(assembling) && fresh(frames)
      ensures Waiting() == [] && State() == Cutter([], false) && Pieces() == []
    {
      tx := new bool[TX_SIZE](i => false);
      assembling := new bool[MAX_BITS](i => false);
      frames := new seq<bool>[FRAME_SLOTS](i => []);
      txHead, txTail, assembled, inFrame, frameHead, frameTail := 0, 0, 0, false, 0, 0;
    }

    /** Queues the bits of one frame, all or nothing. */
    method Send(bits: seq<bool>) returns (n: nat)
      requires Ok()
      modifies this`txTail, tx
      ensures Ok() && n == if |old(Waiting())| + |bits| < 16384 then |bits| else 0
      ensures Waiting() == if Fits(old(Waiting()), bits) then old(Waiting()) + bits else old(Waiting())
    {
      if |bits| > Free(txHead, txTail) {
        return 0;
      }
      var i := 0;
      ghost var start, buf := Waiting(), tx[..];
      while i < |bits|
        invariant i <= |bits| && txTail < TX_SIZE && tx[..] == buf
        invariant Ring.Items(buf, txHead, txTail) == start + bits[..i]
      {
        Ring.StoreOne(start, bits, i, buf, txHead, txTail);
        buf := buf[txTail := bits[i]];
        tx[txTail] := bits[i];
        txTail := Ring.Wrap(txTail, TX_SIZE);
        i := i + 1;
      }
      assert bits[..i] == bits;
      return |bits|;
    }

    /** The next bit: from the queue, or bit `b` of an idle flag. */
    method TxBit(b: nat) returns (bit: bool)
      requires Ok() && b < 8
      modifies this`txHead
      ensures Ok()
      ensures old(Waiting()) != [] ==> old(Waiting()) == [bit] + Waiting()
      ensures old(Waiting()) == [] ==> Waiting() == [] && bit == FLAG[b]
    {
      Ring.Full(tx[..], txHead, txTail);
      if txHead != txTail {
        Ring.Pop(tx[..], txHead, txTail);
        bit := tx[txHead];
        txHead := Ring.Wrap(txHead, TX_SIZE);
      } else {
        bit := FLAG[b];
      }
    }

    /** Bit `b` of the octet that goes out when `queue` was waiting. */
    method TxBitOf(b: nat, ghost queue: seq<bool>) returns (bit: bool)
      requires Ok() && b < 8 && Waiting() == Rest(queue, b)
      modifies this`txHead
      ensures Ok() && Waiting() == Rest(queue, b + 1) && bit == EmitOctet(queue)[b]
    {
      ghost var was := Waiting();
      bit := TxBit(b);
      RestTaken(queue, b, was, Waiting(), bit);
    }

    /** Eight bits packed into an octet, least significant first. */
    method TxByte() returns (byte: Byte)
      requires Ok()
      modifies this`txHead
      ensures Ok() && Waiting() == AfterOctet(old(Waiting())) && ByteBits(byte) == EmitOctet(old(Waiting()))
    {
      var acc: nat, b := 0, 0;
      ghost var queue, all := Waiting(), EmitOctet(Waiting());
      assert Rest(queue, 0) == queue && Rest(queue, 8) == AfterOctet(queue);
      while b < 8
        invariant b <= 8 && Ok() && acc == FromBits(all[..b]) && Waiting() == Rest(queue, b)
      {
        var bit := TxBitOf(b, queue);
        PackBit(all, b);
        acc := acc + if bit then Pow2(b) else 0;
        b := b + 1;
      }
      assert all[..8] == all;
      PackedByte(all, acc);
      byte := acc;
    }

    /** The next `capacity` octets for the line. */
    method TxBytes(capacity: nat) returns (out: seq<Byte>)
      requires Ok()
      modifies this`txHead
      ensures Ok() && |out| == capacity
      ensures Serial(out) == Emitted(old(Waiting()), capacity) && Waiting() == Remaining(old(Waiting()), capacity)
    {
      out := [];
      ghost var queue := Waiting();
      while |out| < capacity
        invariant |out| <= capacity && Ok()
        invariant Serial(out) == Emitted(queue, |out|) && Waiting() == Remaining(queue, |out|)
      {
        var byte := TxByte();
        SerialAppend(out, [byte]);
        assert Serial([byte]) == ByteBits(byte);
        out := out + [byte];
      }
    }

    method QueueFrame()
      requires Ok()
      modifies this`frameTail, frames
      ensures Ok() && Pieces() == Queued(old(Pieces()), [assembling[..assembled]])
    {
      var next := Ring.Wrap(frameTail, FRAME_SLOTS);
      Ring.Full(frames[..], frameHead, frameTail);
      if next == frameHead || assembled > MAX_BITS {
        return;
      }
      ghost var buf := frames[..];
      Ring.Push(buf, frameHead, frameTail, assembling[..assembled]);
      frames[frameTail] := assembling[..assembled];
      assert frames[..] == buf[frameTail := assembling[..assembled]];
      frameTail := next;
    }

    /** The last eight bits compared with the flag. */
    method IsFlag() returns (flag: bool)
      requires Ok()
      ensures flag == EndsIn(assembling[..assembled], FLAG)
    {
      EndsInFlag(assembling[..assembled]);
      if assembled < 8 {
        return false;
      }
      flag := HdlcCodec.FlagHere(assembling[..assembled], assembled - 8);
    }

    /** The new bit joins the buffer, which starts over when full. */
    method Assemble(bit: bool)
      requires Ok()
      modifies this`assembled, this`inFrame, assembling
      ensures Ok() && State() == if |old(State()).bits| >= MAX_BITS then Cutter([bit], false)
                                 else Cutter(old(State()).bits + [bit], old(State()).inFrame)
    {
      if assembled == assembling.Length {
        assembled, inFrame := 0, false;
      }
      ghost var s := assembling[..assembled] + [bit];
      assembling[assembled] := bit;
      assembled := assembled + 1;
      assert assembling[..assembled] == s;
    }

    /** Only the flag just seen is kept. */
    method Restart()
      requires Ok() && EndsIn(assembling[..assembled], FLAG)
      modifies this`assembled, this`inFrame, assembling
      ensures Ok() && State() == Cutter(FLAG, true)
    {
      ghost var s := assembling[..assembled];
      EndsInFlag(s);
      FlagSlice(s, |s| - 8);
      forall i | 0 <= i < 8 {
        assembling[i] := assembling[assembled - 8 + i];
      }
      assert assembling[..8] == s[|s| - 8..];
      assembled, inFrame := 8, true;
    }

    method RxBit(bit: bool) returns (queued: nat)
      requires Ok()
      modifies this`assembled, this`inFrame, this`frameTail, assembling, frames
      ensures Ok() && State() == Cut(old(State()), bit).0 && queued == |Cut(old(State()), bit).1|
      ensures Pieces() == Queued(old(Pieces()), Cut(old(State()), bit).1)
    {
      queued := 0;
      Assemble(bit);
      var flag := IsFlag();
      if flag {
        if inFrame && assembled > 16 {
          QueueFrame();
          queued := 1;
        }
        Restart();
      }
    }

    ghost predicate CutAs(start: Cutter, first: seq<seq<bool>>, octet: seq<bool>, b: nat, queued: nat)
      requires Ok() && b <= |octet| && |first| <= FRAMES
      reads this, tx, assembling, frames
    {
      var (c, pieces) := RunTo(Cut, start, octet, b);
      State() == c && Pieces() == Queued(first, pieces) && queued == |pieces|
    }

    /** After `b` bits of an octet, from cutter `start` and pieces `first`; looked into only where that
        is wanted. */
    ghost predicate CutSoFar(start: Cutter, first: seq<seq<bool>>, octet: seq<bool>, b: nat, queued: nat)
      requires Ok() && b <= |octet| && |first| <= FRAMES
      reads this, tx, assembling, frames
    {
      forall n: nat {:trigger CutAs(start, first, octet, b, n)} :: n == queued ==> CutAs(start, first, octet, b, n)
    }

    /** Bit `b` of `octet`. */
    method RxBitAt(octet: seq<bool>, b: nat, ghost start: Cutter, ghost first: seq<seq<bool>>, ghost queued: nat)
      returns (n: nat)
      requires Ok() && b < |octet| && |first| <= FRAMES && CutSoFar(start, first, octet, b, queued)
      modifies this`assembled, this`inFrame, this`frameTail, assembling, frames
      ensures Ok() && CutSoFar(start, first, octet, b + 1, queued + n)
    {
      assert CutAs(start, first, octet, b, queued);
      QueuedMore(first, RunTo(Cut, start, octet, b).1, Cut(State(), octet[b]).1);
      n := RxBit(octet[b]);
    }

    method RxOctet(octet: seq<bool>) returns (queued: nat)
      requires Ok()
      modifies this`assembled, this`inFrame, this`frameTail, assembling, frames
      ensures Ok() && State() == CutAll(old(State()), octet).0
      ensures queued == |CutAll(old(State()), octet).1|
      ensures Pieces() == Queued(old(Pieces()), CutAll(old(State()), octet).1)
    {
      queued := 0;
      ghost var start, first := State(), Pieces();
      var b := 0;
      assert CutAs(start, first, octet, 0, 0);
      while b < |octet|
        invariant b <= |octet| && Ok() && CutSoFar(start, first, octet, b, queued)
      {
        var n := RxBitAt(octet, b, start, first, queued);
        queued, b := queued + n, b + 1;
      }
      assert CutAs(start, first, octet, |octet|, queued);
    }

    /** Octets from the line; the number of pieces cut. */
    method RxBytes(bytes: seq<Byte>) returns (queued: nat)
      requires Ok()
      modifies this`assembled, this`inFrame, this`frameTail, assembling, frames
      ensures Ok() && State() == CutAll(old(State()), Serial(bytes)).0
      ensures queued == |CutAll(old(State()), Serial(bytes)).1|
      ensures Pieces() == Queued(old(Pieces()), CutAll(old(State()), Serial(bytes)).1)
    {
      queued := 0;
      ghost var start, first, pieces: seq<seq<bool>> := State(), Pieces(), [];
      var j := 0;
      while j < |bytes|
        invariant j <= |bytes| && Ok() && State() == CutAll(start, Serial(bytes[..j])).0
        invariant pieces == CutAll(start, Serial(bytes[..j])).1 && queued == |pieces|
        invariant Pieces() == Queued(first, pieces)
      {
        ghost var more := CutAll(State(), ByteBits(bytes[j])).1;
        SerialSnoc(bytes, j);
        RunAppend(Cut, start, Serial(bytes[..j]), ByteBits(bytes[j]));
        QueuedMore(first, pieces, more);
        var n := RxOctet(ByteBits(bytes[j]));
        queued, pieces, j := queued + n, pieces + more, j + 1;
      }
      assert bytes[..j] == bytes;
    }

    /** The oldest piece, if there is one and it fits the caller's buffer. */
    method Receive(capacity: nat) returns (r: Option<seq<bool>>)
      requires Ok()
      modifies this`frameHead
      ensures Ok() && var q := old(Pieces());
        if q == [] || |q[0]| > capacity then r == None && Pieces() == q
        else r == Some(q[0]) && Pieces() == q[1..]
    {
      Ring.Full(frames[..], frameHead, frameTail);
      if frameHead == frameTail {
        return None;
      }
      Ring.Pop(frames[..], frameHead, frameTail);
      var f := frames[frameHead];
      if |f| > capacity {
        return None;
      }
      frameHead := Ring.Wrap(frameHead, FRAME_SLOTS);
      return Some(f);
    }
  }

  /** What is left of a queue after `b` bits. */
  function Rest(queue: seq<bool>, b: nat): seq<bool> {
    if b <= |queue| then queue[b..] else []
  }

  lemma RestStep(queue: seq<bool>, b: nat)
    requires b < 8
    ensures Rest(queue, b) == [] ==> Rest(queue, b + 1) == [] && EmitOctet(queue)[b] == FLAG[b]
    ensures Rest(queue, b) != [] ==> Rest(queue, b) == [EmitOctet(queue)[b]] + Rest(queue, b + 1)
  {
  }

  lemma RestTaken(queue: seq<bool>, b: nat, was: seq<bool>, now: seq<bool>, bit: bool)
    requires b < 8 && was == Rest(queue, b)
    requires if was == [] then now == [] && bit == FLAG[b] else was == [bit] + now
    ensures now == Rest(queue, b + 1) && bit == EmitOctet(queue)[b]
  {
    RestStep(queue, b);
    if was != [] {
      assert now == was[1..] && bit == was[0];
    }
  }

  /** Places of the sender's ring not in use. */
  function Free(head: nat, tail: nat): (n: nat)
    requires head < TX_SIZE && tail < TX_SIZE
    ensures n == if head <= tail then TX_SIZE - 1 - (tail - head) else head - tail - 1
  {
    (head + 2 * TX_SIZE - tail - 1) % TX_SIZE
  }

  lemma PackBit(all: seq<bool>, b: nat)
    requires b < |all|
    ensures FromBits(all[..b + 1]) == FromBits(all[..b]) + if all[b] then Pow2(b) else 0
  {
    FromBitsSnoc(all[..b], all[b]);
    assert all[..b] + [all[b]] == all[..b + 1];
  }

  lemma PackedByte(bits: seq<bool>, acc: nat)
    requires |bits| == 8 && acc == FromBits(bits)
    ensures acc < 256 && ByteBits(acc) == bits
  {
    assert acc == BitsByte(bits);
    ToFromBits(bits);
  }
}
