/** The start-stop converters of src/v34_uart.c and src/v32bis_data.c: bytes from a queue to a
    stream of bits that idles at one, and bits back to bytes in a queue.  They differ in size
    and in what a zero in the stop position means to the receiver. */
module Uart {
  import opened Bits
  import opened Transducer
  import opened Async
  import opened Queues

  function Step(tolerant: bool): (State, bool) -> (State, seq<Byte>) {
    if tolerant then Tolerant else Strict
  }

  // ---- Sending -----------------------------------------------------------------------------

  /** The sending half: the bytes not yet begun, and the bits still to come of the one under way. */
  datatype Tx = Tx(queue: seq<Byte>, frame: seq<bool>)

  const EMPTY: Tx := Tx([], [])

  /** Start bit, data bits, stop bit. */
  function FrameOf(b: Byte): (frame: seq<bool>)
    ensures |frame| == 10
  {
    [false] + ByteBits(b) + [true]
  }

  /** A frame that has come to its end makes room for the next byte. */
  function Load(s: Tx): Tx {
    if s.frame == [] && s.queue != [] then Tx(s.queue[1..], FrameOf(s.queue[0])) else s
  }

  /** The next bit: of the frame under way, or a mark when there is nothing to send. */
  function SendBit(s: Tx): (r: (Tx, bool)) {
    var t := Load(s);
    if t.frame == [] then (t, true) else (Tx(t.queue, t.frame[1..]), t.frame[0])
  }

  function SendBits(s: Tx, n: nat): (r: (Tx, seq<bool>))
    ensures |r.1| == n
  {
    if n == 0 then (s, [])
    else
      var (t, bits) := SendBits(s, n - 1);
      var (u, bit) := SendBit(t);
      (u, bits + [bit])
  }

  function Enqueue(s: Tx, bytes: seq<Byte>): Tx {
    Tx(s.queue + bytes, s.frame)
  }

  lemma {:induction false} SendBitsAdd(s: Tx, m: nat, n: nat)
    ensures var (t, head) := SendBits(s, m); var (u, rest) := SendBits(t, n);
      SendBits(s, m + n) == (u, head + rest)
  {
    var (t, head) := SendBits(s, m);
    if n == 0 {
      NothingMore(head);
    } else {
      SendBitsAdd(s, m, n - 1);
      var (u, rest) := SendBits(t, n - 1);
      Regroup(head, rest, [SendBit(u).1]);
    }
  }

  ghost predicate SendsAs(s: Tx, n: nat, t: Tx, bits: seq<bool>) {
    SendBits(s, n) == (t, bits)
  }

  /** The next `n` bits are these, and leave that; looked into only where that is wanted. */
  ghost predicate Sends(s: Tx, n: nat, t: Tx, bits: seq<bool>) {
    forall k: nat {:trigger SendsAs(s, k, t, bits)} :: k == n ==> SendsAs(s, k, t, bits)
  }

  lemma SendsNone(s: Tx)
    ensures Sends(s, 0, s, [])
  {
    assert SendsAs(s, 0, s, []);
  }

  lemma SendsOne(s: Tx)
    ensures Sends(s, 1, SendBit(s).0, [SendBit(s).1])
  {
    assert SendBits(s, 0) == (s, []);
    NothingMore([SendBit(s).1]);
    assert SendsAs(s, 1, SendBit(s).0, [SendBit(s).1]);
  }

  lemma SendsAdd(s: Tx, m: nat, t: Tx, head: seq<bool>, n: nat, u: Tx, rest: seq<bool>)
    requires Sends(s, m, t, head) && Sends(t, n, u, rest)
    ensures Sends(s, m + n, u, head + rest)
  {
    assert SendsAs(s, m, t, head) && SendsAs(t, n, u, rest);
    SendBitsAdd(s, m, n);
    assert SendsAs(s, m + n, u, head + rest);
  }

  /** What is left of a frame goes out bit by bit, whatever waits behind it. */
  lemma {:induction false} FrameGoesOut(s: Tx, n: nat)
    requires n <= |s.frame|
    ensures SendBits(s, n) == (Tx(s.queue, s.frame[n..]), s.frame[..n])
  {
    if n == 0 {
      assert s.frame[0..] == s.frame;
    } else {
      FrameGoesOut(s, n - 1);
      assert s.frame[n - 1..][1..] == s.frame[n..] && s.frame[..n] == s.frame[..n - 1] + [s.frame[n - 1]];
    }
  }

  /** With no frame under way, the next bit takes the byte at the head of the queue, and ten bits
      send it whole. */
  lemma ByteGoesOut(s: Tx)
    requires s.frame == [] && s.queue != []
    ensures SendBit(s).0.queue == s.queue[1..] && |SendBit(s).0.frame| == 9
    ensures SendBits(s, 10) == (Tx(s.queue[1..], []), FrameOf(s.queue[0]))
  {
    var f := FrameOf(s.queue[0]);
    var (t, bit) := SendBit(s);
    SendBitsAdd(s, 1, 9);
    assert SendBits(s, 0) == (s, []);
    NothingMore([bit]);
    assert SendBits(s, 1) == (t, [bit]);
    FrameGoesOut(t, 9);
    assert f == [f[0]] + f[1..] && f[1..][..9] == f[1..] && f[1..][9..] == [];
  }

  /** The frames of some bytes, one after another. */
  function FramesOf(bytes: seq<Byte>): (bits: seq<bool>)
    ensures |bits| == 10 * |bytes|
  {
    if bytes == [] then [] else FrameOf(bytes[0]) + FramesOf(bytes[1..])
  }

  /** Ten bits for every byte waiting send them all, in order. */
  lemma {:induction false} QueueGoesOut(s: Tx)
    requires s.frame == []
    ensures SendBits(s, 10 * |s.queue|) == (EMPTY, FramesOf(s.queue))
    decreases |s.queue|
  {
    if s.queue != [] {
      var t := Tx(s.queue[1..], []);
      ByteGoesOut(s);
      QueueGoesOut(t);
      SendBitsAdd(s, 10, 10 * |t.queue|);
      assert 10 + 10 * |t.queue| == 10 * |s.queue|;
    }
  }

  lemma WholeSlices<T>(f: seq<T>)
    ensures f[|f|..] == [] && f[..|f|] == f
  {
  }

  lemma WholeFrameGoesOut(s: Tx)
    ensures Sends(s, |s.frame|, Tx(s.queue, []), s.frame)
  {
    FrameGoesOut(s, |s.frame|);
    WholeSlices(s.frame);
    assert SendsAs(s, |s.frame|, Tx(s.queue, []), s.frame);
  }

  lemma WholeQueueGoesOut(s: Tx)
    requires s.frame == []
    ensures Sends(s, 10 * |s.queue|, EMPTY, FramesOf(s.queue))
  {
    QueueGoesOut(s);
    assert SendsAs(s, 10 * |s.queue|, EMPTY, FramesOf(s.queue));
  }

  /** So many bits leave nothing to send. */
  function BitsLeft(s: Tx): nat {
    |s.frame| + 10 * |s.queue|
  }

  /** They are the rest of the frame under way, and then the frames of the bytes in the queue. */
  lemma AllGoesOut(s: Tx)
    ensures Sends(s, BitsLeft(s), EMPTY, s.frame + FramesOf(s.queue))
  {
    var t := Tx(s.queue, []);
    WholeFrameGoesOut(s);
    WholeQueueGoesOut(t);
    SendsAdd(s, |s.frame|, t, s.frame, 10 * |s.queue|, EMPTY, FramesOf(s.queue));
  }

  // ---- What has been sent ------------------------------------------------------------------

  /** The bytes accepted so far, the bits sent, and the idle marks and characters they are part of. */
  datatype TxLog = TxLog(accepted: seq<Byte>, lead: nat, chars: seq<Char>, sent: seq<bool>)

  const NO_LOG: TxLog := TxLog([], 0, [], [])

  /** The bits sent and those still to be sent of the frame under way are those of the characters
      begun, whose bytes are the first of those accepted. */
  ghost predicate Logged(s: Tx, l: TxLog) {
    l.sent + s.frame == Marks(l.lead) + Stream(l.chars) && Stopped(l.chars) && l.accepted == BytesOf(l.chars) + s.queue
  }

  function Note(l: TxLog, bytes: seq<Byte>): TxLog {
    l.(accepted := l.accepted + bytes)
  }

  lemma EnqueueLogged(s: Tx, l: TxLog, bytes: seq<Byte>)
    requires Logged(s, l)
    ensures Logged(Enqueue(s, bytes), Note(l, bytes))
  {
    Regroup(BytesOf(l.chars), s.queue, bytes);
  }

  lemma CharSent(lead: nat, cs: seq<Char>, b: Byte)
    ensures Marks(lead) + Stream(cs + [Char(b, true, 0)]) == Marks(lead) + Stream(cs) + FrameOf(b)
    ensures BytesOf(cs + [Char(b, true, 0)]) == BytesOf(cs) + [b]
  {
    var c := Char(b, true, 0);
    assert (cs + [c])[..|cs|] == cs;
    assert Marks(1) == Marks(0) + [true] == [true];
  }

  lemma MarkSent(lead: nat, cs: seq<Char>)
    requires Stopped(cs)
    ensures cs == [] ==> Marks(lead + 1) + Stream(cs) == Marks(lead) + Stream(cs) + [true]
    ensures cs != [] ==>
      var last := cs[|cs| - 1];
      var more := cs[..|cs| - 1] + [last.(marks := last.marks + 1)];
      && Marks(lead) + Stream(more) == Marks(lead) + Stream(cs) + [true]
      && Stopped(more) && BytesOf(more) == BytesOf(cs)
  {
    if cs != [] {
      var n := |cs| - 1;
      var last := cs[n];
      var c := last.(marks := last.marks + 1);
      var more := cs[..n] + [c];
      assert more[..n] == cs[..n];
      assert Ending(c) == Ending(last) + [true];
      assert CharBits(c) == CharBits(last) + [true];
    }
  }

  lemma LoadLogged(s: Tx, l: TxLog) returns (l': TxLog)
    requires Logged(s, l)
    ensures Logged(Load(s), l') && l'.accepted == l.accepted && l'.sent == l.sent
  {
    l' := l;
    if s.frame == [] && s.queue != [] {
      var b := s.queue[0];
      CharSent(l.lead, l.chars, b);
      NothingMore(l.sent);
      assert s.queue == [b] + s.queue[1..];
      Regroup(BytesOf(l.chars), [b], s.queue[1..]);
      l' := l.(chars := l.chars + [Char(b, true, 0)]);
    }
  }

  lemma MarkLogged(s: Tx, l: TxLog) returns (l': TxLog)
    requires Logged(s, l) && s.frame == []
    ensures Logged(s, l') && l'.accepted == l.accepted && l'.sent == l.sent + [true]
  {
    MarkSent(l.lead, l.chars);
    NothingMore(l.sent);
    NothingMore(l.sent + [true]);
    if l.chars == [] {
      l' := l.(lead := l.lead + 1, sent := l.sent + [true]);
    } else {
      var last := l.chars[|l.chars| - 1];
      l' := l.(chars := l.chars[..|l.chars| - 1] + [last.(marks := last.marks + 1)], sent := l.sent + [true]);
    }
  }

  lemma SendBitLogged(s: Tx, l: TxLog) returns (l': TxLog)
    requires Logged(s, l)
    ensures Logged(SendBit(s).0, l') && l'.accepted == l.accepted && l'.sent == l.sent + [SendBit(s).1]
  {
    var t := Load(s);
    l' := LoadLogged(s, l);
    if t.frame == [] {
      l' := MarkLogged(t, l');
    } else {
      assert t.frame == [t.frame[0]] + t.frame[1..];
      Regroup(l'.sent, [t.frame[0]], t.frame[1..]);
      l' := l'.(sent := l'.sent + [t.frame[0]]);
    }
  }

  lemma {:induction false} SendBitsLogged(s: Tx, l: TxLog, n: nat) returns (l': TxLog)
    requires Logged(s, l)
    ensures Logged(SendBits(s, n).0, l') && l'.accepted == l.accepted && l'.sent == l.sent + SendBits(s, n).1
  {
    if n == 0 {
      l' := l;
      NothingMore(l.sent);
    } else {
      l' := SendBitsLogged(s, l, n - 1);
      var (t, bits) := SendBits(s, n - 1);
      l' := SendBitLogged(t, l');
      Regroup(l.sent, bits, [SendBit(t).1]);
    }
  }

  /** Whatever has been sent, a receiver puts out the first of the bytes accepted, in order; and
      all of them once nothing is left to send. */
  lemma LoggedReads(tolerant: bool, s: Tx, l: TxLog)
    requires Logged(s, l)
    ensures Run(Step(tolerant), Idle, l.sent).1 <= l.accepted
    ensures s == EMPTY ==> Run(Step(tolerant), Idle, l.sent) == (Idle, l.accepted)
  {
    if tolerant {
      TolerantReads(l.lead, l.chars);
    } else {
      StrictReads(l.lead, l.chars);
    }
    PartReads(Step(tolerant), Idle, l.sent, s.frame);
    assert BytesOf(l.chars) <= l.accepted;
    NothingMore(l.sent);
    NothingMore(BytesOf(l.chars));
  }

  // ---- Receiving -----------------------------------------------------------------------------

  /** The receiving half: where its receiver stands, and the bytes waiting for the user. */
  datatype Rx = Rx(state: State, waiting: seq<Byte>)

  /** What fits. */
  function Kept(out: seq<Byte>, room: nat): (kept: seq<Byte>)
    ensures |kept| <= room
  {
    if |out| <= room then out else out[..room]
  }

  /** The bytes that complete go into a ring of `size` places while there is room. */
  function Take(tolerant: bool, size: nat, r: Rx, bits: seq<bool>): (r': Rx)
    requires |r.waiting| < size
    ensures |r'.waiting| < size
  {
    var (s, out) := Run(Step(tolerant), r.state, bits);
    Rx(s, r.waiting + Kept(out, size - 1 - |r.waiting|))
  }

  /** More bytes complete than the ring has room for. */
  predicate Overflows(tolerant: bool, size: nat, r: Rx, bits: seq<bool>)
    requires |r.waiting| < size
  {
    |Run(Step(tolerant), r.state, bits).1| > size - 1 - |r.waiting|
  }

  lemma TakeNone(tolerant: bool, size: nat, r: Rx)
    requires |r.waiting| < size
    ensures Take(tolerant, size, r, []) == r
  {
    assert Run(Step(tolerant), r.state, []) == (r.state, []);
    NothingMore(r.waiting);
  }

  lemma TakeOne(tolerant: bool, size: nat, r: Rx, bit: bool)
    requires |r.waiting| < size
    ensures var (s, out) := Step(tolerant)(r.state, bit);
      Take(tolerant, size, r, [bit]) == Rx(s, r.waiting + Kept(out, size - 1 - |r.waiting|))
  {
    TakeStep(Step(tolerant), r.state, bit);
  }

  lemma TakeStep(step: (State, bool) -> (State, seq<Byte>), s: State, bit: bool)
    ensures Run(step, s, [bit]) == step(s, bit)
  {
    One(step, s, bit);
  }

  lemma AtMostOne(tolerant: bool, s: State, bit: bool)
    ensures var out := Step(tolerant)(s, bit).1; out == [] || out == [out[0]]
  {
  }

  lemma KeptOn(before: seq<Byte>, done: seq<Byte>, room: nat, out: seq<Byte>)
    ensures before + Kept(done, room) + Kept(out, room - |Kept(done, room)|) == before + Kept(done + out, room)
  {
    if |done| >= room {
      assert (done + out)[..room] == done[..room];
    } else if |done + out| > room {
      assert (done + out)[..room] == done + out[..room - |done|];
    }
  }

  lemma TakeOn(tolerant: bool, size: nat, r: Rx, a: seq<bool>, b: seq<bool>)
    requires |r.waiting| < size
    ensures Take(tolerant, size, Take(tolerant, size, r, a), b) == Take(tolerant, size, r, a + b)
    ensures Overflows(tolerant, size, r, a + b) <==>
      Overflows(tolerant, size, r, a) || Overflows(tolerant, size, Take(tolerant, size, r, a), b)
  {
    var step := Step(tolerant);
    var (s, out) := Run(step, r.state, a);
    var (t, more) := Run(step, s, b);
    RunAppend(step, r.state, a, b);
    KeptOn(r.waiting, out, size - 1 - |r.waiting|, more);
  }

  /** The bits fed so far, the bytes read so far, and whether a byte was ever dropped. */
  datatype RxLog = RxLog(heard: seq<bool>, taken: seq<Byte>, lost: bool)

  ghost predicate Heard(tolerant: bool, r: Rx, l: RxLog) {
    var (s, out) := Run(Step(tolerant), Idle, l.heard);
    r.state == s && (l.lost || out == l.taken + r.waiting)
  }

  lemma TakeHeard(tolerant: bool, size: nat, r: Rx, bits: seq<bool>, l: RxLog)
    requires Heard(tolerant, r, l) && |r.waiting| < size
    ensures Heard(tolerant, Take(tolerant, size, r, bits),
                  l.(heard := l.heard + bits, lost := l.lost || Overflows(tolerant, size, r, bits)))
  {
    RunAppend(Step(tolerant), Idle, l.heard, bits);
    Regroup(l.taken, r.waiting, Run(Step(tolerant), r.state, bits).1);
  }

  lemma ReadHeard(tolerant: bool, r: Rx, n: nat, l: RxLog)
    requires Heard(tolerant, r, l) && n <= |r.waiting|
    ensures Heard(tolerant, r.(waiting := r.waiting[n..]), l.(taken := l.taken + r.waiting[..n]))
  {
    assert r.waiting == r.waiting[..n] + r.waiting[n..];
    Regroup(l.taken, r.waiting[..n], r.waiting[n..]);
  }

  // ---- The object -------------------------------------------------------------------------------

  /** The low ten bits of this number are a byte's frame. */
  lemma FrameBits(b: Byte)
    ensures ToBits(512 + 2 * b, 10) == FrameOf(b)
  {
    var x := 512 + 2 * b;
    assert x / 2 == 256 + b && x % 2 == 0;
    assert ToBits(x, 10) == [false] + ToBits(256 + b, 9);
    HighBit(b, OCTET);
    Pow2Eight();
  }

  lemma {:induction false} HighBit(b: nat, n: nat)
    requires b < Pow2(n)
    ensures ToBits(Pow2(n) + b, n + 1) == ToBits(b, n) + [true]
  {
    if n > 0 {
      HighBit(b / 2, n - 1);
      assert (Pow2(n) + b) / 2 == Pow2(n - 1) + b / 2 && (Pow2(n) + b) % 2 == b % 2;
    }
  }

  /** The number the collected data bits stand for, built as they come. */
  function Value(got: seq<bool>): nat {
    if got == [] then 0
    else
      var n := |got| - 1;
      Value(got[..n]) + if got[n] then Pow2(n) else 0
  }

  lemma {:induction false} ValueIs(got: seq<bool>)
    ensures Value(got) == FromBits(got)
  {
    if got != [] {
      var n := |got| - 1;
      ValueIs(got[..n]);
      FromBitsSnoc(got[..n], got[n]);
      assert got == got[..n] + [got[n]];
    }
  }

  lemma ValueOn(got: seq<bool>, bit: bool)
    ensures Value(got + [bit]) == Value(got) + if bit then Pow2(|got|) else 0
  {
    assert (got + [bit])[..|got|] == got;
  }

  class Converter {
    const tx: ByteQueue
    const rx: ByteQueue
    const tolerant: bool
    var txFrame: nat
    var txFrameBits: nat
    var rxFrame: nat
    var rxDataBits: nat
    var rxReceiving: bool
    ghost var log: TxLog
    ghost var got: seq<bool>

    ghost predicate Valid()
      reads this, tx, tx.buf, rx, rx.buf
    {
      Queued() && Sending() && Hearing()
    }

    ghost predicate Queued()
      reads this, tx, tx.buf, rx, rx.buf
    {
      tx != rx && tx.buf != rx.buf && tx.Valid() && rx.Valid()
    }

    ghost function Sender(): Tx
      requires tx.Valid()
      reads `txFrame, `txFrameBits, tx, tx.buf
    {
      Tx(tx.Items(), ToBits(txFrame, txFrameBits))
    }

    ghost predicate Sending()
      requires tx.Valid()
      reads `log, `txFrame, `txFrameBits, tx, tx.buf
    {
      Logged(Sender(), log)
    }

    ghost predicate Hearing()
      reads `rxReceiving, `rxDataBits, `rxFrame, `got
    {
      if rxReceiving then rxDataBits == |got| <= 8 && rxFrame == Value(got) else got == []
    }

    ghost function Heard(): State
      reads `rxReceiving, `got
    {
      if rxReceiving then Receiving(got) else Idle
    }

    ghost function Receiver(): Rx
      requires rx.Valid()
      reads `rxReceiving, `got, rx, rx.buf
    {
      Rx(Heard(), rx.Items())
    }

    constructor (size: nat, tolerant: bool)
      requires size > 0
      ensures Valid() && fresh(tx) && fresh(tx.buf) && fresh(rx) && fresh(rx.buf) && this.tolerant == tolerant
      ensures log == NO_LOG && Sender() == EMPTY && Receiver() == Rx(Idle, [])
      ensures tx.buf.Length == rx.buf.Length == size
    {
      this.tolerant := tolerant;
      tx := new ByteQueue(size);
      rx := new ByteQueue(size);
      txFrame, txFrameBits, rxFrame, rxDataBits, rxReceiving := 0, 0, 0, 0, false;
      log, got := NO_LOG, [];
    }

    method Write(bytes: seq<Byte>) returns (written: nat)
      requires Valid()
      modifies tx`tail, tx.buf, this`log
      ensures written == if |bytes| <= old(tx.Room()) then |bytes| else old(tx.Room())
      ensures Valid() && log == Note(old(log), bytes[..written])
      ensures Sender() == Enqueue(old(Sender()), bytes[..written])
    {
      ghost var s := Sender();
      written := tx.Write(bytes);
      EnqueueLogged(s, log, bytes[..written]);
      log := Note(log, bytes[..written]);
    }

    method Read(capacity: nat) returns (bytes: seq<Byte>)
      requires Valid()
      modifies rx`head
      ensures Valid() && old(rx.Items()) == bytes + rx.Items()
      ensures |bytes| == if capacity <= |old(rx.Items())| then capacity else |old(rx.Items())|
    {
      bytes := rx.Read(capacity);
    }

    /** next_tx_bit. */
    method NextTxBit() returns (bit: bool)
      requires Valid()
      modifies this`txFrame, this`txFrameBits, this`log, tx`head
      ensures Valid() && Sends(old(Sender()), 1, Sender(), [bit])
      ensures log.accepted == old(log.accepted) && log.sent == old(log.sent) + [bit]
    {
      ghost var next := SendBitLogged(Sender(), log);
      SendsOne(Sender());
      bit := TakeBit();
      log := next;
    }

    method TakeBit() returns (bit: bool)
      requires tx.Valid()
      modifies this`txFrame, this`txFrameBits, tx`head
      ensures tx.Valid() && (Sender(), bit) == SendBit(old(Sender()))
    {
      if txFrameBits == 0 {
        var empty := tx.Empty();
        if empty {
          return true;
        }
        LoadFrame();
      }
      bit := ShiftOut();
    }

    /** The next bit of the frame under way. */
    method ShiftOut() returns (bit: bool)
      requires tx.Valid() && txFrameBits > 0
      modifies this`txFrame, this`txFrameBits
      ensures |old(Sender().frame)| > 0 && bit == old(Sender().frame[0])
      ensures Sender() == Tx(tx.Items(), old(Sender().frame[1..]))
    {
      bit := txFrame % 2 == 1;
      assert ToBits(txFrame, txFrameBits) == [bit] + ToBits(txFrame / 2, txFrameBits - 1);
      txFrame := txFrame / 2;
      txFrameBits := txFrameBits - 1;
    }

    method LoadFrame()
      requires tx.Valid() && txFrameBits == 0 && tx.Items() != []
      modifies this`txFrame, this`txFrameBits, tx`head
      ensures tx.Valid() && txFrameBits == 10 && Sender() == Load(old(Sender()))
    {
      var b := tx.Take();
      FrameBits(b);
      var value: nat := b;
      txFrame := 512 + 2 * value;
      txFrameBits := 10;
    }

    /** v34_uart_fill_bits. */
    method FillBits(count: nat) returns (bits: seq<bool>)
      requires Valid()
      modifies this`txFrame, this`txFrameBits, this`log, tx`head
      ensures Valid() && (Sender(), bits) == SendBits(old(Sender()), count)
      ensures log.accepted == old(log.accepted) && log.sent == old(log.sent) + bits
    {
      bits := [];
      ghost var start, before := Sender(), log.sent;
      SendsNone(start);
      for i := 0 to count
        invariant Valid() && Sends(start, i, Sender(), bits)
        invariant log.accepted == old(log.accepted) && log.sent == before + bits
      {
        ghost var now := Sender();
        var bit := NextTxBit();
        SendsAdd(start, i, now, bits, 1, Sender(), [bit]);
        Regroup(before, bits, [bit]);
        bits := bits + [bit];
      }
      assert SendsAs(start, count, Sender(), bits);
    }

    /** What the receiver does with one bit, and with the byte that may complete. */
    method FeedBit(bit: bool) returns (out: seq<Byte>)
      requires Hearing()
      modifies this`rxFrame, this`rxDataBits, this`rxReceiving, this`got
      ensures Hearing() && (Heard(), out) == Step(tolerant)(old(Heard()), bit)
    {
      out := [];
      if !rxReceiving {
        if !bit {
          rxReceiving, rxFrame, rxDataBits, got := true, 0, 0, [];
        }
        return;
      }
      if rxDataBits < OCTET {
        ValueOn(got, bit);
        if bit {
          rxFrame := rxFrame + Pow2(rxDataBits);
        }
        rxDataBits := rxDataBits + 1;
        got := got + [bit];
        return;
      }
      ValueIs(got);
      FromBitsBound(got);
      Pow2Eight();
      if bit || tolerant {
        out := [rxFrame];
      }
      rxReceiving, got := false, [];
      if !bit && tolerant {
        rxReceiving, rxFrame, rxDataBits := true, 0, 0;
      }
    }

    /** put_rx_bit. */
    method PutRxBit(bit: bool)
      requires rx.Valid() && Hearing()
      modifies this`rxFrame, this`rxDataBits, this`rxReceiving, this`got, rx`tail, rx.buf
      ensures rx.Valid() && Hearing() && Receiver() == Take(tolerant, rx.buf.Length, old(Receiver()), [bit])
    {
      ghost var r := Receiver();
      TakeOne(tolerant, rx.buf.Length, r, bit);
      AtMostOne(tolerant, r.state, bit);
      NothingMore(r.waiting);
      var bytes := FeedBit(bit);
      if |bytes| > 0 {
        var ok := rx.Put(bytes[0]);
      }
    }

    /** One more of them. */
    method FeedNext(bit: bool, ghost start: Rx, ghost head: seq<bool>)
      requires rx.Valid() && Hearing() && |start.waiting| < rx.buf.Length
      requires Receiver() == Take(tolerant, rx.buf.Length, start, head)
      modifies this`rxFrame, this`rxDataBits, this`rxReceiving, this`got, rx`tail, rx.buf
      ensures rx.Valid() && Hearing() && Receiver() == Take(tolerant, rx.buf.Length, start, head + [bit])
    {
      TakeOn(tolerant, rx.buf.Length, start, head, [bit]);
      PutRxBit(bit);
    }

    /** v34_uart_feed_bits: the bytes that complete go into the queue while there is room.  What
        is being sent is not touched. */
    method FeedBits(bits: seq<bool>)
      requires rx.Valid() && Hearing()
      modifies this`rxFrame, this`rxDataBits, this`rxReceiving, this`got, rx`tail, rx.buf
      ensures rx.Valid() && Hearing() && Receiver() == Take(tolerant, rx.buf.Length, old(Receiver()), bits)
    {
      ghost var start := Receiver();
      TakeNone(tolerant, rx.buf.Length, start);
      for i := 0 to |bits|
        invariant rx.Valid() && Hearing() && Receiver() == Take(tolerant, rx.buf.Length, start, bits[..i])
      {
        assert bits[..i + 1] == bits[..i] + [bits[i]];
        FeedNext(bits[i], start, bits[..i]);
      }
      assert bits[..|bits|] == bits;
    }
  }

  /** The same of the object. */
  lemma SentReads(u: Converter)
    requires u.Valid()
    ensures Run(Step(u.tolerant), Idle, u.log.sent).1 <= u.log.accepted
    ensures u.Sender() == EMPTY ==> Run(Step(u.tolerant), Idle, u.log.sent) == (Idle, u.log.accepted)
  {
    LoggedReads(u.tolerant, u.Sender(), u.log);
  }
}
