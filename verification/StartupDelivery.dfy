/** From the bytes written at one modem, at any moment of start-up or data mode, to the bytes read
    at the other: the pending rings and converter of src/v34_modem_session.c and src/v34_uart.c
    on one side, the converter's receiving half on the other, and bits between them that arrive
    in order, in pieces of any size.  What every event does is a function of the events before
    it (`Play`), which the objects are proved to follow (`Course`); that no byte is lost, moved or
    kept back is proved about the function. */
module StartupDelivery {
  import opened Bits
  import opened Transducer
  import opened Async
  import opened Queues
  import opened Uart
  import opened Handoff

  datatype Event =
    | Write(bytes: seq<Byte>)
    | StartTraining
    | StartDataLink
    | StartData
    | Fill(count: nat)
    | Feed(count: nat)
    | Read(count: nat)

  /** What an event returns: how many bytes were accepted, and the bytes read. */
  datatype Outcome = Outcome(written: nat, bytes: seq<Byte>)

  const NOTHING: Outcome := Outcome(0, [])

  /** How far start-up is, what the near end has still to send, the bits on the line, and the far
      end. */
  datatype Pair = Pair(stage: nat, tx: Tx, line: seq<bool>, rx: Rx)

  const START: Pair := Pair(0, EMPTY, [], Rx(Idle, []))

  /** The far ring has `size` places. */
  predicate Sound(size: nat, p: Pair) {
    |p.tx.queue| < QUEUE_SIZE && |p.rx.waiting| < size
  }

  function AtMost(n: nat, limit: nat): (m: nat)
    ensures m <= n && m <= limit
  {
    if n <= limit then n else limit
  }

  lemma SendBitShrinks(s: Tx)
    ensures |SendBit(s).0.queue| <= |s.queue|
  {
  }

  lemma {:induction false} SendBitsShrinks(s: Tx, n: nat)
    ensures |SendBits(s, n).0.queue| <= |s.queue|
  {
    if n > 0 {
      SendBitsShrinks(s, n - 1);
      SendBitShrinks(SendBits(s, n - 1).0);
    }
  }

  function Step(size: nat, p: Pair, e: Event): (r: (Pair, Outcome))
    requires Sound(size, p)
    ensures Sound(size, r.0)
  {
    match e
    case Write(bytes) =>
      var n := Fitting(bytes, p.tx);
      (p.(tx := Enqueue(p.tx, bytes[..n])), Outcome(n, []))
    case StartTraining => (p.(stage := if p.stage == 0 then 1 else p.stage), NOTHING)
    case StartDataLink => (p.(stage := if p.stage == 1 then 2 else p.stage), NOTHING)
    case StartData => (p.(stage := if p.stage == 2 then 3 else p.stage), NOTHING)
    case Fill(count) =>
      if p.stage < 3 then (p, NOTHING)
      else
        var (tx, bits) := SendBits(p.tx, count);
        SendBitsShrinks(p.tx, count);
        (p.(tx := tx, line := p.line + bits), NOTHING)
    case Feed(count) =>
      var n := AtMost(count, |p.line|);
      (p.(rx := Take(false, size, p.rx, p.line[..n]), line := p.line[n..]), NOTHING)
    case Read(count) =>
      var n := AtMost(count, |p.rx.waiting|);
      (p.(rx := p.rx.(waiting := p.rx.waiting[n..])), Outcome(0, p.rx.waiting[..n]))
  }

  /** The first `n` events. */
  function PlayTo(size: nat, events: seq<Event>, n: nat): (r: (Pair, seq<Outcome>))
    requires size > 0 && n <= |events|
    ensures Sound(size, r.0) && |r.1| == n
  {
    if n == 0 then (START, [])
    else
      var (p, outs) := PlayTo(size, events, n - 1);
      var (q, out) := Step(size, p, events[n - 1]);
      (q, outs + [out])
  }

  function Play(size: nat, events: seq<Event>): (r: (Pair, seq<Outcome>))
    requires size > 0
    ensures Sound(size, r.0) && |r.1| == |events|
  {
    PlayTo(size, events, |events|)
  }

  /** The bytes accepted by the first `n` events, and those read. */
  function Accepted(events: seq<Event>, outs: seq<Outcome>, n: nat): seq<Byte>
    requires n <= |events| && n <= |outs|
  {
    if n == 0 then []
    else Accepted(events, outs, n - 1) + Given(events[n - 1], outs[n - 1])
  }

  function Given(e: Event, out: Outcome): seq<Byte> {
    if e.Write? && out.written <= |e.bytes| then e.bytes[..out.written] else []
  }

  function Delivered(outs: seq<Outcome>, n: nat): seq<Byte>
    requires n <= |outs|
  {
    if n == 0 then [] else Delivered(outs, n - 1) + outs[n - 1].bytes
  }

  /** This event completes more bytes at the far end than its ring has room for. */
  predicate Drops(size: nat, p: Pair, e: Event)
    requires Sound(size, p)
  {
    e.Feed? && Overflows(false, size, p.rx, p.line[..AtMost(e.count, |p.line|)])
  }

  predicate Dropped(size: nat, events: seq<Event>, n: nat)
    requires size > 0 && n <= |events|
  {
    n > 0 && (Dropped(size, events, n - 1) || Drops(size, PlayTo(size, events, n - 1).0, events[n - 1]))
  }

  // ---- What every event keeps ---------------------------------------------------------------

  /** The bytes accepted and read, and the bits sent and fed, behind a state. */
  ghost predicate Told(p: Pair, t: TxLog, r: RxLog) {
    && (p.stage < 3 ==> p.tx.frame == [] && t == Waiting(p.tx.queue) && p.line == [])
    && Logged(p.tx, t) && Heard(false, p.rx, r) && t.sent == r.heard + p.line
  }

  lemma FillTold(p: Pair, count: nat, t: TxLog, r: RxLog) returns (t': TxLog)
    requires Told(p, t, r) && p.stage >= 3
    ensures var (tx, bits) := SendBits(p.tx, count); Told(p.(tx := tx, line := p.line + bits), t', r)
    ensures t'.accepted == t.accepted
  {
    t' := SendBitsLogged(p.tx, t, count);
    Regroup(r.heard, p.line, SendBits(p.tx, count).1);
  }

  lemma FeedTold(size: nat, p: Pair, n: nat, t: TxLog, r: RxLog) returns (r': RxLog)
    requires Told(p, t, r) && Sound(size, p) && n <= |p.line|
    ensures Told(p.(rx := Take(false, size, p.rx, p.line[..n]), line := p.line[n..]), t, r')
    ensures r' == r.(heard := r'.heard, lost := r.lost || Overflows(false, size, p.rx, p.line[..n]))
  {
    TakeHeard(false, size, p.rx, p.line[..n], r);
    assert p.line == p.line[..n] + p.line[n..];
    Regroup(r.heard, p.line[..n], p.line[n..]);
    r' := r.(heard := r.heard + p.line[..n], lost := r.lost || Overflows(false, size, p.rx, p.line[..n]));
    if p.stage < 3 {
      NothingMore(r.heard);
    }
  }

  lemma WriteTold(p: Pair, bytes: seq<Byte>, t: TxLog, r: RxLog)
    requires Told(p, t, r)
    ensures Told(p.(tx := Enqueue(p.tx, bytes)), Note(t, bytes), r)
  {
    EnqueueLogged(p.tx, t, bytes);
  }

  lemma StepTold(size: nat, p: Pair, e: Event, t: TxLog, r: RxLog) returns (t': TxLog, r': RxLog)
    requires Told(p, t, r) && Sound(size, p)
    ensures var (q, out) := Step(size, p, e);
      && Told(q, t', r') && t'.accepted == t.accepted + Given(e, out) && r'.taken == r.taken + out.bytes
      && (r'.lost <==> r.lost || Drops(size, p, e))
  {
    t', r' := t, r;
    NothingMore(t.accepted);
    NothingMore(r.taken);
    match e
    case Write(bytes) =>
      var n := Fitting(bytes, p.tx);
      WriteTold(p, bytes[..n], t, r);
      t' := Note(t, bytes[..n]);
    case Fill(count) =>
      if p.stage >= 3 {
        t' := FillTold(p, count, t, r);
      }
    case Feed(count) => r' := FeedTold(size, p, AtMost(count, |p.line|), t, r);
    case Read(count) =>
      var n := AtMost(count, |p.rx.waiting|);
      ReadHeard(false, p.rx, n, r);
      r' := r.(taken := r.taken + p.rx.waiting[..n]);
    case _ =>
  }

  lemma {:induction false} PlayTold(size: nat, events: seq<Event>, n: nat) returns (t: TxLog, r: RxLog)
    requires size > 0 && n <= |events|
    ensures var (p, outs) := PlayTo(size, events, n);
      && Told(p, t, r) && t.accepted == Accepted(events, outs, n) && r.taken == Delivered(outs, n)
      && (r.lost <==> Dropped(size, events, n))
  {
    if n == 0 {
      t, r := NO_LOG, RxLog([], [], false);
      assert Run(Strict, Idle, []) == (Idle, []);
    } else {
      t, r := PlayTold(size, events, n - 1);
      var (p, outs) := PlayTo(size, events, n - 1);
      var out := Step(size, p, events[n - 1]).1;
      t, r := StepTold(size, p, events[n - 1], t, r);
      Longer(events, outs, out, n - 1);
    }
  }

  /** A further outcome changes nothing about those before it. */
  lemma {:induction false} Longer(events: seq<Event>, outs: seq<Outcome>, out: Outcome, n: nat)
    requires n <= |outs| && n <= |events|
    ensures Accepted(events, outs + [out], n) == Accepted(events, outs, n)
    ensures Delivered(outs + [out], n) == Delivered(outs, n)
  {
    if n > 0 {
      Longer(events, outs, out, n - 1);
    }
  }

  // ---- Nothing lost, moved or kept back ---------------------------------------------------------

  lemma ToldInOrder(p: Pair, t: TxLog, r: RxLog)
    requires Told(p, t, r) && !r.lost
    ensures r.taken + p.rx.waiting <= t.accepted
    ensures p.tx == EMPTY && p.line == [] ==> r.taken + p.rx.waiting == t.accepted
  {
    LoggedReads(false, p.tx, t);
    PartReads(Strict, Idle, r.heard, p.line);
    NothingMore(r.heard);
  }

  /** While the far ring has not overflowed, what the far end has given its user and holds for it
      is the first of what the near end accepted, in order; and all of it once there is nothing
      left to send and nothing on the line. */
  lemma InOrder(size: nat, events: seq<Event>)
    requires size > 0 && !Dropped(size, events, |events|)
    ensures var (p, outs) := Play(size, events);
      var sent, got := Accepted(events, outs, |events|), Delivered(outs, |events|) + p.rx.waiting;
      && got <= sent
      && (p.tx == EMPTY && p.line == [] ==> got == sent)
  {
    var t, r := PlayTold(size, events, |events|);
    ToldInOrder(Play(size, events).0, t, r);
  }

  /** A feed that overflows the ring finds it full of bytes accepted and not read. */
  lemma ToldDrops(size: nat, p: Pair, e: Event, t: TxLog, r: RxLog)
    requires Told(p, t, r) && Sound(size, p) && !r.lost && Drops(size, p, e)
    ensures |t.accepted| - |r.taken| >= size
  {
    var piece := p.line[..AtMost(e.count, |p.line|)];
    var rest := p.line[|piece|..];
    assert p.line == piece + rest;
    Regroup(r.heard, piece, rest);
    LoggedReads(false, p.tx, t);
    PartReads(Strict, Idle, r.heard + piece, rest);
    RunAppend(Strict, Idle, r.heard, piece);
  }

  /** So bytes are dropped only once at least as many are accepted and unread as the ring has
      places. */
  lemma {:induction false} DropsWhenFull(size: nat, events: seq<Event>, n: nat)
    requires size > 0 && n <= |events| && Dropped(size, events, n)
    ensures exists k: nat :: k < n && var outs := PlayTo(size, events, k).1;
      |Accepted(events, outs, k)| - |Delivered(outs, k)| >= size
  {
    if Dropped(size, events, n - 1) {
      DropsWhenFull(size, events, n - 1);
    } else {
      var t, r := PlayTold(size, events, n - 1);
      ToldDrops(size, PlayTo(size, events, n - 1).0, events[n - 1], t, r);
    }
  }

  /** Where a course leads: both ends, the bytes accepted and read, and whether any was dropped. */
  datatype Totals = Totals(p: Pair, accepted: seq<Byte>, delivered: seq<Byte>, dropped: bool)

  function After(size: nat, events: seq<Event>): Totals
    requires size > 0
  {
    var (p, outs) := Play(size, events);
    Totals(p, Accepted(events, outs, |events|), Delivered(outs, |events|), Dropped(size, events, |events|))
  }

  function Further(size: nat, c: Totals, e: Event): (d: Totals)
    requires Sound(size, c.p)
    ensures Sound(size, d.p)
  {
    var (q, out) := Step(size, c.p, e);
    Totals(q, c.accepted + Given(e, out), c.delivered + out.bytes, c.dropped || Drops(size, c.p, e))
  }

  lemma {:induction false} PlayPrefix(size: nat, events: seq<Event>, e: Event, n: nat)
    requires size > 0 && n <= |events|
    ensures PlayTo(size, events + [e], n) == PlayTo(size, events, n)
    ensures Dropped(size, events + [e], n) <==> Dropped(size, events, n)
  {
    if n > 0 {
      PlayPrefix(size, events, e, n - 1);
    }
  }

  lemma {:induction false} AcceptedPrefix(events: seq<Event>, e: Event, outs: seq<Outcome>, n: nat)
    requires n <= |events| && n <= |outs|
    ensures Accepted(events + [e], outs, n) == Accepted(events, outs, n)
  {
    if n > 0 {
      AcceptedPrefix(events, e, outs, n - 1);
    }
  }

  lemma PlayOn(size: nat, events: seq<Event>, e: Event)
    requires size > 0
    ensures var (p, outs) := Play(size, events); var (q, out) := Step(size, p, e);
      Play(size, events + [e]) == (q, outs + [out])
    ensures Dropped(size, events + [e], |events| + 1) <==>
      Dropped(size, events, |events|) || Drops(size, Play(size, events).0, e)
  {
    PlayPrefix(size, events, e, |events|);
    var all, n := events + [e], |events|;
    assert all[n] == e && PlayTo(size, all, n) == Play(size, events);
  }

  /** One more event. */
  lemma AfterOn(size: nat, events: seq<Event>, e: Event)
    requires size > 0
    ensures After(size, events + [e]) == Further(size, After(size, events), e)
  {
    var (p, outs) := Play(size, events);
    var out := Step(size, p, e).1;
    PlayOn(size, events, e);
    TotalsOn(events, e, outs, out);
  }

  lemma TotalsOn(events: seq<Event>, e: Event, outs: seq<Outcome>, out: Outcome)
    requires |outs| == |events|
    ensures Accepted(events + [e], outs + [out], |events| + 1) == Accepted(events, outs, |events|) + Given(e, out)
    ensures Delivered(outs + [out], |events| + 1) == Delivered(outs, |events|) + out.bytes
  {
    Longer(events, outs, out, |events|);
    AcceptedPrefix(events, e, outs + [out], |events|);
  }

  ghost predicate Shown(c: Totals, t: TxLog, r: RxLog) {
    Told(c.p, t, r) && t.accepted == c.accepted && r.taken == c.delivered && r.lost == c.dropped
  }

  lemma FurtherShown(size: nat, c: Totals, e: Event, t: TxLog, r: RxLog) returns (t': TxLog, r': RxLog)
    requires Sound(size, c.p) && Shown(c, t, r)
    ensures Shown(Further(size, c, e), t', r')
  {
    t', r' := StepTold(size, c.p, e, t, r);
  }

  /** Taking so many bits in data mode leaves nothing to send. */
  lemma AllTaken(size: nat, c: Totals)
    requires Sound(size, c.p) && c.p.stage >= 3
    ensures var q := Further(size, c, Fill(BitsLeft(c.p.tx)));
      && q.p.tx == EMPTY && |q.p.line| == |c.p.line| + BitsLeft(c.p.tx)
      && q.accepted == c.accepted && q.delivered == c.delivered && q.dropped == c.dropped
  {
    AllGoesOut(c.p.tx);
    assert SendsAs(c.p.tx, BitsLeft(c.p.tx), EMPTY, c.p.tx.frame + FramesOf(c.p.tx.queue));
    NothingMore(c.accepted);
    NothingMore(c.delivered);
  }

  /** Feeding them all leaves nothing on the line, and drops nothing for which there is room. */
  lemma AllFed(size: nat, c: Totals, t: TxLog, r: RxLog)
    requires Sound(size, c.p) && Shown(c, t, r) && !c.dropped && |c.accepted| - |c.delivered| < size
    ensures var q := Further(size, c, Feed(|c.p.line|));
      q.p.tx == c.p.tx && q.p.line == [] && q.accepted == c.accepted && !q.dropped
  {
    if Drops(size, c.p, Feed(|c.p.line|)) {
      ToldDrops(size, c.p, Feed(|c.p.line|), t, r);
    }
    WholeSlices(c.p.line);
    NothingMore(c.accepted);
  }

  /** Everything read. */
  lemma AllRead(size: nat, c: Totals, t: TxLog, r: RxLog)
    requires Sound(size, c.p) && Shown(c, t, r) && !c.dropped && c.p.tx == EMPTY && c.p.line == []
    ensures var d := Further(size, c, Read(size)); d.delivered == d.accepted == c.accepted
  {
    ToldInOrder(c.p, t, r);
    WholeSlices(c.p.rx.waiting);
    NothingMore(c.accepted);
  }

  lemma FedAndRead(size: nat, c: Totals, t: TxLog, r: RxLog, f: Event, g: Event)
    requires Sound(size, c.p) && Shown(c, t, r) && !c.dropped && |c.accepted| - |c.delivered| < size
    requires c.p.tx == EMPTY && f == Feed(|c.p.line|) && g == Read(size)
    ensures var d := Further(size, Further(size, c, f), g); d.delivered == d.accepted == c.accepted
  {
    AllFed(size, c, t, r);
    var t1, r1 := FurtherShown(size, c, f, t, r);
    AllRead(size, Further(size, c, f), t1, r1);
  }

  lemma Flushed(size: nat, c: Totals, t: TxLog, r: RxLog, e: Event, f: Event, g: Event)
    requires Sound(size, c.p) && Shown(c, t, r) && !c.dropped && c.p.stage >= 3
    requires |c.accepted| - |c.delivered| < size
    requires e == Fill(BitsLeft(c.p.tx)) && f == Feed(|c.p.line| + BitsLeft(c.p.tx)) && g == Read(size)
    ensures var d := Further(size, Further(size, Further(size, c, e), f), g);
      d.delivered == d.accepted == c.accepted
  {
    AllTaken(size, c);
    var t1, r1 := FurtherShown(size, c, e, t, r);
    FedAndRead(size, Further(size, c, e), t1, r1, f, g);
  }

  lemma AfterThree(size: nat, events: seq<Event>, e: Event, f: Event, g: Event)
    requires size > 0
    ensures After(size, events + [e] + [f] + [g])
         == Further(size, Further(size, Further(size, After(size, events), e), f), g)
  {
    AfterOn(size, events, e);
    AfterOn(size, events + [e], f);
    AfterOn(size, events + [e] + [f], g);
  }

  lemma AfterShown(size: nat, events: seq<Event>) returns (t: TxLog, r: RxLog)
    requires size > 0
    ensures Shown(After(size, events), t, r)
  {
    t, r := PlayTold(size, events, |events|);
  }

  /** In data mode two more events bring every byte accepted to the far end, and a third to its
      user, if no more are unread than its ring holds. */
  lemma AllArrives(size: nat, events: seq<Event>, e: Event, f: Event, g: Event)
    requires size > 0 && After(size, events).p.stage >= 3 && !After(size, events).dropped
    requires |After(size, events).accepted| - |After(size, events).delivered| < size
    requires var p := After(size, events).p;
      e == Fill(BitsLeft(p.tx)) && f == Feed(|p.line| + BitsLeft(p.tx)) && g == Read(size)
    ensures var d := After(size, events + [e] + [f] + [g]);
      d.delivered == d.accepted == After(size, events).accepted
  {
    var t, r := AfterShown(size, events);
    Flushed(size, After(size, events), t, r, e, f, g);
    AfterThree(size, events, e, f, g);
  }

  // ---- The objects follow ---------------------------------------------------------------------------

  ghost predicate NearAs(m: ModemSession, repr: set<object>, stage: nat, tx: Tx)
    reads repr
  {
    && m in repr && (m.training != null ==> m.training in repr)
    && (m.training != null && m.training.link != null ==> m.training.link in repr)
    && m.Repr() == repr && m.Valid() && m.Stage() == stage && m.Sender() == tx
  }

  /** The near end, made of the objects `repr`; looked into only where that is wanted. */
  ghost predicate Near(m: ModemSession, repr: set<object>, stage: nat, tx: Tx)
    reads repr
  {
    forall t {:trigger NearAs(m, repr, stage, t)} :: t == tx ==> NearAs(m, repr, stage, t)
  }

  ghost predicate Far(far: Converter, rx: Rx)
    reads far`rxReceiving, far`rxDataBits, far`rxFrame, far`got, far.rx, far.rx.buf
  {
    far.rx.Valid() && far.Hearing() && !far.tolerant && far.Receiver() == rx
  }

  /** Near end, far end and the bits between them. */
  ghost predicate Joined(m: ModemSession, repr: set<object>, far: Converter, line: seq<bool>, p: Pair)
    reads repr, far`rxReceiving, far`rxDataBits, far`rxFrame, far`got, far.rx, far.rx.buf
  {
    {far, far.rx, far.rx.buf} !! repr && Near(m, repr, p.stage, p.tx) && line == p.line && Far(far, p.rx)
  }

  method WriteBytes(m: ModemSession, bytes: seq<Byte>, ghost repr: set<object>, ghost stage: nat, ghost tx: Tx)
    returns (written: nat)
    requires Near(m, repr, stage, tx) && |tx.queue| < QUEUE_SIZE
    modifies repr
    ensures written == Fitting(bytes, tx) && Near(m, repr, stage, Enqueue(tx, bytes[..written]))
  {
    assert NearAs(m, repr, stage, tx);
    written := m.Write(bytes);
    assert NearAs(m, repr, stage, Enqueue(tx, bytes[..written]));
  }

  /** The next part of start-up begins, if it can. */
  method Proceed(m: ModemSession, e: Event, ghost repr: set<object>, ghost size: nat, ghost p: Pair)
    returns (ghost repr': set<object>)
    requires Near(m, repr, p.stage, p.tx) && Sound(size, p) && (e.StartTraining? || e.StartDataLink? || e.StartData?)
    modifies repr
    ensures Near(m, repr', Step(size, p, e).0.stage, p.tx) && fresh(repr' - repr)
  {
    assert NearAs(m, repr, p.stage, p.tx);
    if e.StartTraining? {
      var ok := m.StartTraining();
    } else if e.StartDataLink? && m.training != null {
      var ok := m.StartDataLink();
    } else if e.StartData? && m.training != null && m.training.link != null {
      var ok := m.StartData();
    }
    repr' := m.Repr();
    assert NearAs(m, repr', Step(size, p, e).0.stage, p.tx);
  }

  /** Bits are taken for a superframe, once there is data mode. */
  method TakeBits(m: ModemSession, count: nat, ghost repr: set<object>, ghost stage: nat, ghost tx: Tx)
    returns (bits: seq<bool>)
    requires Near(m, repr, stage, tx)
    modifies repr
    ensures stage < 3 ==> bits == [] && Near(m, repr, stage, tx)
    ensures stage >= 3 ==> bits == SendBits(tx, count).1 && Near(m, repr, stage, SendBits(tx, count).0)
  {
    assert NearAs(m, repr, stage, tx);
    bits := [];
    if m.training != null && m.training.link != null && m.training.link.dataReady {
      bits := m.FillBits(count);
      assert NearAs(m, repr, stage, SendBits(tx, count).0);
    }
  }

  method FeedPiece(far: Converter, piece: seq<bool>, ghost rx: Rx)
    requires Far(far, rx)
    modifies far`rxFrame, far`rxDataBits, far`rxReceiving, far`got, far.rx`tail, far.rx.buf
    ensures Far(far, Take(false, far.rx.buf.Length, rx, piece))
  {
    far.FeedBits(piece);
  }

  method ReadBytes(far: Converter, count: nat, ghost rx: Rx) returns (bytes: seq<Byte>)
    requires Far(far, rx)
    modifies far.rx`head
    ensures var n := AtMost(count, |rx.waiting|);
      bytes == rx.waiting[..n] && Far(far, rx.(waiting := rx.waiting[n..]))
  {
    bytes := far.rx.Read(count);
  }

  /** One event at either end. */
  method Act(m: ModemSession, far: Converter, line: seq<bool>, e: Event, ghost repr: set<object>, ghost p: Pair)
    returns (line': seq<bool>, out: Outcome, ghost repr': set<object>)
    requires Joined(m, repr, far, line, p) && Sound(far.rx.buf.Length, p)
    modifies repr, far`rxFrame, far`rxDataBits, far`rxReceiving, far`got, far.rx`head, far.rx`tail, far.rx.buf
    ensures fresh(repr' - repr) && out == Step(far.rx.buf.Length, p, e).1
    ensures Joined(m, repr', far, line', Step(far.rx.buf.Length, p, e).0)
  {
    line', repr', out := line, repr, NOTHING;
    match e
    case Feed(count) =>
      var n := AtMost(count, |line|);
      FeedPiece(far, line[..n], p.rx);
      line' := line[n..];
    case Read(count) =>
      var bytes := ReadBytes(far, count, p.rx);
      out := Outcome(0, bytes);
    case Write(bytes) =>
      var written := WriteBytes(m, bytes, repr, p.stage, p.tx);
      out := Outcome(written, []);
    case Fill(count) =>
      var bits := TakeBits(m, count, repr, p.stage, p.tx);
      line' := line + bits;
      NothingMore(line);
    case _ =>
      repr' := Proceed(m, e, repr, far.rx.buf.Length, p);
  }

  /** From the start, over any course of events: every event returns what the function says, and
      both ends are left as it says. */
  method Course(m: ModemSession, far: Converter, events: seq<Event>)
    returns (line: seq<bool>, outs: seq<Outcome>, ghost repr: set<object>)
    requires m.Valid() && m.Stage() == 0 && m.Sender() == EMPTY
    requires {far, far.rx, far.rx.buf} !! m.Repr()
    requires far.Valid() && !far.tolerant && far.Receiver() == Rx(Idle, [])
    modifies m.Repr(), far`rxFrame, far`rxDataBits, far`rxReceiving, far`got, far.rx`head, far.rx`tail, far.rx.buf
    ensures outs == Play(far.rx.buf.Length, events).1
    ensures Joined(m, repr, far, line, Play(far.rx.buf.Length, events).0)
  {
    line, outs, repr := [], [], m.Repr();
    assert NearAs(m, repr, 0, EMPTY);
    ghost var size := far.rx.buf.Length;
    for i := 0 to |events|
      invariant (PlayTo(size, events, i).1) == outs && fresh(repr - old(m.Repr()))
      invariant Joined(m, repr, far, line, PlayTo(size, events, i).0)
    {
      var out;
      line, out, repr := Act(m, far, line, events[i], repr, PlayTo(size, events, i).0);
      outs := outs + [out];
    }
  }
}
