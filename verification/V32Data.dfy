/** The V.32bis data path of src/v32bis_data.c: bytes to constellation labels, received
    coordinates to bytes, and what comes through when they are near the points sent. */
module V32Data {
  import opened Wrappers
  import opened Bits
  import opened Lockstep
  import opened Reals
  import opened Scrambler
  import opened Transducer
  import Async
  import opened Uart
  import opened V32Map
  import opened V32Trellis
  import opened V32Viterbi
  import opened V32Line

  const QUEUE: nat := 4096

  // ---- Coordinates near the points sent ----------------------------------------------------------

  /** Every symbol received is nearer to the point the path sends than to all others. */
  ghost predicate Close(rate: Rate, rs: seq<Received>, w: Path) {
    && |rs| == |w| && Feasible(rate, w)
    && forall i :: 0 <= i < |w| ==> CloseAt(rate, rs[i], End(w[..i]), w[i])
  }

  ghost predicate CloseAt(rate: Rate, r: Received, state: nat, b: Branch)
    requires state < STATES && Possible(rate, b)
  {
    forall s: nat, c :: Nearer(rate, r, state, b, s, c)
  }

  ghost predicate Nearer(rate: Rate, r: Received, state: nat, b: Branch, s: nat, c: Branch)
    requires state < STATES && Possible(rate, b)
  {
    s < STATES && Possible(rate, c) ==>
      PointOf(rate, s, c) == PointOf(rate, state, b) || Distance(rate, r, state, b) < Distance(rate, r, s, c)
  }

  /** The points themselves, for example. */
  lemma ExactClose(rate: Rate, r: Received, state: nat, b: Branch)
    requires state < STATES && Possible(rate, b)
    requires r.i == PointOf(rate, state, b).0 as real && r.q == PointOf(rate, state, b).1 as real
    ensures CloseAt(rate, r, state, b)
  {
    forall s: nat, c
      ensures Nearer(rate, r, state, b, s, c)
    {
      if s < STATES && Possible(rate, c) {
        OtherPoint(PointOf(rate, state, b), PointOf(rate, s, c), r);
      }
    }
  }

  lemma OtherPoint(p: Pair, q: Pair, r: Received)
    requires r.i == p.0 as real && r.q == p.1 as real
    ensures Square(r.i - p.0 as real) + Square(r.q - p.1 as real) == 0.0
    ensures p == q || Square(r.i - q.0 as real) + Square(r.q - q.1 as real) > 0.0
  {
  }

  /** No branch costs less than the one sent; and from the same state none as little. */
  lemma CloseStep(rate: Rate, m: Metric, r: Received, state: nat, b: Branch, s: nat, c: Branch)
    requires Measures(m, rate) && state < STATES && Possible(rate, b) && s < STATES && Possible(rate, c)
    requires CloseAt(rate, r, state, b)
    ensures m(r, state, b) <= m(r, s, c) && (s == state && m(r, state, b) == m(r, s, c) ==> c == b)
  {
    assert MeasuresAt(m, rate, r, state, b) && MeasuresAt(m, rate, r, s, c);
    assert Nearer(rate, r, state, b, s, c);
    if s == state && PointOf(rate, s, c) == PointOf(rate, state, b) {
      PointInjective(rate, state, b, c);
    }
  }

  lemma Longer(w: Path, head: Path, b: Branch)
    requires |head| < |w|
    ensures head + [b] == w[..|head| + 1] <==> head == w[..|head|] && b == w[|head|]
    ensures w[..|head| + 1] == w[..|head|] + [w[|head|]]
  {
    assert w[..|head| + 1] == w[..|head|] + [w[|head|]];
    if head + [b] == w[..|head| + 1] {
      assert head == (head + [b])[..|head|] && b == (head + [b])[|head|];
    }
  }

  ghost predicate StepAt(rate: Rate, m: Metric, rs: seq<Received>, w: Path, head: Path, b: Branch) {
    |head| < |w| == |rs| && Feasible(rate, head) && Possible(rate, b) ==>
      var n := |head|;
      && m(rs[n], End(w[..n]), w[n]) <= m(rs[n], End(head), b)
      && (head == w[..n] && m(rs[n], End(w[..n]), w[n]) == m(rs[n], End(head), b) ==> b == w[n])
  }

  lemma {:induction false} StepsCost(rate: Rate, m: Metric, rs: seq<Received>, w: Path, path: Path)
    requires |rs| == |w| && (forall head, b :: StepAt(rate, m, rs, w, head, b)) && Feasible(rate, path) && |path| <= |w|
    ensures path == w[..|path|] || Cost(m, rs, w[..|path|]) < Cost(m, rs, path)
  {
    if path != [] {
      var n := |path| - 1;
      var head, b := path[..n], path[n];
      assert path == head + [b];
      StepsCost(rate, m, rs, w, head);
      Longer(w, head, b);
      CostOn(m, rs, head, b);
      CostOn(m, rs, w[..n], w[n]);
      assert StepAt(rate, m, rs, w, head, b);
    }
  }

  /** All other paths cost more than the one sent. */
  lemma OthersDearer(rate: Rate, m: Metric, rs: seq<Received>, w: Path, path: Path)
    requires Measures(m, rate) && Close(rate, rs, w) && Feasible(rate, path) && |path| <= |w|
    ensures path == w[..|path|] || Cost(m, rs, w[..|path|]) < Cost(m, rs, path)
  {
    forall head, b
      ensures StepAt(rate, m, rs, w, head, b)
    {
      if |head| < |w| && Feasible(rate, head) && Possible(rate, b) {
        var n := |head|;
        assert CloseAt(rate, rs[n], End(w[..n]), w[n]);
        CloseStep(rate, m, rs[n], End(w[..n]), w[n], End(head), b);
      }
    }
    StepsCost(rate, m, rs, w, path);
  }

  /** So the nearest path is the one that was sent. */
  lemma NearestIsTruth(rate: Rate, m: Metric, rs: seq<Received>, w: Path, path: Path)
    requires Measures(m, rate) && Close(rate, rs, w) && Nearest(rate, m, rs, path)
    ensures path == w
  {
    OthersDearer(rate, m, rs, w, path);
    assert w[..|w|] == w;
  }

  lemma ClosePrefix(rate: Rate, rs: seq<Received>, w: Path, n: nat)
    requires Close(rate, rs, w) && n <= |w|
    ensures Close(rate, rs[..n], w[..n])
  {
    forall i | 0 <= i < n
      ensures CloseAt(rate, rs[..n][i], End(w[..n][..i]), w[..n][i])
    {
      assert w[..n][..i] == w[..i];
      assert CloseAt(rate, rs[i], End(w[..i]), w[i]);
    }
  }

  // ---- Transmitter ---------------------------------------------------------------------------------

  function Flat(groups: seq<seq<bool>>): seq<bool> {
    if groups == [] then [] else Flat(groups[..|groups| - 1]) + groups[|groups| - 1]
  }

  lemma FlatOn(groups: seq<seq<bool>>, g: seq<bool>)
    ensures Flat(groups + [g]) == Flat(groups) + g
  {
    assert (groups + [g])[..|groups|] == groups;
  }

  lemma FlatLast(before: seq<seq<bool>>, groups: seq<seq<bool>>)
    requires |groups| == |before| + 1 && groups[..|before|] == before
    ensures Flat(groups) == Flat(before) + groups[|before|]
  {
  }

  const START: Line := Line(seq(HISTORY, i => false), 0)

  /** One more branch, and the label that stands for it. */
  ghost predicate Extends(rate: Rate, before: Path, after: Path, code: nat) {
    && |after| == |before| + 1 && after[..|before|] == before
    && Possible(rate, after[|before|]) && code == LabelOf(rate, End(before), after[|before|])
  }

  lemma NothingMoreBits(bits: seq<bool>)
    ensures bits + [] == bits
  {
  }

  class Sender {
    const rate: Rate
    const tap: nat
    const uart: Converter
    var history: History
    var previous: nat
    var trellis: nat
    ghost var groups: seq<seq<bool>>
    ghost var path: Path

    ghost predicate Valid()
      reads this, uart, uart.tx, uart.tx.buf, uart.rx, uart.rx.buf
    {
      uart.Valid() && uart.tolerant && uart.log.sent == Flat(groups) && Coded(Line(history, previous))
    }

    /** The symbols so far, and the trellis and line state they leave. */
    ghost predicate Coded(s: Line)
      reads `groups, `path, `trellis
    {
      forall t {:trigger CodedAs(t)} :: t == s ==> CodedAs(t)
    }

    ghost predicate CodedAs(s: Line)
      reads `groups, `path, `trellis
    {
      && s.previous < 4 && Groups(rate, groups)
      && SendAll(Modulating(rate, tap), START, groups) == (s, path)
      && Feasible(rate, path) && trellis == End(path)
    }

    constructor (rate: Rate, tap: nat)
      ensures Valid() && fresh(uart) && fresh(uart.tx) && fresh(uart.tx.buf) && fresh(uart.rx) && fresh(uart.rx.buf)
      ensures this.rate == rate && this.tap == tap && path == [] && uart.Sender() == EMPTY && uart.log == NO_LOG
      ensures uart.tx.buf.Length == 4096
    {
      this.rate, this.tap := rate, tap;
      uart := new Converter(QUEUE, true);
      history, previous, trellis := seq(HISTORY, i => false), 0, 0;
      groups, path := [], [];
    }

    ghost predicate TookAs(s: Tx, l: TxLog, bits: seq<bool>)
      reads uart, uart.tx, uart.tx.buf, uart.rx, uart.rx.buf
    {
      && uart.Valid() && Sends(s, |bits|, uart.Sender(), bits)
      && uart.log.sent == l.sent + bits && uart.log.accepted == l.accepted
    }

    /** From this state of the converter, these bits have been taken; looked into only where that is
        wanted. */
    ghost predicate Took(s: Tx, l: TxLog, bits: seq<bool>)
      reads uart, uart.tx, uart.tx.buf, uart.rx, uart.rx.buf
    {
      forall b {:trigger TookAs(s, l, b)} :: b == bits ==> TookAs(s, l, b)
    }

    /** The next bit, through the scrambler. */
    method ScrambledBit(ghost s: Tx, ghost l: TxLog, ghost bits: seq<bool>) returns (b: bool, ghost bit: bool)
      requires Took(s, l, bits)
      modifies this`history, uart`txFrame, uart`txFrameBits, uart`log, uart.tx`head
      ensures Took(s, l, bits + [bit]) && (history, b) == Scramble(tap, old(history), bit)
    {
      assert TookAs(s, l, bits);
      ghost var now := uart.Sender();
      var next := uart.NextTxBit();
      bit := next;
      SendsAdd(s, |bits|, now, bits, 1, uart.Sender(), [bit]);
      Regroup(l.sent, bits, [bit]);
      assert TookAs(s, l, bits + [bit]);
      var (h, out) := Scramble(tap, history, next);
      history, b := h, out;
    }

    /** The bits of a symbol, through the scrambler. */
    method ScrambledBits() returns (line: seq<bool>, ghost bits: seq<bool>)
      requires uart.Valid()
      modifies this`history, uart`txFrame, uart`txFrameBits, uart`log, uart.tx`head
      ensures |bits| == InfoBits(rate) && Took(old(uart.Sender()), old(uart.log), bits)
      ensures ScrambleAll(tap, old(history), bits) == (history, line)
    {
      line, bits := [], [];
      ghost var start, s, l := history, uart.Sender(), uart.log;
      NothingMoreBits(l.sent);
      SendsNone(s);
      assert TookAs(s, l, bits);
      for n := 0 to InfoBits(rate)
        invariant |bits| == n && Took(s, l, bits) && ScrambleAll(tap, start, bits) == (history, line)
      {
        var b;
        ghost var bit;
        b, bit := ScrambledBit(s, l, bits);
        SendSnoc(Scrambling(tap), start, bits, bit);
        bits := bits + [bit];
        line := line + [b];
      }
    }

    lemma TookKeeps(s: Tx, l: TxLog, bits: seq<bool>)
      requires Took(s, l, bits)
      ensures uart.Valid() && uart.log.sent == l.sent + bits && uart.log.accepted == l.accepted
    {
      assert TookAs(s, l, bits);
    }

    /** The label of a symbol's scrambled bits. */
    method Encode(line: seq<bool>, ghost bits: seq<bool>, ghost s: Line) returns (code: nat)
      requires Coded(s) && s.previous == previous && |bits| == InfoBits(rate)
      requires ScrambleAll(tap, s.history, bits) == (history, line)
      modifies this`previous, this`trellis, this`groups, this`path
      ensures Coded(Line(history, previous)) && groups == old(groups) + [bits]
      ensures Extends(rate, old(path), path, code)
    {
      assert CodedAs(s);
      var y12 := DiffEncode(Msb(line[..2]), previous);
      var x := MsbFrom(line, 2);
      ModulateIs(rate, tap, s, bits, line, history, Branch(y12, x));
      SymbolSent(rate, tap, s, groups, path, bits, history, Branch(y12, x));
      code := Subset(trellis, y12) * PerSubset(rate) + x;
      previous := y12;
      trellis := NextState(trellis, y12);
      groups := groups + [bits];
      path := path + [Branch(y12, x)];
      assert CodedAs(Line(history, previous));
    }

    /** v32bis_data_write. */
    method Write(bytes: seq<Byte>) returns (written: nat)
      requires Valid()
      modifies uart.tx`tail, uart.tx.buf, uart`log
      ensures written == if |bytes| <= old(uart.tx.Room()) then |bytes| else old(uart.tx.Room())
      ensures Valid() && uart.Sender() == Enqueue(old(uart.Sender()), bytes[..written])
      ensures uart.log == Note(old(uart.log), bytes[..written])
    {
      written := uart.Write(bytes);
    }

    /** v32bis_data_next: the label of the next symbol, and what it takes from the queue. */
    method Next() returns (code: nat, ghost bits: seq<bool>)
      requires Valid()
      modifies this`history, this`previous, this`trellis, this`groups, this`path
      modifies uart`txFrame, uart`txFrameBits, uart`log, uart.tx`head
      ensures Valid() && Extends(rate, old(path), path, code)
      ensures groups == old(groups) + [bits] && |bits| == InfoBits(rate)
      ensures Took(old(uart.Sender()), old(uart.log), bits) && uart.log.accepted == old(uart.log.accepted)
    {
      ghost var s := Line(history, previous);
      ghost var tx, log, before := uart.Sender(), uart.log, groups;
      assert Coded(s);
      var line;
      line, bits := ScrambledBits();
      TookKeeps(tx, log, bits);
      code := Encode(line, bits, s);
      FlatOn(before, bits);
    }

    /** Every byte accepted was on the line, whole, after `k` symbols. */
    ghost predicate Emptied(k: nat)
      reads `groups, uart`log
    {
      && k <= |groups|
      && Run(Async.Tolerant, Async.Idle, Flat(groups[..k])) == (Async.Idle, uart.log.accepted)
    }
  }

  /** That is so once the converter has nothing left to send. */
  lemma NowEmptied(s: Sender)
    requires s.Valid() && s.uart.Sender() == EMPTY
    ensures s.Emptied(|s.groups|)
  {
    SentReads(s.uart);
    assert s.groups[..|s.groups|] == s.groups;
  }

  lemma ModulateIs(rate: Rate, tap: nat, s: Line, bits: seq<bool>, line: seq<bool>, h: History, b: Branch)
    requires |bits| == InfoBits(rate) && ScrambleAll(tap, s.history, bits) == (h, line)
    requires b == Branch(DiffEncode(Msb(line[..2]), s.previous), MsbFrom(line, 2))
    ensures Modulate(rate, tap, s, bits) == (Line(h, b.y12), b)
  {
  }

  lemma SymbolPossible(rate: Rate, tap: nat, s: Line, bits: seq<bool>, h: History, b: Branch)
    requires |bits| == InfoBits(rate) && s.previous < 4 && Modulate(rate, tap, s, bits) == (Line(h, b.y12), b)
    ensures b.y12 < 4 && Possible(rate, b)
  {
    SymbolRoundTrip(rate, tap, s, bits);
  }

  lemma SymbolSent(rate: Rate, tap: nat, s: Line, groups: seq<seq<bool>>, path: Path, bits: seq<bool>, h: History,
                   b: Branch)
    requires SendAll(Modulating(rate, tap), START, groups) == (s, path) && s.previous < 4
    requires Groups(rate, groups) && Feasible(rate, path)
    requires |bits| == InfoBits(rate) && Modulate(rate, tap, s, bits) == (Line(h, b.y12), b)
    ensures SendAll(Modulating(rate, tap), START, groups + [bits]) == (Line(h, b.y12), path + [b])
    ensures b.y12 < 4 && Groups(rate, groups + [bits]) && Feasible(rate, path + [b]) && Possible(rate, b)
    ensures Flat(groups + [bits]) == Flat(groups) + bits && End(path + [b]) == NextState(End(path), b.y12)
  {
    SendSnoc(Modulating(rate, tap), START, groups, bits);
    SymbolPossible(rate, tap, s, bits, h, b);
    FlatOn(groups, bits);
    EndOn(path, b);
  }

  // ---- Receiver ----------------------------------------------------------------------------------------

  function Taking(rate: Rate, tap: nat): (Line, nat) -> (Line, seq<bool>) {
    (s: Line, payload: nat) => Demodulate(rate, tap, s, payload)
  }

  /** Symbols the decoder has given out after so many. */
  function Given(time: nat): nat {
    if time < TRACEBACK then 0 else time - (TRACEBACK - 1)
  }

  /** The payload is that of a symbol on a path nearest to what had come 31 symbols later. */
  ghost predicate FromNearest(rate: Rate, m: Metric, rs: seq<Received>, t: nat, payload: nat)
    requires t + TRACEBACK <= |rs|
  {
    exists path :: Nearest(rate, m, rs[..t + TRACEBACK], path) && payload == PayloadOf(rate, path[t])
  }

  /** Every payload given out so far. */
  ghost predicate AllNearest(rate: Rate, m: Metric, rs: seq<Received>, payloads: seq<nat>) {
    |payloads| == Given(|rs|) && forall t :: 0 <= t < |payloads| ==> FromNearest(rate, m, rs, t, payloads[t])
  }

  class Receiver {
    const rate: Rate
    const tap: nat
    const viterbi: Viterbi
    const uart: Converter
    var history: History
    var previous: nat
    ghost var payloads: seq<nat>
    ghost var groups: seq<seq<bool>>
    ghost var log: RxLog

    ghost predicate Decoded()
      reads `payloads, viterbi, viterbi.predecessor, viterbi.payload
    {
      viterbi.Valid() && viterbi.rate == rate && AllNearest(rate, viterbi.m, viterbi.received, payloads)
    }

    /** The bits of the symbols so far, and the line state they leave. */
    ghost predicate Lined(s: Line)
      reads `payloads, `groups
    {
      SendAll(Taking(rate, tap), START, payloads) == (s, groups)
    }

    /** What the converter has made of the bits so far, and how much of it has been read. */
    ghost predicate Hears(bits: seq<bool>)
      reads `log, uart, uart.rx, uart.rx.buf
    {
      && uart.rx.Valid() && uart.Hearing() && uart.tolerant
      && log.heard == bits && Heard(true, uart.Receiver(), log)
    }

    ghost predicate Valid()
      reads this, viterbi, viterbi.predecessor, viterbi.payload, uart, uart.rx, uart.rx.buf
    {
      Decoded() && Lined(Line(history, previous)) && Hears(Flat(groups))
    }

    constructor (rate: Rate, tap: nat)
      ensures Valid() && this.rate == rate && this.tap == tap && viterbi.received == [] && viterbi.m == MetricOf(rate)
      ensures fresh(viterbi) && fresh(viterbi.predecessor) && fresh(viterbi.payload) && fresh(uart) && fresh(uart.rx)
      ensures fresh(uart.rx.buf) && uart.rx.buf.Length == 4096
    {
      this.rate, this.tap := rate, tap;
      viterbi := new Viterbi(rate);
      uart := new Converter(QUEUE, true);
      history, previous := seq(HISTORY, i => false), 0;
      payloads, groups, log := [], [], RxLog([], [], false);
    }

    ghost predicate FedAs(r: Rx, l: RxLog, before: seq<bool>, bits: seq<bool>)
      reads `log, uart, uart.rx, uart.rx.buf
    {
      && Hears(before + bits) && |r.waiting| < uart.rx.buf.Length
      && uart.Receiver() == Take(true, uart.rx.buf.Length, r, bits) && log.taken == l.taken
      && (log.lost <==> l.lost || Overflows(true, uart.rx.buf.Length, r, bits))
    }

    /** From this state of the receiving half, after the bits `before`, these bits have been fed;
        looked into only where that is wanted. */
    ghost predicate Fed(r: Rx, l: RxLog, before: seq<bool>, bits: seq<bool>)
      reads `log, uart, uart.rx, uart.rx.buf
    {
      forall b {:trigger FedAs(r, l, before, b)} :: b == bits ==> FedAs(r, l, before, b)
    }

    /** One bit into the converter. */
    method FeedBit(bit: bool, ghost r: Rx, ghost l: RxLog, ghost before: seq<bool>, ghost bits: seq<bool>)
      requires Fed(r, l, before, bits)
      modifies this`log, uart`rxFrame, uart`rxDataBits, uart`rxReceiving, uart`got, uart.rx`tail, uart.rx.buf
      ensures Fed(r, l, before, bits + [bit])
    {
      assert FedAs(r, l, before, bits);
      ghost var size, now := uart.rx.buf.Length, uart.Receiver();
      TakeOn(true, size, r, bits, [bit]);
      TakeHeard(true, size, now, [bit], log);
      Regroup(before, bits, [bit]);
      uart.PutRxBit(bit);
      log := log.(heard := log.heard + [bit], lost := log.lost || Overflows(true, size, now, [bit]));
      assert FedAs(r, l, before, bits + [bit]);
    }

    /** The bits of one symbol, through the descrambler and into the converter. */
    method FeedSymbol(line: seq<bool>, ghost before: seq<bool>) returns (ghost bits: seq<bool>)
      requires Hears(before)
      modifies this`history, this`log
      modifies uart`rxFrame, uart`rxDataBits, uart`rxReceiving, uart`got, uart.rx`tail, uart.rx.buf
      ensures Fed(old(uart.Receiver()), old(log), before, bits)
      ensures DescrambleAll(tap, old(history), line) == (history, bits)
    {
      bits := [];
      ghost var start, r, l := history, uart.Receiver(), log;
      NothingMoreBits(before);
      TakeNone(true, uart.rx.buf.Length, r);
      assert FedAs(r, l, before, []);
      for n := 0 to |line|
        invariant Fed(r, l, before, bits) && |bits| == n
        invariant DescrambleAll(tap, start, line[..n]) == (history, bits)
      {
        assert line[..n + 1] == line[..n] + [line[n]];
        SendSnoc(Descrambling(tap), start, line[..n], line[n]);
        var (h, bit) := Descramble(tap, history, line[n]);
        history := h;
        FeedBit(bit, r, l, before, bits);
        bits := bits + [bit];
      }
      assert line[..|line|] == line;
    }

    /** A decoded payload: back to bits, and into the converter. */
    method FeedPayload(payload: nat, ghost before: seq<bool>) returns (ghost bits: seq<bool>)
      requires Hears(before)
      modifies this`history, this`previous, this`log
      modifies uart`rxFrame, uart`rxDataBits, uart`rxReceiving, uart`got, uart.rx`tail, uart.rx.buf
      ensures Fed(old(uart.Receiver()), old(log), before, bits)
      ensures (Line(history, previous), bits) == Demodulate(rate, tap, old(Line(history, previous)), payload)
    {
      var y12 := payload / PerSubset(rate);
      var q12 := DiffDecode(y12, previous);
      var line := MsbBits(q12, 2) + MsbBits(payload % PerSubset(rate), ExtraBits(rate));
      bits := FeedSymbol(line, before);
      previous := y12;
    }

    /** And on to the symbols before it. */
    method Deliver(payload: nat)
      requires Lined(Line(history, previous)) && Hears(Flat(groups))
      modifies this`history, this`previous, this`payloads, this`groups, this`log
      modifies uart`rxFrame, uart`rxDataBits, uart`rxReceiving, uart`got, uart.rx`tail, uart.rx.buf
      ensures Lined(Line(history, previous)) && payloads == old(payloads) + [payload]
      ensures |groups| == |old(groups)| + 1 && groups[..|old(groups)|] == old(groups)
      ensures Fed(old(uart.Receiver()), old(log), Flat(old(groups)), groups[|old(groups)|])
    {
      ghost var bits := FeedPayload(payload, Flat(groups));
      SendSnoc(Taking(rate, tap), START, payloads, payload);
      payloads := payloads + [payload];
      groups := groups + [bits];
    }

    lemma StillHears(r: Rx, l: RxLog, before: seq<seq<bool>>)
      requires |groups| == |before| + 1 && groups[..|before|] == before && Fed(r, l, Flat(before), groups[|before|])
      ensures Hears(Flat(groups))
    {
      FlatLast(before, groups);
      assert FedAs(r, l, Flat(before), groups[|before|]);
    }

    /** v32bis_data_put: whether a symbol has been decoded, and what it brings to the ring. */
    method Put(r: Received) returns (decoded: bool)
      requires Valid()
      modifies this`history, this`previous, this`payloads, this`groups, this`log
      modifies viterbi`metrics, viterbi`time, viterbi`received, viterbi`history, viterbi.predecessor, viterbi.payload
      modifies uart`rxFrame, uart`rxDataBits, uart`rxReceiving, uart`got, uart.rx`tail, uart.rx.buf
      ensures Valid() && viterbi.received == old(viterbi.received) + [r] && decoded == (viterbi.time >= TRACEBACK)
      ensures !decoded ==> uart.Receiver() == old(uart.Receiver()) && log == old(log) && groups == old(groups)
      ensures decoded ==>
        |groups| == |old(groups)| + 1 &&
        Fed(old(uart.Receiver()), old(log), Flat(old(groups)), groups[|old(groups)|])
    {
      var out := DecodeSymbol(r);
      if out.None? {
        assert payloads + Listed(out) == payloads;
        return false;
      }
      ghost var r, l, before := uart.Receiver(), log, groups;
      Deliver(out.value);
      StillHears(r, l, before);
      return true;
    }

    /** v32bis_data_read. */
    method Read(capacity: nat) returns (bytes: seq<Byte>)
      requires Valid()
      modifies this`log, uart.rx`head
      ensures Valid() && old(uart.rx.Items()) == bytes + uart.rx.Items()
      ensures |bytes| == if capacity <= |old(uart.rx.Items())| then capacity else |old(uart.rx.Items())|
      ensures log == old(log).(taken := old(log.taken) + bytes)
    {
      ghost var r := uart.Receiver();
      bytes := uart.rx.Read(capacity);
      ReadHeard(true, r, |bytes|, log);
      assert r.waiting[..|bytes|] == bytes && r.waiting[|bytes|..] == uart.rx.Items();
      log := log.(taken := log.taken + bytes);
    }

    /** The Viterbi decoder's part of it. */
    method DecodeSymbol(r: Received) returns (out: Option<nat>)
      requires Decoded()
      modifies viterbi`metrics, viterbi`time, viterbi`received, viterbi`history, viterbi.predecessor, viterbi.payload
      ensures viterbi.Valid() && viterbi.received == old(viterbi.received) + [r]
      ensures out.Some? <==> viterbi.time >= TRACEBACK
      ensures AllNearest(rate, viterbi.m, viterbi.received, payloads + Listed(out))
    {
      out := viterbi.Put(r);
      StillNearest(rate, viterbi.m, old(viterbi.received), r, payloads, out);
    }
  }

  function Listed(out: Option<nat>): seq<nat> {
    if out.Some? then [out.value] else []
  }

  lemma EarlierNearest(rate: Rate, m: Metric, rs: seq<Received>, r: Received, t: nat, payload: nat)
    requires t + TRACEBACK <= |rs| && FromNearest(rate, m, rs, t, payload)
    ensures FromNearest(rate, m, rs + [r], t, payload)
  {
    var path := NearestGiven(rate, m, rs, t, payload);
    assert (rs + [r])[..t + TRACEBACK] == rs[..t + TRACEBACK];
  }

  lemma LatestNearest(rate: Rate, m: Metric, rs: seq<Received>, t: nat, payload: nat, path: Path)
    requires t + TRACEBACK == |rs| && Nearest(rate, m, rs, path) && payload == Payload(rate, path[t])
    ensures FromNearest(rate, m, rs, t, payload)
  {
    assert rs[..t + TRACEBACK] == rs;
  }

  lemma StillNearest(rate: Rate, m: Metric, rs: seq<Received>, r: Received, payloads: seq<nat>, out: Option<nat>)
    requires AllNearest(rate, m, rs, payloads) && (out.Some? <==> |rs| + 1 >= TRACEBACK)
    requires out.Some? ==>
      exists path :: Nearest(rate, m, rs + [r], path) && out.value == Payload(rate, path[|rs| + 1 - TRACEBACK])
    ensures AllNearest(rate, m, rs + [r], payloads + Listed(out))
  {
    var longer := payloads + Listed(out);
    forall t | 0 <= t < |longer|
      ensures FromNearest(rate, m, rs + [r], t, longer[t])
    {
      if t < |payloads| {
        EarlierNearest(rate, m, rs, r, t, payloads[t]);
      } else {
        var path :| Nearest(rate, m, rs + [r], path) && out.value == Payload(rate, path[|rs| + 1 - TRACEBACK]);
        LatestNearest(rate, m, rs + [r], t, out.value, path);
      }
    }
  }

  // ---- From one end to the other -------------------------------------------------------------------------

  /** The payload given for a symbol of such a line is that symbol's. */
  lemma NearestGiven(rate: Rate, m: Metric, rs: seq<Received>, t: nat, payload: nat) returns (path: Path)
    requires t + TRACEBACK <= |rs| && FromNearest(rate, m, rs, t, payload)
    ensures Nearest(rate, m, rs[..t + TRACEBACK], path) && payload == PayloadOf(rate, path[t])
  {
    path :| Nearest(rate, m, rs[..t + TRACEBACK], path) && payload == PayloadOf(rate, path[t]);
  }

  lemma PayloadSent(rate: Rate, m: Metric, rs: seq<Received>, w: Path, t: nat, payload: nat)
    requires Measures(m, rate) && Close(rate, rs, w) && t + TRACEBACK <= |rs| && FromNearest(rate, m, rs, t, payload)
    ensures payload == PayloadOf(rate, w[t])
  {
    var n := t + TRACEBACK;
    var heard, sent := rs[..n], w[..n];
    var path := NearestGiven(rate, m, rs, t, payload);
    ClosePrefix(rate, rs, w, n);
    NearestIsTruth(rate, m, heard, sent, path);
    assert sent[t] == w[t];
  }

  function PayloadsOf(rate: Rate, path: Path): (r: seq<nat>)
    ensures |r| == |path| && forall i :: 0 <= i < |path| ==> r[i] == PayloadOf(rate, path[i])
  {
    seq(|path|, i requires 0 <= i < |path| => PayloadOf(rate, path[i]))
  }

  /** Taking payloads is taking the branches they stand for. */
  lemma {:induction false} TakingBranches(rate: Rate, tap: nat, s: Line, path: Path)
    ensures SendAll(Taking(rate, tap), s, PayloadsOf(rate, path)) == SendAll(Demodulating(rate, tap), s, path)
  {
    if path != [] {
      var n := |path| - 1;
      TakingBranches(rate, tap, s, path[..n]);
      assert PayloadsOf(rate, path)[..n] == PayloadsOf(rate, path[..n]);
    }
  }

  lemma PayloadsSent(rate: Rate, m: Metric, rs: seq<Received>, w: Path, payloads: seq<nat>)
    requires Measures(m, rate) && Close(rate, rs, w) && AllNearest(rate, m, rs, payloads)
    ensures payloads == PayloadsOf(rate, w[..|payloads|])
  {
    forall t | 0 <= t < |payloads|
      ensures payloads[t] == PayloadOf(rate, w[t])
    {
      PayloadSent(rate, m, rs, w, t, payloads[t]);
    }
  }

  lemma PrefixBack<S, A, B>(send: (S, A) -> (S, B), take: (S, B) -> (S, A), s: S, items: seq<A>, n: nat)
    requires n <= |items| && SendAll(take, s, SendAll(send, s, items[..n]).1).1 == items[..n]
    ensures SendAll(take, s, SendAll(send, s, items).1[..n]).1 == items[..n]
  {
    SendPrefix(send, s, items, n);
  }

  lemma GroupsBack(rate: Rate, tap: nat, groups: seq<seq<bool>>, path: Path, n: nat)
    requires Groups(rate, groups) && SendAll(Modulating(rate, tap), START, groups).1 == path && n <= |groups|
    ensures SendAll(Taking(rate, tap), START, PayloadsOf(rate, path[..n])).1 == groups[..n]
  {
    var first := groups[..n];
    assert Groups(rate, first);
    TakingBranches(rate, tap, START, path[..n]);
    LineRoundTrip(rate, tap, START, first);
    PrefixBack(Modulating(rate, tap), Demodulating(rate, tap), START, groups, n);
  }

  lemma FirstDelivered(groups: seq<seq<bool>>, n: nat, accepted: seq<Byte>)
    requires n <= |groups| && Run(Async.Tolerant, Async.Idle, Flat(groups)).1 <= accepted
    ensures Run(Async.Tolerant, Async.Idle, Flat(groups[..n])).1 <= accepted
  {
    FlatSplit(groups, n);
    Async.PartReads(Async.Tolerant, Async.Idle, Flat(groups[..n]), Flat(groups[n..]));
  }

  lemma FirstOfFirst(path: Path, k: nat, n: nat)
    requires n <= k <= |path|
    ensures path[..k][..n] == path[..n]
  {
  }

  /** When every symbol received is nearer to the point sent than to all others, every symbol
      comes through, bit for bit, 31 symbols late, and the bytes read and waiting to be read are
      the first of those the sender accepted, unless one found the ring full. */
  lemma EndToEnd(s: Sender, r: Receiver)
    requires s.Valid() && r.Valid() && s.rate == r.rate && s.tap == r.tap
    requires |r.viterbi.received| <= |s.path| && Close(s.rate, r.viterbi.received, s.path[..|r.viterbi.received|])
    ensures var n := Given(|r.viterbi.received|);
      && n <= |s.path| == |s.groups| && r.payloads == PayloadsOf(s.rate, s.path[..n]) && r.groups == s.groups[..n]
      && (r.log.lost || r.log.taken + r.uart.rx.Items() <= s.uart.log.accepted)
  {
    assert s.CodedAs(Line(s.history, s.previous));
    var rs := r.viterbi.received;
    var n := |r.payloads|;
    PayloadsSent(s.rate, r.viterbi.m, rs, s.path[..|rs|], r.payloads);
    FirstOfFirst(s.path, |rs|, n);
    GroupsBack(s.rate, s.tap, s.groups, s.path, n);
    SentReads(s.uart);
    FirstDelivered(s.groups, n, s.uart.log.accepted);
  }

  lemma AllDelivered(groups: seq<seq<bool>>, k: nat, n: nat, accepted: seq<Byte>)
    requires k <= n <= |groups| && Run(Async.Tolerant, Async.Idle, Flat(groups[..n])).1 <= accepted
    requires Run(Async.Tolerant, Async.Idle, Flat(groups[..k])).1 == accepted
    ensures Run(Async.Tolerant, Async.Idle, Flat(groups[..n])).1 == accepted
  {
    FlatSplit(groups[..n], k);
    assert groups[..n][..k] == groups[..k];
    Async.PartReads(Async.Tolerant, Async.Idle, Flat(groups[..k]), Flat(groups[..n][k..]));
  }

  /** Once everything accepted had gone out after `k` symbols and 31 more have come, it is all
      there. */
  lemma EndToEndComplete(s: Sender, r: Receiver, k: nat)
    requires s.Valid() && r.Valid() && s.rate == r.rate && s.tap == r.tap
    requires |r.viterbi.received| <= |s.path| && Close(s.rate, r.viterbi.received, s.path[..|r.viterbi.received|])
    requires s.Emptied(k) && |r.viterbi.received| >= k + TRACEBACK - 1 && !r.log.lost
    ensures r.log.taken + r.uart.rx.Items() == s.uart.log.accepted
  {
    EndToEnd(s, r);
    var n := Given(|r.viterbi.received|);
    SentReads(s.uart);
    FirstDelivered(s.groups, n, s.uart.log.accepted);
    AllDelivered(s.groups, k, n, s.uart.log.accepted);
  }

  lemma {:induction false} FlatSplit(groups: seq<seq<bool>>, n: nat)
    requires n <= |groups|
    ensures Flat(groups) == Flat(groups[..n]) + Flat(groups[n..])
  {
    if n == |groups| {
      assert groups[..n] == groups && groups[n..] == [];
    } else {
      var k := |groups| - 1;
      FlatSplit(groups[..k], n);
      assert groups[..k][..n] == groups[..n];
      assert groups[n..][..k - n] == groups[..k][n..];
      Regroup(Flat(groups[..n]), Flat(groups[..k][n..]), groups[k]);
    }
  }
}
