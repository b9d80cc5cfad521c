/** From frames queued on a stream to frames decoded at its far end: whatever the idle gaps
    and the chunks in which octets arrive, the pieces that decode are the frames sent. */
module StreamDelivery {
  import opened Wrappers
  import opened Bits
  import opened Hdlc
  import opened StreamSpec
  import opened Transducer

  const FRESH: Cutter := Cutter([], false)
  const AT_FLAG: Cutter := Cutter(FLAG, true)

  type Decoder = seq<bool> -> Option<seq<Byte>>

  /** The frames among the pieces a receiver cuts. */
  function Good(d: Decoder, pieces: seq<seq<bool>>): (frames: seq<seq<Byte>>) {
    if pieces == [] then []
    else (match d(pieces[0]) case None => [] case Some(f) => [f]) + Good(d, pieces[1..])
  }

  /** All that is used of the HDLC decoder: frames come back, short pieces do not count. */
  ghost predicate Sound(d: Decoder) {
    && (forall f: seq<Byte> :: 1 <= |f| <= MAX_INFO + 2 ==> d(Encoded(f)) == Some(f))
    && (forall body: seq<bool> :: 0 < |body| < 24 && ShortRuns(body, 0) ==> d(FLAG + body + FLAG) == None)
  }

  lemma {:induction false} GoodAppend(d: Decoder, a: seq<seq<bool>>, b: seq<seq<bool>>)
    ensures Good(d, a + b) == Good(d, a) + Good(d, b)
  {
    if a == [] {
      assert a + b == b;
    } else {
      assert (a + b)[1..] == a[1..] + b;
      GoodAppend(d, a[1..], b);
    }
  }

  lemma GoodOne(d: Decoder, piece: seq<bool>)
    ensures Good(d, [piece]) == match d(piece) case None => [] case Some(f) => [f]
  {
    assert [piece][1..] == [];
  }

  // ---- Cutting --------------------------------------------------------------------

  /** No flag ends inside `t` when it follows `s`, in its first `n - 1` bits. */
  ghost predicate NoFlagEnds(s: seq<bool>, t: seq<bool>, n: nat)
    requires n <= |t| + 1
  {
    forall m :: 0 < m < n ==> !EndsIn(s + t[..m], FLAG)
  }

  lemma OneMore(s: seq<bool>, t: seq<bool>, m: nat)
    requires m < |t|
    ensures (s + t[..m]) + [t[m]] == s + t[..m + 1]
  {
  }

  lemma NothingPlus<T>(a: seq<T>)
    ensures [] + a == a && a + [] == a
  {
  }

  /** Bits that complete no flag only pile up. */
  lemma {:induction false} CutNothing(s: seq<bool>, t: seq<bool>, n: nat, inFrame: bool)
    requires n <= |t| && |s| + n <= MAX_BITS && NoFlagEnds(s, t, n + 1)
    ensures RunTo(Cut, Cutter(s, inFrame), t, n) == (Cutter(s + t[..n], inFrame), [])
  {
    if n == 0 {
      assert s + t[..0] == s;
    } else {
      CutNothing(s, t, n - 1, inFrame);
      OneMore(s, t, n - 1);
      assert !EndsIn(s + t[..n], FLAG);
      NothingPlus(Cut(Cutter(s + t[..n - 1], inFrame), t[n - 1]).1);
    }
  }

  lemma CutByFlag(s: seq<bool>, b: bool, inFrame: bool)
    requires |s| < MAX_BITS && EndsIn(s + [b], FLAG)
    ensures Cut(Cutter(s, inFrame), b) == (AT_FLAG, if inFrame && |s| >= 16 then [s + [b]] else [])
  {
  }

  lemma CutLast(c: Cutter, t: seq<bool>, c1: Cutter)
    requires 0 < |t| && RunTo(Cut, c, t, |t| - 1) == (c1, [])
    ensures CutAll(c, t) == Cut(c1, t[|t| - 1])
  {
    NothingPlus(Cut(c1, t[|t| - 1]).1);
  }

  /** The bit that completes the next flag cuts, unless it is the first flag or the piece is
      two flags or less. */
  lemma CutAtFlag(s: seq<bool>, t: seq<bool>, inFrame: bool)
    requires 0 < |t| && |s| + |t| <= MAX_BITS && NoFlagEnds(s, t, |t|) && EndsIn(s + t, FLAG)
    ensures CutAll(Cutter(s, inFrame), t) == (AT_FLAG, if inFrame && |s| + |t| > 16 then [s + t] else [])
  {
    var n := |t| - 1;
    CutNothing(s, t, n, inFrame);
    OneMore(s, t, n);
    assert t[..n + 1] == t;
    CutLast(Cutter(s, inFrame), t, Cutter(s + t[..n], inFrame));
    CutByFlag(s + t[..n], t[n], inFrame);
  }

  lemma PrefixOf(s: seq<bool>, t: seq<bool>, w: seq<bool>, m: nat)
    requires m <= |t| && w == s + t
    ensures s + t[..m] == w[..|s| + m]
  {
  }

  /** Where flags end in flag, body, flag: behind the two. */
  lemma BodyFlagEnd(body: seq<bool>, m: nat)
    requires ShortRuns(body, 0) && 8 < m < |body| + 16
    ensures !EndsIn((FLAG + body + FLAG)[..m], FLAG)
  {
    var w := FLAG + body + FLAG;
    EndsInFlag(w[..m]);
    if EndsIn(w[..m], FLAG) {
      PrefixFlag(w, m);
      FlagsAround(body, m - 8);
    }
  }

  lemma LastFlagEnd(body: seq<bool>)
    ensures EndsIn(FLAG + body + FLAG, FLAG)
  {
    FlagsThere(FLAG, body);
    EndsInFlag(FLAG + body + FLAG);
  }

  lemma PrefixFlag(w: seq<bool>, m: nat)
    requires 8 <= m <= |w| && FlagAt(w[..m], m - 8)
    ensures FlagAt(w, m - 8)
  {
    forall k | 0 <= k < 8
      ensures w[m - 8 + k] == FLAG[k]
    {
      assert w[..m][m - 8 + k] == FLAG[k];
    }
  }

  lemma NoFlagInBody(s: seq<bool>, t: seq<bool>, body: seq<bool>)
    requires ShortRuns(body, 0) && s + t == FLAG + body + FLAG && |s| >= 8 && 0 < |t|
    ensures NoFlagEnds(s, t, |t|) && EndsIn(s + t, FLAG)
  {
    var w := FLAG + body + FLAG;
    forall m | 0 < m < |t|
      ensures !EndsIn(s + t[..m], FLAG)
    {
      PrefixOf(s, t, w, m);
      BodyFlagEnd(body, |s| + m);
    }
    LastFlagEnd(body);
  }

  lemma Around(head: seq<bool>, rest: seq<bool>)
    ensures (FLAG + head) + (rest + FLAG) == FLAG + (head + rest) + FLAG
  {
  }

  /** Between two flags with no longer run of ones than a sender makes; `head` is what has
      arrived of the body. */
  lemma CutBodyFrom(head: seq<bool>, rest: seq<bool>)
    requires ShortRuns(head + rest, 0) && 16 + |head| + |rest| <= MAX_BITS
    ensures var body := head + rest;
      CutAll(Cutter(FLAG + head, true), rest + FLAG)
      == (AT_FLAG, if body == [] then [] else [FLAG + body + FLAG])
  {
    Around(head, rest);
    NoFlagInBody(FLAG + head, rest + FLAG, head + rest);
    CutAtFlag(FLAG + head, rest + FLAG, true);
  }

  lemma CutBody(body: seq<bool>)
    requires ShortRuns(body, 0) && 16 + |body| <= MAX_BITS
    ensures CutAll(AT_FLAG, body + FLAG) == (AT_FLAG, if body == [] then [] else [FLAG + body + FLAG])
  {
    assert [] + body == body && FLAG + [] == FLAG;
    CutBodyFrom([], body);
  }

  lemma CutFlag()
    ensures CutAll(AT_FLAG, FLAG) == (AT_FLAG, [])
  {
    CutBody([]);
    assert [] + FLAG == FLAG;
  }

  lemma NoEarlierFlag()
    ensures NoFlagEnds([], FLAG, 8) && EndsIn([] + FLAG, FLAG)
  {
    forall m | 0 < m < 8
      ensures !EndsIn([] + FLAG[..m], FLAG)
    {
      EndsInFlag([] + FLAG[..m]);
    }
    EndsInFlag([] + FLAG);
  }

  lemma CutFirstFlag()
    ensures CutAll(FRESH, FLAG) == (AT_FLAG, [])
  {
    NoEarlierFlag();
    CutAtFlag([], FLAG, false);
  }

  /** What a receiver makes of `bits`: its state, and the frames it could decode. */
  type Machine = (Cutter, seq<bool>) -> (Cutter, seq<seq<Byte>>)

  function Cuts(d: Decoder): Machine {
    (c: Cutter, bits: seq<bool>) => var (c', pieces) := CutAll(c, bits); (c', Good(d, pieces))
  }

  /** A state from which a flag leads to AT_FLAG and completes no frame. */
  ghost predicate Opens(run: Machine, c: Cutter) {
    run(c, FLAG) == (AT_FLAG, [])
  }

  ghost predicate Appends(run: Machine, c: Cutter, a: seq<bool>, b: seq<bool>) {
    run(c, a + b) == (run(run(c, a).0, b).0, run(c, a).1 + run(run(c, a).0, b).1)
  }

  ghost predicate Frames(run: Machine, c: Cutter, f: seq<Byte>) {
    Opens(run, c) && 1 <= |f| <= MAX_INFO + 2 ==> run(c, Encoded(f)) == (AT_FLAG, [f])
  }

  ghost predicate Tails(run: Machine, k: nat) {
    1 <= k <= 7 ==> run(AT_FLAG, FLAG[k..]).1 == [] && Opens(run, run(AT_FLAG, FLAG[k..]).0)
  }

  /** All that the whole-run proofs use of the receiver. */
  ghost predicate Laws(run: Machine) {
    && run(FRESH, []) == (FRESH, []) && Opens(run, FRESH) && Opens(run, AT_FLAG)
    && (forall c, a, b :: Appends(run, c, a, b))
    && (forall c, f :: Frames(run, c, f))
    && (forall k: nat :: Tails(run, k))
  }

  lemma AppendLaw(run: Machine, c: Cutter, a: seq<bool>, b: seq<bool>)
    requires Laws(run)
    ensures run(c, a + b) == (run(run(c, a).0, b).0, run(c, a).1 + run(run(c, a).0, b).1)
  {
    assert Appends(run, c, a, b);
  }

  lemma CutFrame(d: Decoder, c: Cutter, frame: seq<Byte>)
    requires Sound(d) && Opens(Cuts(d), c) && 1 <= |frame| <= MAX_INFO + 2
    ensures Cuts(d)(c, Encoded(frame)) == (AT_FLAG, [frame])
  {
    EncodedLength(frame);
    StuffShortRuns(Serial(frame + FcsOctets(frame)), 0);
    CutFramed(d, c, Body(frame), frame);
  }

  lemma CutFramed(d: Decoder, c: Cutter, body: seq<bool>, frame: seq<Byte>)
    requires Opens(Cuts(d), c) && body != [] && ShortRuns(body, 0) && 16 + |body| <= MAX_BITS
    requires d(FLAG + body + FLAG) == Some(frame)
    ensures Cuts(d)(c, FLAG + body + FLAG) == (AT_FLAG, [frame])
  {
    CutBody(body);
    GoodOne(d, FLAG + body + FLAG);
    CutsTwo(d, c, FLAG, body + FLAG);
    Regroup(FLAG, body, FLAG);
  }

  lemma CutsTwo(d: Decoder, c: Cutter, a: seq<bool>, b: seq<bool>)
    requires Cuts(d)(c, a) == (AT_FLAG, [])
    ensures Cuts(d)(c, a + b) == Cuts(d)(AT_FLAG, b)
  {
    CutsAppend(d, c, a, b);
    NothingPlus(Cuts(d)(AT_FLAG, b).1);
  }

  // ---- Idle line ------------------------------------------------------------------

  /** The rest of a flag that a closing flag has left of an octet. */
  lemma TailShortRuns(k: nat)
    requires 2 <= k <= 7
    ensures ShortRuns(FLAG[k..], 0)
  {
    var r := FLAG[k..];
    assert forall j :: 0 <= j < |r| ==> r[j] == (j < |r| - 1);
    OnesThenZero(r, 0);
  }

  lemma {:induction false} OnesThenZero(r: seq<bool>, ones: nat)
    requires r != [] && ones + |r| - 1 <= 5 && forall j :: 0 <= j < |r| ==> r[j] == (j < |r| - 1)
    ensures ShortRuns(r, ones)
    decreases |r|
  {
    if |r| > 1 {
      OnesThenZero(r[1..], ones + 1);
    } else {
      assert r[1..] == [];
    }
  }

  lemma {:induction false} UnstuffShorter(s: seq<bool>, ones: nat)
    ensures Unstuff(s, ones).Some? ==> |Unstuff(s, ones).value| <= |s|
    decreases |s|
  {
    if s != [] {
      UnstuffShorter(s[1..], ones + 1);
      UnstuffShorter(s[1..], 0);
    }
  }

  /** A piece of less than three octets never decodes. */
  lemma ShortPieceBad(body: seq<bool>)
    requires 0 < |body| < 24 && ShortRuns(body, 0)
    ensures Decoded(FLAG + body + FLAG) == None
  {
    BetweenFlags(body);
    UnstuffShorter(body, 0);
  }

  /** After a flag the end of another one makes a flag with its last zero only from the
      second bit on. */
  lemma TailFlagEnd(k: nat, m: nat)
    requires 1 <= k <= 7 && 0 < m <= 8 - k
    ensures EndsIn(FLAG + FLAG[k..][..m], FLAG) <==> k == 1 && m == 7
  {
    var w := FLAG + FLAG[k..][..m];
    EndsInFlag(w);
    if m < 7 && EndsIn(w, FLAG) {
      FlagBits(w, m, 7 - m);
    }
  }

  lemma TailOneFlag(r: seq<bool>)
    requires r == FLAG[1..]
    ensures NoFlagEnds(FLAG, r, |r|) && EndsIn(FLAG + r, FLAG)
  {
    forall m | 0 < m <= |r|
      ensures EndsIn(FLAG + r[..m], FLAG) <==> m == 7
    {
      TailFlagEnd(1, m);
    }
    assert r[..7] == r;
  }

  lemma TailNoFlag(r: seq<bool>, k: nat)
    requires 2 <= k <= 7 && r == FLAG[k..]
    ensures NoFlagEnds(FLAG, r, |r| + 1)
  {
    forall m | 0 < m <= |r|
      ensures !EndsIn(FLAG + r[..m], FLAG)
    {
      TailFlagEnd(k, m);
    }
  }

  lemma CutPiece(r: seq<bool>)
    requires |r| <= 6 && NoFlagEnds(FLAG, r, |r| + 1)
    ensures CutAll(AT_FLAG, r) == (Cutter(FLAG + r, true), [])
  {
    CutNothing(FLAG, r, |r|, true);
    assert r[..|r|] == r;
  }

  lemma TailBody(r: seq<bool>)
    requires 0 < |r| <= 6 && ShortRuns(r, 0)
    ensures CutAll(Cutter(FLAG + r, true), FLAG) == (AT_FLAG, [FLAG + r + FLAG])
  {
    assert r + [] == r && [] + FLAG == FLAG;
    CutBodyFrom(r, []);
  }

  lemma CutTailOne(d: Decoder)
    ensures Tails(Cuts(d), 1)
  {
    TailOneFlag(FLAG[1..]);
    CutAtFlag(FLAG, FLAG[1..], true);
    CutFlag();
  }

  /** A few bits behind a flag are a short piece for the next flag to end. */
  lemma CutShort(d: Decoder, r: seq<bool>)
    requires Sound(d) && 0 < |r| <= 6 && ShortRuns(r, 0) && NoFlagEnds(FLAG, r, |r| + 1)
    ensures Cuts(d)(AT_FLAG, r).1 == [] && Opens(Cuts(d), Cuts(d)(AT_FLAG, r).0)
  {
    CutPiece(r);
    TailBody(r);
    GoodOne(d, FLAG + r + FLAG);
  }

  /** After a frame, idle bits that start inside an octet: the rest of a flag either makes a
      flag with the closing zero, or is such a piece. */
  lemma CutTail(d: Decoder, k: nat)
    requires 1 <= k <= 7 && Sound(d)
    ensures Tails(Cuts(d), k)
  {
    if k == 1 {
      CutTailOne(d);
    } else {
      TailNoFlag(FLAG[k..], k);
      TailShortRuns(k);
      CutShort(d, FLAG[k..]);
    }
  }

  lemma CutsAppend(d: Decoder, c: Cutter, a: seq<bool>, b: seq<bool>)
    ensures var run := Cuts(d);
      run(c, a + b) == (run(run(c, a).0, b).0, run(c, a).1 + run(run(c, a).0, b).1)
  {
    RunAppend(Cut, c, a, b);
    var (c1, p) := CutAll(c, a);
    GoodAppend(d, p, CutAll(c1, b).1);
  }

  lemma CutsLaws(d: Decoder)
    requires Sound(d)
    ensures Laws(Cuts(d))
  {
    var run := Cuts(d);
    CutFlag();
    CutFirstFlag();
    forall c, a, b
      ensures Appends(run, c, a, b)
    {
      CutsAppend(d, c, a, b);
    }
    forall c, f
      ensures Frames(run, c, f)
    {
      if Opens(run, c) && 1 <= |f| <= MAX_INFO + 2 {
        CutFrame(d, c, f);
      }
    }
    forall k: nat
      ensures Tails(run, k)
    {
      if 1 <= k <= 7 {
        CutTail(d, k);
      }
    }
  }

  /** The idle bits that fill up an octet decode to nothing. */
  lemma TailLaw(run: Machine, c: Cutter, k: nat)
    requires Laws(run) && Opens(run, c) && k < 8 && (k != 0 ==> c == AT_FLAG)
    ensures run(c, FLAG[k..]).1 == [] && Opens(run, run(c, FLAG[k..]).0)
  {
    assert FLAG[0..] == FLAG;
    assert Tails(run, k);
  }

  // ---- A sender's whole run ---------------------------------------------------------

  datatype TxEvent = Queue(frame: seq<Byte>) | Emit(octets: nat)

  /** Bits waiting, bits put on the line so far, frames accepted so far. */
  datatype Sender = Sender(queue: seq<bool>, line: seq<bool>, sent: seq<seq<Byte>>)

  function StepTx(t: Sender, e: TxEvent): Sender {
    match e
    case Queue(f) =>
      if 1 <= |f| <= MAX_INFO + 2 && Fits(t.queue, Encoded(f))
      then t.(queue := t.queue + Encoded(f), sent := t.sent + [f]) else t
    case Emit(n) => t.(queue := Remaining(t.queue, n), line := t.line + Emitted(t.queue, n))
  }

  function RunTx(t: Sender, es: seq<TxEvent>): Sender
    decreases |es|
  {
    if es == [] then t else RunTx(StepTx(t, es[0]), es[1..])
  }

  /** The line and what still waits behind it make exactly the frames sent. */
  ghost predicate Whole(run: Machine, w: seq<bool>, sent: seq<seq<Byte>>, pending: bool) {
    run(FRESH, w).1 == sent && Opens(run, run(FRESH, w).0) && (pending ==> run(FRESH, w).0 == AT_FLAG)
  }

  ghost predicate Accounted(run: Machine, t: Sender) {
    Whole(run, t.line + t.queue, t.sent, t.queue != [])
  }

  lemma WholeFrame(run: Machine, w: seq<bool>, sent: seq<seq<Byte>>, pending: bool, f: seq<Byte>)
    requires Laws(run) && Whole(run, w, sent, pending) && 1 <= |f| <= MAX_INFO + 2
    ensures Whole(run, w + Encoded(f), sent + [f], true)
  {
    AppendLaw(run, FRESH, w, Encoded(f));
    assert Frames(run, run(FRESH, w).0, f);
  }

  lemma WholeThen(run: Machine, w: seq<bool>, sent: seq<seq<Byte>>, pending: bool, idle: seq<bool>)
    requires Laws(run) && Whole(run, w, sent, pending)
    requires var (c', frames) := run(run(FRESH, w).0, idle); frames == [] && Opens(run, c')
    ensures Whole(run, w + idle, sent, false)
  {
    AppendLaw(run, FRESH, w, idle);
    NothingPlus(sent);
  }

  /** One octet moves from the queue to the line. */
  lemma OctetAccounted(run: Machine, line: seq<bool>, queue: seq<bool>, sent: seq<seq<Byte>>)
    requires Laws(run) && Whole(run, line + queue, sent, queue != [])
    ensures Whole(run, (line + EmitOctet(queue)) + AfterOctet(queue), sent, AfterOctet(queue) != [])
  {
    if |queue| >= 8 {
      Regroup(line, queue[..8], queue[8..]);
      assert queue[..8] + queue[8..] == queue;
    } else {
      var idle := FLAG[|queue|..];
      TailLaw(run, run(FRESH, line + queue).0, |queue|);
      WholeThen(run, line + queue, sent, queue != [], idle);
      Regroup(line, queue, idle);
      NothingPlus(line + (queue + idle));
    }
  }

  lemma {:induction false} EmitAccounted(run: Machine, t: Sender, n: nat)
    requires Laws(run) && Accounted(run, t)
    ensures Accounted(run, t.(queue := Remaining(t.queue, n), line := t.line + Emitted(t.queue, n)))
    decreases n
  {
    if n == 0 {
      NothingPlus(t.line);
    } else {
      EmitAccounted(run, t, n - 1);
      var queue := Remaining(t.queue, n - 1);
      OctetAccounted(run, t.line + Emitted(t.queue, n - 1), queue, t.sent);
      Regroup(t.line, Emitted(t.queue, n - 1), EmitOctet(queue));
    }
  }

  lemma StepAccounted(run: Machine, t: Sender, e: TxEvent)
    requires Laws(run) && Accounted(run, t)
    ensures Accounted(run, StepTx(t, e))
  {
    match e
    case Queue(f) =>
      if 1 <= |f| <= MAX_INFO + 2 && Fits(t.queue, Encoded(f)) {
        WholeFrame(run, t.line + t.queue, t.sent, t.queue != [], f);
        Regroup(t.line, t.queue, Encoded(f));
      }
    case Emit(n) => EmitAccounted(run, t, n);
  }

  lemma {:induction false} RunAccounted(run: Machine, t: Sender, es: seq<TxEvent>)
    requires Laws(run) && Accounted(run, t)
    ensures Accounted(run, RunTx(t, es))
    decreases |es|
  {
    if es != [] {
      StepAccounted(run, t, es[0]);
      RunAccounted(run, StepTx(t, es[0]), es[1..]);
    }
  }

  lemma StartAccounted(run: Machine)
    requires Laws(run)
    ensures Accounted(run, NOTHING_SENT)
  {
    var none: seq<bool> := [];
    assert none + none == none;
  }

  // ---- What the sender takes ---------------------------------------------------------

  function Queues(frames: seq<seq<Byte>>): (es: seq<TxEvent>)
    ensures |es| == |frames|
  {
    seq(|frames|, i requires 0 <= i < |frames| => Queue(frames[i]))
  }

  ghost predicate Framed(frames: seq<seq<Byte>>) {
    forall i :: 0 <= i < |frames| ==> 1 <= |frames[i]| <= 258
  }

  /** With at most 13871 bits waiting every frame is taken; six of any length follow one another. */
  lemma {:induction false} AllTaken(t: Sender, frames: seq<seq<Byte>>)
    requires Framed(frames) && |t.queue| + 2512 * |frames| <= 16383
    ensures RunTx(t, Queues(frames)).sent == t.sent + frames
    decreases |frames|
  {
    if frames == [] {
      assert t.sent + frames == t.sent;
    } else {
      var rest := frames[1..];
      EncodedLength(frames[0]);
      assert Queues(frames)[1..] == Queues(rest);
      AllTaken(StepTx(t, Queue(frames[0])), rest);
      assert (t.sent + [frames[0]]) + rest == t.sent + frames;
    }
  }

  lemma SixTaken(frames: seq<seq<Byte>>)
    requires Framed(frames) && |frames| <= 6
    ensures RunTx(NOTHING_SENT, Queues(frames)).sent == frames
  {
    AllTaken(NOTHING_SENT, frames);
    assert NOTHING_SENT.sent + frames == frames;
  }

  /** Enough octets empty the queue, so that the next six are taken. */
  lemma {:induction false} Drained(queue: seq<bool>, octets: nat)
    requires 8 * octets >= |queue|
    ensures Remaining(queue, octets) == []
  {
    Drains(queue, octets);
  }

  lemma {:induction false} Drains(queue: seq<bool>, octets: nat)
    ensures |Remaining(queue, octets)| == if 8 * octets >= |queue| then 0 else |queue| - 8 * octets
    decreases octets
  {
    if octets > 0 {
      Drains(queue, octets - 1);
    }
  }

  // ---- A receiver's whole run -------------------------------------------------------

  datatype RxEvent = Chunk(octets: seq<Byte>) | Take

  /** Cutter state, pieces waiting, pieces taken by the user, octets received. */
  datatype Receiver = Receiver(cutter: Cutter, queue: seq<seq<bool>>, taken: seq<seq<bool>>, seen: seq<Byte>)

  function StepRx(r: Receiver, e: RxEvent): (r': Receiver)
    requires |r.queue| <= FRAMES
    ensures |r'.queue| <= FRAMES
  {
    match e
    case Chunk(octets) =>
      var (c, pieces) := CutAll(r.cutter, Serial(octets));
      r.(cutter := c, queue := Queued(r.queue, pieces), seen := r.seen + octets)
    case Take => if r.queue == [] then r else r.(queue := r.queue[1..], taken := r.taken + [r.queue[0]])
  }

  function RunRx(r: Receiver, es: seq<RxEvent>): (r': Receiver)
    requires |r.queue| <= FRAMES
    ensures |r'.queue| <= FRAMES
    decreases |es|
  {
    if es == [] then r else RunRx(StepRx(r, es[0]), es[1..])
  }

  /** No chunk of the run cuts more pieces than the ring has room for. */
  predicate NeverFull(r: Receiver, es: seq<RxEvent>)
    requires |r.queue| <= FRAMES
    decreases |es|
  {
    es == [] ||
    ((es[0].Chunk? ==> |r.queue| + |CutAll(r.cutter, Serial(es[0].octets)).1| <= FRAMES)
     && NeverFull(StepRx(r, es[0]), es[1..]))
  }

  ghost predicate Kept(r: Receiver) {
    CutAll(FRESH, Serial(r.seen)) == (r.cutter, r.taken + r.queue) && |r.queue| <= FRAMES
  }

  lemma {:induction false} RunKept(r: Receiver, es: seq<RxEvent>)
    requires Kept(r) && NeverFull(r, es)
    ensures Kept(RunRx(r, es))
    decreases |es|
  {
    if es != [] {
      match es[0] {
        case Chunk(octets) =>
          SerialAppend(r.seen, octets);
          RunAppend(Cut, FRESH, Serial(r.seen), Serial(octets));
          Regroup(r.taken, r.queue, CutAll(r.cutter, Serial(octets)).1);
        case Take =>
          if r.queue != [] {
            assert (r.taken + [r.queue[0]]) + r.queue[1..] == r.taken + r.queue;
          }
      }
      RunKept(StepRx(r, es[0]), es[1..]);
    }
  }

  lemma HdlcSound()
    ensures Sound(Decoded)
  {
    forall f: seq<Byte> | 1 <= |f| <= MAX_INFO + 2
      ensures Decoded(Encoded(f)) == Some(f)
    {
      RoundTrip(f);
    }
    forall body: seq<bool> | 0 < |body| < 24 && ShortRuns(body, 0)
      ensures Decoded(FLAG + body + FLAG) == None
    {
      ShortPieceBad(body);
    }
  }

  lemma Delivered(d: Decoder, t: Sender, r: Receiver, coming: seq<bool>)
    requires Accounted(Cuts(d), t) && Kept(r) && Serial(r.seen) + coming == t.line
    ensures Good(d, r.taken + r.queue) <= t.sent
    ensures t.queue == [] && coming == [] ==> Good(d, r.taken + r.queue) == t.sent
  {
    Regroup(Serial(r.seen), coming, t.queue);
    CutsAppend(d, FRESH, Serial(r.seen), coming + t.queue);
    if t.queue == [] && coming == [] {
      NothingPlus(Serial(r.seen));
    }
  }

  const NOTHING_SENT: Sender := Sender([], [], [])
  const NOTHING_HEARD: Receiver := Receiver(FRESH, [], [], [])

  lemma DeliveredAfter(d: Decoder, t0: Sender, r0: Receiver, tx: seq<TxEvent>, rx: seq<RxEvent>, coming: seq<bool>)
    requires Laws(Cuts(d)) && Accounted(Cuts(d), t0) && Kept(r0) && NeverFull(r0, rx)
    requires Serial(RunRx(r0, rx).seen) + coming == RunTx(t0, tx).line
    ensures var t, r := RunTx(t0, tx), RunRx(r0, rx);
      var frames := Good(d, r.taken + r.queue);
      frames <= t.sent && (t.queue == [] && coming == [] ==> frames == t.sent)
  {
    RunAccounted(Cuts(d), t0, tx);
    RunKept(r0, rx);
    Delivered(d, RunTx(t0, tx), RunRx(r0, rx), coming);
  }

  lemma AtStart(d: Decoder)
    requires Sound(d)
    ensures Laws(Cuts(d)) && Accounted(Cuts(d), NOTHING_SENT) && Kept(NOTHING_HEARD)
  {
    CutsLaws(d);
    StartAccounted(Cuts(d));
  }

  /** Sender and receiver together, `coming` being on its way from one to the other: frames come out
      as they went in, whatever the gaps and the chunks; all of them once the sender's queue is
      empty and nothing is on its way. */
  lemma Delivery(tx: seq<TxEvent>, rx: seq<RxEvent>, coming: seq<bool>)
    requires NeverFull(NOTHING_HEARD, rx)
    requires Serial(RunRx(NOTHING_HEARD, rx).seen) + coming == RunTx(NOTHING_SENT, tx).line
    ensures var t, r := RunTx(NOTHING_SENT, tx), RunRx(NOTHING_HEARD, rx);
      var frames := Good(Decoded, r.taken + r.queue);
      frames <= t.sent && (t.queue == [] && coming == [] ==> frames == t.sent)
  {
    HdlcSound();
    AtStart(Decoded);
    DeliveredAfter(Decoded, NOTHING_SENT, NOTHING_HEARD, tx, rx, coming);
  }
}
