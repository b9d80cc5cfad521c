/** Two ends of the link joined by two lines that keep order and may lose any frame.  For
    every run, what an end has delivered to its user is a prefix of what the other end
    accepted, across retransmission, rejection, full rings and wrap of sequence numbers. */
module ArqLink {
  import opened Wrappers
  import opened Bits
  import opened Lapm
  import opened ArqSpec

  /** An end, with the octets its user has written and read so far. */
  datatype End = End(arq: State, accepted: seq<Byte>, taken: seq<Byte>)
  datatype Link = Link(l: End, r: End, toR: seq<Frame>, toL: seq<Frame>)

  datatype Event =
    | Write(data: seq<Byte>)
    | Read(n: nat)
    | Send
    | Deliver
    | Lose(i: nat)
    | Advance(ms: nat)
    | Configure(window: nat, maxInfo: nat)

  function Start(): (s: Link) {
    Link(End(Init(1), [], []), End(Init(0), [], []), [], [])
  }

  /** The left end acts; `Deliver` and `Lose` concern frames on their way to it. */
  function StepLeft(s: Link, e: Event): (s': Link)
    requires Valid(s.l.arq) && Valid(s.r.arq)
    ensures Valid(s'.l.arq) && Valid(s'.r.arq)
  {
    var a := s.l.arq;
    match e
    case Write(data) =>
      var (a', n) := ArqSpec.Write(a, data);
      s.(l := s.l.(arq := a', accepted := s.l.accepted + data[..n]))
    case Read(n) =>
      var (a', d) := ArqSpec.Read(a, n);
      s.(l := s.l.(arq := a', taken := s.l.taken + d))
    case Send =>
      var (a', f) := NextFrame(a);
      s.(l := s.l.(arq := a'), toR := if f.Some? then s.toR + [f.value] else s.toR)
    case Deliver =>
      if s.toL == [] || !InRange(s.toL[0]) then s
      else s.(l := s.l.(arq := TakeFrame(a, s.toL[0]).0), toL := s.toL[1..])
    case Lose(i) => if i < |s.toL| then s.(toL := s.toL[..i] + s.toL[i + 1..]) else s
    case Advance(ms) => s.(l := s.l.(arq := ArqSpec.Advance(a, ms)))
    case Configure(w, m) => s.(l := s.l.(arq := ArqSpec.Configure(a, w, m)))
  }

  /** Every decoded frame is in range; see ArqSpec.DecodeRange. */
  predicate InRange(f: Frame) {
    (f.I? ==> f.ns < MODULUS) && (!f.U? ==> f.nr < MODULUS)
  }

  function Mirror(s: Link): Link {
    Link(s.r, s.l, s.toL, s.toR)
  }

  function Step(s: Link, left: bool, e: Event): (s': Link)
    requires Valid(s.l.arq) && Valid(s.r.arq)
    ensures Valid(s'.l.arq) && Valid(s'.r.arq)
  {
    if left then StepLeft(s, e) else Mirror(StepLeft(Mirror(s), e))
  }

  function Run(s: Link, events: seq<(bool, Event)>): (s': Link)
    requires Valid(s.l.arq) && Valid(s.r.arq)
    ensures Valid(s'.l.arq) && Valid(s'.r.arq)
    decreases |events|
  {
    if events == [] then s else Run(Step(s, events[0].0, events[0].1), events[1..])
  }

  lemma {:induction false} RunAppend(s: Link, a: seq<(bool, Event)>, b: seq<(bool, Event)>)
    requires Valid(s.l.arq) && Valid(s.r.arq)
    ensures Run(s, a + b) == Run(Run(s, a), b)
    decreases |a|
  {
    if a == [] {
      assert a + b == b;
    } else {
      assert (a + b)[1..] == a[1..] + b;
      RunAppend(Step(s, a[0].0, a[0].1), a[1..], b);
    }
  }

  lemma One(s: Link, left: bool, e: Event)
    requires Valid(s.l.arq) && Valid(s.r.arq)
    ensures Run(s, [(left, e)]) == Step(s, left, e)
  {
    assert [(left, e)][1..] == [];
  }

  // ---- The unbounded numbers behind the seven-bit ones ------------------------------

  /** A frame in flight: true N(S) and N(R), and the sender's V(S) when it was sent. */
  datatype Sent = Sent(isI: bool, ns: nat, data: seq<Byte>, kind: Supervisory, nr: nat, top: nat)

  /** What an end's history amounts to: the chunks it accepted (their number is V(S)), its
      V(A), send cursor and V(R), and the frames it has in flight, oldest first. */
  datatype Aux = Aux(chunks: seq<seq<Byte>>, va: nat, cur: nat, vr: nat, sent: seq<Sent>)

  function Flat(chunks: seq<seq<Byte>>): (s: seq<Byte>) {
    if chunks == [] then [] else Flat(chunks[..|chunks| - 1]) + chunks[|chunks| - 1]
  }

  function FrameOf(f: Sent, cr: nat): Frame {
    if f.isI then I(0, cr, f.ns % MODULUS, f.nr % MODULUS, 0, f.data) else S(0, cr, f.kind, f.nr % MODULUS, 0)
  }

  /** An end's seven-bit counters stand for the true ones, and its window is in its slots. */
  ghost predicate Own(e: End, x: Aux) {
    && Valid(e.arq)
    && e.arq.va == x.va % MODULUS && e.arq.vs == |x.chunks| % MODULUS
    && e.arq.cursor == x.cur % MODULUS && e.arq.vr == x.vr % MODULUS
    && x.va <= x.cur <= |x.chunks| < x.va + MODULUS
    && (forall i :: x.va <= i < |x.chunks| ==> e.arq.tx[i % MODULUS] == Slot(x.chunks[i], true))
    && (forall i :: 0 <= i < |x.chunks| ==> |x.chunks[i]| <= CHUNK)
    && e.accepted == Flat(x.chunks)
    && (e.arq.pending.Some? ==> e.arq.pending.value != SREJ)
  }

  /** The receiver `y` holds exactly the first V(R) chunks of the sender `x`. */
  ghost predicate Flow(x: Aux, y: Aux, receiver: End) {
    && x.va <= y.vr <= |x.chunks|
    && receiver.taken + receiver.arq.rx == Flat(x.chunks[..y.vr])
  }

  ghost predicate SentOk(f: Sent, x: Aux, y: Aux) {
    && y.va <= f.nr <= x.vr && y.vr <= f.top <= |x.chunks|
    && (f.isI ==> f.ns < f.top < f.ns + MODULUS && f.data == x.chunks[f.ns])
    && (!f.isI ==> f.kind != SREJ)
  }

  /** Frames in flight from `x` to `y`. */
  ghost predicate Lane(line: seq<Frame>, cr: nat, x: Aux, y: Aux) {
    && |line| == |x.sent|
    && (forall k :: 0 <= k < |line| ==> line[k] == FrameOf(x.sent[k], cr) && SentOk(x.sent[k], x, y))
    && (forall j, k :: 0 <= j < k < |line| ==> x.sent[j].nr <= x.sent[k].nr && x.sent[j].top <= x.sent[k].top)
  }

  ghost predicate Inv(s: Link, x: Aux, y: Aux) {
    && Own(s.l, x) && Own(s.r, y)
    && Flow(x, y, s.r) && Flow(y, x, s.l)
    && Lane(s.toR, s.l.arq.cr, x, y) && Lane(s.toL, s.r.arq.cr, y, x)
  }

  // ---- Seven-bit arithmetic ---------------------------------------------------------

  lemma DistanceUp(m: nat, n: nat)
    requires m <= n < m + MODULUS
    ensures Distance(m % MODULUS, n % MODULUS) == n - m
  {
  }

  lemma DistanceDown(m: nat, n: nat)
    requires n < m < n + MODULUS
    ensures Distance(m % MODULUS, n % MODULUS) == MODULUS - (m - n)
  {
  }

  lemma SuccIs(n: nat)
    ensures Succ(n % MODULUS) == (n + 1) % MODULUS
  {
  }

  lemma Distinct(m: nat, n: nat)
    requires m < n < m + MODULUS
    ensures m % MODULUS != n % MODULUS
  {
  }

  lemma {:induction false} ReleaseKeeps(tx: seq<Slot>, va: nat, nr: nat, j: nat)
    requires |tx| == MODULUS && va <= nr <= j < va + MODULUS
    ensures Release(tx, va % MODULUS, nr % MODULUS)[j % MODULUS] == tx[j % MODULUS]
    decreases nr - va
  {
    if va < nr {
      Distinct(va, nr);
      Distinct(va, j);
      SuccIs(va);
      var k := va % MODULUS;
      ReleaseKeeps(tx[k := tx[k].(valid := false)], va + 1, nr, j);
    }
  }

  lemma FlatSnoc(chunks: seq<seq<Byte>>, c: seq<Byte>)
    ensures Flat(chunks + [c]) == Flat(chunks) + c
  {
    assert (chunks + [c])[..|chunks|] == chunks;
  }

  // ---- Every step keeps the invariant ------------------------------------------------

  /** One chunk enters the window. */
  lemma EnqueueOwn(e: End, x: Aux, chunk: seq<Byte>) returns (x': Aux)
    requires Own(e, x) && Unacked(e.arq) < e.arq.window && |chunk| <= CHUNK
    ensures x' == x.(chunks := x.chunks + [chunk])
    ensures Own(e.(arq := Enqueue(e.arq, chunk), accepted := e.accepted + chunk), x')
  {
    x' := x.(chunks := x.chunks + [chunk]);
    var n := |x.chunks|;
    DistanceUp(x.va, n);
    SuccIs(n);
    FlatSnoc(x.chunks, chunk);
    forall i | x.va <= i < n + 1
      ensures Enqueue(e.arq, chunk).tx[i % MODULUS] == Slot(x'.chunks[i], true)
    {
      if i < n {
        Distinct(i, n);
      }
    }
  }

  ghost predicate CutAs(data: seq<Byte>, z: nat, pieces: seq<seq<Byte>>) {
    z > 0 && pieces == Pieces(data, z)
  }

  /** The pieces these octets are cut into; looked into only where that is wanted. */
  ghost predicate CutInto(data: seq<Byte>, z: nat, pieces: seq<seq<Byte>>) {
    forall p {:trigger CutAs(data, z, p)} :: p == pieces ==> CutAs(data, z, p)
  }

  lemma CutOn(data: seq<Byte>, n: nat, maxInfo: nat, z: nat, pieces: seq<seq<Byte>>)
    requires maxInfo > 0 && 0 < |data| && z == ArqSpec.Least(|data|, maxInfo) && n <= |data| - z
    requires CutInto(data[z..][..n], maxInfo, pieces)
    ensures CutInto(data[..z + n], maxInfo, [data[..z]] + pieces)
  {
    assert CutAs(data[z..][..n], maxInfo, pieces);
    PiecesOn(data, n, maxInfo, z);
  }

  lemma CutNothing(z: nat)
    requires z > 0
    ensures CutInto([], z, [])
  {
  }

  /** `Own`, looked into only where that is wanted. */
  ghost predicate Owned(e: End, x: Aux) {
    forall y {:trigger Own(e, y)} :: y == x ==> Own(e, y)
  }

  lemma EnqueueOwned(e: End, x: Aux, chunk: seq<Byte>) returns (x': Aux)
    requires Owned(e, x) && Valid(e.arq) && Unacked(e.arq) < e.arq.window && |chunk| <= CHUNK
    ensures x' == x.(chunks := x.chunks + [chunk])
    ensures Owned(e.(arq := Enqueue(e.arq, chunk), accepted := e.accepted + chunk), x')
  {
    assert Own(e, x);
    x' := EnqueueOwn(e, x, chunk);
  }

  lemma {:induction false} WriteOwned(e: End, x: Aux, data: seq<Byte>) returns (x': Aux, pieces: seq<seq<Byte>>)
    requires Owned(e, x) && Valid(e.arq)
    ensures x' == x.(chunks := x.chunks + pieces)
    ensures var (a', n) := ArqSpec.Write(e.arq, data);
      && Owned(e.(arq := a', accepted := e.accepted + data[..n]), x')
      && CutInto(data[..n], e.arq.maxInfo, pieces)
    decreases |data|
  {
    if data == [] || Unacked(e.arq) >= e.arq.window {
      x', pieces := x, [];
      assert data[..0] == [];
      assert e.(accepted := e.accepted + data[..0]) == e && x.(chunks := x.chunks + pieces) == x;
      CutNothing(e.arq.maxInfo);
    } else {
      var z := if |data| > e.arq.maxInfo then e.arq.maxInfo else |data|;
      var chunk, rest := data[..z], data[z..];
      x' := EnqueueOwned(e, x, chunk);
      var e1 := e.(arq := Enqueue(e.arq, chunk), accepted := e.accepted + chunk);
      x', pieces := WriteOwned(e1, x', rest);
      JoinWritten(e, x, data, chunk, rest, ArqSpec.Write(e1.arq, rest).1, pieces);
      pieces := [chunk] + pieces;
    }
  }

  /** A write adds its octets to the chunks, in pieces of the greatest length. */
  lemma WriteOwn(e: End, x: Aux, data: seq<Byte>) returns (x': Aux, pieces: seq<seq<Byte>>)
    requires Own(e, x)
    ensures x' == x.(chunks := x.chunks + pieces)
    ensures var (a', n) := ArqSpec.Write(e.arq, data);
      && Own(e.(arq := a', accepted := e.accepted + data[..n]), x')
      && CutInto(data[..n], e.arq.maxInfo, pieces)
  {
    x', pieces := WriteOwned(e, x, data);
    var (a', n) := ArqSpec.Write(e.arq, data);
    assert Own(e.(arq := a', accepted := e.accepted + data[..n]), x');
  }

  lemma JoinWritten(e: End, x: Aux, data: seq<Byte>, chunk: seq<Byte>, rest: seq<Byte>, n: nat, pieces: seq<seq<Byte>>)
    requires Valid(e.arq) && 0 < |data| && |chunk| == ArqSpec.Least(|data|, e.arq.maxInfo)
    requires chunk == data[..|chunk|] && rest == data[|chunk|..] && n <= |rest|
    requires CutInto(rest[..n], e.arq.maxInfo, pieces)
    ensures (e.accepted + chunk) + rest[..n] == e.accepted + data[..|chunk| + n]
    ensures (x.chunks + [chunk]) + pieces == x.chunks + ([chunk] + pieces)
    ensures CutInto(data[..|chunk| + n], e.arq.maxInfo, [chunk] + pieces)
  {
    WriteSplit(e.accepted, data, |chunk|, n);
    CutOn(data, n, e.arq.maxInfo, |chunk|, pieces);
    Regroup(x.chunks, [chunk], pieces);
  }

  lemma WriteSplit(accepted: seq<Byte>, data: seq<Byte>, z: nat, n: nat)
    requires z + n <= |data|
    ensures (accepted + data[..z]) + data[z..][..n] == accepted + data[..z + n]
  {
    assert data[..z + n] == data[..z] + data[z..][..n];
  }

  /** More chunks at the sender disturb neither its flow nor its lane. */
  lemma GrowKeeps(s: Link, x: Aux, y: Aux, chunks: seq<seq<Byte>>)
    requires Inv(s, x, y) && x.chunks <= chunks
    ensures Flow(x.(chunks := chunks), y, s.r) && Flow(y, x.(chunks := chunks), s.l)
    ensures Lane(s.toR, s.l.arq.cr, x.(chunks := chunks), y) && Lane(s.toL, s.r.arq.cr, y, x.(chunks := chunks))
  {
    assert chunks[..y.vr] == x.chunks[..y.vr];
  }

  /** A write touches nothing but the window's upper end. */
  lemma WriteFrame(a: State, data: seq<Byte>)
    requires Valid(a)
    ensures var a' := ArqSpec.Write(a, data).0; a' == a.(tx := a'.tx, vs := a'.vs)
    decreases |data|
  {
    if data != [] && Unacked(a) < a.window {
      var z := if |data| > a.maxInfo then a.maxInfo else |data|;
      WriteFrame(Enqueue(a, data[..z]), data[z..]);
    }
  }

  lemma KeepsWrite(s: Link, x: Aux, y: Aux, data: seq<Byte>) returns (x': Aux)
    requires Inv(s, x, y)
    ensures Inv(StepLeft(s, Write(data)), x', y)
  {
    var pieces;
    x', pieces := WriteOwn(s.l, x, data);
    WriteFrame(s.l.arq, data);
    GrowKeeps(s, x, y, x'.chunks);
  }

  lemma KeepsRead(s: Link, x: Aux, y: Aux, n: nat)
    requires Inv(s, x, y)
    ensures Inv(StepLeft(s, Read(n)), x, y)
  {
    var (a', d) := ArqSpec.Read(s.l.arq, n);
    assert d + a'.rx == s.l.arq.rx;
    Regroup(s.l.taken, d, a'.rx);
  }

  /** A frame leaves: it joins the lane with the sender's current N(R) and V(S). */
  lemma PostKeeps(s: Link, x: Aux, y: Aux, f: Sent) returns (x': Aux)
    requires Inv(s, x, y) && SentOk(f, x, y) && f.nr == x.vr && f.top == |x.chunks|
    ensures x' == x.(sent := x.sent + [f])
    ensures Inv(s.(toR := s.toR + [FrameOf(f, s.l.arq.cr)]), x', y)
  {
    x' := x.(sent := x.sent + [f]);
  }

  lemma KeepsSend(s: Link, x: Aux, y: Aux) returns (x': Aux)
    requires Inv(s, x, y)
    ensures Inv(StepLeft(s, Send), x', y)
    ensures x' == x.(sent := x'.sent, cur := x'.cur)
    ensures s.l.arq.pending == None && x.cur < |x.chunks| ==>
      x'.cur == x.cur + 1 && x'.sent == x.sent + [Sent(true, x.cur, x.chunks[x.cur], RR, x.vr, |x.chunks|)]
    ensures s.l.arq.pending.Some? ==>
      x'.cur == x.cur && x'.sent == x.sent + [Sent(false, 0, [], s.l.arq.pending.value, x.vr, |x.chunks|)]
  {
    var a := s.l.arq;
    x' := x;
    if a.pending.Some? {
      x' := PostKeeps(s, x, y, Sent(false, 0, [], a.pending.value, x.vr, |x.chunks|));
    } else if x.cur < |x.chunks| {
      Distinct(x.cur, |x.chunks|);
      SuccIs(x.cur);
      x' := PostKeeps(s, x, y, Sent(true, x.cur, x.chunks[x.cur], RR, x.vr, |x.chunks|));
      x' := x'.(cur := x.cur + 1);
    }
  }

  /** N(R) from the far end moves the window and pulls a cursor left behind along. */
  lemma AcknowledgeOwn(e: End, x: Aux, nr: nat) returns (x': Aux)
    requires Own(e, x) && x.va <= nr <= |x.chunks|
    ensures x' == x.(va := nr, cur := if x.cur < nr then nr else x.cur)
    ensures Own(e.(arq := Acknowledge(e.arq, nr % MODULUS)), x')
    ensures var a' := Acknowledge(e.arq, nr % MODULUS); a'.rx == e.arq.rx && a'.cr == e.arq.cr
  {
    var a := e.arq;
    x' := x.(va := nr, cur := if x.cur < nr then nr else x.cur);
    DistanceUp(x.va, nr);
    DistanceUp(x.va, |x.chunks|);
    DistanceUp(nr, |x.chunks|);
    if x.cur < nr {
      DistanceDown(nr, x.cur);
    } else {
      DistanceUp(nr, x.cur);
    }
    forall i | nr <= i < |x.chunks|
      ensures Release(a.tx, a.va, nr % MODULUS)[i % MODULUS] == Slot(x.chunks[i], true)
    {
      ReleaseKeeps(a.tx, x.va, nr, i);
    }
  }

  /** The seven-bit test for the expected frame is exact. */
  lemma ExpectedExact(f: Sent, x: Aux, y: Aux)
    requires SentOk(f, x, y) && f.isI && |x.chunks| < x.va + MODULUS && x.va <= y.vr
    ensures f.ns % MODULUS == y.vr % MODULUS <==> f.ns == y.vr
  {
    if f.ns < y.vr {
      Distinct(f.ns, y.vr);
    } else if y.vr < f.ns {
      Distinct(y.vr, f.ns);
    }
  }

  /** The oldest frame towards the left end arrives: its N(R) is taken first. */
  lemma DeliverAck(s: Link, x: Aux, y: Aux) returns (x': Aux, y': Aux)
    requires Inv(s, x, y) && s.toL != []
    ensures x' == x.(va := y.sent[0].nr, cur := if x.cur < y.sent[0].nr then y.sent[0].nr else x.cur)
    ensures y' == y.(sent := y.sent[1..])
    ensures Inv(s.(l := s.l.(arq := Acknowledge(s.l.arq, y.sent[0].nr % MODULUS)), toL := s.toL[1..]), x', y')
  {
    x' := AcknowledgeOwn(s.l, x, y.sent[0].nr);
    y' := y.(sent := y.sent[1..]);
  }

  lemma CursorBack(e: End, x: Aux)
    requires Own(e, x)
    ensures Own(e.(arq := e.arq.(cursor := x.va % MODULUS)), x.(cur := x.va))
  {
  }

  /** Then the information field, if the frame is the next one and the ring has room. */
  lemma TakeIKeeps(s: Link, x: Aux, y: Aux, f: Sent) returns (x': Aux)
    requires Inv(s, x, y) && f.isI && SentOk(f, y, x)
    requires forall k :: 0 <= k < |y.sent| ==> f.top <= y.sent[k].top
    ensures x' == x.(vr := if f.ns == x.vr && |f.data| <= RX_ROOM - |s.l.arq.rx| then x.vr + 1 else x.vr)
    ensures Inv(s.(l := s.l.(arq := TakeI(s.l.arq, f.ns % MODULUS, f.data).0)), x', y)
  {
    var a := s.l.arq;
    x' := x;
    ExpectedExact(f, y, x);
    if f.ns == x.vr && |f.data| <= RX_ROOM - |a.rx| {
      x' := x.(vr := x.vr + 1);
      SuccIs(x.vr);
      assert y.chunks[..x.vr + 1] == y.chunks[..x.vr] + [y.chunks[x.vr]];
      FlatSnoc(y.chunks[..x.vr], y.chunks[x.vr]);
      Regroup(s.l.taken, a.rx, f.data);
    }
  }

  lemma TakeSKeeps(s: Link, x: Aux, y: Aux, kind: Supervisory) returns (x': Aux)
    requires Inv(s, x, y)
    ensures x' == if kind == REJ then x.(cur := x.va) else x
    ensures kind == REJ ==> Inv(s.(l := s.l.(arq := s.l.arq.(cursor := x.va % MODULUS))), x', y)
  {
    x' := x;
    if kind == REJ {
      CursorBack(s.l, x);
      x' := x.(cur := x.va);
    }
  }

  lemma DeliverIs(s: Link, f: Sent)
    requires Valid(s.l.arq) && Valid(s.r.arq) && s.toL != [] && s.toL[0] == FrameOf(f, s.r.arq.cr)
    requires !f.isI ==> f.kind != SREJ
    ensures var a := Acknowledge(s.l.arq, f.nr % MODULUS);
      StepLeft(s, Deliver) == s.(toL := s.toL[1..], l := s.l.(arq :=
        if f.isI then TakeI(a, f.ns % MODULUS, f.data).0
        else if f.kind == REJ then a.(cursor := f.nr % MODULUS) else a))
  {
  }

  lemma KeepsDeliver(s: Link, x: Aux, y: Aux) returns (x': Aux, y': Aux)
    requires Inv(s, x, y)
    ensures Inv(StepLeft(s, Deliver), x', y')
    ensures s.toL != [] ==> var f := y.sent[0];
      && y' == y.(sent := y.sent[1..]) && x' == x.(va := f.nr, cur := x'.cur, vr := x'.vr)
      && x'.cur == (if x.cur < f.nr || (!f.isI && f.kind == REJ) then f.nr else x.cur)
      && x'.vr == (if f.isI && f.ns == x.vr && |f.data| <= RX_ROOM - |s.l.arq.rx| then x.vr + 1 else x.vr)
  {
    if s.toL == [] {
      x', y' := x, y;
    } else {
      var f := y.sent[0];
      DeliverIs(s, f);
      x', y' := DeliverAck(s, x, y);
      var s1 := s.(l := s.l.(arq := Acknowledge(s.l.arq, f.nr % MODULUS)), toL := s.toL[1..]);
      if f.isI {
        assert forall k :: 0 <= k < |y'.sent| ==> y'.sent[k] == y.sent[k + 1];
        x' := TakeIKeeps(s1, x', y', f);
      } else {
        x' := TakeSKeeps(s1, x', y', f.kind);
      }
    }
  }

  lemma LaneWithout(line: seq<Frame>, cr: nat, x: Aux, y: Aux, i: nat)
    requires Lane(line, cr, x, y) && i < |line|
    ensures Lane(line[..i] + line[i + 1..], cr, x.(sent := x.sent[..i] + x.sent[i + 1..]), y)
  {
    var sent := x.sent[..i] + x.sent[i + 1..];
    assert forall k :: 0 <= k < |sent| ==> sent[k] == x.sent[if k < i then k else k + 1];
  }

  lemma KeepsLose(s: Link, x: Aux, y: Aux, i: nat) returns (y': Aux)
    requires Inv(s, x, y)
    ensures Inv(StepLeft(s, Lose(i)), x, y')
  {
    y' := y;
    if i < |s.toL| {
      LaneWithout(s.toL, s.r.arq.cr, y, x, i);
      y' := y.(sent := y.sent[..i] + y.sent[i + 1..]);
    }
  }

  /** The clock and the retries are of no account. */
  lemma OwnTimed(e: End, x: Aux, now: nat, deadline: nat, retries: nat, failed: bool)
    requires Own(e, x)
    ensures Own(e.(arq := e.arq.(now := now, deadline := deadline, retries := retries, failed := failed)), x)
  {
  }

  lemma KeepsAdvance(s: Link, x: Aux, y: Aux, ms: nat) returns (x': Aux)
    requires Inv(s, x, y)
    ensures Inv(StepLeft(s, Advance(ms)), x', y) && x' == x.(cur := x'.cur)
  {
    var a, a' := s.l.arq, ArqSpec.Advance(s.l.arq, ms);
    x' := x;
    if a'.cursor != a.cursor {
      CursorBack(s.l, x);
      x' := x.(cur := x.va);
    }
    OwnTimed(s.l.(arq := a.(cursor := a'.cursor)), x', a'.now, a'.deadline, a'.retries, a'.failed);
  }

  /** Every step of the left end keeps the invariant. */
  lemma KeepsLeft(s: Link, x: Aux, y: Aux, e: Event) returns (x': Aux, y': Aux)
    requires Inv(s, x, y)
    ensures Inv(StepLeft(s, e), x', y')
  {
    x', y' := x, y;
    match e
    case Write(data) => x' := KeepsWrite(s, x, y, data);
    case Read(n) => KeepsRead(s, x, y, n);
    case Send => x' := KeepsSend(s, x, y);
    case Deliver => x', y' := KeepsDeliver(s, x, y);
    case Lose(i) => y' := KeepsLose(s, x, y, i);
    case Advance(ms) => x' := KeepsAdvance(s, x, y, ms);
    case Configure(w, m) =>
  }

  lemma KeepsStep(s: Link, x: Aux, y: Aux, left: bool, e: Event) returns (x': Aux, y': Aux)
    requires Inv(s, x, y)
    ensures Inv(Step(s, left, e), x', y')
  {
    if left {
      x', y' := KeepsLeft(s, x, y, e);
    } else {
      y', x' := KeepsLeft(Mirror(s), y, x, e);
    }
  }

  lemma {:induction false} KeepsRun(s: Link, x: Aux, y: Aux, events: seq<(bool, Event)>) returns (x': Aux, y': Aux)
    requires Inv(s, x, y)
    ensures Inv(Run(s, events), x', y')
    decreases |events|
  {
    if events == [] {
      x', y' := x, y;
    } else {
      x', y' := KeepsStep(s, x, y, events[0].0, events[0].1);
      x', y' := KeepsRun(Step(s, events[0].0, events[0].1), x', y', events[1..]);
    }
  }

  lemma StartInv()
    ensures Inv(Start(), Aux([], 0, 0, 0, []), Aux([], 0, 0, 0, []))
  {
  }

  lemma {:induction false} FlatPrefix(chunks: seq<seq<Byte>>, n: nat)
    requires n <= |chunks|
    ensures Flat(chunks[..n]) <= Flat(chunks)
    decreases |chunks| - n
  {
    if n < |chunks| {
      FlatPrefix(chunks, n + 1);
      assert chunks[..n + 1][..n] == chunks[..n];
    } else {
      assert chunks[..n] == chunks;
    }
  }

  /** What one end holds for its user, taken and waiting. */
  function Delivered(e: End): seq<Byte> {
    e.taken + e.arq.rx
  }

  lemma SafeFrom(s: Link, x: Aux, y: Aux)
    requires Inv(s, x, y)
    ensures Delivered(s.r) <= s.l.accepted
    ensures Unacked(s.l.arq) == 0 ==> Delivered(s.r) == s.l.accepted
  {
    FlatPrefix(x.chunks, y.vr);
    DistanceUp(x.va, |x.chunks|);
    if Unacked(s.l.arq) == 0 {
      assert x.chunks[..y.vr] == x.chunks;
    }
  }

  /** For every run, each end has delivered a prefix of what the other accepted; and once an
      end has no frame outstanding, the other has everything. */
  lemma Safety(events: seq<(bool, Event)>)
    ensures var s := Run(Start(), events);
      && Delivered(s.r) <= s.l.accepted && Delivered(s.l) <= s.r.accepted
      && (Unacked(s.l.arq) == 0 ==> Delivered(s.r) == s.l.accepted)
      && (Unacked(s.r.arq) == 0 ==> Delivered(s.l) == s.r.accepted)
  {
    StartInv();
    var x, y := KeepsRun(Start(), Aux([], 0, 0, 0, []), Aux([], 0, 0, 0, []), events);
    var s := Run(Start(), events);
    SafeFrom(s, x, y);
    SafeFrom(Mirror(s), y, x);
  }
}
