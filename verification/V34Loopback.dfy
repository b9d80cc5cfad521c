/** Transmitter and receiver of data mode joined at the symbols by a line that moves each of
    them a little: what one is given the other returns, superframe after superframe. */
module V34Loopback {
  import opened Reals
  import V34RoundTrip
  import V34Interval
  import C = V34FrameCodec
  import opened V34Points
  import opened V34Frame
  import opened V34Framing
  import S = V34Superframe
  import D = V34DataStream
  import R = V34DataReceiver
  import opened V34Soft

  /** The two ends are set up alike, and are different objects. */
  ghost predicate Joined(stream: D.DataStream, receiver: R.DataReceiver) {
    && stream.encoder.link == receiver.decoder.link && stream.g == receiver.g && stream.tap == receiver.tap
    && receiver.scale > 0.0
  }

  /** Both ends are at the same symbol of the course. */
  ghost predicate Together(stream: D.DataStream, receiver: R.DataReceiver, c: D.Course)
    reads stream, stream.encoder, receiver, receiver.decoder
  {
    && stream.Valid() && receiver.Valid() && !receiver.failed && stream.course == c
    && |c.states| > 0 && |c.registers| > 0
    && (if stream.complete then stream.Now() == stream.Final() && receiver.complete && receiver.Followed(c)
        else !receiver.complete && receiver.Tracks(c) && receiver.Position() == stream.Position())
  }

  /** The coordinates of a point. */
  function Coordinates(p: Point, scale: real): Iq {
    Iq(Times(p.re as real, scale), Times(p.im as real, scale))
  }

  /** What arrives for the symbol with this number in its superframe. */
  type Line = (nat, Point) -> Iq

  ghost predicate GentleAt(line: Line, scale: real, k: nat, p: Point) {
    Within(line(k, p), p, scale)
  }

  /** No coordinate is moved by as much as one unit of the grid. */
  ghost predicate Gentle(line: Line, scale: real) {
    forall k: nat, p :: GentleAt(line, scale, k, p)
  }

  lemma ExactGentle(scale: real)
    requires scale > 0.0
    ensures Gentle((k: nat, p: Point) => Coordinates(p, scale), scale)
  {
    var line: Line := (k: nat, p: Point) => Coordinates(p, scale);
    forall k: nat, p
      ensures GentleAt(line, scale, k, p)
    {
      TimesOver(p.re as real, scale);
      TimesOver(p.im as real, scale);
    }
  }

  lemma SamePlace(a: nat, i: nat, b: nat, j: nat)
    requires 8 * a + i == 8 * b + j && i < 8 && j < 8
    ensures a == b && i == j
  {
  }

  /** The receiver is waiting for the symbol on the line. */
  lemma Awaited(stream: D.DataStream, receiver: R.DataReceiver, c: D.Course, iq: Iq)
    requires Joined(stream, receiver) && Together(stream, receiver, c) && !stream.complete
    requires Within(iq, stream.point, receiver.scale)
    ensures receiver.Awaits(c, iq) && stream.Position() < 8 * |c.arrivals|
  {
    stream.OnTheLine();
    SamePlace(stream.Done(), 2 * stream.interval + stream.symbol, receiver.Done(), |receiver.receivedIq|);
  }

  /** The receiver takes the symbol it is waiting for. */
  method Hear(receiver: R.DataReceiver, iq: Iq, ghost c: D.Course)
    requires receiver.Valid() && !receiver.complete && !receiver.failed && receiver.Awaits(c, iq)
    modifies receiver, receiver.decoder
    ensures receiver.Valid() && !receiver.failed
    ensures receiver.from == old(receiver.from) && receiver.readOffset == old(receiver.readOffset)
    ensures receiver.complete ==> receiver.Followed(c) && old(receiver.Position()) + 1 == 8 * |c.arrivals|
    ensures !receiver.complete ==>
      receiver.Tracks(c) && old(receiver.Position()) + 1 == receiver.Position() < 8 * |c.arrivals|
  {
    var fed := receiver.FeedSymbol(iq, c);
  }

  /** One symbol goes across. */
  method Cross(stream: D.DataStream, receiver: R.DataReceiver, iq: Iq, ghost c: D.Course)
    requires Joined(stream, receiver) && Together(stream, receiver, c) && !stream.complete && receiver.Awaits(c, iq)
    modifies stream, stream.encoder, receiver, receiver.decoder
    ensures Together(stream, receiver, c) && receiver.from == old(receiver.from)
    ensures receiver.readOffset == old(receiver.readOffset)
    ensures !stream.complete ==> stream.Position() == old(stream.Position()) + 1
  {
    Hear(receiver, iq, c);
    var advanced := stream.AdvanceSymbol();
  }

  lemma Placing(stream: D.DataStream, receiver: R.DataReceiver, c: D.Course)
    requires Joined(stream, receiver) && Together(stream, receiver, c) && !stream.complete
    ensures stream.Position() < 8 * |c.arrivals|
  {
    stream.OnTheLine();
  }

  /** All of them. */
  method CrossAll(stream: D.DataStream, receiver: R.DataReceiver, line: Line, ghost c: D.Course)
    requires Joined(stream, receiver) && Together(stream, receiver, c) && Gentle(line, receiver.scale)
    modifies stream, stream.encoder, receiver, receiver.decoder
    ensures Together(stream, receiver, c) && stream.complete && receiver.from == old(receiver.from)
    ensures receiver.readOffset == old(receiver.readOffset)
  {
    ghost var all := 8 * |c.arrivals|;
    var symbol := 0;
    if !stream.complete {
      Placing(stream, receiver, c);
    }
    while !stream.complete
      invariant Together(stream, receiver, c) && receiver.from == old(receiver.from)
      invariant receiver.readOffset == old(receiver.readOffset)
      invariant !stream.complete ==> stream.Position() < all
      decreases !stream.complete, all - stream.Position()
    {
      var iq := line(symbol, stream.point);
      assert GentleAt(line, receiver.scale, symbol, stream.point);
      Awaited(stream, receiver, c, iq);
      Cross(stream, receiver, iq, c);
      symbol := symbol + 1;
      if !stream.complete {
        Placing(stream, receiver, c);
      }
    }
  }

  /** Both ends between superframes, in the same state. */
  ghost predicate Level(stream: D.DataStream, receiver: R.DataReceiver)
    reads stream, stream.encoder, receiver, receiver.decoder
  {
    stream.Valid() && stream.complete && receiver.Fresh() && stream.Now() == receiver.Now()
  }

  /** What taking the points of a superframe gives, in the receiver's own terms. */
  lemma TakesCourse(l: Link, g: Geometry, s: nat, rate: nat,
                    send: (V34Interval.State, V34RoundTrip.Frame) -> (V34Interval.State, V34RoundTrip.Arrival),
                    tap: nat, take: (S.Ends, seq<V34RoundTrip.Arrival>) -> (S.Ends, seq<bool>),
                    before: S.Ends, final: S.Ends,
                    bits: seq<bool>, c: D.Course)
    requires S.Ready(l, g, s, rate) && C.Sends(send, l) && D.Charted(l, g, send, tap, c) && R.TakesAll(take, l, tap)
    requires S.SendSuperframe(l, g, s, rate, tap, before, bits) == (final, c.arrivals)
    requires S.Superframe(g, bits) && before.state.rotation < 4
    ensures R.Receivable(l, g, c) && take(before, c.arrivals) == (final, bits)
  {
    R.CourseArrives(l, g, send, tap, c);
    S.SuperframeInStep(l, g, s, rate, tap, before, bits);
    assert S.TakesAt(take, l, tap, before, c.arrivals);
  }

  lemma Begun(stream: D.DataStream, receiver: R.DataReceiver)
    requires Joined(stream, receiver) && stream.Valid() && !stream.complete && stream.Position() == 0
    requires receiver.Fresh()
    requires R.Receivable(receiver.decoder.link, receiver.g, stream.course) && |stream.course.registers| > 0
    requires stream.course.states[0] == receiver.decoder.Now()
    ensures Together(stream, receiver, stream.course)
  {
    var c := stream.course;
    assert R.Arrives(receiver.decoder.link, receiver.g, c, 0, 0);
    assert c.arrivals[..0] == [];
  }

  /** The first symbol of a superframe. */
  method Start(stream: D.DataStream, receiver: R.DataReceiver, bits: seq<bool>)
    requires Joined(stream, receiver) && Level(stream, receiver)
    requires S.Ready(stream.encoder.link, stream.g, stream.s, stream.rate) && S.Superframe(stream.g, bits)
    modifies stream, stream.encoder
    ensures var c := stream.course;
      Together(stream, receiver, c) && receiver.take(receiver.from, c.arrivals) == (stream.Final(), bits)
  {
    ghost var before := stream.Now();
    var ok := stream.NextSuperframe(bits);
    TakesCourse(stream.encoder.link, stream.g, stream.s, stream.rate, stream.send, stream.tap, receiver.take, before,
                stream.Final(), bits, stream.course);
    Begun(stream, receiver);
  }

  /** Reading the superframe, and getting ready for the next. */
  method Finish(stream: D.DataStream, receiver: R.DataReceiver, ghost c: D.Course, ghost bits: seq<bool>)
    returns (got: seq<bool>)
    requires Joined(stream, receiver) && Together(stream, receiver, c) && stream.complete && receiver.readOffset == 0
    requires receiver.take(receiver.from, c.arrivals) == (stream.Final(), bits)
    modifies receiver
    ensures Level(stream, receiver) && got == bits
  {
    got := receiver.Read(|receiver.output|);
    var ok := receiver.NextSuperframe();
  }

  /** A superframe, bit for bit. */
  method Carry(stream: D.DataStream, receiver: R.DataReceiver, line: Line, bits: seq<bool>) returns (got: seq<bool>)
    requires Joined(stream, receiver) && Level(stream, receiver) && Gentle(line, receiver.scale)
    requires S.Ready(stream.encoder.link, stream.g, stream.s, stream.rate) && S.Superframe(stream.g, bits)
    modifies stream, stream.encoder, receiver, receiver.decoder
    ensures Level(stream, receiver) && got == bits
  {
    Start(stream, receiver, bits);
    ghost var c := stream.course;
    CrossAll(stream, receiver, line, c);
    got := Finish(stream, receiver, c, bits);
  }

  /** Any number of superframes, each over a line of its own. */
  method CarryAll(stream: D.DataStream, receiver: R.DataReceiver, lines: seq<Line>, input: seq<seq<bool>>)
    returns (got: seq<seq<bool>>)
    requires Joined(stream, receiver) && Level(stream, receiver) && |lines| == |input|
    requires forall i :: 0 <= i < |lines| ==> Gentle(lines[i], receiver.scale)
    requires S.Ready(stream.encoder.link, stream.g, stream.s, stream.rate) && S.AllSuperframes(stream.g, input)
    modifies stream, stream.encoder, receiver, receiver.decoder
    ensures Level(stream, receiver) && got == input
  {
    got := [];
    for i := 0 to |input|
      invariant Level(stream, receiver) && got == input[..i]
    {
      var bits := Carry(stream, receiver, lines[i], input[i]);
      got := got + [bits];
    }
  }
}
