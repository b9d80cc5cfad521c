/** The transmitter of data mode: superframes of bits are scrambled a data frame at a time,
    mapped a mapping frame at a time, coded an interval at a time and sent a symbol at a time
    (src/v34_data_stream.c). */
module V34DataStream {
  import opened Wrappers
  import opened Bits
  import opened Lockstep
  import opened Scrambler
  import opened V34Points
  import opened V34Parse
  import opened V34Interval
  import opened V34Frame
  import opened V34RoundTrip
  import C = V34FrameCodec
  import opened V34Framing
  import opened V34Superframe

  // ---- The plan of a superframe --------------------------------------------------------------

  /** Mapping frames of the superframe before mapping frame `m` of data frame `d`. */
  function FrameNumber(g: Geometry, d: nat, m: nat): nat {
    if d == 0 then m else FrameNumber(g, d - 1, m) + g.mappingFrames
  }

  /** Bits of the superframe before data frame `d`. */
  function BitsTo(g: Geometry, d: nat): nat {
    if d == 0 then 0 else BitsTo(g, d - 1) + g.dataFrameBits
  }

  lemma {:induction false} BitsToIs(g: Geometry, d: nat)
    ensures BitsTo(g, d) == g.dataFrameBits * d
  {
    if d > 0 {
      BitsToIs(g, d - 1);
      assert g.dataFrameBits * d == g.dataFrameBits * (d - 1) + g.dataFrameBits;
    }
  }

  function Part<T>(s: seq<T>, a: int, b: int): seq<T> {
    if 0 <= a <= b <= |s| then s[a..b] else []
  }

  /** The scrambled bits of data frame `d`. */
  function DataFrameAt(g: Geometry, line: seq<bool>, d: nat): seq<bool> {
    Part(line, BitsTo(g, d), BitsTo(g, d + 1))
  }

  /** A superframe from beginning to end: its bits and what scrambling makes of them, the register
      before and after each bit, the mapping frames, the coder's state before and after each of
      them, and what is sent. */
  datatype Course = Course(input: seq<bool>, line: seq<bool>, registers: seq<History>, frames: seq<Frame>,
                           states: seq<State>, arrivals: seq<Arrival>)

  /** Scrambling bit `i`. */
  ghost predicate BitAt(tap: nat, c: Course, i: nat) {
    i < |c.input| == |c.line| && |c.registers| == |c.input| + 1 ==>
      Scramble(tap, c.registers[i], c.input[i]) == (c.registers[i + 1], c.line[i])
  }

  /** Mapping frame `m` of data frame `d`. */
  ghost predicate FrameIs(l: Link, g: Geometry, frames: seq<Frame>, line: seq<bool>, d: nat, m: nat) {
    d < g.dataFrames && m < g.mappingFrames ==>
      && FrameNumber(g, d, m) < |frames|
      && frames[FrameNumber(g, d, m)] ==
           Frame(Part(DataFrameAt(g, line, d), g.BitsBefore(m), g.BitsBefore(m + 1)), Inversions4(g, d, m))
      && Sendable(l, frames[FrameNumber(g, d, m)])
  }

  ghost predicate Plan(l: Link, g: Geometry, frames: seq<Frame>, line: seq<bool>) {
    |frames| == FrameNumber(g, g.dataFrames, 0) && forall d: nat, m: nat :: FrameIs(l, g, frames, line, d, m)
  }

  /** Sending mapping frame `i`. */
  ghost predicate SentAt(send: (State, Frame) -> (State, Arrival), frames: seq<Frame>, states: seq<State>,
                         arrivals: seq<Arrival>, i: nat) {
    i < |frames| == |arrivals| && |states| == |frames| + 1 ==>
      send(states[i], frames[i]) == (states[i + 1], arrivals[i]) && |arrivals[i].w| == 4 && states[i].rotation < 4
  }

  ghost predicate Charted(l: Link, g: Geometry, send: (State, Frame) -> (State, Arrival), tap: nat, c: Course) {
    && |c.input| == |c.line| == BitsTo(g, g.dataFrames) && |c.registers| == |c.input| + 1
    && |c.arrivals| == |c.frames| && |c.states| == |c.frames| + 1
    && (forall i: nat :: BitAt(tap, c, i)) && Plan(l, g, c.frames, c.line)
    && forall i: nat :: SentAt(send, c.frames, c.states, c.arrivals, i)
  }

  lemma {:induction false} NextNumber(g: Geometry, d: nat, m: nat, count: nat)
    requires d < count && m < g.mappingFrames
    ensures FrameNumber(g, d, m + 1) == FrameNumber(g, d, m) + 1 <= FrameNumber(g, count, 0)
    ensures FrameNumber(g, d, g.mappingFrames) == FrameNumber(g, d + 1, 0)
  {
    NumberAdds(g, d, m);
    NumberAdds(g, d, m + 1);
    NumberAdds(g, d, g.mappingFrames);
    if d + 1 < count {
      NextNumber(g, d, m, count - 1);
    }
  }

  /** The mapping frame after this one, or the end of the superframe. */
  lemma Following(g: Geometry, d: nat, m: nat)
    requires d < g.dataFrames && m < g.mappingFrames
    ensures var n, all := FrameNumber(g, d, m), FrameNumber(g, g.dataFrames, 0);
      if m + 1 < g.mappingFrames then FrameNumber(g, d, m + 1) == n + 1 < all
      else if d + 1 < g.dataFrames then FrameNumber(g, d + 1, 0) == n + 1 < all
      else n + 1 == all
  {
    NextNumber(g, d, m, g.dataFrames);
    if m + 1 < g.mappingFrames {
      NextNumber(g, d, m + 1, g.dataFrames);
    } else if d + 1 < g.dataFrames {
      NextNumber(g, d + 1, 0, g.dataFrames);
    }
  }

  lemma {:induction false} NumberAdds(g: Geometry, d: nat, m: nat)
    ensures FrameNumber(g, d, m) == FrameNumber(g, d, 0) + m
  {
    if d > 0 {
      NumberAdds(g, d - 1, m);
    }
  }

  lemma {:induction false} NextBits(g: Geometry, d: nat, count: nat)
    requires d < count
    ensures BitsTo(g, d + 1) == BitsTo(g, d) + g.dataFrameBits <= BitsTo(g, count)
  {
    if d + 1 < count {
      NextBits(g, d, count - 1);
    }
  }

  lemma {:induction false} DataFrameToAt(g: Geometry, d: nat, bits: seq<bool>, n: nat, m: nat)
    requires g.highFrameBits >= 1 && g.BitsBefore(n) <= |bits| && m < n
    ensures DataFrameTo(g, d, bits, n)[m]
         == Frame(Part(bits, g.BitsBefore(m), g.BitsBefore(m + 1)), Inversions4(g, d, m))
  {
    BitsGrow(g, n - 1, n);
    BitsGrow(g, 0, n - 1);
    if m < n - 1 {
      DataFrameToAt(g, d, bits, n - 1, m);
    }
  }

  lemma {:induction false} SuperframeOfAt(g: Geometry, dataFrames: seq<seq<bool>>, d: nat, m: nat)
    requires g.highFrameBits >= 1
    requires forall i :: 0 <= i < |dataFrames| ==> g.BitsBefore(g.mappingFrames) == |dataFrames[i]|
    requires m < g.mappingFrames
    ensures |SuperframeOf(g, dataFrames)| == FrameNumber(g, |dataFrames|, 0)
    ensures d < |dataFrames| ==> (
      && FrameNumber(g, d, m) < |SuperframeOf(g, dataFrames)|
      && SuperframeOf(g, dataFrames)[FrameNumber(g, d, m)] ==
           Frame(Part(dataFrames[d], g.BitsBefore(m), g.BitsBefore(m + 1)), Inversions4(g, d, m)))
  {
    if dataFrames != [] {
      var n := |dataFrames| - 1;
      NumberAdds(g, n, g.mappingFrames);
      NumberAdds(g, d, m);
      SuperframeOfAt(g, dataFrames[..n], d, m);
      if d == n {
        DataFrameToAt(g, n, dataFrames[n], g.mappingFrames, m);
      }
    }
  }

  lemma PartOfPrefix<T>(w: seq<T>, k: nat, a: nat, b: nat)
    requires a <= b <= k <= |w|
    ensures Part(w[..k], a, b) == Part(w, a, b)
  {
  }

  lemma LastPart<T>(w: seq<T>, k: nat)
    requires k <= |w|
    ensures w[k..] == Part(w, k, |w|)
  {
  }

  lemma {:induction false} DataFramesOfAt(g: Geometry, line: seq<bool>, count: nat, d: nat)
    requires |line| == g.dataFrameBits * count && d < count
    ensures DataFramesOf(g.dataFrameBits, line, count)[d] == DataFrameAt(g, line, d)
  {
    BitsToIs(g, count);
    BitsToIs(g, count - 1);
    var k := BitsTo(g, count - 1);
    if d < count - 1 {
      NextBits(g, d, count - 1);
      DataFramesOfAt(g, line[..k], count - 1, d);
      PartOfPrefix(line, k, BitsTo(g, d), BitsTo(g, d + 1));
    } else {
      LastPart(line, k);
    }
  }

  lemma Planned(l: Link, g: Geometry, s: nat, rate: nat, line: seq<bool>)
    requires Ready(l, g, s, rate) && |line| == BitsTo(g, g.dataFrames)
    ensures Superframe(g, line) && Plan(l, g, FramesOf(g, line), line)
  {
    BitsToIs(g, g.dataFrames);
    var dataFrames := DataFramesOf(g.dataFrameBits, line, g.dataFrames);
    var frames := FramesOf(g, line);
    SuperframeSendable(l, g, s, rate, dataFrames);
    SuperframeOfAt(g, dataFrames, 0, 0);
    forall d: nat, m: nat
      ensures FrameIs(l, g, frames, line, d, m)
    {
      if d < g.dataFrames && m < g.mappingFrames {
        SuperframeOfAt(g, dataFrames, d, m);
        DataFramesOfAt(g, line, g.dataFrames, d);
      }
    }
  }

  /** What the plan says of one mapping frame. */
  lemma PlannedFrame(l: Link, g: Geometry, frames: seq<Frame>, line: seq<bool>, d: nat, m: nat, bits: seq<bool>)
    requires Plan(l, g, frames, line) && d < g.dataFrames && m < g.mappingFrames && bits == DataFrameAt(g, line, d)
    ensures FrameNumber(g, d, m) < |frames|
    ensures var f := frames[FrameNumber(g, d, m)];
      && f.bits == Part(bits, g.BitsBefore(m), g.BitsBefore(m + 1)) && Sendable(l, f)
      && |f.v0| == 4 && forall j :: 0 <= j < 4 ==> f.v0[j] == SyncInversion(g, d, 4 * m + j)
  {
    assert FrameIs(l, g, frames, line, d, m);
  }

  // ---- Every superframe has a course ---------------------------------------------------------------

  lemma Registers(tap: nat, h: History, input: seq<bool>) returns (registers: seq<History>)
    ensures |registers| == |input| + 1 && registers[0] == h && registers[|input|] == ScrambleAll(tap, h, input).0
    ensures forall i: nat :: i < |input| ==>
      Scramble(tap, registers[i], input[i]) == (registers[i + 1], ScrambleAll(tap, h, input).1[i])
  {
    registers := seq(|input| + 1, i requires 0 <= i <= |input| => ScrambleAll(tap, h, input[..i]).0);
    forall i: nat | i < |input|
      ensures Scramble(tap, registers[i], input[i]) == (registers[i + 1], ScrambleAll(tap, h, input).1[i])
    {
      SendAt(Scrambling(tap), h, input, i);
    }
    assert input[..|input|] == input;
  }

  lemma States(l: Link, send: (State, Frame) -> (State, Arrival), s: State, frames: seq<Frame>)
    returns (states: seq<State>)
    requires C.Sends(send, l) && s.rotation < 4 && forall i :: 0 <= i < |frames| ==> Sendable(l, frames[i])
    ensures |states| == |frames| + 1 && states[0] == s && states[|frames|] == SendAll(send, s, frames).0
    ensures forall i: nat :: SentAt(send, frames, states, SendAll(send, s, frames).1, i)
  {
    states := seq(|frames| + 1, i requires 0 <= i <= |frames| => SendAll(send, s, frames[..i]).0);
    forall i: nat
      ensures SentAt(send, frames, states, SendAll(send, s, frames).1, i)
    {
      if i < |frames| {
        SendAt(send, s, frames, i);
        SentWhole(l, send, s, frames, i);
      }
    }
    assert frames[..|frames|] == frames;
  }

  lemma SentWhole(l: Link, send: (State, Frame) -> (State, Arrival), s: State, frames: seq<Frame>, i: nat)
    requires C.Sends(send, l) && s.rotation < 4 && i < |frames|
    requires forall i :: 0 <= i < |frames| ==> Sendable(l, frames[i])
    ensures var t := SendAll(send, s, frames[..i]).0; t.rotation < 4 && |send(t, frames[i]).1.w| == 4
  {
    RunRotation(l, s, frames[..i]);
    SendsAlike(l, send, s, frames[..i]);
    var t := SendAll(send, s, frames[..i]).0;
    FrameSent(l, t, frames[i]);
    assert C.SendsFrame(send, l, t, frames[i]);
  }

  lemma SendsAlike(l: Link, send: (State, Frame) -> (State, Arrival), s: State, frames: seq<Frame>)
    requires C.Sends(send, l)
    ensures SendAll(send, s, frames) == SendAll((u: State, f: Frame) => SendFrame(l, u, f), s, frames)
  {
    var other := (u: State, f: Frame) => SendFrame(l, u, f);
    forall u, f
      ensures Alike(send, other, u, f)
    {
      assert C.SendsFrame(send, l, u, f);
    }
    SendAlike(send, other, s, frames);
  }

  lemma PlanSendable(l: Link, g: Geometry, s: nat, rate: nat, line: seq<bool>)
    requires Ready(l, g, s, rate) && Superframe(g, line)
    ensures forall i :: 0 <= i < |FramesOf(g, line)| ==> Sendable(l, FramesOf(g, line)[i])
  {
    SuperframeSendable(l, g, s, rate, DataFramesOf(g.dataFrameBits, line, g.dataFrames));
  }

  /** The course of a superframe is that of `SendSuperframe`. */
  lemma Chart(l: Link, g: Geometry, s: nat, rate: nat, send: (State, Frame) -> (State, Arrival), tap: nat, from: Ends,
              input: seq<bool>) returns (c: Course)
    requires Ready(l, g, s, rate) && C.Sends(send, l) && Superframe(g, input) && from.state.rotation < 4
    ensures Charted(l, g, send, tap, c) && c.input == input
    ensures c.states[0] == from.state && c.registers[0] == from.history
    ensures SendSuperframe(l, g, s, rate, tap, from, input) ==
      (Ends(c.states[|c.frames|], c.registers[|c.input|]), c.arrivals)
  {
    var line := ScrambleAll(tap, from.history, input).1;
    BitsToIs(g, g.dataFrames);
    Planned(l, g, s, rate, line);
    PlanSendable(l, g, s, rate, line);
    var frames := FramesOf(g, line);
    var registers := Registers(tap, from.history, input);
    var states := States(l, send, from.state, frames);
    SendsAlike(l, send, from.state, frames);
    c := Course(input, line, registers, frames, states, SendAll(send, from.state, frames).1);
    assert forall i: nat :: BitAt(tap, c, i);
  }

  // ---- Symbols ---------------------------------------------------------------------------------------

  function FramePoints(a: Arrival): (r: seq<Point>)
    requires |a.w| == 4
    ensures |r| == 8
  {
    [a.w[0].first, a.w[0].second, a.w[1].first, a.w[1].second, a.w[2].first, a.w[2].second, a.w[3].first, a.w[3].second]
  }

  /** The symbols of some frames, one after another. */
  function PointsOf(arrivals: seq<Arrival>): (r: seq<Point>)
    requires WholeFrames(arrivals)
    ensures |r| == 8 * |arrivals|
  {
    if arrivals == [] then [] else PointsOf(arrivals[..|arrivals| - 1]) + FramePoints(arrivals[|arrivals| - 1])
  }

  lemma {:induction false} PointsAt(arrivals: seq<Arrival>, f: nat, i: nat)
    requires WholeFrames(arrivals) && f < |arrivals| && i < 8
    ensures PointsOf(arrivals)[8 * f + i] == FramePoints(arrivals[f])[i]
  {
    var n := |arrivals| - 1;
    if f < n {
      PointsAt(arrivals[..n], f, i);
    }
  }

  ghost predicate WholeFrames(arrivals: seq<Arrival>) {
    forall i :: 0 <= i < |arrivals| ==> |arrivals[i].w| == 4
  }

  lemma ArrivalsWhole(send: (State, Frame) -> (State, Arrival), frames: seq<Frame>, states: seq<State>,
                      arrivals: seq<Arrival>)
    requires |arrivals| == |frames| && |states| == |frames| + 1
    requires forall i: nat :: SentAt(send, frames, states, arrivals, i)
    ensures WholeFrames(arrivals)
  {
    forall i | 0 <= i < |arrivals|
      ensures |arrivals[i].w| == 4
    {
      assert SentAt(send, frames, states, arrivals, i);
    }
  }

  lemma FramePointAt(a: Arrival, i: nat)
    requires |a.w| == 4 && i < 4
    ensures FramePoints(a)[2 * i] == a.w[i].first && FramePoints(a)[2 * i + 1] == a.w[i].second
  {
  }

  ghost predicate OffsetAt(g: Geometry, offsets: seq<nat>, i: nat) {
    i < |offsets| ==> offsets[i] == g.BitsBefore(i)
  }

  /** Where the first mapping frames of a data frame begin. */
  ghost predicate Offsets(g: Geometry, offsets: seq<nat>, n: nat) {
    |offsets| == n && forall i: nat :: OffsetAt(g, offsets, i)
  }

  lemma OffsetsGrow(g: Geometry, offsets: seq<nat>, n: nat, offset: nat)
    requires Offsets(g, offsets, n) && offset == g.BitsBefore(n)
    ensures Offsets(g, offsets + [offset], n + 1)
  {
    forall i: nat
      ensures OffsetAt(g, offsets + [offset], i)
    {
      assert OffsetAt(g, offsets, i);
    }
  }

  lemma Glue<T>(w: seq<T>, a: nat, b: nat, c: nat)
    requires a <= b <= c <= |w|
    ensures w[a..b] + w[b..c] == w[a..c]
  {
  }

  class DataStream {
    const encoder: C.FrameEncoder
    const g: Geometry
    const tap: nat
    ghost const s: nat
    ghost const rate: nat
    ghost const send: (State, Frame) -> (State, Arrival)
    var history: History
    var input: seq<bool>
    var inputOffset: nat
    var frameBits: seq<bool>
    var mappingOffset: seq<nat>
    var mapped: seq<C.Mapped>
    var slot: Slot
    var point: Point
    var dataFrame: nat
    var mappingFrame: nat
    var interval: nat
    var symbol: nat
    var complete: bool
    ghost var course: Course
    ghost var steps: seq<C.Passage>

    // ---- What holds while a superframe is under way ------------------------------------------

    ghost predicate Set()
      reads encoder
    {
      && encoder.Valid() && C.Sends(send, encoder.link)
      && g.highFrameBits >= 1 && g.BitsBefore(g.mappingFrames) == g.dataFrameBits
    }

    ghost function Done(): nat
      reads `dataFrame, `mappingFrame
    {
      FrameNumber(g, dataFrame, mappingFrame)
    }

    /** Where in the superframe the symbol now on the line is. */
    ghost function Position(): nat
      reads `dataFrame, `mappingFrame, `interval, `symbol
    {
      8 * Done() + 2 * interval + symbol
    }

    ghost function Now(): Ends
      reads `history, encoder
    {
      Ends(encoder.Now(), history)
    }

    /** What both ends carry on with after the superframe. */
    ghost function Final(): Ends
      requires |course.states| > 0 && |course.registers| > 0
      reads `course
    {
      Ends(course.states[|course.states| - 1], course.registers[|course.registers| - 1])
    }

    ghost predicate DataFrameHeld()
      reads `input, `inputOffset, `history, `frameBits, `mappingOffset, `course, `dataFrame
    {
      && dataFrame < g.dataFrames && input == course.input && |course.registers| == |input| + 1
      && inputOffset == BitsTo(g, dataFrame + 1) <= |input| && history == course.registers[inputOffset]
      && frameBits == DataFrameAt(g, course.line, dataFrame) && |frameBits| == g.dataFrameBits
      && Offsets(g, mappingOffset, g.mappingFrames + 1)
    }

    ghost predicate FrameHeld()
      reads `course, `steps, `mapped, `dataFrame, `mappingFrame
    {
      && mappingFrame < g.mappingFrames && Done() < |course.arrivals| == |course.states| - 1
      && C.StepsOf(encoder.link.coder, encoder.points, steps, mapped) && |steps| == 4
      && steps[0].from == course.states[Done()] && steps[3].next == course.states[Done() + 1]
      && course.arrivals[Done()].w == C.SlotsOf(steps)
      && forall j :: 0 <= j < 4 ==> steps[j].c.v0 == SyncInversion(g, dataFrame, 4 * mappingFrame + j)
    }

    ghost predicate IntervalHeld()
      reads `steps, `interval, `symbol, `slot, `point, encoder
    {
      && interval < 4 == |steps| && symbol < 2
      && encoder.Now() == State(steps[interval].next.cells, steps[3].next.rotation)
      && slot == steps[interval].w && point == (if symbol == 0 then slot.first else slot.second)
    }

    ghost predicate Valid()
      reads this, encoder
    {
      && Set()
      && (complete || (Charted(encoder.link, g, send, tap, course) && DataFrameHeld() && FrameHeld() && IntervalHeld()))
    }

    constructor (encoder: C.FrameEncoder, g: Geometry, tap: nat, history: History, ghost s: nat, ghost rate: nat)
      requires encoder.Valid() && Ready(encoder.link, g, s, rate)
      ensures Valid() && complete && Now() == Ends(encoder.Now(), history)
      ensures this.encoder == encoder && this.g == g && this.tap == tap && this.s == s && this.rate == rate
    {
      this.encoder, this.g, this.tap, this.history, this.s, this.rate := encoder, g, tap, history, s, rate;
      ghost var l := encoder.link;
      ghost var send := (u: State, f: Frame) => SendFrame(l, u, f);
      this.send := send;
      input, inputOffset, frameBits, mappingOffset, mapped := [], 0, [], [], [];
      slot, point := Slot(Point(0, 0), Point(0, 0), false), Point(0, 0);
      dataFrame, mappingFrame, interval, symbol, complete := 0, 0, 0, 0, true;
      new;
      assert forall u, f :: C.SendsFrame(send, l, u, f);
    }

    // ---- Data frames ----------------------------------------------------------------------------

    /** As far as the input has been read, the register is that of the course. */
    ghost predicate OnCourse()
      reads `input, `inputOffset, `history, `course
    {
      && input == course.input && inputOffset <= |input| == |course.line| && |course.registers| == |input| + 1
      && history == course.registers[inputOffset]
    }

    /** The bits of one mapping frame, if there are so many. */
    method ScrambleBits(count: nat) returns (ok: bool)
      requires OnCourse() && inputOffset + count <= |input| && forall i: nat :: BitAt(tap, course, i)
      modifies `history, `inputOffset, `frameBits
      ensures ok && OnCourse() && inputOffset == old(inputOffset) + count
      ensures frameBits == old(frameBits) + course.line[old(inputOffset)..inputOffset]
    {
      ghost var start, before := inputOffset, frameBits;
      for bit := 0 to count
        invariant OnCourse() && inputOffset == start + bit && frameBits == before + course.line[start..inputOffset]
      {
        if inputOffset >= |input| {
          return false;
        }
        assert BitAt(tap, course, inputOffset);
        var (next, line) := Scramble(tap, history, input[inputOffset]);
        history, frameBits, inputOffset := next, frameBits + [line], inputOffset + 1;
      }
      return true;
    }

    /** build_data_frame. */
    method BuildDataFrame() returns (ok: bool)
      requires g.highFrameBits >= 1 && g.BitsBefore(g.mappingFrames) == g.dataFrameBits
      requires OnCourse() && inputOffset + g.dataFrameBits <= |input| && forall i: nat :: BitAt(tap, course, i)
      modifies `history, `inputOffset, `frameBits, `mappingOffset
      ensures ok && OnCourse() && inputOffset == old(inputOffset) + g.dataFrameBits
      ensures frameBits == course.line[old(inputOffset)..inputOffset] && Offsets(g, mappingOffset, g.mappingFrames + 1)
    {
      ghost var start := inputOffset;
      var offset := 0;
      frameBits, mappingOffset := [], [];
      for mapping := 0 to g.mappingFrames
        invariant 0 <= offset == g.BitsBefore(mapping) <= g.dataFrameBits && inputOffset == start + offset
        invariant Offsets(g, mappingOffset, mapping) && OnCourse() && frameBits == course.line[start..inputOffset]
      {
        OffsetsGrow(g, mappingOffset, mapping, offset);
        mappingOffset := mappingOffset + [offset];
        var count := if g.High(mapping) then g.highFrameBits else g.highFrameBits - 1;
        BitsGrow(g, mapping + 1, g.mappingFrames);
        ghost var middle := inputOffset;
        ok := ScrambleBits(count);
        if !ok {
          return false;
        }
        Glue(course.line, start, middle, inputOffset);
        offset := offset + count;
      }
      OffsetsGrow(g, mappingOffset, g.mappingFrames, offset);
      mappingOffset := mappingOffset + [offset];
      return offset == g.dataFrameBits;
    }

    // ---- Mapping frames and intervals -----------------------------------------------------------------

    /** prepare_mapping_frame. */
    method PrepareMappingFrame(ghost f: Frame, ghost next: State, ghost w: seq<Slot>) returns (ok: bool)
      requires encoder.Valid() && C.Sends(send, encoder.link) && g.highFrameBits >= 1
      requires Offsets(g, mappingOffset, g.mappingFrames + 1) && mappingFrame < g.mappingFrames
      requires |frameBits| == g.BitsBefore(g.mappingFrames)
      requires f.bits == Part(frameBits, g.BitsBefore(mappingFrame), g.BitsBefore(mappingFrame + 1))
      requires Sendable(encoder.link, f)
      requires send(encoder.Now(), f).0 == next && send(encoder.Now(), f).1.w == w
      modifies `mapped, `steps, encoder`rotation
      ensures ok && encoder.Valid() && C.StepsOf(encoder.link.coder, encoder.points, steps, mapped) && |steps| == 4
      ensures steps[0].from == old(encoder.Now()) && encoder.rotation == steps[3].next.rotation
      ensures steps[3].next == next && C.SlotsOf(steps) == w
      ensures |f.v0| == 4 && forall j :: 0 <= j < 4 ==> steps[j].c.v0 == f.v0[j]
    {
      BitsGrow(g, 0, mappingFrame);
      BitsGrow(g, mappingFrame, mappingFrame + 1);
      BitsGrow(g, mappingFrame + 1, g.mappingFrames);
      assert OffsetAt(g, mappingOffset, mappingFrame) && OffsetAt(g, mappingOffset, mappingFrame + 1);
      var offset, end := mappingOffset[mappingFrame], mappingOffset[mappingFrame + 1];
      ghost var x;
      ok, mapped, x := encoder.MapFrame(frameBits[offset..end], f, send);
      steps := x;
    }

    /** prepare_interval. */
    method PrepareInterval()
      requires Codes(encoder.link.coder, encoder.kind, encoder.points)
      requires C.StepsOf(encoder.link.coder, encoder.points, steps, mapped) && |steps| == 4 && interval < 4
      requires steps[interval].c.v0 == SyncInversion(g, dataFrame, 4 * mappingFrame + interval)
      requires encoder.Now() == State(steps[interval].from.cells, steps[3].next.rotation)
      modifies `slot, `symbol, `point, encoder`cells
      ensures IntervalHeld() && symbol == 0
    {
      var v0 := SyncInversion(g, dataFrame, 4 * mappingFrame + interval);
      assert C.StepOf(encoder.link.coder, encoder.points, steps[interval], mapped[interval]);
      slot := encoder.EncodeInterval(mapped[interval], v0, encoder.link.coder, steps[interval]);
      symbol := 0;
      point := slot.first;
    }

    // ---- From symbol to symbol ------------------------------------------------------------------------

    /** The data frame due next. */
    method NextDataFrame() returns (ok: bool)
      requires Set() && Charted(encoder.link, g, send, tap, course) && input == course.input && dataFrame < g.dataFrames
      requires OnCourse() && inputOffset == BitsTo(g, dataFrame)
      modifies `history, `inputOffset, `frameBits, `mappingOffset
      ensures ok && DataFrameHeld()
    {
      NextBits(g, dataFrame, g.dataFrames);
      ok := BuildDataFrame();
    }

    /** The mapping frame due next. */
    method NextFrame() returns (ok: bool)
      requires Set() && Charted(encoder.link, g, send, tap, course) && DataFrameHeld()
      requires mappingFrame < g.mappingFrames && Done() < |course.frames| && encoder.Now() == course.states[Done()]
      modifies `mapped, `steps, encoder`rotation
      ensures ok && Set() && FrameHeld() && encoder.Now() == State(steps[0].from.cells, steps[3].next.rotation)
    {
      PlannedFrame(encoder.link, g, course.frames, course.line, dataFrame, mappingFrame, frameBits);
      assert SentAt(send, course.frames, course.states, course.arrivals, Done());
      ok := PrepareMappingFrame(course.frames[Done()], course.states[Done() + 1], course.arrivals[Done()].w);
    }

    /** The counters go on to the next mapping frame. */
    method CountFrame() returns (nextDataFrame: bool)
      requires !complete && dataFrame < g.dataFrames && mappingFrame < g.mappingFrames
      modifies `interval, `mappingFrame, `dataFrame, `complete
      ensures interval == 0 && (complete <==> old(Done()) + 1 == FrameNumber(g, g.dataFrames, 0))
      ensures dataFrame == if nextDataFrame then old(dataFrame) + 1 else old(dataFrame)
      ensures complete ==> dataFrame == g.dataFrames
      ensures !complete ==> dataFrame < g.dataFrames && mappingFrame < g.mappingFrames
      ensures !complete ==> Done() == old(Done()) + 1 < FrameNumber(g, g.dataFrames, 0)
    {
      Following(g, dataFrame, mappingFrame);
      interval := 0;
      mappingFrame := mappingFrame + 1;
      nextDataFrame := mappingFrame == g.mappingFrames;
      if nextDataFrame {
        mappingFrame := 0;
        dataFrame := dataFrame + 1;
        complete := dataFrame == g.dataFrames;
      }
    }

    /** The mapping frame due next, up to its first symbol. */
    method FirstInterval() returns (ok: bool)
      requires Set() && Charted(encoder.link, g, send, tap, course) && DataFrameHeld() && interval == 0
      requires mappingFrame < g.mappingFrames && Done() < |course.frames| && encoder.Now() == course.states[Done()]
      modifies `mapped, `steps, `slot, `symbol, `point, encoder
      ensures ok && Set() && FrameHeld() && IntervalHeld() && symbol == 0
    {
      ok := NextFrame();
      if !ok {
        return false;
      }
      PrepareInterval();
    }

    /** advance_symbol from one mapping frame to the next, up to the mapping. */
    method AdvanceFrame() returns (ok: bool)
      requires Set() && !complete && Charted(encoder.link, g, send, tap, course) && DataFrameHeld()
      requires mappingFrame < g.mappingFrames
      modifies `history, `inputOffset, `frameBits, `mappingOffset, `interval, `mappingFrame, `dataFrame, `complete
      ensures ok && interval == 0 && (complete <==> old(Done()) + 1 == |course.frames|)
      ensures complete ==> |course.registers| > 0 && history == course.registers[|course.registers| - 1]
      ensures !complete ==>
        DataFrameHeld() && mappingFrame < g.mappingFrames && Done() == old(Done()) + 1 < |course.frames|
    {
      var nextDataFrame := CountFrame();
      if !complete && nextDataFrame {
        ok := NextDataFrame();
      } else {
        ok := true;
      }
    }

    /** advance_symbol in the middle of an interval. */
    method SecondSymbol()
      requires IntervalHeld() && symbol == 0
      modifies `symbol, `point
      ensures IntervalHeld() && symbol == 1
    {
      symbol := 1;
      point := slot.second;
    }

    /** advance_symbol from one interval to the next of the same frame. */
    method NextInterval()
      requires Set() && FrameHeld() && IntervalHeld() && interval < 3
      modifies `slot, `symbol, `point, `interval, encoder`cells
      ensures Set() && IntervalHeld() && interval == old(interval) + 1 && symbol == 0
    {
      assert steps[interval + 1].from == steps[interval].next;
      interval := interval + 1;
      PrepareInterval();
    }

    /** advance_symbol from one mapping frame to the next. */
    method NextMappingFrame() returns (ok: bool)
      requires Valid() && !complete && interval == 3
      modifies `history, `inputOffset, `frameBits, `mappingOffset, `mapped, `steps, `slot, `point
      modifies `symbol, `interval, `mappingFrame, `dataFrame, `complete, encoder
      ensures ok && Valid() && (complete <==> old(Done()) + 1 == |course.frames|)
      ensures if complete then Now() == Final() else interval == symbol == 0 && Done() == old(Done()) + 1
    {
      ok := AdvanceFrame();
      if !ok || complete {
        return;
      }
      ok := FirstInterval();
    }

    /** advance_symbol. */
    method AdvanceSymbol() returns (ok: bool)
      requires Valid() && !complete
      modifies `history, `inputOffset, `frameBits, `mappingOffset, `mapped, `steps, `slot, `point
      modifies `symbol, `interval, `mappingFrame, `dataFrame, `complete, encoder
      ensures ok && Valid()
      ensures complete <==> old(Position()) + 1 == 8 * |course.arrivals|
      ensures if complete then Now() == Final() else Position() == old(Position()) + 1
    {
      if symbol == 0 {
        SecondSymbol();
        ok := true;
      } else if interval < 3 {
        NextInterval();
        ok := true;
      } else {
        ok := NextMappingFrame();
      }
    }

    /** Everything back to the start of a superframe. */
    method Reset(bits: seq<bool>, ghost c: Course)
      modifies `course, `input, `inputOffset, `dataFrame, `mappingFrame, `interval, `symbol, `complete
      ensures course == c && input == bits && inputOffset == 0 && !complete
      ensures dataFrame == mappingFrame == interval == symbol == 0
    {
      course, input, inputOffset := c, bits, 0;
      dataFrame, mappingFrame, interval, symbol, complete := 0, 0, 0, 0, false;
    }

    method FirstDataFrame(bits: seq<bool>, ghost c: Course) returns (ok: bool)
      requires Set() && Charted(encoder.link, g, send, tap, c) && c.input == bits && c.registers[0] == history
      requires g.dataFrames > 0
      modifies `course, `input, `inputOffset, `history, `frameBits, `mappingOffset
      modifies `dataFrame, `mappingFrame, `interval, `symbol, `complete
      ensures ok && DataFrameHeld() && course == c && !complete && dataFrame == mappingFrame == interval == symbol == 0
    {
      Reset(bits, c);
      ok := NextDataFrame();
    }

    /** The first data frame, mapping frame and interval of a superframe with this course. */
    method Begin(bits: seq<bool>, ghost c: Course) returns (ok: bool)
      requires Set() && Charted(encoder.link, g, send, tap, c) && c.input == bits
      requires c.states[0] == encoder.Now() && c.registers[0] == history && g.dataFrames > 0 && g.mappingFrames > 0
      modifies this, encoder
      ensures ok && Valid() && !complete && course == c && Position() == 0
    {
      Following(g, 0, 0);
      ok := FirstDataFrame(bits, c);
      if !ok {
        return false;
      }
      ok := FirstInterval();
    }

    method Launch(bits: seq<bool>, ghost c: Course) returns (ok: bool)
      requires Set() && Charted(encoder.link, g, send, tap, c) && c.input == bits && g.dataFrames > 0
      requires g.mappingFrames > 0
      requires c.states[0] == encoder.Now() && c.registers[0] == history
      modifies this, encoder
      ensures ok && Valid() && !complete && Position() == 0 && course == c
      ensures |course.registers| > 0 && |course.states| > 0 && course.states[0] == old(encoder.Now())
      ensures Final() == Ends(c.states[|c.frames|], c.registers[|c.input|])
    {
      ok := Begin(bits, c);
    }

    /** v34_data_stream_next_superframe; the first superframe begins the same way. */
    method NextSuperframe(bits: seq<bool>) returns (ok: bool)
      requires Valid() && Ready(encoder.link, g, s, rate)
      modifies this, encoder
      ensures Valid() && (ok <==> old(complete) && |bits| == g.dataFrameBits * g.dataFrames)
      ensures !ok ==> unchanged(this) && unchanged(encoder)
      ensures ok ==> !complete && Position() == 0 && |course.registers| > 0
      ensures ok ==> |course.states| > 0 && course.states[0] == old(encoder.Now())
      ensures ok ==> SendSuperframe(encoder.link, g, s, rate, tap, old(Now()), bits) == (Final(), course.arrivals)
    {
      if !complete || |bits| != g.dataFrameBits * g.dataFrames {
        return false;
      }
      ghost var c := Chart(encoder.link, g, s, rate, send, tap, Now(), bits);
      ok := Launch(bits, c);
    }

    /** The symbol on the line is the one whose turn it is. */
    lemma OnTheLine()
      requires Valid() && !complete
      ensures |course.arrivals[Done()].w| == 4 && point == FramePoints(course.arrivals[Done()])[2 * interval + symbol]
      ensures WholeFrames(course.arrivals) && Position() < 8 * |course.arrivals|
      ensures point == PointsOf(course.arrivals)[Position()]
    {
      ArrivalsWhole(send, course.frames, course.states, course.arrivals);
      FramePointAt(course.arrivals[Done()], interval);
      PointsAt(course.arrivals, Done(), 2 * interval + symbol);
    }
  }

  // ---- Sample by sample ---------------------------------------------------------------------------------

  ghost predicate Runs(clock: SymbolClock)
    reads clock
  {
    0 < clock.numerator <= clock.denominator && clock.phase < clock.denominator
  }

  /** One sample that carries a symbol: a new symbol goes on the line when the clock says so. */
  method Sample(stream: DataStream, clock: SymbolClock)
    requires stream.Valid() && !stream.complete && Runs(clock)
    modifies stream, stream.encoder, clock
    ensures stream.Valid() && Runs(clock) && stream.course == old(stream.course)
    ensures clock.numerator == old(clock.numerator) && clock.denominator == old(clock.denominator)
    ensures (clock.phase, clock.symbols)
         == Ticked(clock.numerator, clock.denominator, old(clock.phase), old(clock.symbols))
    ensures stream.complete <==>
      clock.symbols != old(clock.symbols) && old(stream.Position()) + 1 == 8 * |stream.course.arrivals|
    ensures if stream.complete then stream.Now() == stream.Final()
            else stream.Position() == old(stream.Position()) + (clock.symbols - old(clock.symbols))
  {
    var boundary := clock.Tick();
    if boundary {
      var ok := stream.AdvanceSymbol();
    }
  }

  /** The clock at the start of a run of samples, and the symbols there are to send. */
  datatype Outlook = Outlook(num: nat, den: nat, phase: nat, symbols: nat, remaining: int)

  /** After `active` samples the clock shows this, and either something is left or the last of them
      was the first to leave nothing. */
  ghost predicate Clocked(o: Outlook, active: nat, phase: nat, symbols: nat, complete: bool, remaining: int) {
    && 0 < o.num <= o.den && (phase, symbols - o.symbols) == After(o.num, o.den, o.phase, 0, active)
    && if complete then
         symbols - o.symbols == o.remaining && active > 0 && After(o.num, o.den, o.phase, 0, active - 1).1 < o.remaining
       else remaining == o.remaining - (symbols - o.symbols) > 0
  }

  lemma ClockedOn(o: Outlook, active: nat, phase: nat, symbols: nat, remaining: int, symbols': nat, complete': bool,
                  remaining': int)
    requires Clocked(o, active, phase, symbols, false, remaining) && symbols' == Ticked(o.num, o.den, phase, symbols).1
    requires complete' <==> symbols' != symbols && remaining == 1
    requires !complete' ==> remaining' == remaining - (symbols' - symbols)
    ensures Clocked(o, active + 1, Ticked(o.num, o.den, phase, symbols).0, symbols', complete', remaining')
  {
  }

  /** Symbols of the superframe that are still to come, counting the one on the line. */
  ghost function Left(stream: DataStream): int
    reads stream
  {
    8 * |stream.course.arrivals| - stream.Position()
  }

  /** v34_data_stream_generate, of which only the samples that carry symbols are counted: after the
      last symbol the rest is silence. */
  method Generate(stream: DataStream, clock: SymbolClock, count: nat, ghost o: Outlook) returns (active: nat)
    requires stream.Valid() && !stream.complete && Runs(clock)
    requires o == Outlook(clock.numerator, clock.denominator, clock.phase, clock.symbols, Left(stream))
    modifies stream, stream.encoder, clock
    ensures stream.Valid() && Runs(clock) && active <= count && stream.course == old(stream.course)
    ensures Clocked(o, active, clock.phase, clock.symbols, stream.complete, Left(stream))
    ensures if stream.complete then stream.Now() == stream.Final() else active == count
  {
    active := 0;
    for i := 0 to count
      invariant stream.Valid() && Runs(clock) && active <= i && stream.course == old(stream.course)
      invariant clock.numerator == o.num && clock.denominator == o.den
      invariant Clocked(o, active, clock.phase, clock.symbols, stream.complete, Left(stream))
      invariant if stream.complete then stream.Now() == stream.Final() else active == i
    {
      if !stream.complete {
        ghost var phase, symbols, remaining := clock.phase, clock.symbols, Left(stream);
        Sample(stream, clock);
        ClockedOn(o, active, phase, symbols, remaining, clock.symbols, stream.complete, Left(stream));
        active := active + 1;
      }
    }
  }

  lemma {:induction false} FrameNumberIs(g: Geometry, d: nat)
    ensures FrameNumber(g, d, 0) == g.mappingFrames * d
  {
    if d > 0 {
      FrameNumberIs(g, d - 1);
      assert g.mappingFrames * d == g.mappingFrames * (d - 1) + g.mappingFrames;
    }
  }

  lemma SuperframeLength(l: Link, g: Geometry, s: nat, rate: nat, send: (State, Frame) -> (State, Arrival), tap: nat,
                         c: Course)
    requires Ready(l, g, s, rate) && Charted(l, g, send, tap, c)
    ensures 8 * |c.arrivals| == SuperframeSymbols(s)
  {
    FrameNumberIs(g, g.dataFrames);
  }

  lemma ClockedWhole(o: Outlook, s: nat, active: nat, phase: nat, symbols: nat, complete: bool, remaining: int,
                     count: nat)
    requires s < SYMBOL_COUNT && o.num == RateNum(s) * 2400 && o.den == 8000 * RateDen(s) && o.phase < o.num
    requires o.remaining == SuperframeSymbols(s) && count >= SUPERFRAME_SAMPLES
    requires Clocked(o, active, phase, symbols, complete, remaining) && (!complete ==> active == count)
    ensures complete && active == SUPERFRAME_SAMPLES && phase == o.phase && symbols == o.symbols + SuperframeSymbols(s)
  {
    SuperframeTakes2240(s, o.phase, active);
    if complete {
      SuperframeTakes2240(s, o.phase, active - 1);
    }
  }

  /** At 8000 samples a second a superframe takes exactly 2240 samples, and leaves the clock's phase
      as it was. */
  method GenerateSuperframe(stream: DataStream, clock: SymbolClock, bits: seq<bool>, count: nat) returns (active: nat)
    requires stream.Valid() && stream.complete && Ready(stream.encoder.link, stream.g, stream.s, stream.rate)
    requires |bits| == stream.g.dataFrameBits * stream.g.dataFrames && count >= SUPERFRAME_SAMPLES && Runs(clock)
    requires clock.numerator == RateNum(stream.s) * 2400 && clock.denominator == 8000 * RateDen(stream.s)
    requires clock.phase < clock.numerator
    modifies stream, stream.encoder, clock
    ensures stream.Valid() && stream.complete && active == SUPERFRAME_SAMPLES
    ensures clock.phase == old(clock.phase) && clock.symbols == old(clock.symbols) + SuperframeSymbols(stream.s)
    ensures (stream.Now(), stream.course.arrivals) ==
      SendSuperframe(stream.encoder.link, stream.g, stream.s, stream.rate, stream.tap, old(stream.Now()), bits)
  {
    var ok := stream.NextSuperframe(bits);
    SuperframeLength(stream.encoder.link, stream.g, stream.s, stream.rate, stream.send, stream.tap, stream.course);
    ghost var o := Outlook(clock.numerator, clock.denominator, clock.phase, clock.symbols, Left(stream));
    active := Generate(stream, clock, count, o);
    ClockedWhole(o, stream.s, active, clock.phase, clock.symbols, stream.complete, Left(stream), count);
  }
}
