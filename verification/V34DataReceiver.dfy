/** The receiver of data mode: eight symbols at a time are decoded softly, descrambled and handed
    on, superframe after superframe (src/v34_data_receiver.c). */
module V34DataReceiver {
  import opened Wrappers
  import opened Bits
  import opened Lockstep
  import opened Reals
  import opened Scrambler
  import opened V34Points
  import opened V34Parse
  import opened V34Interval
  import opened V34Frame
  import opened V34RoundTrip
  import C = V34FrameCodec
  import opened V34Framing
  import S = V34Superframe
  import D = V34DataStream
  import opened V34Soft

  const MAX_SUPERFRAME_BITS: nat := 9408

  // ---- What a superframe's course is to a receiver ---------------------------------------------

  /** A decoder in the right state accepts the points of this mapping frame. */
  ghost predicate Arrives(l: Link, g: Geometry, c: D.Course, d: nat, m: nat) {
    d < g.dataFrames && m < g.mappingFrames && Linked(l) && |c.states| == |c.arrivals| + 1 ==>
      var n := D.FrameNumber(g, d, m);
      && n < |c.arrivals| && |c.arrivals[n].w| == 4 && c.arrivals[n].high == g.High(m) && c.states[n].rotation < 4
      && (forall j :: 0 <= j < 4 ==> c.arrivals[n].w[j].v0 == S.SyncInversion(g, d, 4 * m + j))
      && Decode(l, c.states[n], c.arrivals[n].w, g.High(m)).0 == c.states[n + 1]
      && Decode(l, c.states[n], c.arrivals[n].w, g.High(m)).1.Some?
  }

  ghost predicate Receivable(l: Link, g: Geometry, c: D.Course) {
    && |c.states| == |c.arrivals| + 1 && |c.arrivals| == D.FrameNumber(g, g.dataFrames, 0)
    && forall d: nat, m: nat :: Arrives(l, g, c, d, m)
  }

  /** What is sent for a frame, as the decoder sees it. */
  lemma FrameArrives(l: Link, s: State, f: Frame, next: State, a: Arrival)
    requires s.rotation < 4 && Sendable(l, f) && SendFrame(l, s, f) == (next, a)
    ensures |a.w| == |f.v0| == 4 && a.high == (|f.bits| == l.p.frameBits)
    ensures Decode(l, s, a.w, a.high) == (next, Some(f.bits))
    ensures forall j :: 0 <= j < 4 ==> a.w[j].v0 == f.v0[j]
  {
    FrameInStep(l, s, f);
    FrameSent(l, s, f);
    SlotsCarryInversions(l.coder, s, CellsFor(l, f.bits, f.v0));
  }

  lemma CourseArrives(l: Link, g: Geometry, send: (State, Frame) -> (State, Arrival), tap: nat, c: D.Course)
    requires C.Sends(send, l) && D.Charted(l, g, send, tap, c) && l.p.frameBits == g.highFrameBits >= 1
    requires g.BitsBefore(g.mappingFrames) == g.dataFrameBits
    ensures Receivable(l, g, c)
  {
    forall d: nat, m: nat
      ensures Arrives(l, g, c, d, m)
    {
      if d < g.dataFrames && m < g.mappingFrames && Linked(l) {
        FrameComes(l, g, send, tap, c, d, m);
      }
    }
  }

  /** What is planned for a mapping frame, without its bits. */
  lemma FramePlanned(l: Link, g: Geometry, tap: nat, send: (State, Frame) -> (State, Arrival), c: D.Course, d: nat,
                     m: nat)
    requires D.Charted(l, g, send, tap, c) && l.p.frameBits == g.highFrameBits >= 1
    requires g.BitsBefore(g.mappingFrames) == g.dataFrameBits && d < g.dataFrames && m < g.mappingFrames
    ensures var n := D.FrameNumber(g, d, m);
      && n < |c.frames| && Sendable(l, c.frames[n]) && |c.frames[n].bits| == g.FrameBits(m) && |c.frames[n].v0| == 4
      && forall j :: 0 <= j < 4 ==> c.frames[n].v0[j] == S.SyncInversion(g, d, 4 * m + j)
  {
    var bits := D.DataFrameAt(g, c.line, d);
    D.NextBits(g, d, g.dataFrames);
    D.PlannedFrame(l, g, c.frames, c.line, d, m, bits);
    S.BitsGrow(g, 0, m);
    S.BitsGrow(g, m, m + 1);
    S.BitsGrow(g, m + 1, g.mappingFrames);
    assert |bits| == g.dataFrameBits;
  }

  lemma FrameTaken(l: Link, g: Geometry, c: D.Course, d: nat, m: nat, f: Frame)
    requires |c.states| == |c.arrivals| + 1 && D.FrameNumber(g, d, m) < |c.arrivals|
    requires l.p.frameBits == g.highFrameBits >= 1 && Sendable(l, f)
    requires var n := D.FrameNumber(g, d, m);
      c.states[n].rotation < 4 && SendFrame(l, c.states[n], f) == (c.states[n + 1], c.arrivals[n])
    requires |f.bits| == g.FrameBits(m) && |f.v0| == 4
    requires forall j :: 0 <= j < 4 ==> f.v0[j] == S.SyncInversion(g, d, 4 * m + j)
    ensures Arrives(l, g, c, d, m)
  {
    var n := D.FrameNumber(g, d, m);
    FrameArrives(l, c.states[n], f, c.states[n + 1], c.arrivals[n]);
  }

  lemma FrameComes(l: Link, g: Geometry, send: (State, Frame) -> (State, Arrival), tap: nat, c: D.Course, d: nat,
                   m: nat)
    requires C.Sends(send, l) && D.Charted(l, g, send, tap, c) && l.p.frameBits == g.highFrameBits >= 1
    requires g.BitsBefore(g.mappingFrames) == g.dataFrameBits && d < g.dataFrames && m < g.mappingFrames
    ensures Arrives(l, g, c, d, m)
  {
    var n := D.FrameNumber(g, d, m);
    FramePlanned(l, g, tap, send, c, d, m);
    assert D.SentAt(send, c.frames, c.states, c.arrivals, n);
    assert C.SendsFrame(send, l, c.states[n], c.frames[n]);
    FrameTaken(l, g, c, d, m, c.frames[n]);
  }

  // ---- What has been received ---------------------------------------------------------------------

  ghost predicate TakesAll(take: (S.Ends, seq<Arrival>) -> (S.Ends, seq<bool>), l: Link, tap: nat) {
    forall e, a :: S.TakesAt(take, l, tap, e, a)
  }

  lemma TakesNothing(take: (S.Ends, seq<Arrival>) -> (S.Ends, seq<bool>), l: Link, tap: nat, e: S.Ends)
    requires TakesAll(take, l, tap)
    ensures take(e, []) == (e, [])
  {
    assert S.TakesAt(take, l, tap, e, []);
  }

  lemma GotOn(got: seq<Option<seq<bool>>>, bits: seq<bool>)
    ensures S.BitsGot(got + [Some(bits)]) == S.BitsGot(got) + bits
  {
    assert (got + [Some(bits)])[..|got|] == got;
  }

  lemma SuperframeTakesOn(l: Link, tap: nat, from: S.Ends, taken: seq<Arrival>, now: S.Ends, out: seq<bool>, a: Arrival,
                          next: State, bits: seq<bool>)
    requires S.TakeSuperframe(l, tap, from, taken) == (now, out) && TakeFrame(l, now.state, a) == (next, Some(bits))
    ensures var (h, more) := DescrambleAll(tap, now.history, bits);
      S.TakeSuperframe(l, tap, from, taken + [a]) == (S.Ends(next, h), out + more)
  {
    var receive := (u: State, x: Arrival) => TakeFrame(l, u, x);
    SendSnoc(receive, from.state, taken, a);
    var got := SendAll(receive, from.state, taken).1;
    GotOn(got, bits);
    RunsOn(tap, from.history, S.BitsGot(got), bits);
  }

  /** One more mapping frame. */
  lemma TakesOn(take: (S.Ends, seq<Arrival>) -> (S.Ends, seq<bool>), l: Link, tap: nat, from: S.Ends,
                taken: seq<Arrival>, now: S.Ends, out: seq<bool>, a: Arrival, next: State, bits: seq<bool>)
    requires TakesAll(take, l, tap) && Linked(l) && take(from, taken) == (now, out)
    requires |a.w| == 4 && Decode(l, now.state, a.w, a.high) == (next, Some(bits))
    ensures var (h, more) := DescrambleAll(tap, now.history, bits);
      take(from, taken + [a]) == (S.Ends(next, h), out + more)
  {
    assert S.TakesAt(take, l, tap, from, taken) && S.TakesAt(take, l, tap, from, taken + [a]);
    SuperframeTakesOn(l, tap, from, taken, now, out, a, next, bits);
  }

  // ---- One mapping frame ----------------------------------------------------------------------------

  /** Every coordinate is less than one unit of the grid from these points. */
  ghost predicate Near(iq: seq<Iq>, w: seq<Slot>, scale: real) {
    && |iq| == 8 && |w| == 4 && scale > 0.0
    && forall i :: 0 <= i < 4 ==> Within(iq[2 * i], w[i].first, scale) && Within(iq[2 * i + 1], w[i].second, scale)
  }

  function Pairs(iq: seq<Iq>): (r: seq<Pair>)
    requires |iq| == 8
    ensures |r| == 4 && forall i :: 0 <= i < 4 ==> r[i] == Pair(iq[2 * i], iq[2 * i + 1])
  {
    [Pair(iq[0], iq[1]), Pair(iq[2], iq[3]), Pair(iq[4], iq[5]), Pair(iq[6], iq[7])]
  }

  /** The points of a frame that would be decoded are accepted by the search. */
  ghost predicate Decides(l: Link, s: State, iq: seq<Iq>, scale: real, v0: seq<bool>, high: bool, w: seq<Slot>)
    requires Linked(l) && |v0| == 4
  {
    Near(iq, w, scale) && (forall i :: 0 <= i < 4 ==> w[i].v0 == v0[i]) && Decode(l, s, w, high).1.Some?
  }

  /** The soft decision of eight symbols. */
  method Decide(d: C.FrameDecoder, iq: seq<Iq>, scale: real, v0: seq<bool>, high: bool)
    returns (r: Option<(seq<bool>, seq<Slot>)>)
    requires d.Valid() && |iq| == 8 && |v0| == 4
    modifies d
    ensures d.Valid() && (r.None? ==> d.Now() == old(d.Now()))
    ensures r.Some? ==>
      && |r.value.1| == 4 && Decode(d.link, old(d.Now()), r.value.1, high) == (d.Now(), Some(r.value.0))
      && |r.value.0| == (if high then d.link.p.frameBits else d.link.p.frameBits - 1)
      && forall i :: 0 <= i < 4 ==> r.value.1[i].v0 == v0[i]
    ensures forall w :: Decides(d.link, old(d.Now()), iq, scale, v0, high, w) ==> r.Some? && r.value.1 == w
  {
    ghost var s := d.Now();
    r := DecodeSoft(d, Pairs(iq), scale, v0, high);
    ghost var h := Search(d.link.coder, s.cells, Pairs(iq), scale, v0);
    forall w | Decides(d.link, s, iq, scale, v0, high, w)
      ensures r.Some? && r.value.1 == w
    {
      CloseCheapest(h, d.link, s, w, high);
      assert Accepted(h, d.link, s, w, high);
    }
    if r.Some? {
      AllowedKnown(h, r.value.1);
      DecodedParts(d.link, s, r.value.1, high);
    }
  }

  lemma PointsKnown(l: Link, s: State, w: seq<Slot>, high: bool, n: nat)
    requires Linked(l) && s.rotation < 4 && |w| == 4 && n < 4 && Decode(l, s, w, high).1.Some?
    ensures Known(w[n].first) && Known(w[n].second)
  {
    var t := TakenNext(l.coder, l.p.qBits, s, w, n);
    assert Placed(l.coder, w[n].first) && Lands(l.coder, w[n].first) && Lands(l.coder, w[n].second);
  }

  /** Up to eight coordinates, all less than one unit from the points of a frame. */
  ghost predicate Matches(iq: seq<Iq>, a: Arrival, scale: real) {
    |a.w| == 4 && |iq| <= 8 && scale > 0.0 && forall i :: 0 <= i < |iq| ==> Within(iq[i], D.FramePoints(a)[i], scale)
  }

  lemma MatchesNear(iq: seq<Iq>, a: Arrival, scale: real)
    requires Matches(iq, a, scale) && |iq| == 8
    ensures Near(iq, a.w, scale)
  {
    var p := D.FramePoints(a);
    assert p[0] == a.w[0].first && p[1] == a.w[0].second && p[2] == a.w[1].first && p[3] == a.w[1].second;
    assert p[4] == a.w[2].first && p[5] == a.w[2].second && p[6] == a.w[3].first && p[7] == a.w[3].second;
  }

  /** The next symbol of a frame that comes can be sliced. */
  lemma NextSlices(l: Link, s: State, a: Arrival, high: bool, iq: seq<Iq>, next: Iq, scale: real)
    requires Linked(l) && s.rotation < 4 && Matches(iq, a, scale) && |iq| < 8 && Decode(l, s, a.w, high).1.Some?
    requires Within(next, D.FramePoints(a)[|iq|], scale)
    ensures Slice(next, scale).Some? && Matches(iq + [next], a, scale)
  {
    PointsKnown(l, s, a.w, high, 0);
    PointsKnown(l, s, a.w, high, 1);
    PointsKnown(l, s, a.w, high, 2);
    PointsKnown(l, s, a.w, high, 3);
    assert Known(D.FramePoints(a)[|iq|]);
    SliceWithin(next, D.FramePoints(a)[|iq|], scale);
  }

  /** Symbols the soft decision changed. */
  method Corrections(hard: seq<Point>, decided: seq<Slot>) returns (count: nat)
    requires |hard| == 8 && |decided| == 4
    ensures count <= 8
    ensures count == 0 <==>
      forall j :: 0 <= j < 4 ==> hard[2 * j] == decided[j].first && hard[2 * j + 1] == decided[j].second
  {
    count := 0;
    for j := 0 to 4
      invariant count <= 2 * j
      invariant count == 0 <==>
        forall i :: 0 <= i < j ==> hard[2 * i] == decided[i].first && hard[2 * i + 1] == decided[i].second
    {
      if hard[2 * j] != decided[j].first {
        count := count + 1;
      }
      if hard[2 * j + 1] != decided[j].second {
        count := count + 1;
      }
    }
  }

  function FrameInversions(g: Geometry, d: nat, m: nat): (v0: seq<bool>)
    ensures |v0| == 4 && forall j :: 0 <= j < 4 ==> v0[j] == S.SyncInversion(g, d, 4 * m + j)
  {
    S.Inversions4(g, d, m)
  }

  /** The bits of a mapping frame fit into the superframe. */
  lemma Room(g: Geometry, d: nat, m: nat)
    requires d < g.dataFrames && m < g.mappingFrames && g.highFrameBits >= 1
    requires g.BitsBefore(g.mappingFrames) == g.dataFrameBits
    ensures D.BitsTo(g, d) + g.BitsBefore(m + 1) <= D.BitsTo(g, g.dataFrames)
  {
    D.NextBits(g, d, g.dataFrames);
    S.BitsGrow(g, m + 1, g.mappingFrames);
  }

  lemma OneMoreArrival(arrivals: seq<Arrival>, n: nat)
    requires n < |arrivals|
    ensures arrivals[..n + 1] == arrivals[..n] + [arrivals[n]]
  {
  }

  class DataReceiver {
    const decoder: C.FrameDecoder
    const g: Geometry
    const tap: nat
    const scale: real
    ghost const take: (S.Ends, seq<Arrival>) -> (S.Ends, seq<bool>)
    var history: History
    var receivedIq: seq<Iq>
    var received: seq<Point>
    var output: seq<bool>
    var readOffset: nat
    var dataFrame: nat
    var mappingFrame: nat
    var symbols: nat
    var softCorrections: nat
    var complete: bool
    var failed: bool
    ghost var from: S.Ends
    ghost var taken: seq<Arrival>

    ghost predicate Set()
      reads decoder
    {
      && decoder.Valid() && TakesAll(take, decoder.link, tap) && decoder.link.p.frameBits == g.highFrameBits >= 1
      && g.BitsBefore(g.mappingFrames) == g.dataFrameBits && D.BitsTo(g, g.dataFrames) <= MAX_SUPERFRAME_BITS
      && g.dataFrames > 0 && g.mappingFrames > 0
    }

    ghost function Now(): S.Ends
      reads `history, decoder
    {
      S.Ends(decoder.Now(), history)
    }

    ghost function Done(): nat
      reads `dataFrame, `mappingFrame
    {
      D.FrameNumber(g, dataFrame, mappingFrame)
    }

    /** The output is what the decided points decode to, and so is the state. */
    ghost predicate Decoded()
      reads `from, `taken, `history, `output, decoder
    {
      take(from, taken) == (Now(), output)
    }

    ghost predicate Counted()
      reads `dataFrame, `mappingFrame, `output, `taken
    {
      && dataFrame < g.dataFrames && mappingFrame < g.mappingFrames
      && |output| == D.BitsTo(g, dataFrame) + g.BitsBefore(mappingFrame) && |taken| == Done()
    }

    ghost predicate Valid()
      reads this, decoder
    {
      && Set() && Decoded() && readOffset <= |output| && (complete ==> |output| == D.BitsTo(g, g.dataFrames))
      && (!complete && !failed ==> Counted() && |receivedIq| == |received| < 8)
    }

    constructor (decoder: C.FrameDecoder, g: Geometry, tap: nat, scale: real, history: History)
      requires decoder.Valid() && decoder.link.p.frameBits == g.highFrameBits >= 1
      requires g.BitsBefore(g.mappingFrames) == g.dataFrameBits && D.BitsTo(g, g.dataFrames) <= MAX_SUPERFRAME_BITS
      requires g.dataFrames > 0 && g.mappingFrames > 0
      ensures Valid() && !complete && !failed && output == [] && receivedIq == []
      ensures Now() == S.Ends(decoder.Now(), history)
      ensures from == Now() && taken == [] && dataFrame == mappingFrame == 0 && readOffset == 0
      ensures this.decoder == decoder && this.g == g && this.tap == tap && this.scale == scale
    {
      this.decoder, this.g, this.tap, this.scale, this.history := decoder, g, tap, scale, history;
      ghost var l := decoder.link;
      ghost var take := (e: S.Ends, a: seq<Arrival>) => S.TakeSuperframe(l, tap, e, a);
      this.take := take;
      receivedIq, received, output, readOffset, dataFrame, mappingFrame := [], [], [], 0, 0, 0;
      symbols, softCorrections, complete, failed := 0, 0, false, false;
      from, taken := S.Ends(decoder.Now(), history), [];
      new;
      assert forall e, a :: S.TakesAt(take, l, tap, e, a);
      TakesNothing(take, l, tap, from);
    }

    /** Descrambling into the output. */
    method Deliver(scrambled: seq<bool>)
      modifies `history, `output
      ensures (history, output) ==
        (DescrambleAll(tap, old(history), scrambled).0, old(output) + DescrambleAll(tap, old(history), scrambled).1)
    {
      ghost var h, before := history, output;
      for bit := 0 to |scrambled|
        invariant history == DescrambleAll(tap, h, scrambled[..bit]).0
        invariant output == before + DescrambleAll(tap, h, scrambled[..bit]).1
      {
        assert scrambled[..bit + 1] == scrambled[..bit] + [scrambled[bit]];
        SendSnoc(Descrambling(tap), h, scrambled[..bit], scrambled[bit]);
        var (next, b) := Descramble(tap, history, scrambled[bit]);
        history, output := next, output + [b];
      }
      assert scrambled[..|scrambled|] == scrambled;
    }

    /** The coordinates are near points that can come next. */
    ghost predicate Due(iq: seq<Iq>, w: seq<Slot>)
      requires decoder.Valid()
      reads `dataFrame, `mappingFrame, decoder
    {
      Decides(decoder.link, decoder.Now(), iq, scale, FrameInversions(g, dataFrame, mappingFrame),
              g.High(mappingFrame), w)
    }

    /** finish_mapping_frame, up to the counters. */
    method TakeMappingFrame(iq: seq<Iq>, hard: seq<Point>) returns (ok: bool, ghost a: Arrival)
      requires Set() && Decoded() && Counted() && |iq| == |hard| == 8
      modifies `history, `output, `softCorrections, `taken, decoder
      ensures Set() && Decoded()
      ensures !ok ==> output == old(output) && taken == old(taken)
      ensures ok ==> |output| == |old(output)| + g.FrameBits(mappingFrame) && old(output) <= output
      ensures ok ==> taken == old(taken) + [a] && |a.w| == 4
      ensures ok ==> Decode(decoder.link, old(decoder.Now()), a.w, a.high).0 == decoder.Now()
      ensures forall w :: old(Due(iq, w)) ==> ok && a == Arrival(w, g.High(mappingFrame))
    {
      var v0 := FrameInversions(g, dataFrame, mappingFrame);
      var high := g.High(mappingFrame);
      ghost var before := Now();
      var r := Decide(decoder, iq, scale, v0, high);
      a := Arrival([], high);
      if r.None? {
        return false, a;
      }
      Room(g, dataFrame, mappingFrame);
      var (scrambled, decided) := r.value;
      if |output| + |scrambled| > MAX_SUPERFRAME_BITS {
        return false, a;
      }
      var corrections := Corrections(hard, decided);
      softCorrections := softCorrections + corrections;
      a := Arrival(decided, high);
      Keep(scrambled, a, before);
      ok := true;
    }

    /** The bits of a decided mapping frame. */
    method Keep(scrambled: seq<bool>, ghost a: Arrival, ghost before: S.Ends)
      requires TakesAll(take, decoder.link, tap) && Linked(decoder.link) && take(from, taken) == (before, output)
      requires |a.w| == 4 && Decode(decoder.link, before.state, a.w, a.high) == (decoder.Now(), Some(scrambled))
      requires before.history == history
      modifies `history, `output, `taken
      ensures Decoded() && taken == old(taken) + [a] && |output| == |old(output)| + |scrambled| && old(output) <= output
    {
      TakesOn(take, decoder.link, tap, from, taken, before, output, a, decoder.Now(), scrambled);
      Deliver(scrambled);
      taken := taken + [a];
    }

    // ---- Symbol by symbol ------------------------------------------------------------------------------

    ghost function Position(): nat
      reads `dataFrame, `mappingFrame, `receivedIq
    {
      8 * Done() + |receivedIq|
    }

    /** So far coordinates near the points of this course have come. */
    ghost predicate Tracks(c: D.Course)
      reads `taken, `dataFrame, `mappingFrame, `receivedIq, decoder
    {
      && Receivable(decoder.link, g, c) && Done() < |c.arrivals| && taken == c.arrivals[..Done()]
      && decoder.Now() == c.states[Done()] && Matches(receivedIq, c.arrivals[Done()], scale)
    }

    /** The points of all of it have been decided. */
    ghost predicate Followed(c: D.Course)
      reads `taken, decoder
    {
      taken == c.arrivals && |c.states| > 0 && decoder.Now() == c.states[|c.states| - 1]
    }

    /** The counters go on to the next mapping frame. */
    method CountFrame()
      requires !complete && dataFrame < g.dataFrames && mappingFrame < g.mappingFrames
      requires |output| == D.BitsTo(g, dataFrame) + g.BitsBefore(mappingFrame + 1)
      requires g.BitsBefore(g.mappingFrames) == g.dataFrameBits
      modifies `mappingFrame, `dataFrame, `complete
      ensures complete <==> old(Done()) + 1 == D.FrameNumber(g, g.dataFrames, 0)
      ensures complete ==> |output| == D.BitsTo(g, g.dataFrames)
      ensures !complete ==> dataFrame < g.dataFrames && mappingFrame < g.mappingFrames && Done() == old(Done()) + 1
      ensures !complete ==> |output| == D.BitsTo(g, dataFrame) + g.BitsBefore(mappingFrame)
    {
      D.Following(g, dataFrame, mappingFrame);
      D.NextBits(g, dataFrame, g.dataFrames);
      D.BitsToIs(g, g.dataFrames);
      mappingFrame := mappingFrame + 1;
      if mappingFrame == g.mappingFrames {
        mappingFrame := 0;
        dataFrame := dataFrame + 1;
        if dataFrame == g.dataFrames {
          complete := |output| == g.dataFrameBits * g.dataFrames;
        }
      }
    }

    lemma DueNow(c: D.Course, iq: seq<Iq>)
      requires decoder.Valid() && Receivable(decoder.link, g, c) && dataFrame < g.dataFrames
      requires mappingFrame < g.mappingFrames
      requires Done() < |c.arrivals| && decoder.Now() == c.states[Done()]
      requires Matches(iq, c.arrivals[Done()], scale) && |iq| == 8
      ensures var a := c.arrivals[Done()];
        Due(iq, a.w) && a == Arrival(a.w, g.High(mappingFrame))
        && Decode(decoder.link, decoder.Now(), a.w, g.High(mappingFrame)).0 == c.states[Done() + 1]
    {
      assert Arrives(decoder.link, g, c, dataFrame, mappingFrame);
      MatchesNear(iq, c.arrivals[Done()], scale);
    }

    /** The same, from a tracked course. */
    method TakeDue(iq: seq<Iq>, hard: seq<Point>, ghost c: D.Course) returns (ok: bool)
      requires Set() && Decoded() && Counted() && |iq| == |hard| == 8
      modifies `history, `output, `softCorrections, `taken, decoder
      ensures Set() && Decoded() && old(output) <= output
      ensures ok ==> |output| == |old(output)| + g.FrameBits(mappingFrame) && |taken| == |old(taken)| + 1
      ensures old(Tracks(c) && Matches(iq, c.arrivals[Done()], scale)) ==>
        ok && taken == c.arrivals[..Done() + 1] && decoder.Now() == c.states[Done() + 1]
    {
      if Tracks(c) && Matches(iq, c.arrivals[Done()], scale) {
        DueNow(c, iq);
        OneMoreArrival(c.arrivals, Done());
      }
      ghost var a;
      ok, a := TakeMappingFrame(iq, hard);
    }

    /** finish_mapping_frame. */
    method FinishMappingFrame(iq: seq<Iq>, hard: seq<Point>, ghost c: D.Course) returns (ok: bool)
      requires Valid() && !complete && !failed && receivedIq == [] && received == [] && |iq| == |hard| == 8
      modifies `history, `output, `softCorrections, `taken, `mappingFrame, `dataFrame, `complete, decoder
      ensures Set() && Decoded() && old(output) <= output && (ok ==> Valid())
      ensures complete <==> ok && old(Done()) + 1 == D.FrameNumber(g, g.dataFrames, 0)
      ensures ok && !complete ==> Done() == old(Done()) + 1 && receivedIq == []
      ensures old(Tracks(c) && Matches(iq, c.arrivals[Done()], scale)) ==>
        ok && if complete then Followed(c) else Tracks(c)
    {
      ghost var tracked := Tracks(c) && Matches(iq, c.arrivals[Done()], scale);
      ok := TakeDue(iq, hard, c);
      if !ok {
        return false;
      }
      CountFrame();
      if tracked && complete {
        assert c.arrivals[..|c.arrivals|] == c.arrivals;
      } else if tracked {
        assert Arrives(decoder.link, g, c, dataFrame, mappingFrame);
      }
    }

    /** The next symbol of a tracked course. */
    ghost predicate Awaits(c: D.Course, iq: Iq)
      reads `taken, `dataFrame, `mappingFrame, `receivedIq, decoder
    {
      Tracks(c) && |receivedIq| < 8 && Within(iq, D.FramePoints(c.arrivals[Done()])[|receivedIq|], scale)
    }

    lemma AwaitedSlices(c: D.Course, iq: Iq)
      requires Valid() && !complete && !failed && Awaits(c, iq)
      ensures Slice(iq, scale).Some? && Matches(receivedIq + [iq], c.arrivals[Done()], scale)
    {
      assert Arrives(decoder.link, g, c, dataFrame, mappingFrame);
      NextSlices(decoder.link, decoder.Now(), c.arrivals[Done()], g.High(mappingFrame), receivedIq, iq, scale);
    }

    /** feed_sample, when it has a symbol. */
    method FeedSymbol(iq: Iq, ghost c: D.Course) returns (ok: bool)
      requires Valid() && !complete && !failed
      modifies `history, `receivedIq, `received, `symbols, `output, `softCorrections, `taken
      modifies `mappingFrame, `dataFrame, `complete, decoder
      ensures Set() && Decoded() && old(output) <= output && (ok ==> Valid())
      ensures complete ==> ok && old(Position()) + 1 == 8 * D.FrameNumber(g, g.dataFrames, 0)
      ensures ok && !complete ==> Position() == old(Position()) + 1
      ensures old(Awaits(c, iq)) ==> ok && if complete then Followed(c) else Tracks(c)
    {
      if Awaits(c, iq) {
        AwaitedSlices(c, iq);
      }
      var point := if scale <= 0.0 then None else Slice(iq, scale);
      if point.None? {
        return false;
      }
      StoreSymbol(iq, point.value, c);
      if |receivedIq| != 8 {
        return true;
      }
      ok := FinishSymbols(c);
    }

    method StoreSymbol(iq: Iq, point: Point, ghost c: D.Course)
      requires Valid() && !complete && !failed
      requires Awaits(c, iq) ==> Matches(receivedIq + [iq], c.arrivals[Done()], scale)
      modifies `receivedIq, `received, `symbols
      ensures Set() && Decoded() && Counted() && |receivedIq| == |received| == |old(receivedIq)| + 1 <= 8
      ensures old(Awaits(c, iq)) ==> Tracks(c)
    {
      receivedIq, received := receivedIq + [iq], received + [point];
      symbols := symbols + 1;
    }

    method FinishSymbols(ghost c: D.Course) returns (ok: bool)
      requires Set() && Decoded() && Counted() && !complete && !failed && readOffset <= |output|
      requires |receivedIq| == |received| == 8
      modifies `history, `receivedIq, `received, `output, `softCorrections, `taken, `mappingFrame, `dataFrame
      modifies `complete, decoder
      ensures Set() && Decoded() && old(output) <= output && (ok ==> Valid())
      ensures complete <==> ok && old(Done()) + 1 == D.FrameNumber(g, g.dataFrames, 0)
      ensures ok && !complete ==> Done() == old(Done()) + 1 && receivedIq == []
      ensures old(Tracks(c)) ==> ok && if complete then Followed(c) else Tracks(c)
    {
      var frameIq, hard := receivedIq, received;
      receivedIq, received := [], [];
      ok := FinishMappingFrame(frameIq, hard, c);
    }

    /** v34_data_receiver_feed, on the symbols its samples hold. */
    method Feed(iq: seq<Iq>, ghost c: D.Course) returns (ok: bool)
      requires Valid()
      modifies `history, `receivedIq, `received, `symbols, `output, `softCorrections, `taken
      modifies `mappingFrame, `dataFrame, `complete, `failed, decoder
      ensures Valid() && old(output) <= output && (ok <==> !failed)
      ensures old(failed) ==> output == old(output)
    {
      if failed {
        return false;
      }
      var symbol := 0;
      while symbol < |iq| && !complete
        invariant Valid() && !failed && old(output) <= output
        decreases |iq| - symbol
      {
        ok := FeedSymbol(iq[symbol], c);
        if !ok {
          failed := true;
          return false;
        }
        symbol := symbol + 1;
      }
      return true;
    }

    /** v34_data_receiver_read. */
    method Read(capacity: nat) returns (bits: seq<bool>)
      requires Valid()
      modifies `readOffset
      ensures Valid() && readOffset == old(readOffset) + |bits| && bits == output[old(readOffset)..readOffset]
      ensures |bits| == if capacity > |output| - old(readOffset) then |output| - old(readOffset) else capacity
    {
      var available := |output| - readOffset;
      var count := if capacity > available then available else capacity;
      bits := output[readOffset..readOffset + count];
      readOffset := readOffset + count;
    }

    /** Nothing of the superframe has come yet. */
    ghost predicate Fresh()
      reads this, decoder
    {
      && Valid() && !complete && !failed && dataFrame == mappingFrame == readOffset == 0
      && receivedIq == [] && output == [] && taken == [] && from == Now()
    }

    method Restart()
      requires Set()
      modifies `output, `readOffset, `dataFrame, `mappingFrame, `receivedIq, `received, `complete, `from, `taken
      ensures !failed ==> Fresh()
    {
      output, readOffset, dataFrame, mappingFrame, receivedIq, received, complete := [], 0, 0, 0, [], [], false;
      from, taken := Now(), [];
      TakesNothing(take, decoder.link, tap, from);
    }

    /** v34_data_receiver_next_superframe. */
    method NextSuperframe() returns (ok: bool)
      requires Valid()
      modifies `output, `readOffset, `dataFrame, `mappingFrame, `receivedIq, `received, `complete, `from, `taken
      ensures ok <==> old(complete && !failed && readOffset == |output|)
      ensures Valid() && (if ok then Fresh() else unchanged(this))
    {
      if !complete || failed || readOffset != |output| {
        return false;
      }
      Restart();
      return true;
    }
  }
}
