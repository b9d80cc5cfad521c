/** Superframes: which mapping frames carry which bits, with which inversions, and that whole
    superframes come through scrambler, encoder, decoder and descrambler (src/v34_framing.c,
    src/v34_data_stream.c, src/v34_data_receiver.c). */
module V34Superframe {
  import opened Wrappers
  import opened Bits
  import opened Lockstep
  import opened Scrambler
  import opened ShellParams
  import opened V34Framing
  import opened V34Parse
  import opened V34Interval
  import opened V34Frame
  import opened V34RoundTrip

  // ---- Inversions ----------------------------------------------------------------------------

  /** The sixteen or fourteen inversion bits of a superframe, the first in the highest place. */
  function Pattern(dataFrames: nat): nat {
    if dataFrames == 8 then 0x77fa else 0x1dfe
  }

  /** v34_sync_inversion: at the start and the middle of each data frame. */
  function SyncInversion(g: Geometry, dataFrame: nat, interval: nat): bool {
    if dataFrame >= g.dataFrames then false
    else if interval == 0 then High(Pattern(g.dataFrames), 2 * g.dataFrames - 1 - 2 * dataFrame) % 2 == 1
    else if interval == 2 * g.mappingFrames then
      High(Pattern(g.dataFrames), 2 * g.dataFrames - 2 - 2 * dataFrame) % 2 == 1
    else false
  }

  lemma {:induction false} HighNext(value: nat, n: nat)
    ensures High(value, n + 1) == High(value, n) / 2
  {
    if n > 0 {
      HighNext(value / 2, n - 1);
    }
  }

  /** The bits of a number, two to a data frame. */
  ghost predicate PairsAt(value: nat, n: nat, dataFrame: nat, first: bool, second: bool) {
    dataFrame < n && (High(value, 2 * n - 1 - 2 * dataFrame) % 2 == 1) == first
    && (High(value, 2 * n - 2 - 2 * dataFrame) % 2 == 1) == second
  }

  lemma PairsNext(value: nat, n: nat, dataFrame: nat, low: nat)
    requires dataFrame < n && High(value, 2 * n - 2 - 2 * dataFrame) == low
    ensures PairsAt(value, n, dataFrame, low / 2 % 2 == 1, low % 2 == 1)
    ensures dataFrame > 0 ==> High(value, 2 * n - 2 - 2 * (dataFrame - 1)) == low / 2 / 2
  {
    HighNext(value, 2 * n - 2 - 2 * dataFrame);
    HighNext(value, 2 * n - 1 - 2 * dataFrame);
  }

  lemma EightPatterns(dataFrame: nat)
    requires dataFrame < 8
    ensures PairsAt(0x77fa, 8, dataFrame, dataFrame != 0 && dataFrame != 2, dataFrame < 6)
  {
    PairsNext(0x77fa, 8, 7, 0x77fa);
    PairsNext(0x77fa, 8, 6, 0x1dfe);
    PairsNext(0x77fa, 8, 5, 0x77f);
    PairsNext(0x77fa, 8, 4, 0x1df);
    PairsNext(0x77fa, 8, 3, 0x77);
    PairsNext(0x77fa, 8, 2, 0x1d);
    PairsNext(0x77fa, 8, 1, 7);
    PairsNext(0x77fa, 8, 0, 1);
  }

  lemma SevenPatterns(dataFrame: nat)
    requires dataFrame < 7
    ensures PairsAt(0x1dfe, 7, dataFrame, dataFrame != 0 && dataFrame != 2, dataFrame < 6)
  {
    PairsNext(0x1dfe, 7, 6, 0x1dfe);
    PairsNext(0x1dfe, 7, 5, 0x77f);
    PairsNext(0x1dfe, 7, 4, 0x1df);
    PairsNext(0x1dfe, 7, 3, 0x77);
    PairsNext(0x1dfe, 7, 2, 0x1d);
    PairsNext(0x1dfe, 7, 1, 7);
    PairsNext(0x1dfe, 7, 0, 1);
  }

  /** Table 12, 01 11 01 11 11 11 10 and 10 once more with eight data frames: where the inversions are. */
  lemma InversionsAre(g: Geometry, dataFrame: nat, interval: nat)
    requires (g.dataFrames == 7 || g.dataFrames == 8) && g.mappingFrames > 0
    ensures SyncInversion(g, dataFrame, interval) <==>
      dataFrame < g.dataFrames && ((interval == 0 && dataFrame != 0 && dataFrame != 2)
                                || (interval == 2 * g.mappingFrames && dataFrame < 6))
  {
    if dataFrame < 8 && g.dataFrames == 8 {
      EightPatterns(dataFrame);
    } else if dataFrame < 7 {
      SevenPatterns(dataFrame);
    }
  }

  function Inversions4(g: Geometry, dataFrame: nat, mappingFrame: nat): (v0: seq<bool>)
    ensures |v0| == 4
  {
    [SyncInversion(g, dataFrame, 4 * mappingFrame), SyncInversion(g, dataFrame, 4 * mappingFrame + 1),
     SyncInversion(g, dataFrame, 4 * mappingFrame + 2), SyncInversion(g, dataFrame, 4 * mappingFrame + 3)]
  }

  // ---- Data frames as mapping frames -----------------------------------------------------------

  /** The geometry a symbol rate and a data rate give. */
  ghost predicate Geometric(g: Geometry, s: nat, rate: nat) {
    s < SYMBOL_COUNT && 2400 <= rate <= MaximumRate(s) && rate % 2400 == 0 && Framed(g, s, rate) && g.highFrameBits >= 8
  }

  lemma {:induction false} BitsGrow(g: Geometry, m: nat, n: nat)
    requires g.highFrameBits >= 1 && m <= n
    ensures 0 <= g.BitsBefore(m) <= g.BitsBefore(n)
  {
    if m < n {
      BitsGrow(g, m, n - 1);
    } else if m > 0 {
      BitsGrow(g, m - 1, n - 1);
    }
  }

  /** The first `n` mapping frames of a data frame. */
  function DataFrameTo(g: Geometry, dataFrame: nat, bits: seq<bool>, n: nat): (frames: seq<Frame>)
    requires g.highFrameBits >= 1 && g.BitsBefore(n) <= |bits|
    ensures |frames| == n
  {
    if n == 0 then []
    else
      BitsGrow(g, n - 1, n);
      BitsGrow(g, 0, n - 1);
      DataFrameTo(g, dataFrame, bits, n - 1)
      + [Frame(bits[g.BitsBefore(n - 1)..g.BitsBefore(n)], Inversions4(g, dataFrame, n - 1))]
  }

  /** The bits of frames, one after another. */
  function Carried(frames: seq<Frame>): seq<bool> {
    if frames == [] then [] else Carried(frames[..|frames| - 1]) + frames[|frames| - 1].bits
  }

  lemma CarriedOn(frames: seq<Frame>, f: Frame)
    ensures Carried(frames + [f]) == Carried(frames) + f.bits
  {
    assert (frames + [f])[..|frames|] == frames;
  }

  lemma {:induction false} CarriedJoin(a: seq<Frame>, b: seq<Frame>)
    ensures Carried(a + b) == Carried(a) + Carried(b)
  {
    if b == [] {
      assert a + b == a;
    } else {
      var n := |b| - 1;
      CarriedJoin(a, b[..n]);
      assert a + b == (a + b[..n]) + [b[n]];
      CarriedOn(a + b[..n], b[n]);
      Regroup(Carried(a), Carried(b[..n]), b[n].bits);
    }
  }

  lemma PrefixGrows(bits: seq<bool>, a: nat, b: nat)
    requires a <= b <= |bits|
    ensures bits[..b] == bits[..a] + bits[a..b]
  {
  }

  lemma CarriedNext(head: seq<Frame>, f: Frame, bits: seq<bool>, a: nat, b: nat)
    requires a <= b <= |bits| && Carried(head) == bits[..a] && f.bits == bits[a..b]
    ensures Carried(head + [f]) == bits[..b]
  {
    CarriedOn(head, f);
    PrefixGrows(bits, a, b);
  }

  lemma {:induction false} DataFrameCarries(g: Geometry, dataFrame: nat, bits: seq<bool>, n: nat)
    requires g.highFrameBits >= 1 && g.BitsBefore(n) <= |bits|
    ensures g.BitsBefore(n) >= 0 && Carried(DataFrameTo(g, dataFrame, bits, n)) == bits[..g.BitsBefore(n)]
  {
    if n > 0 {
      BitsGrow(g, n - 1, n);
      BitsGrow(g, 0, n - 1);
      var a, b := g.BitsBefore(n - 1), g.BitsBefore(n);
      DataFrameCarries(g, dataFrame, bits, n - 1);
      var head, f := DataFrameTo(g, dataFrame, bits, n - 1), Frame(bits[a..b], Inversions4(g, dataFrame, n - 1));
      CarriedNext(head, f, bits, a, b);
    }
  }

  lemma {:induction false} DataFrameSendable(l: Link, g: Geometry, s: nat, rate: nat, dataFrame: nat, bits: seq<bool>,
      n: nat)
    requires Linked(l) && Geometric(g, s, rate) && l.p.frameBits == g.highFrameBits && n <= g.mappingFrames
    requires |bits| == g.dataFrameBits && g.BitsBefore(n) <= |bits|
    ensures forall i :: 0 <= i < n ==> Sendable(l, DataFrameTo(g, dataFrame, bits, n)[i])
  {
    if n > 0 {
      BitsGrow(g, n - 1, n);
      BitsGrow(g, 0, n - 1);
      DataFrameSendable(l, g, s, rate, dataFrame, bits, n - 1);
      FramesParse(g, s, rate, l.p, n - 1, bits[g.BitsBefore(n - 1)..g.BitsBefore(n)]);
    }
  }

  // ---- Superframes ---------------------------------------------------------------------------------

  /** The mapping frames of a superframe, from its scrambled data frames. */
  function SuperframeOf(g: Geometry, dataFrames: seq<seq<bool>>): (frames: seq<Frame>)
    requires g.highFrameBits >= 1
    requires forall i :: 0 <= i < |dataFrames| ==> g.BitsBefore(g.mappingFrames) == |dataFrames[i]|
  {
    if dataFrames == [] then []
    else
      var n := |dataFrames| - 1;
      SuperframeOf(g, dataFrames[..n]) + DataFrameTo(g, n, dataFrames[n], g.mappingFrames)
  }

  /** The data frames a run of bits is cut into. */
  function DataFramesOf(n: nat, bits: seq<bool>, count: nat): (r: seq<seq<bool>>)
    requires |bits| == n * count
    ensures |r| == count && forall i :: 0 <= i < count ==> |r[i]| == n
  {
    if count == 0 then []
    else
      assert n * count == n * (count - 1) + n;
      DataFramesOf(n, bits[..n * (count - 1)], count - 1) + [bits[n * (count - 1)..]]
  }

  ghost predicate Superframe(g: Geometry, bits: seq<bool>) {
    |bits| == g.dataFrameBits * g.dataFrames
  }

  function FramesOf(g: Geometry, bits: seq<bool>): seq<Frame>
    requires g.highFrameBits >= 1 && g.BitsBefore(g.mappingFrames) == g.dataFrameBits
    requires |bits| == g.dataFrameBits * g.dataFrames
  {
    SuperframeOf(g, DataFramesOf(g.dataFrameBits, bits, g.dataFrames))
  }

  lemma LastOf(before: seq<seq<bool>>, last: seq<bool>)
    ensures (before + [last])[..|before|] == before && (before + [last])[|before|] == last
  {
  }

  lemma {:induction false} SuperframeCarries(g: Geometry, bits: seq<bool>, count: nat)
    requires g.highFrameBits >= 1 && g.BitsBefore(g.mappingFrames) == g.dataFrameBits
    requires |bits| == g.dataFrameBits * count
    ensures Carried(SuperframeOf(g, DataFramesOf(g.dataFrameBits, bits, count))) == bits
  {
    if count > 0 {
      var n, k := g.dataFrameBits, g.dataFrameBits * (count - 1);
      assert n * count == k + n;
      var head, tail := bits[..k], bits[k..];
      assert head + tail == bits;
      var before := DataFramesOf(n, head, count - 1);
      SuperframeCarries(g, head, count - 1);
      assert DataFramesOf(n, bits, count) == before + [tail];
      MoreCarries(g, before, tail, head);
    }
  }

  lemma LastCarries(g: Geometry, before: seq<seq<bool>>, tail: seq<bool>, head: seq<bool>)
    requires g.highFrameBits >= 1 && g.BitsBefore(g.mappingFrames) == g.dataFrameBits == |tail|
    requires forall i :: 0 <= i < |before| ==> g.BitsBefore(g.mappingFrames) == |before[i]|
    requires Carried(SuperframeOf(g, before)) == head
    ensures Carried(SuperframeOf(g, before) + DataFrameTo(g, |before|, tail, g.mappingFrames)) == head + tail
  {
    DataFrameCarries(g, |before|, tail, g.mappingFrames);
    assert tail[..|tail|] == tail;
    CarriedJoin(SuperframeOf(g, before), DataFrameTo(g, |before|, tail, g.mappingFrames));
  }

  lemma MoreCarries(g: Geometry, before: seq<seq<bool>>, tail: seq<bool>, head: seq<bool>)
    requires g.highFrameBits >= 1 && g.BitsBefore(g.mappingFrames) == g.dataFrameBits == |tail|
    requires forall i :: 0 <= i < |before| ==> g.BitsBefore(g.mappingFrames) == |before[i]|
    requires Carried(SuperframeOf(g, before)) == head
    ensures Carried(SuperframeOf(g, before + [tail])) == head + tail
  {
    LastOf(before, tail);
    LastCarries(g, before, tail, head);
  }

  lemma {:induction false} SuperframeSendable(l: Link, g: Geometry, s: nat, rate: nat, dataFrames: seq<seq<bool>>)
    requires Linked(l) && Geometric(g, s, rate) && l.p.frameBits == g.highFrameBits
    requires forall i :: 0 <= i < |dataFrames| ==> |dataFrames[i]| == g.dataFrameBits
    ensures forall i :: 0 <= i < |SuperframeOf(g, dataFrames)| ==> Sendable(l, SuperframeOf(g, dataFrames)[i])
  {
    if dataFrames != [] {
      var n := |dataFrames| - 1;
      SuperframeSendable(l, g, s, rate, dataFrames[..n]);
      DataFrameSendable(l, g, s, rate, n, dataFrames[n], g.mappingFrames);
    }
  }

  // ---- What the two ends do ----------------------------------------------------------------------------

  /** What both ends carry from superframe to superframe. */
  datatype Ends = Ends(state: State, history: History)

  function BitsGot(out: seq<Option<seq<bool>>>): seq<bool> {
    if out == [] then []
    else BitsGot(out[..|out| - 1]) + if out[|out| - 1].Some? then out[|out| - 1].value else []
  }

  ghost predicate Ready(l: Link, g: Geometry, s: nat, rate: nat) {
    Linked(l) && Geometric(g, s, rate) && l.p.frameBits == g.highFrameBits
  }

  ghost function SendSuperframe(l: Link, g: Geometry, s: nat, rate: nat, tap: nat, e: Ends, bits: seq<bool>)
    : (Ends, seq<Arrival>)
  {
    if Ready(l, g, s, rate) && Superframe(g, bits) then
      var (h, line) := ScrambleAll(tap, e.history, bits);
      var (t, sent) := SendAll((u: State, f: Frame) => SendFrame(l, u, f), e.state, FramesOf(g, line));
      (Ends(t, h), sent)
    else (e, [])
  }

  ghost function TakeSuperframe(l: Link, tap: nat, e: Ends, arrivals: seq<Arrival>): (Ends, seq<bool>) {
    var (t, out) := SendAll((u: State, a: Arrival) => TakeFrame(l, u, a), e.state, arrivals);
    var (h, bits) := DescrambleAll(tap, e.history, BitsGot(out));
    (Ends(t, h), bits)
  }

  lemma {:induction false} GotIsCarried(out: seq<Option<seq<bool>>>, frames: seq<Frame>)
    requires |out| == |frames| && forall i :: 0 <= i < |frames| ==> out[i] == Some(frames[i].bits)
    ensures BitsGot(out) == Carried(frames)
  {
    if out != [] {
      GotIsCarried(out[..|out| - 1], frames[..|frames| - 1]);
    }
  }

  /** A superframe's bits come through, and both ends go on from the same state. */
  lemma SuperframeInStep(l: Link, g: Geometry, s: nat, rate: nat, tap: nat, e: Ends, bits: seq<bool>)
    requires Ready(l, g, s, rate) && Superframe(g, bits) && e.state.rotation < 4
    ensures var (next, sent) := SendSuperframe(l, g, s, rate, tap, e, bits);
      next.state.rotation < 4 && TakeSuperframe(l, tap, e, sent) == (next, bits)
  {
    var (h, line) := ScrambleAll(tap, e.history, bits);
    var frames := FramesOf(g, line);
    SuperframeSendable(l, g, s, rate, DataFramesOf(g.dataFrameBits, line, g.dataFrames));
    RunRoundTrip(l, e.state, frames);
    RunRotation(l, e.state, frames);
    var (t, sent) := SendAll((u: State, f: Frame) => SendFrame(l, u, f), e.state, frames);
    var out := SendAll((u: State, a: Arrival) => TakeFrame(l, u, a), e.state, sent).1;
    GotIsCarried(out, frames);
    SuperframeCarries(g, line, g.dataFrames);
    DescrambleScramble(tap, e.history, bits);
  }

  lemma {:induction false} RunRotation(l: Link, s: State, frames: seq<Frame>)
    requires s.rotation < 4 && forall i :: 0 <= i < |frames| ==> Sendable(l, frames[i])
    ensures SendAll((u: State, f: Frame) => SendFrame(l, u, f), s, frames).0.rotation < 4
  {
    if frames != [] {
      var n := |frames| - 1;
      RunRotation(l, s, frames[..n]);
      FrameInStep(l, SendAll((u: State, f: Frame) => SendFrame(l, u, f), s, frames[..n]).0, frames[n]);
    }
  }

  /** `send` sends superframes over this link, `take` takes them. */
  ghost predicate SendsAt(send: (Ends, seq<bool>) -> (Ends, seq<Arrival>), l: Link, g: Geometry, s: nat, rate: nat,
                          tap: nat, e: Ends, bits: seq<bool>) {
    send(e, bits) == SendSuperframe(l, g, s, rate, tap, e, bits)
  }

  ghost predicate TakesAt(take: (Ends, seq<Arrival>) -> (Ends, seq<bool>), l: Link, tap: nat, e: Ends,
                          a: seq<Arrival>) {
    take(e, a) == TakeSuperframe(l, tap, e, a)
  }

  ghost predicate Joined(send: (Ends, seq<bool>) -> (Ends, seq<Arrival>),
                         take: (Ends, seq<Arrival>) -> (Ends, seq<bool>),
                         l: Link, g: Geometry, s: nat, rate: nat, tap: nat) {
    && (forall e, bits :: SendsAt(send, l, g, s, rate, tap, e, bits))
    && (forall e, a :: TakesAt(take, l, tap, e, a))
  }

  ghost predicate AllSuperframes(g: Geometry, input: seq<seq<bool>>) {
    forall i :: 0 <= i < |input| ==> Superframe(g, input[i])
  }

  lemma SuperframesInStep(send: (Ends, seq<bool>) -> (Ends, seq<Arrival>),
                          take: (Ends, seq<Arrival>) -> (Ends, seq<bool>),
                          shared: Ends -> bool, good: seq<bool> -> bool, want: seq<bool> -> seq<bool>,
                          l: Link, g: Geometry, s: nat, rate: nat, tap: nat)
    requires Ready(l, g, s, rate) && Joined(send, take, l, g, s, rate, tap)
    requires forall u :: shared(u) ==> u.state.rotation < 4
    requires forall u: Ends :: u.state.rotation < 4 ==> shared(u)
    requires forall bits :: good(bits) ==> Superframe(g, bits)
    requires forall bits :: want(bits) == bits
    ensures InStep(send, take, shared, good, want)
  {
    forall u, bits
      ensures Undoes(send, take, shared, good, want, u, bits)
    {
      if shared(u) && good(bits) {
        SuperframeInStep(l, g, s, rate, tap, u, bits);
        assert SendsAt(send, l, g, s, rate, tap, u, bits);
        assert TakesAt(take, l, tap, u, send(u, bits).1);
      }
    }
  }

  /** Any number of superframes comes through bit for bit: scrambler, rotation and trellis stay
      in step across the boundaries. */
  lemma SuperframesRoundTrip(send: (Ends, seq<bool>) -> (Ends, seq<Arrival>),
                             take: (Ends, seq<Arrival>) -> (Ends, seq<bool>),
                             l: Link, g: Geometry, s: nat, rate: nat, tap: nat, e: Ends, input: seq<seq<bool>>)
    requires Ready(l, g, s, rate) && Joined(send, take, l, g, s, rate, tap)
    requires e.state.rotation < 4 && AllSuperframes(g, input)
    ensures var (t, sent) := SendAll(send, e, input);
      t.state.rotation < 4 && SendAll(take, e, sent) == (t, input)
  {
    var shared := (u: Ends) => u.state.rotation < 4;
    var good := (bits: seq<bool>) => Superframe(g, bits);
    var want := (bits: seq<bool>) => bits;
    SuperframesInStep(send, take, shared, good, want, l, g, s, rate, tap);
    ComeBack(send, take, shared, good, want, e, input);
  }
}
