/** The link of ArqLink over real lines: what travels is the bit string that
    src/v42_lapm.c and src/v42_hdlc.c make of a frame, and what arrives is decoded. */
module ArqWire {
  import opened Wrappers
  import opened Bits
  import opened Lapm
  import opened ArqSpec
  import L = ArqLink

  datatype Wire = Wire(l: L.End, r: L.End, toR: seq<seq<bool>>, toL: seq<seq<bool>>)

  datatype Event =
    | Write(data: seq<Byte>)
    | Read(n: nat)
    | Send(capacity: nat)
    | Deliver
    | Lose(i: nat)
    | Noise(bits: seq<bool>)
    | Advance(ms: nat)
    | Configure(window: nat, maxInfo: nat)

  function Start(): Wire {
    Wire(L.End(Init(1), [], []), L.End(Init(0), [], []), [], [])
  }

  /** The left end acts. `Noise` is any bit string that does not decode. */
  function StepLeft(w: Wire, e: Event): (w': Wire)
    requires Valid(w.l.arq) && Valid(w.r.arq)
    ensures Valid(w'.l.arq) && Valid(w'.r.arq)
  {
    var a := w.l.arq;
    match e
    case Write(data) =>
      var (a', n) := ArqSpec.Write(a, data);
      w.(l := w.l.(arq := a', accepted := w.l.accepted + data[..n]))
    case Read(n) =>
      var (a', d) := ArqSpec.Read(a, n);
      w.(l := w.l.(arq := a', taken := w.l.taken + d))
    case Send(capacity) =>
      var (a', bits) := Next(a, capacity);
      w.(l := w.l.(arq := a'), toR := if bits.Some? then w.toR + [bits.value] else w.toR)
    case Deliver =>
      if w.toL == [] then w
      else w.(l := w.l.(arq := Receive(a, w.toL[0]).0), toL := w.toL[1..])
    case Lose(i) => if i < |w.toL| then w.(toL := w.toL[..i] + w.toL[i + 1..]) else w
    case Noise(bits) => if Decode(bits) == None then w.(l := w.l.(arq := Receive(a, bits).0)) else w
    case Advance(ms) => w.(l := w.l.(arq := ArqSpec.Advance(a, ms)))
    case Configure(n, m) => w.(l := w.l.(arq := ArqSpec.Configure(a, n, m)))
  }

  function Mirror(w: Wire): Wire {
    Wire(w.r, w.l, w.toL, w.toR)
  }

  function Step(w: Wire, left: bool, e: Event): (w': Wire)
    requires Valid(w.l.arq) && Valid(w.r.arq)
    ensures Valid(w'.l.arq) && Valid(w'.r.arq)
  {
    if left then StepLeft(w, e) else Mirror(StepLeft(Mirror(w), e))
  }

  function Run(w: Wire, events: seq<(bool, Event)>): (w': Wire)
    requires Valid(w.l.arq) && Valid(w.r.arq)
    ensures Valid(w'.l.arq) && Valid(w'.r.arq)
    decreases |events|
  {
    if events == [] then w else Run(Step(w, events[0].0, events[0].1), events[1..])
  }

  ghost predicate Carries(line: seq<seq<bool>>, frames: seq<Frame>) {
    && |line| == |frames|
    && forall k :: 0 <= k < |line| ==> Decode(line[k]) == Some(frames[k]) && L.InRange(frames[k])
  }

  /** The same ends, and lines that decode to the frames of the abstract link. */
  ghost predicate Matches(w: Wire, s: L.Link) {
    w.l == s.l && w.r == s.r && Carries(w.toR, s.toR) && Carries(w.toL, s.toL)
    && Valid(s.l.arq) && Valid(s.r.arq)
  }

  lemma EncodeDecodes(a: State, capacity: nat)
    requires Valid(a)
    ensures var f := NextFrame(a).1;
      f.Some? ==> (L.InRange(f.value) && !f.value.U?
                   && (Encode(f.value, capacity).Some? ==> Decode(Encode(f.value, capacity).value) == f))
  {
    var f := NextFrame(a).1;
    if f.Some? && Encode(f.value, capacity).Some? {
      if a.pending.Some? {
        SRoundTrip(a.pending.value, a.cr, a.vr, capacity);
      } else {
        IRoundTrip(a.cr, a.cursor, a.vr, 0, a.tx[a.cursor].data, capacity);
      }
    }
  }

  lemma LostLast(line: seq<Frame>, f: Frame)
    ensures var longer := line + [f]; longer[..|line|] + longer[|line| + 1..] == line
  {
  }

  /** A frame that does not fit the buffer is, at worst, a frame lost. */
  lemma DroppedIsLost(s: L.Link) returns (es: seq<(bool, L.Event)>)
    requires Valid(s.l.arq) && Valid(s.r.arq) && NextFrame(s.l.arq).1.Some?
    ensures L.Run(s, es) == s.(l := s.l.(arq := NextFrame(s.l.arq).0))
  {
    var (a, f) := NextFrame(s.l.arq);
    var lose := L.Lose(|s.toR|);
    es := [(true, L.Send), (false, lose)];
    assert es[1..] == [(false, lose)];
    L.One(L.Step(s, true, L.Send), false, lose);
    LostLast(s.toR, f.value);
  }

  lemma SendMatches(w: Wire, s: L.Link, capacity: nat) returns (es: seq<(bool, L.Event)>)
    requires Matches(w, s)
    ensures Matches(StepLeft(w, Send(capacity)), L.Run(s, es))
  {
    var a := w.l.arq;
    EncodeDecodes(a, capacity);
    var (a', f) := NextFrame(a);
    if f.Some? && Encode(f.value, capacity) == None {
      if f.value.I? {
        es := [];
      } else {
        es := DroppedIsLost(s);
      }
    } else {
      es := [(true, L.Send)];
      L.One(s, true, L.Send);
    }
  }

  lemma ReceiveMatches(a: State, bits: seq<bool>, f: Frame)
    requires Valid(a) && Decode(bits) == Some(f) && L.InRange(f)
    ensures Receive(a, bits).0 == TakeFrame(a, f).0
  {
  }

  lemma DeliverMatches(w: Wire, s: L.Link)
    requires Matches(w, s)
    ensures Matches(StepLeft(w, Deliver), L.StepLeft(s, L.Deliver))
  {
    if w.toL != [] {
      ReceiveMatches(w.l.arq, w.toL[0], s.toL[0]);
    }
  }

  lemma LoseMatches(w: Wire, s: L.Link, i: nat)
    requires Matches(w, s)
    ensures Matches(StepLeft(w, Lose(i)), L.StepLeft(s, L.Lose(i)))
  {
  }

  lemma NoiseMatches(w: Wire, s: L.Link, bits: seq<bool>)
    requires Matches(w, s)
    ensures StepLeft(w, Noise(bits)) == w
  {
  }

  /** Every step on the wire is a short run of the abstract link. */
  lemma StepMatches(w: Wire, s: L.Link, e: Event) returns (es: seq<(bool, L.Event)>)
    requires Matches(w, s)
    ensures Matches(StepLeft(w, e), L.Run(s, es))
  {
    match e
    case Send(capacity) => es := SendMatches(w, s, capacity);
    case Noise(bits) => es := []; NoiseMatches(w, s, bits);
    case Deliver => es := [(true, L.Deliver)]; L.One(s, true, L.Deliver); DeliverMatches(w, s);
    case Lose(i) => es := [(true, L.Lose(i))]; L.One(s, true, L.Lose(i)); LoseMatches(w, s, i);
    case Write(data) => es := [(true, L.Write(data))]; L.One(s, true, L.Write(data));
    case Read(n) => es := [(true, L.Read(n))]; L.One(s, true, L.Read(n));
    case Advance(ms) => es := [(true, L.Advance(ms))]; L.One(s, true, L.Advance(ms));
    case Configure(n, m) => es := [(true, L.Configure(n, m))]; L.One(s, true, L.Configure(n, m));
  }

  function Flip(es: seq<(bool, L.Event)>): (f: seq<(bool, L.Event)>)
    ensures |f| == |es|
  {
    if es == [] then [] else [(!es[0].0, es[0].1)] + Flip(es[1..])
  }

  lemma {:induction false} FlipRuns(s: L.Link, es: seq<(bool, L.Event)>)
    requires Valid(s.l.arq) && Valid(s.r.arq)
    ensures L.Run(L.Mirror(s), Flip(es)) == L.Mirror(L.Run(s, es))
    decreases |es|
  {
    if es != [] {
      FlipRuns(L.Step(s, es[0].0, es[0].1), es[1..]);
    }
  }

  lemma {:induction false} RunMatches(w: Wire, s: L.Link, events: seq<(bool, Event)>) returns (es: seq<(bool, L.Event)>)
    requires Matches(w, s)
    ensures Matches(Run(w, events), L.Run(s, es))
    decreases |events|
  {
    if events == [] {
      es := [];
    } else {
      var head;
      if events[0].0 {
        head := StepMatches(w, s, events[0].1);
      } else {
        var flipped := StepMatches(Mirror(w), L.Mirror(s), events[0].1);
        head := Flip(flipped);
        FlipRuns(L.Mirror(s), flipped);
      }
      var tail := RunMatches(Step(w, events[0].0, events[0].1), L.Run(s, head), events[1..]);
      L.RunAppend(s, head, tail);
      es := head + tail;
    }
  }

  /** The prefix property for every run of two ends that exchange encoded frames. */
  lemma Safety(events: seq<(bool, Event)>)
    ensures var w := Run(Start(), events);
      && L.Delivered(w.r) <= w.l.accepted && L.Delivered(w.l) <= w.r.accepted
      && (Unacked(w.l.arq) == 0 ==> L.Delivered(w.r) == w.l.accepted)
      && (Unacked(w.r.arq) == 0 ==> L.Delivered(w.l) == w.r.accepted)
  {
    var es := RunMatches(Start(), L.Start(), events);
    L.Safety(es);
  }
}
