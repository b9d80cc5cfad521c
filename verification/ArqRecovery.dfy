/** When the link recovers.  From every state a run can reach an end can finish without a further
    loss, everything delivered and acknowledged, if and only if it has not given up or an answer
    can still reach it; and both ends can if and only if each can. */
module ArqRecovery {
  import opened Wrappers
  import opened Bits
  import opened Lapm
  import opened ArqSpec
  import opened ArqLink
  import opened ArqAnswers

  /** Everything the left end had accepted in `s` is delivered and acknowledged in `s'`. */
  predicate Finished(s: Link, s': Link)
    requires Valid(s'.l.arq)
  {
    s'.l.accepted == s.l.accepted && Unacked(s'.l.arq) == 0 && Delivered(s'.r) == s.l.accepted
  }

  predicate BothFinished(s: Link, s': Link)
    requires Valid(s'.l.arq) && Valid(s'.r.arq)
  {
    Finished(s, s') && Finished(Mirror(s), Mirror(s'))
  }

  // ---- T401 ---------------------------------------------------------------------------

  /** Frames sent and not acknowledged are timed until the retries are used up. */
  predicate Timed(a: State) {
    a.t401 > 0 && (a.va != a.cursor && a.retries <= a.maxRetries ==> a.deadline != 0)
  }

  predicate MayRetry(a: State) {
    a.retries < a.maxRetries
  }

  ghost predicate Good(s: Link, x: Aux, y: Aux) {
    Inv(s, x, y) && Timed(s.l.arq) && Timed(s.r.arq)
  }

  /** Nothing has been accepted, and neither end has failed, in between. */
  predicate Kept(s: Link, s': Link) {
    && s'.l.accepted == s.l.accepted && s'.r.accepted == s.r.accepted
    && s'.l.arq.failed == s.l.arq.failed && s'.r.arq.failed == s.r.arq.failed
  }

  lemma TimedAcknowledge(a: State, nr: nat)
    requires Valid(a) && nr < MODULUS && Timed(a)
    ensures Timed(Acknowledge(a, nr))
    ensures MayRetry(a) ==> MayRetry(Acknowledge(a, nr))
  {
  }

  lemma TimedTake(a: State, f: Frame)
    requires Valid(a) && InRange(f) && Timed(a)
    requires f.S? ==> f.kind != SREJ && (f.kind == REJ ==> Acknowledge(a, f.nr).va == f.nr)
    ensures Timed(TakeFrame(a, f).0)
    ensures MayRetry(a) ==> MayRetry(TakeFrame(a, f).0)
  {
    if !f.U? {
      TimedAcknowledge(a, f.nr);
    }
  }

  lemma TimedDeliver(s: Link, x: Aux, y: Aux)
    requires Inv(s, x, y) && Timed(s.l.arq)
    ensures Timed(StepLeft(s, Deliver).l.arq)
    ensures MayRetry(s.l.arq) ==> MayRetry(StepLeft(s, Deliver).l.arq)
  {
    if s.toL != [] {
      var f := y.sent[0];
      assert s.toL[0] == FrameOf(f, s.r.arq.cr) && SentOk(f, y, x);
      var x' := AcknowledgeOwn(s.l, x, f.nr);
      TimedTake(s.l.arq, s.toL[0]);
    }
  }

  lemma TimedLeft(s: Link, x: Aux, y: Aux, e: Event)
    requires Inv(s, x, y) && Timed(s.l.arq)
    ensures Timed(StepLeft(s, e).l.arq)
  {
    if e.Deliver? {
      TimedDeliver(s, x, y);
    } else if e.Write? {
      WriteFrame(s.l.arq, e.data);
    }
  }

  lemma TimedStep(s: Link, x: Aux, y: Aux, left: bool, e: Event)
    requires Good(s, x, y)
    ensures Timed(Step(s, left, e).l.arq) && Timed(Step(s, left, e).r.arq)
  {
    if left {
      TimedLeft(s, x, y, e);
    } else {
      TimedLeft(Mirror(s), y, x, e);
    }
  }

  lemma {:induction false} GoodRun(s: Link, x: Aux, y: Aux, events: seq<(bool, Event)>) returns (x': Aux, y': Aux)
    requires Good(s, x, y)
    ensures Good(Run(s, events), x', y')
    decreases |events|
  {
    if events == [] {
      x', y' := x, y;
    } else {
      TimedStep(s, x, y, events[0].0, events[0].1);
      x', y' := KeepsStep(s, x, y, events[0].0, events[0].1);
      x', y' := GoodRun(Step(s, events[0].0, events[0].1), x', y', events[1..]);
    }
  }

  lemma Reachable(events: seq<(bool, Event)>) returns (x: Aux, y: Aux)
    ensures Good(Run(Start(), events), x, y)
  {
    StartInv();
    x, y := GoodRun(Start(), Aux([], 0, 0, 0, []), Aux([], 0, 0, 0, []), events);
  }

  // ---- Giving up ----------------------------------------------------------------------

  /** The seven-bit tests of `Silent` are exact. */
  lemma CountersExact(e: End, x: Aux)
    requires Own(e, x)
    ensures e.arq.va == e.arq.vs <==> x.va == |x.chunks|
    ensures e.arq.cursor == e.arq.vs <==> x.cur == |x.chunks|
  {
    if x.va < |x.chunks| {
      Distinct(x.va, |x.chunks|);
    }
    if x.cur < |x.chunks| {
      Distinct(x.cur, |x.chunks|);
    }
  }

  /** Steps that neither send an I frame nor let time pass. */
  predicate Spares(a: State, e: Event) {
    e.Read? || e.Deliver? || (e.Send? && a.pending.Some?)
  }

  lemma SparesLeft(s: Link, x: Aux, y: Aux, e: Event)
    requires Inv(s, x, y) && Timed(s.l.arq) && Spares(s.l.arq, e) && !Silent(s.l.arq)
    ensures !Silent(StepLeft(s, e).l.arq)
  {
    if e.Deliver? && s.toL != [] {
      TimedDeliver(s, x, y);
      var x', y' := KeepsDeliver(s, x, y);
      CountersExact(s.l, x);
      CountersExact(StepLeft(s, e).l, x');
    }
  }

  // ---- Continuations ------------------------------------------------------------------

  /** An undisturbed run leads from `s` to `s'`. */
  ghost predicate Reaches(s: Link, s': Link) {
    && Valid(s.l.arq) && Valid(s.r.arq)
    && exists es :: Undisturbed(es) && Run(s, es) == s'
  }

  lemma ReachesSelf(s: Link)
    requires Valid(s.l.arq) && Valid(s.r.arq)
    ensures Reaches(s, s)
  {
    assert Undisturbed([]) && Run(s, []) == s;
  }

  lemma ReachesStep(s: Link, left: bool, e: Event)
    requires Valid(s.l.arq) && Valid(s.r.arq) && Calm(e)
    ensures Reaches(s, Step(s, left, e))
  {
    One(s, left, e);
    assert Undisturbed([(left, e)]);
  }

  lemma ReachesOn(s: Link, s1: Link, s2: Link)
    requires Reaches(s, s1) && Reaches(s1, s2)
    ensures Reaches(s, s2)
  {
    var a :| Undisturbed(a) && Run(s, a) == s1;
    var b :| Undisturbed(b) && Run(s1, b) == s2;
    RunAppend(s, a, b);
    assert Undisturbed(a + b);
  }

  function Flip(es: seq<(bool, Event)>): (fs: seq<(bool, Event)>)
    ensures |fs| == |es|
  {
    seq(|es|, i requires 0 <= i < |es| => (!es[i].0, es[i].1))
  }

  /** The two ends are alike. */
  lemma {:induction false} RunMirror(s: Link, es: seq<(bool, Event)>)
    requires Valid(s.l.arq) && Valid(s.r.arq)
    ensures Run(Mirror(s), Flip(es)) == Mirror(Run(s, es))
    decreases |es|
  {
    if es != [] {
      assert Flip(es)[1..] == Flip(es[1..]);
      assert Step(Mirror(s), !es[0].0, es[0].1) == Mirror(Step(s, es[0].0, es[0].1));
      RunMirror(Step(s, es[0].0, es[0].1), es[1..]);
    }
  }

  lemma ReachesMirror(s: Link, s': Link)
    requires Reaches(s, s')
    ensures Reaches(Mirror(s), Mirror(s'))
  {
    var es :| Undisturbed(es) && Run(s, es) == s';
    RunMirror(s, es);
    assert Undisturbed(Flip(es));
  }

  /** Neither end gives up on the way from `s` to `s'`. */
  predicate Spared(s: Link, s': Link) {
    (!Silent(s.l.arq) ==> !Silent(s'.l.arq)) && (!Silent(s.r.arq) ==> !Silent(s'.r.arq))
  }

  /** A good state further on, in which neither end has given up that had not before. */
  ghost predicate Onward(s: Link, s': Link, x: Aux, y: Aux) {
    Reaches(s, s') && Kept(s, s') && Good(s', x, y) && Spared(s, s')
  }

  lemma SparesKeeps(s: Link, e: Event)
    requires Valid(s.l.arq) && Valid(s.r.arq) && Spares(s.l.arq, e)
    ensures Kept(s, StepLeft(s, e)) && StepLeft(s, e).r == s.r
  {
  }

  lemma SparesStep(s: Link, x: Aux, y: Aux, left: bool, e: Event)
    requires Good(s, x, y) && Spares(if left then s.l.arq else s.r.arq, e)
    ensures Spared(s, Step(s, left, e)) && Kept(s, Step(s, left, e))
  {
    if left {
      SparesKeeps(s, e);
      if !Silent(s.l.arq) {
        SparesLeft(s, x, y, e);
      }
    } else {
      SparesKeeps(Mirror(s), e);
      if !Silent(s.r.arq) {
        SparesLeft(Mirror(s), y, x, e);
      }
    }
  }

  /** One more such step; the caller knows what it does to the invariant. */
  lemma OnwardTo(s: Link, s1: Link, x: Aux, y: Aux, left: bool, e: Event, x': Aux, y': Aux)
    requires Onward(s, s1, x, y) && Spares(if left then s1.l.arq else s1.r.arq, e)
    requires Inv(Step(s1, left, e), x', y')
    ensures Onward(s, Step(s1, left, e), x', y')
  {
    TimedStep(s1, x, y, left, e);
    SparesStep(s1, x, y, left, e);
    ReachesStep(s1, left, e);
    ReachesOn(s, s1, Step(s1, left, e));
  }

  lemma OnwardStep(s: Link, s1: Link, x: Aux, y: Aux, left: bool, e: Event) returns (x': Aux, y': Aux)
    requires Onward(s, s1, x, y) && Spares(if left then s1.l.arq else s1.r.arq, e)
    ensures Onward(s, Step(s1, left, e), x', y')
  {
    x', y' := KeepsStep(s1, x, y, left, e);
    OnwardTo(s, s1, x, y, left, e, x', y');
  }

  // ---- Emptying the lines -------------------------------------------------------------

  /** Everything on the lines arrives. */
  lemma {:induction false} DrainLines(s: Link, s1: Link, x: Aux, y: Aux) returns (s': Link, x': Aux, y': Aux)
    requires Onward(s, s1, x, y)
    ensures Onward(s, s', x', y') && s'.toL == [] && s'.toR == []
    decreases |s1.toL| + |s1.toR|
  {
    if s1.toL != [] {
      assert s1.toL[0] == FrameOf(y.sent[0], s1.r.arq.cr);
      x', y' := OnwardStep(s, s1, x, y, true, Deliver);
      s', x', y' := DrainLines(s, StepLeft(s1, Deliver), x', y');
    } else if s1.toR != [] {
      assert s1.toR[0] == FrameOf(x.sent[0], s1.l.arq.cr);
      x', y' := OnwardStep(s, s1, x, y, false, Deliver);
      s', x', y' := DrainLines(s, Step(s1, false, Deliver), x', y');
    } else {
      s', x', y' := s1, x, y;
    }
  }

  /** A supervisory frame changes no pending answer. */
  lemma SupervisoryPasses(s: Link)
    requires Valid(s.l.arq) && Valid(s.r.arq) && Empty(s) && s.l.arq.pending.Some?
    ensures var s' := Mirror(StepLeft(Mirror(StepLeft(s, Send)), Deliver));
      Empty(s') && s'.l.arq.pending == None && s'.r.arq.pending == s.r.arq.pending
  {
  }

  /** Waiting supervisory frames go out and arrive. */
  lemma FlushLeft(s: Link, s1: Link, x: Aux, y: Aux) returns (s': Link, x': Aux, y': Aux)
    requires Onward(s, s1, x, y) && Empty(s1)
    ensures Onward(s, s', x', y') && Empty(s') && s'.l.arq.pending == None && s'.r.arq.pending == s1.r.arq.pending
  {
    s', x', y' := s1, x, y;
    if s1.l.arq.pending.Some? {
      SupervisoryPasses(s1);
      x', y' := OnwardStep(s, s1, x, y, true, Send);
      var s2 := Step(s1, true, Send);
      x', y' := OnwardStep(s, s2, x', y', false, Deliver);
      s' := Step(s2, false, Deliver);
    }
  }

  lemma FlushRight(s: Link, s1: Link, x: Aux, y: Aux) returns (s': Link, x': Aux, y': Aux)
    requires Onward(s, s1, x, y) && Empty(s1)
    ensures Onward(s, s', x', y') && Empty(s') && s'.r.arq.pending == None && s'.l.arq.pending == s1.l.arq.pending
  {
    s', x', y' := s1, x, y;
    if s1.r.arq.pending.Some? {
      SupervisoryPasses(Mirror(s1));
      x', y' := OnwardStep(s, s1, x, y, false, Send);
      var s2 := Step(s1, false, Send);
      x', y' := OnwardStep(s, s2, x', y', true, Deliver);
      s' := Step(s2, true, Deliver);
    }
  }

  lemma MakeQuiet(s: Link, x: Aux, y: Aux) returns (s': Link, x': Aux, y': Aux)
    requires Good(s, x, y)
    ensures Onward(s, s', x', y') && Quiet(s')
  {
    ReachesSelf(s);
    s', x', y' := DrainLines(s, s, x, y);
    s', x', y' := FlushLeft(s, s', x', y');
    s', x', y' := FlushRight(s, s', x', y');
  }

  // ---- Hearing an answer --------------------------------------------------------------

  /** A good state further on, whoever has given up meanwhile. */
  ghost predicate Toward(s: Link, s': Link, x: Aux, y: Aux) {
    Reaches(s, s') && Kept(s, s') && Good(s', x, y)
  }

  lemma TowardOn(s: Link, s1: Link, x1: Aux, y1: Aux, s2: Link, x2: Aux, y2: Aux)
    requires Toward(s, s1, x1, y1) && Toward(s1, s2, x2, y2)
    ensures Toward(s, s2, x2, y2)
  {
    ReachesOn(s, s1, s2);
  }

  lemma OnwardOn(s: Link, s1: Link, x1: Aux, y1: Aux, s2: Link, x2: Aux, y2: Aux)
    requires Onward(s, s1, x1, y1) && Onward(s1, s2, x2, y2)
    ensures Onward(s, s2, x2, y2)
  {
    ReachesOn(s, s1, s2);
  }

  lemma OnwardMirror(s: Link, m: Link, x: Aux, y: Aux)
    requires Onward(Mirror(s), m, y, x)
    ensures Onward(s, Mirror(m), x, y)
  {
    ReachesMirror(Mirror(s), m);
  }

  lemma OneOnward(s: Link, x: Aux, y: Aux, left: bool, e: Event) returns (x': Aux, y': Aux)
    requires Good(s, x, y) && Spares(if left then s.l.arq else s.r.arq, e)
    ensures Onward(s, Step(s, left, e), x', y')
  {
    ReachesSelf(s);
    x', y' := OnwardStep(s, s, x, y, left, e);
  }

  lemma LanePlain(line: seq<Frame>, cr: nat, e: End, x: Aux, y: Aux)
    requires Own(e, x) && Lane(line, cr, x, y)
    ensures forall f :: f in line ==> Plain(f) && (f.I? ==> |f.info| <= CHUNK)
  {
  }

  lemma GoodPlain(s: Link, x: Aux, y: Aux)
    requires Good(s, x, y)
    ensures AllPlain(s)
    ensures forall f :: f in s.toL + s.toR ==> Plain(f) && (f.I? ==> |f.info| <= CHUNK)
  {
    LanePlain(s.toR, s.l.arq.cr, s.l, x, y);
    LanePlain(s.toL, s.r.arq.cr, s.r, y, x);
  }

  /** The left end has not given up, or will hear an answer. */
  predicate Hopes(s: Link) {
    !Silent(s.l.arq) || Hears(s, true)
  }

  /** What the left end does before it hears the next frame, so that the right end's hope
      outlasts it: a waiting answer that helps goes out, or the ring is read. */
  lemma Prepare(s: Link, x: Aux, y: Aux) returns (s': Link, x': Aux, y': Aux)
    requires Good(s, x, y) && s.toL != [] && Silent(s.r.arq) && Hears(Mirror(s), true)
    ensures Onward(s, s', x', y') && s'.toL == s.toL && s'.r == s.r && s'.l.arq.vs == s.l.arq.vs
    ensures InRange(s.toL[0])
    ensures LineHelps(s'.toR, s.r.arq.vs, true)
         || Answers(TakeFrame(s'.l.arq, s.toL[0]).0, s.toL[1..], s.r.arq.vs, true)
  {
    GoodPlain(s, x, y);
    assert s.toL[0] in s.toL + s.toR;
    var top := s.r.arq.vs;
    if Pends(s.l.arq, top, true) {
      LineHelpsOn(s.toR, NextFrame(s.l.arq).1.value, top, true);
      s' := Step(s, true, Send);
      x', y' := OneOnward(s, x, y, true, Send);
    } else if LineHelps(s.toR, top, true) {
      s', x', y' := s, x, y;
      ReachesSelf(s);
    } else {
      var n := StirChoice(s.l.arq, s.toL, top, true);
      s' := Step(s, true, Read(n));
      x', y' := OneOnward(s, x, y, true, Read(n));
    }
  }

  /** What hearing a frame does to the silence of the end that hears it. */
  lemma DeliverFrees(s: Link)
    requires Valid(s.l.arq) && Valid(s.r.arq) && s.toL != [] && Plain(s.toL[0])
    ensures var s' := StepLeft(s, Deliver);
      && s'.toL == s.toL[1..] && s'.l.arq.vs == s.l.arq.vs
      && (FrameHelps(s.toL[0], s.l.arq.vs, true) ==> !Silent(s'.l.arq))
  {
    HeardIs(s.l.arq, s.toL[0]);
    SilentHears(s.l.arq, s.toL[0]);
  }

  /** And to the hope of the other, prepared for. */
  lemma DeliverHopes(s: Link)
    requires Valid(s.l.arq) && Valid(s.r.arq) && s.toL != [] && InRange(s.toL[0])
    requires LineHelps(s.toR, s.r.arq.vs, true)
          || Answers(TakeFrame(s.l.arq, s.toL[0]).0, s.toL[1..], s.r.arq.vs, true)
    ensures Hopes(Mirror(StepLeft(s, Deliver)))
  {
  }

  lemma HearThen(s: Link, s1: Link, x: Aux, y: Aux) returns (s': Link, x': Aux, y': Aux)
    requires Onward(s, s1, x, y) && s1.toL == s.toL != [] && s1.l.arq.vs == s.l.arq.vs
    ensures s' == StepLeft(s1, Deliver) && Onward(s, s', x', y') && s'.toL == s.toL[1..]
    ensures s'.l.arq.vs == s.l.arq.vs
    ensures FrameHelps(s.toL[0], s.l.arq.vs, true) ==> !Silent(s'.l.arq)
  {
    GoodPlain(s1, x, y);
    assert s1.toL[0] in s1.toL + s1.toR;
    DeliverFrees(s1);
    s' := Step(s1, true, Deliver);
    x', y' := OnwardStep(s, s1, x, y, true, Deliver);
  }

  /** The left end hears the next frame. */
  lemma HearNext(s: Link, x: Aux, y: Aux) returns (s': Link, x': Aux, y': Aux)
    requires Good(s, x, y) && s.toL != []
    ensures Onward(s, s', x', y') && s'.toL == s.toL[1..] && s'.l.arq.vs == s.l.arq.vs
    ensures FrameHelps(s.toL[0], s.l.arq.vs, true) ==> !Silent(s'.l.arq)
    ensures Hopes(Mirror(s)) ==> Hopes(Mirror(s'))
  {
    if Silent(s.r.arq) && Hears(Mirror(s), true) {
      var s1, x1, y1 := Prepare(s, x, y);
      DeliverHopes(s1);
      s', x', y' := HearThen(s, s1, x1, y1);
    } else {
      ReachesSelf(s);
      s', x', y' := HearThen(s, s, x, y);
    }
  }

  /** An answer on the line is heard. */
  lemma {:induction false} HearHelp(s: Link, x: Aux, y: Aux) returns (s': Link, x': Aux, y': Aux)
    requires Good(s, x, y) && (Silent(s.l.arq) ==> LineHelps(s.toL, s.l.arq.vs, true))
    ensures Onward(s, s', x', y') && !Silent(s'.l.arq) && (Hopes(Mirror(s)) ==> Hopes(Mirror(s')))
    decreases |s.toL|
  {
    if !Silent(s.l.arq) {
      s', x', y' := s, x, y;
      ReachesSelf(s);
    } else {
      LineHelpsRest(s.toL, s.l.arq.vs, true);
      var s1, x1, y1 := HearNext(s, x, y);
      s', x', y' := HearHelp(s1, x1, y1);
      OnwardOn(s, s1, x1, y1, s', x', y');
    }
  }

  /** The right end's waiting answer goes out. */
  lemma SendAnswer(s: Link, x: Aux, y: Aux, all: bool) returns (s': Link, x': Aux, y': Aux)
    requires Good(s, x, y) && Pends(s.r.arq, s.l.arq.vs, all)
    ensures Onward(s, s', x', y') && s'.l == s.l && s'.r.arq.vs == s.r.arq.vs
    ensures LineHelps(s'.toL, s.l.arq.vs, all) && (Hopes(Mirror(s)) ==> Hopes(Mirror(s')))
  {
    var f := NextFrame(s.r.arq).1.value;
    LineHelpsOn(s.toL, f, s.l.arq.vs, all);
    StirsSupervisory(s.toL, f, s.l.arq.vr, |s.l.arq.rx|, s.r.arq.vs, true);
    s' := Step(s, false, Send);
    x', y' := OneOnward(s, x, y, false, Send);
  }

  /** Reading and hearing, at the right end. */
  lemma ReadAndHear(s: Link, x: Aux, y: Aux, n: nat) returns (s': Link, x': Aux, y': Aux)
    requires Good(s, x, y) && s.toR != [] && Plain(s.toR[0])
    ensures Onward(s, s', x', y') && s'.l == s.l && s'.toL == s.toL && s'.toR == s.toR[1..]
    ensures s'.r.arq == TakeFrame(ArqSpec.Read(s.r.arq, n).0, s.toR[0]).0
  {
    var s1 := Step(s, false, Read(n));
    x', y' := OneOnward(s, x, y, false, Read(n));
    s' := Step(s1, false, Deliver);
    x', y' := OnwardStep(s, s1, x', y', false, Deliver);
  }

  /** Hearing a frame leaves an end its hope. */
  lemma HearingHopes(a: State, toL: seq<Frame>, n: nat)
    requires Valid(a) && toL != [] && Plain(toL[0]) && LineHelps(toL, a.vs, true)
    ensures var a' := TakeFrame(ArqSpec.Read(a, n).0, toL[0]).0;
      !Silent(a') || (LineHelps(toL[1..], a.vs, true) && a'.vs == a.vs)
  {
    var a1 := ArqSpec.Read(a, n).0;
    HeardIs(a1, toL[0]);
    SilentHears(a1, toL[0]);
    LineHelpsRest(toL, a.vs, true);
  }

  /** The right end hears the next frame, having read so that it can still come to answer. */
  lemma StirNext(s: Link, x: Aux, y: Aux, all: bool) returns (s': Link, x': Aux, y': Aux)
    requires Good(s, x, y) && Stirs(s.toR, s.r.arq.vr, |s.r.arq.rx|, s.l.arq.vs, all)
    ensures Onward(s, s', x', y') && s'.l == s.l && s'.r.arq.vs == s.r.arq.vs && s'.toR == s.toR[1..]
    ensures Answers(s'.r.arq, s'.toR, s.l.arq.vs, all) && (Hopes(Mirror(s)) ==> Hopes(Mirror(s')))
  {
    GoodPlain(s, x, y);
    assert s.toR[0] in s.toL + s.toR;
    var n := StirChoice(s.r.arq, s.toR, s.l.arq.vs, all);
    HeardIs(ArqSpec.Read(s.r.arq, n).0, s.toR[0]);
    s', x', y' := ReadAndHear(s, x, y, n);
    if Silent(s.r.arq) && LineHelps(s.toR, s.r.arq.vs, true) {
      HearingHopes(s.r.arq, s.toR, n);
    }
  }

  /** An answer that can come comes. */
  lemma {:induction false} Provoke(s: Link, x: Aux, y: Aux, all: bool) returns (s': Link, x': Aux, y': Aux)
    requires Good(s, x, y) && Answers(s.r.arq, s.toR, s.l.arq.vs, all)
    ensures Onward(s, s', x', y') && s'.l == s.l && s'.r.arq.vs == s.r.arq.vs
    ensures LineHelps(s'.toL, s.l.arq.vs, all) && (Hopes(Mirror(s)) ==> Hopes(Mirror(s')))
    decreases |s.toR|
  {
    if Pends(s.r.arq, s.l.arq.vs, all) {
      s', x', y' := SendAnswer(s, x, y, all);
    } else {
      var s1, x1, y1 := StirNext(s, x, y, all);
      s', x', y' := Provoke(s1, x1, y1, all);
      OnwardOn(s, s1, x1, y1, s', x', y');
    }
  }

  /** What the left end hopes for happens, and the right end keeps its own hope. */
  lemma HopesDo(s: Link, x: Aux, y: Aux) returns (s': Link, x': Aux, y': Aux)
    requires Good(s, x, y) && Hopes(s)
    ensures Onward(s, s', x', y') && !Silent(s'.l.arq) && (Hopes(Mirror(s)) ==> Hopes(Mirror(s')))
  {
    if !Silent(s.l.arq) || LineHelps(s.toL, s.l.arq.vs, true) {
      s', x', y' := HearHelp(s, x, y);
    } else {
      var s1, x1, y1 := Provoke(s, x, y, true);
      s', x', y' := HearHelp(s1, x1, y1);
      OnwardOn(s, s1, x1, y1, s', x', y');
    }
  }

  lemma BothHopesDo(s: Link, x: Aux, y: Aux) returns (s': Link, x': Aux, y': Aux)
    requires Good(s, x, y) && Hopes(s) && Hopes(Mirror(s))
    ensures Onward(s, s', x', y') && !Silent(s'.l.arq) && !Silent(s'.r.arq)
  {
    var s1, x1, y1 := HopesDo(s, x, y);
    var m;
    m, y', x' := HopesDo(Mirror(s1), y1, x1);
    s' := Mirror(m);
    OnwardMirror(s1, m, x', y');
    OnwardOn(s, s1, x1, y1, s', x', y');
  }

  // ---- An I frame as an answer ----------------------------------------------------------

  /** T401 runs out: the send cursor returns to the first frame not acknowledged. */
  lemma Expire(s: Link, x: Aux, y: Aux) returns (s': Link, x': Aux)
    requires Good(s, x, y) && x.va < x.cur && MayRetry(s.l.arq)
    ensures Toward(s, s', x', y) && x' == x.(cur := x.va)
    ensures s' == s.(l := s.l.(arq := s'.l.arq)) && s'.l.arq.pending == s.l.arq.pending
    ensures s'.l.arq.vr == s.l.arq.vr && s'.l.arq.vs == s.l.arq.vs
  {
    var e := Advance(s.l.arq.deadline);
    Distinct(x.va, x.cur);
    Distinct(x.va, |x.chunks|);
    s' := Step(s, true, e);
    x' := KeepsAdvance(s, x, y, s.l.arq.deadline);
    TimedStep(s, x, y, true, e);
    ReachesStep(s, true, e);
    if x'.cur != x'.va {
      Distinct(x'.va, x'.cur);
    }
  }

  /** An end that can speak gets a frame to send. */
  lemma Ready(s: Link, x: Aux, y: Aux) returns (s': Link, x': Aux)
    requires Good(s, x, y) && Speaks(s.l.arq)
    ensures Toward(s, s', x', y) && x'.cur < |x'.chunks| && x'.chunks == x.chunks
    ensures s' == s.(l := s.l.(arq := s'.l.arq)) && s'.l.arq.pending == s.l.arq.pending
    ensures s'.l.arq.vr == s.l.arq.vr && s'.l.arq.vs == s.l.arq.vs
  {
    CountersExact(s.l, x);
    if x.cur < |x.chunks| {
      s', x' := s, x;
      ReachesSelf(s);
    } else {
      s', x' := Expire(s, x, y);
    }
  }

  /** It goes out; and if it was the last, the far end's answer to it will help. */
  lemma SpeakOut(s: Link, x: Aux, y: Aux) returns (s': Link, x': Aux)
    requires Good(s, x, y) && s.l.arq.pending == None && x.cur < |x.chunks|
    requires s.l.arq.vr == s.r.arq.vs
    ensures Toward(s, s', x', y) && Hopes(s') && Hopes(Mirror(s'))
  {
    var a := s.l.arq;
    Distinct(x.cur, |x.chunks|);
    var f := NextFrame(a).1.value;
    s' := Step(s, true, Send);
    x' := KeepsSend(s, x, y);
    TimedStep(s, x, y, true, Send);
    ReachesStep(s, true, Send);
    LineHelpsOn(s.toR, f, s.r.arq.vs, true);
    if Silent(s'.l.arq) {
      StirsLast(s.toR, f, s.r.arq.vr, |s.r.arq.rx|, a.vs);
    }
  }

  /** The left end, which holds everything and can speak, frees both. */
  lemma SpeakHelp(s: Link, x: Aux, y: Aux) returns (s': Link, x': Aux, y': Aux)
    requires Good(s, x, y) && s.l.arq.vr == s.r.arq.vs && Speaks(s.l.arq)
    ensures Toward(s, s', x', y') && !Silent(s'.l.arq) && !Silent(s'.r.arq)
  {
    if s.l.arq.pending.Some? {
      s', x', y' := BothHopesDo(s, x, y);
    } else {
      var s1, x1 := Ready(s, x, y);
      var s2, x2 := SpeakOut(s1, x1, y);
      s', x', y' := BothHopesDo(s2, x2, y);
      TowardOn(s1, s2, x2, y, s', x', y');
      TowardOn(s, s1, x1, y, s', x', y');
    }
  }

  /** An end that holds everything is sent no frame it still expects, so it answers to any. */
  lemma HeldStirs(s: Link, x: Aux, y: Aux)
    requires Inv(s, x, y) && s.l.arq.vr == s.r.arq.vs && s.toL != [] && s.toL[0].I?
    ensures Stirs(s.toL, s.l.arq.vr, |s.l.arq.rx|, s.r.arq.vs, true)
  {
    var f := y.sent[0];
    assert s.toL[0] == FrameOf(f, s.r.arq.cr) && SentOk(f, y, x);
    ExpectedExact(f, y, x);
    if x.vr < |y.chunks| {
      Distinct(x.vr, |y.chunks|);
    }
  }

  lemma LineHelpsAll(lane: seq<Frame>, top: nat)
    requires LineHelps(lane, top, false)
    ensures LineHelps(lane, top, true)
  {
    var f :| f in lane && FrameHelps(f, top, false);
    assert FrameHelps(f, top, true);
  }

  /** The left end, which holds everything, is asked to repeat a frame, and does. */
  lemma {:induction false} WakeHelp(s: Link, x: Aux, y: Aux) returns (s': Link, x': Aux, y': Aux)
    requires Good(s, x, y) && s.l.arq.vr == s.r.arq.vs && LineHelps(s.toL, s.l.arq.vs, false)
    ensures Toward(s, s', x', y') && !Silent(s'.l.arq) && !Silent(s'.r.arq)
    decreases |s.toL|
  {
    LineHelpsAll(s.toL, s.l.arq.vs);
    if s.toL[0].I? {
      HeldStirs(s, x, y);
    }
    if Hears(Mirror(s), true) {
      s', x', y' := BothHopesDo(s, x, y);
    } else {
      var f := s.toL[0];
      GoodPlain(s, x, y);
      assert f in s.toL + s.toR;
      HeardIs(s.l.arq, f);
      MuteHears(s.l.arq, f);
      LineHelpsRest(s.toL, s.l.arq.vs, false);
      var s1 := Step(s, true, Deliver);
      var x1, y1 := OneOnward(s, x, y, true, Deliver);
      if FrameHelps(f, s.l.arq.vs, false) {
        s', x', y' := SpeakHelp(s1, x1, y1);
      } else {
        s', x', y' := WakeHelp(s1, x1, y1);
      }
      TowardOn(s, s1, x1, y1, s', x', y');
    }
  }

  /** An end that no answer can reach, but that the far end can still tell with an I frame. */
  lemma RescueDoes(s: Link, x: Aux, y: Aux) returns (s': Link, x': Aux, y': Aux)
    requires Good(s, x, y) && CanFinish(Mirror(s)) && !Hopes(Mirror(s))
    ensures Toward(s, s', x', y') && !Silent(s'.l.arq) && !Silent(s'.r.arq)
  {
    if Speaks(s.l.arq) {
      s', x', y' := SpeakHelp(s, x, y);
    } else if LineHelps(s.toL, s.l.arq.vs, false) {
      s', x', y' := WakeHelp(s, x, y);
    } else {
      var s1, x1, y1 := Provoke(s, x, y, false);
      s', x', y' := WakeHelp(s1, x1, y1);
      TowardOn(s, s1, x1, y1, s', x', y');
    }
  }

  lemma RescueLeft(s: Link, x: Aux, y: Aux) returns (s': Link, x': Aux, y': Aux)
    requires Good(s, x, y) && CanFinish(s) && !Hopes(s)
    ensures Toward(s, s', x', y') && !Silent(s'.l.arq) && !Silent(s'.r.arq)
  {
    var m;
    m, y', x' := RescueDoes(Mirror(s), y, x);
    s' := Mirror(m);
    ReachesMirror(Mirror(s), m);
  }

  // ---- The left end finishes ----------------------------------------------------------

  /** From one quiet state to another while only the left end sends I frames: it has nothing
      new to hear, and the right end does not give up. */
  ghost predicate Talk(s: Link, x: Aux, y: Aux, s': Link, x': Aux, y': Aux) {
    && Reaches(s, s') && Kept(s, s') && Good(s', x', y') && Quiet(s')
    && x'.chunks == x.chunks && y'.chunks == y.chunks && x'.vr == x.vr
    && (!Silent(s.r.arq) ==> !Silent(s'.r.arq))
  }

  lemma TalkOn(s: Link, x: Aux, y: Aux, s1: Link, x1: Aux, y1: Aux, s2: Link, x2: Aux, y2: Aux)
    requires Talk(s, x, y, s1, x1, y1) && Talk(s1, x1, y1, s2, x2, y2)
    ensures Talk(s, x, y, s2, x2, y2)
  {
    ReachesOn(s, s1, s2);
  }

  lemma ReadAll(s: Link, x: Aux, y: Aux) returns (s': Link)
    requires Good(s, x, y) && Quiet(s)
    ensures Onward(s, s', x, y) && Quiet(s') && s'.r.arq.rx == [] && s'.l == s.l
  {
    KeepsRead(Mirror(s), y, x, RX_ROOM);
    ReachesSelf(s);
    s' := Step(s, false, Read(RX_ROOM));
    OnwardTo(s, s, x, y, false, Read(RX_ROOM), x, y);
  }

  /** The next I frame goes out. */
  lemma Speak(s: Link, s1: Link, x: Aux, y: Aux) returns (s': Link, x': Aux)
    requires Onward(s, s1, x, y) && Quiet(s1) && x.cur < |x.chunks|
    ensures Reaches(s, s') && Kept(s, s') && Good(s', x', y)
    ensures s'.r == s1.r && s'.toL == [] && |s'.toR| == 1 && s'.l.arq.pending == None
    ensures x' == x.(cur := x.cur + 1, sent := [Sent(true, x.cur, x.chunks[x.cur], RR, x.vr, |x.chunks|)])
  {
    s' := Step(s1, true, Send);
    x' := KeepsSend(s1, x, y);
    TimedStep(s1, x, y, true, Send);
    ReachesStep(s1, true, Send);
    ReachesOn(s, s1, s');
  }

  /** The test for a repetition of the frame before the expected one is exact, too. */
  lemma RepetitionExact(ns: nat, vr: nat)
    requires vr < ns + MODULUS && ns + 1 < vr + MODULUS
    ensures Succ(ns % MODULUS) == vr % MODULUS <==> ns + 1 == vr
  {
    SuccIs(ns);
    if ns + 1 < vr {
      Distinct(ns + 1, vr);
    } else if vr < ns + 1 {
      Distinct(vr, ns + 1);
    }
  }

  /** It reaches a receiver with room, which asks for the frame after it, or, when an earlier one
      is missing or it was a frame long received, for a repetition. */
  lemma Hear(s: Link, x: Aux, y: Aux) returns (s': Link, x': Aux, y': Aux)
    requires Good(s, x, y) && s.toL == [] && |s.toR| == 1 && s.l.arq.pending == None && s.r.arq.rx == []
    requires x.sent[0].isI && x.cur == x.sent[0].ns + 1 && x.va <= x.sent[0].ns
    ensures s' == Step(s, false, Deliver) && Good(s', x', y') && Empty(s') && s'.l == s.l
    ensures Kept(s, s') && Spared(s, s')
    ensures x' == x.(sent := []) && y'.chunks == y.chunks && y'.va == x.sent[0].nr && y'.vr >= y.vr
    ensures s'.r.arq.pending.Some? && s'.r.arq.pending.value in {RR, REJ}
    ensures s'.r.arq.pending == Some(RR) ==> y'.vr == x.cur
    ensures x.sent[0].ns == y.vr ==> y'.vr == x.cur
  {
    s' := Step(s, false, Deliver);
    var f := x.sent[0];
    assert s.toR[0] == FrameOf(f, s.l.arq.cr) && SentOk(f, x, y);
    DeliverIs(Mirror(s), f);
    y', x' := KeepsDeliver(Mirror(s), y, x);
    TimedStep(s, x, y, false, Deliver);
    SparesStep(s, x, y, false, Deliver);
    ExpectedExact(f, x, y);
    RepetitionExact(f.ns, y.vr);
  }

  /** The answer leaves, with the receiver's V(R). */
  lemma Reply(s: Link, x: Aux, y: Aux) returns (s': Link, y': Aux)
    requires Good(s, x, y) && Empty(s) && s.l.arq.pending == None && s.r.arq.pending.Some?
    ensures Onward(s, s', x, y') && s'.l == s.l && s'.r.arq.pending == None && s'.toR == [] && |s'.toL| == 1
    ensures y' == y.(sent := [Sent(false, 0, [], s.r.arq.pending.value, y.vr, |y.chunks|)])
  {
    s' := Step(s, false, Send);
    y' := KeepsSend(Mirror(s), y, x);
    ReachesSelf(s);
    OnwardTo(s, s, x, y, false, Send, x, y');
  }

  /** It arrives: the window moves up to the receiver's V(R), the cursor with it. */
  lemma Answer(s: Link, s1: Link, x: Aux, y: Aux) returns (s': Link, x': Aux, y': Aux)
    requires Onward(s, s1, x, y) && s1.toR == [] && |s1.toL| == 1
    requires s1.l.arq.pending == None && s1.r.arq.pending == None
    requires !y.sent[0].isI && y.sent[0].nr == y.vr && y.sent[0].kind in {RR, REJ}
    requires y.sent[0].kind == RR ==> x.cur <= y.vr
    ensures Onward(s, s', x', y') && Quiet(s')
    ensures x'.va == x'.cur == y.vr && x'.chunks == x.chunks && x'.vr == x.vr && y' == y.(sent := [])
  {
    s' := Step(s1, true, Deliver);
    assert s1.toL[0] == FrameOf(y.sent[0], s1.r.arq.cr);
    DeliverIs(s1, y.sent[0]);
    x', y' := KeepsDeliver(s1, x, y);
    OnwardTo(s, s1, x, y, true, Deliver, x', y');
  }

  /** The next I frame is sent, heard and answered: the window moves up to the receiver's V(R),
      beyond the frame sent if that was the first outstanding; and the right end has its
      acknowledgement too. */
  lemma Exchange(s: Link, x: Aux, y: Aux) returns (s': Link, x': Aux, y': Aux)
    requires Good(s, x, y) && Quiet(s) && x.cur < |x.chunks|
    ensures Talk(s, x, y, s', x', y') && x'.va == x'.cur && y'.va == x.vr
    ensures x.cur == x.va ==> x'.va > x.va
  {
    var s1 := ReadAll(s, x, y);
    var s2, x2 := Speak(s, s1, x, y);
    var s3, x3, y3 := Hear(s2, x2, y);
    ReachesStep(s2, false, Deliver);
    ReachesOn(s, s2, s3);
    var s4, y4 := Reply(s3, x3, y3);
    s', x', y' := Answer(s3, s4, x3, y4);
    ReachesOn(s, s3, s');
  }

  lemma {:induction false} AcknowledgeAll(s: Link, s1: Link, x: Aux, y: Aux, x1: Aux, y1: Aux)
    returns (s': Link, x': Aux, y': Aux)
    requires Talk(s, x, y, s1, x1, y1) && x1.va == x1.cur && y1.va == x.vr
    ensures Talk(s, x, y, s', x', y') && x'.va == |x'.chunks| && y'.va == x.vr
    decreases |x.chunks| - x1.va
  {
    s', x', y' := s1, x1, y1;
    if x1.va < |x.chunks| {
      s', x', y' := Exchange(s1, x1, y1);
      TalkOn(s, x, y, s1, x1, y1, s', x', y');
      s', x', y' := AcknowledgeAll(s, s', x, y, x', y');
    }
  }

  /** An end that can still speak gets everything acknowledged, and so does the far end if it
      had only that left to wait for. */
  lemma FinishLeft(s: Link, x: Aux, y: Aux) returns (s': Link, x': Aux, y': Aux)
    requires Good(s, x, y) && Quiet(s) && Speaks(s.l.arq)
    ensures Talk(s, x, y, s', x', y') && x'.va == |x'.chunks| && y'.va == x.vr
  {
    CountersExact(s.l, x);
    if x.cur < |x.chunks| {
      s', x', y' := Exchange(s, x, y);
    } else {
      var s1, x1 := Expire(s, x, y);
      s', x', y' := Exchange(s1, x1, y);
      TalkOn(s, x, y, s1, x1, y, s', x', y');
    }
    s', x', y' := AcknowledgeAll(s, s', x, y, x', y');
  }

  lemma FinishRight(s: Link, x: Aux, y: Aux) returns (s': Link, x': Aux, y': Aux)
    requires Good(s, x, y) && Quiet(s) && Speaks(s.r.arq)
    ensures Reaches(s, s') && Kept(s, s') && Good(s', x', y')
    ensures y'.va == |y'.chunks| && x'.va == y.vr && x'.chunks == x.chunks
  {
    var m;
    m, y', x' := FinishLeft(Mirror(s), y, x);
    s' := Mirror(m);
    ReachesMirror(Mirror(s), m);
  }

  /** All acknowledged is all delivered. */
  lemma AllAcknowledged(s: Link, s': Link, x: Aux, y: Aux)
    requires Inv(s', x, y) && Kept(s, s') && x.va == |x.chunks|
    ensures Finished(s, s')
  {
    DistanceUp(x.va, |x.chunks|);
    SafeFrom(s', x, y);
  }

  lemma CanFinishDoes(s: Link, x: Aux, y: Aux) returns (s': Link)
    requires Good(s, x, y) && CanFinish(s)
    ensures Reaches(s, s') && Kept(s, s') && Finished(s, s')
  {
    var s1, x1, y1;
    if Hopes(s) {
      s1, x1, y1 := HopesDo(s, x, y);
    } else {
      s1, x1, y1 := RescueLeft(s, x, y);
    }
    var q, x', y' := MakeQuiet(s1, x1, y1);
    TowardOn(s, s1, x1, y1, q, x', y');
    CountersExact(q.l, x');
    s' := q;
    if x'.va < |x'.chunks| {
      s', x', y' := FinishLeft(q, x', y');
      ReachesOn(s, q, s');
    }
    AllAcknowledged(s, s', x', y');
  }

  /** One end after the other; an end with nothing outstanding stays so while the other
      finishes. */
  lemma BothFinish(s: Link, x: Aux, y: Aux) returns (s': Link)
    requires Good(s, x, y) && Quiet(s) && !Silent(s.l.arq) && !Silent(s.r.arq)
    ensures Reaches(s, s') && Kept(s, s') && BothFinished(s, s')
  {
    CountersExact(s.l, x);
    s' := s;
    var x', y' := x, y;
    ReachesSelf(s);
    if x.va < |x.chunks| {
      s', x', y' := FinishLeft(s, x, y);
    }
    CountersExact(s'.r, y');
    if y'.va < |y'.chunks| {
      var s1, x1, y1 := s', x', y';
      s', x', y' := FinishRight(s1, x1, y1);
      ReachesOn(s, s1, s');
    }
    AllAcknowledged(s, s', x', y');
    AllAcknowledged(Mirror(s), Mirror(s'), y', x');
  }

  lemma BothCanFinishDo(s: Link, x: Aux, y: Aux) returns (s': Link)
    requires Good(s, x, y) && CanFinish(s) && CanFinish(Mirror(s))
    ensures Reaches(s, s') && Kept(s, s') && BothFinished(s, s')
  {
    var s1, x1, y1;
    if !Hopes(s) {
      s1, x1, y1 := RescueLeft(s, x, y);
    } else if !Hopes(Mirror(s)) {
      s1, x1, y1 := RescueDoes(s, x, y);
    } else {
      s1, x1, y1 := BothHopesDo(s, x, y);
    }
    var q, x', y' := MakeQuiet(s1, x1, y1);
    TowardOn(s, s1, x1, y1, q, x', y');
    s' := BothFinish(q, x', y');
    ReachesOn(s, q, s');
  }

  lemma CannotFinish(s: Link, x: Aux, y: Aux)
    requires Good(s, x, y) && !CanFinish(s)
    ensures forall es :: Undisturbed(es) ==> !Finished(s, Run(s, es))
  {
    GoodPlain(s, x, y);
    forall es | Undisturbed(es)
      ensures !Finished(s, Run(s, es))
    {
      NeverFinishes(s, es);
      SilentUnacked(Run(s, es).l.arq);
    }
  }

  // ---- The main results ---------------------------------------------------------------

  /** After any run, whatever is still on the lines: an end can get everything it accepted
      delivered and acknowledged without further loss if and only if it has not given up or can
      still be answered; and then it can without a retry limit being passed on the way. */
  lemma RecoversExactly(events: seq<(bool, Event)>)
    ensures var s := Run(Start(), events);
      && (CanFinish(s) <==> exists es :: Undisturbed(es) && Finished(s, Run(s, es)))
      && (CanFinish(s) <==> exists es :: Undisturbed(es) && Finished(s, Run(s, es)) && Kept(s, Run(s, es)))
  {
    var x, y := Reachable(events);
    var s := Run(Start(), events);
    if CanFinish(s) {
      var s' := CanFinishDoes(s, x, y);
      var es :| Undisturbed(es) && Run(s, es) == s';
    } else {
      CannotFinish(s, x, y);
    }
  }

  /** And both can in one continuation if and only if each can. */
  lemma BothRecoverExactly(events: seq<(bool, Event)>)
    ensures var s := Run(Start(), events);
      && (CanFinish(s) && CanFinish(Mirror(s)) <==> exists es :: Undisturbed(es) && BothFinished(s, Run(s, es)))
      && (CanFinish(s) && CanFinish(Mirror(s)) <==>
            exists es :: Undisturbed(es) && BothFinished(s, Run(s, es)) && Kept(s, Run(s, es)))
  {
    var x, y := Reachable(events);
    var s := Run(Start(), events);
    if CanFinish(s) && CanFinish(Mirror(s)) {
      var s' := BothCanFinishDo(s, x, y);
      var es :| Undisturbed(es) && Run(s, es) == s';
    } else if !CanFinish(s) {
      CannotFinish(s, x, y);
    } else {
      CannotFinish(Mirror(s), y, x);
      forall es | Undisturbed(es)
        ensures !BothFinished(s, Run(s, es))
      {
        RunMirror(s, es);
        assert Undisturbed(Flip(es));
      }
    }
  }

  /** In particular, both can unless one of them has given up. */
  lemma Recovery(events: seq<(bool, Event)>)
    requires !Silent(Run(Start(), events).l.arq) && !Silent(Run(Start(), events).r.arq)
    ensures var s := Run(Start(), events); exists es :: Undisturbed(es) && BothFinished(s, Run(s, es))
  {
    BothRecoverExactly(events);
  }

  // ---- With ends that stop when they have failed ------------------------------------------------

  predicate Working(s: Link) {
    !s.l.arq.failed && !s.r.arq.failed
  }

  /** No end has failed anywhere along the run. */
  predicate AllWorking(s: Link, es: seq<(bool, Event)>)
    requires Valid(s.l.arq) && Valid(s.r.arq)
    decreases |es|
  {
    Working(s) && (es != [] ==> AllWorking(Step(s, es[0].0, es[0].1), es[1..]))
  }

  lemma FailedStays(s: Link, e: Event)
    requires Valid(s.l.arq) && Valid(s.r.arq)
    ensures s.l.arq.failed ==> StepLeft(s, e).l.arq.failed
    ensures StepLeft(s, e).r.arq.failed == s.r.arq.failed
  {
    if e.Write? {
      WriteFrame(s.l.arq, e.data);
    }
  }

  lemma {:induction false} WorkingThroughout(s: Link, es: seq<(bool, Event)>)
    requires Valid(s.l.arq) && Valid(s.r.arq) && Working(Run(s, es))
    ensures AllWorking(s, es)
    decreases |es|
  {
    if es != [] {
      var (left, e) := es[0];
      WorkingThroughout(Step(s, left, e), es[1..]);
      FailedStays(if left then s else Mirror(s), e);
    }
  }

  /** An end whose retry limit has been passed takes no further part: a session stops driving it.
      As long as neither has come to that, an end can finish under the same condition, in a
      continuation in which it stays so. */
  lemma RecoversWorking(events: seq<(bool, Event)>)
    requires Working(Run(Start(), events))
    ensures var s := Run(Start(), events);
      && (CanFinish(s) <==> exists es :: Undisturbed(es) && AllWorking(s, es) && Finished(s, Run(s, es)))
      && (CanFinish(s) && CanFinish(Mirror(s)) <==>
            exists es :: Undisturbed(es) && AllWorking(s, es) && BothFinished(s, Run(s, es)))
  {
    OneRecoversWorking(events);
    BothRecoverWorking(events);
  }

  lemma OneRecoversWorking(events: seq<(bool, Event)>)
    requires Working(Run(Start(), events))
    ensures var s := Run(Start(), events);
      CanFinish(s) <==> exists es :: Undisturbed(es) && AllWorking(s, es) && Finished(s, Run(s, es))
  {
    var s := Run(Start(), events);
    RecoversExactly(events);
    if CanFinish(s) {
      var es :| Undisturbed(es) && Finished(s, Run(s, es)) && Kept(s, Run(s, es));
      WorkingThroughout(s, es);
    }
  }

  lemma BothRecoverWorking(events: seq<(bool, Event)>)
    requires Working(Run(Start(), events))
    ensures var s := Run(Start(), events);
      CanFinish(s) && CanFinish(Mirror(s)) <==>
        exists es :: Undisturbed(es) && AllWorking(s, es) && BothFinished(s, Run(s, es))
  {
    var s := Run(Start(), events);
    BothRecoverExactly(events);
    if CanFinish(s) && CanFinish(Mirror(s)) {
      var es :| Undisturbed(es) && BothFinished(s, Run(s, es)) && Kept(s, Run(s, es));
      WorkingThroughout(s, es);
    }
  }

  lemma {:induction false} WriteMoves(a: State, data: seq<Byte>)
    requires Valid(a) && data != [] && Unacked(a) < a.window
    ensures var a' := ArqSpec.Write(a, data).0; Unacked(a) < Unacked(a') && a'.va == a.va
    decreases |data|
  {
    var z := if |data| > a.maxInfo then a.maxInfo else |data|;
    var a1 := Enqueue(a, data[..z]);
    assert Unacked(a1) == Unacked(a) + 1;
    if data[z..] != [] && Unacked(a1) < a1.window {
      WriteMoves(a1, data[z..]);
    }
  }

  /** A new write frees an end that has given up, if the window takes any of it. */
  lemma WriteRevives(events: seq<(bool, Event)>, data: seq<Byte>)
    requires var a := Run(Start(), events).l.arq; Silent(a) && Unacked(a) < a.window && data != []
    ensures CanFinish(Step(Run(Start(), events), true, Write(data)))
  {
    var a := Run(Start(), events).l.arq;
    WriteMoves(a, data);
    WriteFrame(a, data);
  }

  // ---- How an end comes to give up ----------------------------------------------------

  /** One octet accepted, sent and lost for the `k`-th time, T401 running. */
  predicate LostAgain(s: Link, k: nat) {
    && Valid(s.l.arq) && Valid(s.r.arq) && Quiet(s)
    && s.l.arq.va == 0 && s.l.arq.vs == 1 && s.l.arq.cursor == 1 && s.l.arq.tx[0] == Slot([0], true)
    && s.l.arq.t401 == 1000 && s.l.arq.deadline == s.l.arq.now + 1000
    && s.l.arq.retries == k && s.l.arq.maxRetries == 3
    && s.r.arq.cursor == s.r.arq.vs == s.r.arq.va
  }

  lemma FirstLoss() returns (es: seq<(bool, Event)>)
    ensures LostAgain(Run(Start(), es), 0)
  {
    es := [(true, Write([0]))];
    One(Start(), true, Write([0]));
    var s := Step(Start(), true, Write([0]));
    assert [0][..1] == [0] && [0][1..] == [];
    assert s.l.arq == Enqueue(Start().l.arq, [0]);
    RunAppend(Start(), es, [(true, Send)]);
    One(s, true, Send);
    es := es + [(true, Send)];
    var s1 := Step(s, true, Send);
    RunAppend(Start(), es, [(false, Lose(0))]);
    One(s1, false, Lose(0));
    es := es + [(false, Lose(0))];
  }

  lemma {:induction false} LossesAgain(s: Link, k: nat) returns (es: seq<(bool, Event)>)
    requires LostAgain(s, k) && k <= 3
    ensures Quiet(Run(s, es)) && !CanFinish(Run(s, es)) && Run(s, es).l.arq.failed
    decreases 3 - k
  {
    es := [(true, Advance(1000))];
    One(s, true, Advance(1000));
    QuietCondition(Step(s, true, Advance(1000)));
    if k < 3 {
      var s1 := Step(s, true, Advance(1000));
      var s2 := Step(s1, true, Send);
      var s3 := Step(s2, false, Lose(0));
      var rest := LossesAgain(s3, k + 1);
      RunAppend(s, es, [(true, Send)]);
      One(s1, true, Send);
      es := es + [(true, Send)];
      RunAppend(s, es, [(false, Lose(0))]);
      One(s2, false, Lose(0));
      es := es + [(false, Lose(0))];
      RunAppend(s, es, rest);
      es := es + rest;
    }
  }

  /** The retry limit is a real limit: after four losses of one frame no undisturbed run delivers
      what was accepted. */
  lemma GivesUp() returns (events: seq<(bool, Event)>)
    ensures var s := Run(Start(), events);
      Quiet(s) && !CanFinish(s) && forall es :: Undisturbed(es) ==> !Finished(s, Run(s, es))
  {
    var first := FirstLoss();
    var rest := LossesAgain(Run(Start(), first), 0);
    RunAppend(Start(), first, rest);
    events := first + rest;
    var x, y := Reachable(events);
    CannotFinish(Run(Start(), events), x, y);
  }
}
