/** What an end that has used up its retries can still hope for.  It sends nothing of its own
    any more, so only an answer from the far end helps it: one that acknowledges everything, or
    one that asks for a repetition.  Whether such an answer can come is decided by the frames on
    the lines, the answers waiting and the room in the rings. */
module ArqAnswers {
  import opened Wrappers
  import opened Bits
  import opened Lapm
  import opened ArqSpec
  import opened ArqLink

  /** Time passes, frames are sent and arrive, users read: nothing is lost, nothing new is
      written. */
  predicate Undisturbed(es: seq<(bool, Event)>) {
    forall k :: 0 <= k < |es| ==> Calm(es[k].1)
  }

  predicate Calm(e: Event) {
    e.Read? || e.Send? || e.Deliver? || e.Advance?
  }

  /** Frames outstanding, none of them left to send, and no retry left to T401. */
  predicate Silent(a: State) {
    a.va != a.vs && a.cursor == a.vs && a.retries >= a.maxRetries
  }

  /** An I frame can still be sent, or sent again. */
  predicate Speaks(a: State) {
    a.cursor != a.vs || (a.va != a.vs && a.retries < a.maxRetries)
  }

  // ---- Answers that help ---------------------------------------------------------------

  /** Whether an answer with N(R) equal to `n` helps an end with V(S) equal to `top`: a request
      to repeat does, and with `all` so does an acknowledgement of everything. */
  predicate Helps(kind: Supervisory, n: nat, top: nat, all: bool) {
    if all then kind == REJ || n == top else kind == REJ && n != top
  }

  predicate FrameHelps(f: Frame, top: nat, all: bool) {
    !f.U? && Helps(if f.S? then f.kind else RR, f.nr, top, all)
  }

  predicate LineHelps(lane: seq<Frame>, top: nat, all: bool) {
    exists f :: f in lane && FrameHelps(f, top, all)
  }

  /** With V(R) equal to `v` and `k` octets in the ring, an end that hears these frames can come
      to give an answer that helps.  The ring refuses a frame only if it is full, and it may be
      read before every frame. */
  predicate Stirs(lane: seq<Frame>, v: nat, k: nat, top: nat, all: bool)
    decreases |lane|
  {
    lane != [] &&
    var f, rest := lane[0], lane[1..];
    if !f.I? then Stirs(rest, v, k, top, all)
    else if f.ns != v then
      Helps(if Succ(f.ns) == v then RR else REJ, v, top, all) || Stirs(rest, v, k, top, all)
    else if k + |f.info| <= RX_ROOM then
      Helps(RR, Succ(v), top, all) || Stirs(rest, Succ(v), k + |f.info|, top, all)
    else
      || Helps(RNR, v, top, all) || Stirs(rest, v, k, top, all)
      || Helps(RR, Succ(v), top, all) || Stirs(rest, Succ(v), RX_ROOM, top, all)
  }

  predicate Pends(a: State, top: nat, all: bool) {
    a.pending.Some? && Helps(a.pending.value, a.vr, top, all)
  }

  /** The end has such an answer waiting, or may yet have one. */
  predicate Answers(a: State, lane: seq<Frame>, top: nat, all: bool) {
    Pends(a, top, all) || Stirs(lane, a.vr, |a.rx|, top, all)
  }

  /** Such an answer is on its way to the left end, or may yet be. */
  predicate Hears(s: Link, all: bool) {
    LineHelps(s.toL, s.l.arq.vs, all) || Answers(s.r.arq, s.toR, s.l.arq.vs, all)
  }

  /** The left end has not given up, or will hear an answer; or the right end holds all it is
      owed and has an I frame to say so with, or may be asked to repeat one. */
  predicate CanFinish(s: Link) {
    || !Silent(s.l.arq) || Hears(s, true)
    || (s.r.arq.vr == s.l.arq.vs && (Speaks(s.r.arq) || Hears(Mirror(s), false)))
  }

  predicate Empty(s: Link) {
    s.toL == [] && s.toR == []
  }

  /** No frame on the lines and no answer waiting. */
  predicate Quiet(s: Link) {
    Empty(s) && s.l.arq.pending == None && s.r.arq.pending == None
  }

  /** The condition for a quiet link. */
  lemma QuietCondition(s: Link)
    requires Quiet(s)
    ensures CanFinish(s) <==> !Silent(s.l.arq) || (s.r.arq.vr == s.l.arq.vs && Speaks(s.r.arq))
  {
    assert Mirror(s).toL == [] && Mirror(s).toR == [];
  }

  // ---- Less in the ring, more on the line ---------------------------------------------------

  /** The fuller the ring, the more can happen. */
  lemma {:induction false} StirsLess(lane: seq<Frame>, v: nat, k: nat, k': nat, top: nat, all: bool)
    requires Stirs(lane, v, k, top, all) && k <= k' <= RX_ROOM
    ensures Stirs(lane, v, k', top, all)
    decreases |lane|
  {
    var f, rest := lane[0], lane[1..];
    if Stirs(rest, v, k, top, all) {
      StirsLess(rest, v, k, k', top, all);
    }
    if f.I? && f.ns == v && k + |f.info| <= RX_ROOM && Stirs(rest, Succ(v), k + |f.info|, top, all) {
      StirsLess(rest, Succ(v), k + |f.info|,
                if k' + |f.info| <= RX_ROOM then k' + |f.info| else RX_ROOM, top, all);
    }
  }

  /** A supervisory frame at the end of the line asks for no answer. */
  lemma {:induction false} StirsSupervisory(lane: seq<Frame>, f: Frame, v: nat, k: nat, top: nat, all: bool)
    requires !f.I?
    ensures Stirs(lane + [f], v, k, top, all) <==> Stirs(lane, v, k, top, all)
    decreases |lane|
  {
    if lane == [] {
      assert (lane + [f])[1..] == [];
    } else {
      var g, rest := lane[0], lane[1..];
      assert (lane + [f])[0] == g && (lane + [f])[1..] == rest + [f];
      StirsSupervisory(rest, f, v, k, top, all);
      if g.I? && g.ns == v {
        StirsSupervisory(rest, f, Succ(v), k + |g.info|, top, all);
        StirsSupervisory(rest, f, Succ(v), RX_ROOM, top, all);
      }
    }
  }

  /** The last frame there is always calls for an answer that helps. */
  lemma {:induction false} StirsLast(lane: seq<Frame>, f: Frame, v: nat, k: nat, top: nat)
    requires f.I? && Succ(f.ns) == top
    ensures Stirs(lane + [f], v, k, top, true)
    decreases |lane|
  {
    if lane == [] {
      assert (lane + [f])[0] == f;
    } else {
      var g, rest := lane[0], lane[1..];
      assert (lane + [f])[0] == g && (lane + [f])[1..] == rest + [f];
      StirsLast(rest, f, v, k, top);
      if g.I? && g.ns == v {
        StirsLast(rest, f, Succ(v), k + |g.info|, top);
        StirsLast(rest, f, Succ(v), RX_ROOM, top);
      }
    }
  }

  lemma LineHelpsOn(lane: seq<Frame>, f: Frame, top: nat, all: bool)
    ensures LineHelps(lane + [f], top, all) <==> LineHelps(lane, top, all) || FrameHelps(f, top, all)
  {
    if LineHelps(lane, top, all) {
      var g :| g in lane && FrameHelps(g, top, all);
      assert g in lane + [f];
    }
    assert f in lane + [f];
  }

  lemma LineHelpsRest(lane: seq<Frame>, top: nat, all: bool)
    requires lane != []
    ensures LineHelps(lane, top, all) <==> FrameHelps(lane[0], top, all) || LineHelps(lane[1..], top, all)
  {
    assert lane == [lane[0]] + lane[1..];
    assert lane[0] in lane;
  }

  // ---- Hearing one frame ----------------------------------------------------------------------

  predicate Plain(f: Frame) {
    InRange(f) && (f.I? || (f.S? && f.kind != SREJ))
  }

  /** What a frame does to V(R), the ring and the answer waiting. */
  lemma HeardIs(a: State, f: Frame)
    requires Valid(a) && Plain(f)
    ensures var a' := TakeFrame(a, f).0;
      && a'.vs == a.vs
      && (f.S? ==> a'.vr == a.vr && a'.rx == a.rx && a'.pending == a.pending)
      && (f.I? && f.ns != a.vr ==>
            a'.vr == a.vr && a'.rx == a.rx && a'.pending == Some(if Succ(f.ns) == a.vr then RR else REJ))
      && (f.I? && f.ns == a.vr && |a.rx| + |f.info| > RX_ROOM ==>
            a'.vr == a.vr && a'.rx == a.rx && a'.pending == Some(RNR))
      && (f.I? && f.ns == a.vr && |a.rx| + |f.info| <= RX_ROOM ==>
            a'.vr == Succ(a.vr) && a'.rx == a.rx + f.info && a'.pending == Some(RR))
  {
  }

  /** Silence ends with an answer that helps, and with no other. */
  lemma SilentHears(a: State, f: Frame)
    requires Valid(a) && Plain(f)
    ensures FrameHelps(f, a.vs, true) ==> !Silent(TakeFrame(a, f).0)
    ensures !FrameHelps(f, a.vs, true) && Silent(a) ==> Silent(TakeFrame(a, f).0)
  {
  }

  lemma MuteAcknowledges(a: State, nr: nat)
    requires Valid(a) && nr < MODULUS && !Speaks(a)
    ensures !Speaks(Acknowledge(a, nr)) && Acknowledge(a, nr).vs == a.vs
  {
  }

  /** An end with nothing to send gets something to send from a request to repeat, and from
      nothing else. */
  lemma MuteHears(a: State, f: Frame)
    requires Valid(a) && Plain(f)
    ensures FrameHelps(f, a.vs, false) ==> Speaks(TakeFrame(a, f).0)
    ensures !FrameHelps(f, a.vs, false) && !Speaks(a) ==> !Speaks(TakeFrame(a, f).0)
  {
    if !Speaks(a) {
      MuteAcknowledges(a, f.nr);
    }
  }

  /** No answer to hope for stays none, whatever the ring holds. */
  lemma AnswersHear(a: State, lane: seq<Frame>, top: nat, all: bool)
    requires Valid(a) && lane != [] && Plain(lane[0]) && !Answers(a, lane, top, all)
    ensures !Answers(TakeFrame(a, lane[0]).0, lane[1..], top, all)
  {
    HeardIs(a, lane[0]);
  }

  lemma AnswersRead(a: State, lane: seq<Frame>, top: nat, all: bool, n: nat)
    requires Valid(a) && !Answers(a, lane, top, all)
    ensures !Answers(ArqSpec.Read(a, n).0, lane, top, all)
  {
    var a' := ArqSpec.Read(a, n).0;
    if Stirs(lane, a.vr, |a'.rx|, top, all) {
      StirsLess(lane, a.vr, |a'.rx|, |a.rx|, top, all);
    }
  }

  /** Reading the right number of octets first keeps the hope. */
  lemma StirChoice(a: State, lane: seq<Frame>, top: nat, all: bool) returns (n: nat)
    requires Valid(a) && lane != [] && Plain(lane[0]) && (lane[0].I? ==> |lane[0].info| <= CHUNK)
    requires Stirs(lane, a.vr, |a.rx|, top, all)
    ensures var a' := TakeFrame(ArqSpec.Read(a, n).0, lane[0]).0;
      if lane[0].I? then Answers(a', lane[1..], top, all) else Stirs(lane[1..], a'.vr, |a'.rx|, top, all)
  {
    var f, rest := lane[0], lane[1..];
    n := 0;
    if f.I? && f.ns == a.vr && |a.rx| + |f.info| > RX_ROOM {
      if !Helps(RNR, a.vr, top, all) && !Stirs(rest, a.vr, |a.rx|, top, all) {
        n := |a.rx| + |f.info| - RX_ROOM;
      }
    }
    HeardIs(ArqSpec.Read(a, n).0, f);
  }

  // ---- An end that has given up -----------------------------------------------------------------

  predicate AllPlain(s: Link) {
    && (forall f :: f in s.toL ==> Plain(f)) && (forall f :: f in s.toR ==> Plain(f))
    && s.l.arq.pending != Some(SREJ) && s.r.arq.pending != Some(SREJ)
  }

  /** The left end has given up for good. */
  predicate Hopeless(s: Link) {
    Valid(s.l.arq) && Valid(s.r.arq) && AllPlain(s) && !CanFinish(s)
  }

  lemma PlainStep(s: Link, e: Event)
    requires Valid(s.l.arq) && Valid(s.r.arq) && AllPlain(s) && Calm(e)
    ensures AllPlain(StepLeft(s, e))
  {
    if e.Deliver? && s.toL != [] {
      assert s.toL[0] in s.toL;
      HeardIs(s.l.arq, s.toL[0]);
    }
  }

  lemma HopelessDeliverLeft(s: Link)
    requires Hopeless(s) && s.toL != []
    ensures !CanFinish(StepLeft(s, Deliver))
  {
    var f := s.toL[0];
    assert f in s.toL;
    var s' := StepLeft(s, Deliver);
    HeardIs(s.l.arq, f);
    SilentHears(s.l.arq, f);
    LineHelpsRest(s.toL, s.l.arq.vs, true);
    if s.r.arq.vr == s.l.arq.vs {
      AnswersHear(s.l.arq, s.toL, s.r.arq.vs, false);
    }
  }

  lemma HopelessSendLeft(s: Link)
    requires Hopeless(s)
    ensures !CanFinish(StepLeft(s, Send))
  {
    if s.l.arq.pending.Some? {
      var f := NextFrame(s.l.arq).1.value;
      StirsSupervisory(s.toR, f, s.r.arq.vr, |s.r.arq.rx|, s.l.arq.vs, true);
      LineHelpsOn(s.toR, f, s.r.arq.vs, false);
    }
  }

  lemma HopelessReadLeft(s: Link, n: nat)
    requires Hopeless(s)
    ensures !CanFinish(StepLeft(s, Read(n)))
  {
    if s.r.arq.vr == s.l.arq.vs {
      AnswersRead(s.l.arq, s.toL, s.r.arq.vs, false, n);
    }
  }

  lemma HopelessLeft(s: Link, e: Event)
    requires Hopeless(s) && Calm(e)
    ensures Hopeless(StepLeft(s, e))
  {
    PlainStep(s, e);
    match e
    case Deliver =>
      if s.toL != [] {
        HopelessDeliverLeft(s);
      }
    case Send => HopelessSendLeft(s);
    case Read(n) => HopelessReadLeft(s, n);
    case Advance(ms) =>
  }

  lemma HopelessDeliverRight(s: Link)
    requires Hopeless(s) && s.toR != []
    ensures !CanFinish(Step(s, false, Deliver))
  {
    var f := s.toR[0];
    assert f in s.toR;
    HeardIs(s.r.arq, f);
    AnswersHear(s.r.arq, s.toR, s.l.arq.vs, true);
    if s.r.arq.vr == s.l.arq.vs {
      MuteHears(s.r.arq, f);
      LineHelpsRest(s.toR, s.r.arq.vs, false);
    }
  }

  lemma HopelessSendRight(s: Link)
    requires Hopeless(s)
    ensures !CanFinish(Step(s, false, Send))
  {
    var (a, f) := NextFrame(s.r.arq);
    if f.Some? {
      LineHelpsOn(s.toL, f.value, s.l.arq.vs, true);
    }
  }

  lemma HopelessReadRight(s: Link, n: nat)
    requires Hopeless(s)
    ensures !CanFinish(Step(s, false, Read(n)))
  {
    AnswersRead(s.r.arq, s.toR, s.l.arq.vs, true, n);
  }

  lemma HopelessRight(s: Link, e: Event)
    requires Hopeless(s) && Calm(e)
    ensures Hopeless(Step(s, false, e))
  {
    PlainStep(Mirror(s), e);
    match e
    case Deliver =>
      if s.toR != [] {
        HopelessDeliverRight(s);
      }
    case Send => HopelessSendRight(s);
    case Read(n) => HopelessReadRight(s, n);
    case Advance(ms) =>
  }

  lemma {:induction false} NeverFinishes(s: Link, es: seq<(bool, Event)>)
    requires Hopeless(s) && Undisturbed(es)
    ensures Hopeless(Run(s, es))
    decreases |es|
  {
    if es != [] {
      var (left, e) := es[0];
      assert Calm(es[0].1);
      if left {
        HopelessLeft(s, e);
      } else {
        HopelessRight(s, e);
      }
      assert forall k :: 0 <= k < |es[1..]| ==> es[1..][k] == es[k + 1];
      NeverFinishes(Step(s, left, e), es[1..]);
    }
  }

  /** Frames outstanding are counted as such. */
  lemma SilentUnacked(a: State)
    requires Valid(a) && Silent(a)
    ensures Unacked(a) != 0
  {
  }
}
