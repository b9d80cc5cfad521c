/** T401 and the retries over whole runs: how far the timer has come, how often it has run out,
    and that an end fails exactly when it has run out once more than the retry limit since the
    window was last empty. */
module ArqTimer {
  import opened Wrappers
  import opened Bits
  import opened Lapm
  import opened ArqSpec
  import opened ArqLink

  // ---- One end of a run ---------------------------------------------------------------

  function ArqOf(s: Link, mine: bool): State {
    if mine then s.l.arq else s.r.arq
  }

  /** The link as this end sees it. */
  function Facing(s: Link, mine: bool): Link {
    if mine then s else Mirror(s)
  }

  /** What an event of its own does to an end; those of the other end do nothing to it. */
  lemma StepOf(s: Link, mine: bool, left: bool, e: Event)
    requires Valid(s.l.arq) && Valid(s.r.arq)
    ensures ArqOf(Step(s, left, e), mine) ==
      if left == mine then StepLeft(Facing(s, mine), e).l.arq else ArqOf(s, mine)
  {
  }

  lemma RunOn(events: seq<(bool, Event)>, n: nat)
    requires n < |events|
    ensures Run(Start(), events[..n + 1]) == Step(Run(Start(), events[..n]), events[n].0, events[n].1)
  {
    assert events[..n + 1] == events[..n] + [events[n]];
    RunAppend(Start(), events[..n], [events[n]]);
    One(Run(Start(), events[..n]), events[n].0, events[n].1);
  }

  /** The state of an end after the first `n` events. */
  function At(events: seq<(bool, Event)>, mine: bool, n: nat): (a: State)
    requires n <= |events|
    ensures Valid(a)
  {
    ArqOf(Run(Start(), events[..n]), mine)
  }

  // ---- Counting the expiries ------------------------------------------------------------

  /** T401 runs out in this step. */
  predicate Expires(a: State, e: Event) {
    e.Advance? && a.deadline != 0 && a.now + e.ms >= a.deadline && a.va != a.vs
  }

  predicate ExpiresAt(events: seq<(bool, Event)>, mine: bool, n: nat)
    requires n < |events|
  {
    events[n].0 == mine && Expires(At(events, mine, n), events[n].1)
  }

  /** How often T401 has run out in the first `n` events since the window was last empty. */
  function Expiries(events: seq<(bool, Event)>, mine: bool, n: nat): nat
    requires n <= |events|
  {
    if n == 0 || At(events, mine, n).va == At(events, mine, n).vs then 0
    else Expiries(events, mine, n - 1) + if ExpiresAt(events, mine, n - 1) then 1 else 0
  }

  /** A write leaves no less outstanding. */
  lemma {:induction false} WriteGrows(a: State, data: seq<Byte>)
    requires Valid(a)
    ensures var a' := ArqSpec.Write(a, data).0; a'.va == a.va && Unacked(a) <= Unacked(a')
    decreases |data|
  {
    if data != [] && Unacked(a) < a.window {
      var z := if |data| > a.maxInfo then a.maxInfo else |data|;
      var a1 := Enqueue(a, data[..z]);
      assert Unacked(a1) == Unacked(a) + 1;
      WriteGrows(a1, data[z..]);
    }
  }

  lemma RetriesAcknowledge(a: State, nr: nat)
    requires Valid(a) && nr < MODULUS && (a.va == a.vs ==> a.retries == 0)
    ensures var a' := Acknowledge(a, nr);
      && a'.vs == a.vs && a'.failed == a.failed && a'.maxRetries == a.maxRetries && a'.t401 == a.t401 && a'.now == a.now
      && a'.retries == if a'.va == a'.vs then 0 else a.retries
  {
  }

  lemma RetriesHear(a: State, f: Frame)
    requires Valid(a) && InRange(f) && (a.va == a.vs ==> a.retries == 0)
    ensures var a' := TakeFrame(a, f).0;
      && a'.failed == a.failed && a'.maxRetries == a.maxRetries
      && a'.retries == if a'.va == a'.vs then 0 else a.retries
  {
    if !f.U? {
      RetriesAcknowledge(a, f.nr);
    }
  }

  lemma RetriesWrite(a: State, data: seq<Byte>)
    requires Valid(a) && (a.va == a.vs ==> a.retries == 0)
    ensures var a' := ArqSpec.Write(a, data).0;
      && a'.failed == a.failed && a'.maxRetries == a.maxRetries
      && a'.retries == if a'.va == a'.vs then 0 else a.retries
  {
    WriteFrame(a, data);
    WriteGrows(a, data);
  }

  /** What one event of an end does to its retries. */
  lemma RetriesStep(s: Link, e: Event)
    requires Valid(s.l.arq) && Valid(s.r.arq) && (s.l.arq.va == s.l.arq.vs ==> s.l.arq.retries == 0)
    ensures var a, a' := s.l.arq, StepLeft(s, e).l.arq;
      && a'.maxRetries == a.maxRetries
      && a'.retries == (if a'.va == a'.vs then 0 else a.retries + if Expires(a, e) then 1 else 0)
      && a'.failed == (a.failed || (Expires(a, e) && a.retries >= a.maxRetries))
  {
    match e
    case Write(data) => RetriesWrite(s.l.arq, data);
    case Deliver =>
      if s.toL != [] && InRange(s.toL[0]) {
        RetriesHear(s.l.arq, s.toL[0]);
      }
    case Read(n) =>
    case Send =>
    case Lose(i) =>
    case Advance(ms) =>
    case Configure(w, m) =>
  }

  /** In every run the retries of an end are the expiries since its window was last empty; it
      fails with the expiry after the last retry. */
  lemma {:induction false} RetriesAre(events: seq<(bool, Event)>, mine: bool, n: nat)
    requires n <= |events|
    ensures var a := At(events, mine, n);
      && a.retries == Expiries(events, mine, n) && a.maxRetries == 3 && (a.va == a.vs ==> a.retries == 0)
      && (n > 0 ==>
            a.failed == (At(events, mine, n - 1).failed || (ExpiresAt(events, mine, n - 1) && a.retries > 3)))
  {
    if n == 0 {
      assert events[..0] == [];
    } else {
      RetriesAre(events, mine, n - 1);
      RunOn(events, n - 1);
      var s := Run(Start(), events[..n - 1]);
      var (left, e) := events[n - 1];
      StepOf(s, mine, left, e);
      if left == mine {
        RetriesStep(Facing(s, mine), e);
      }
    }
  }

  ghost predicate Exhausted(events: seq<(bool, Event)>, mine: bool, k: nat) {
    k <= |events| && Expiries(events, mine, k) > 3
  }

  /** By the first `n` events. */
  ghost predicate ExhaustedBy(events: seq<(bool, Event)>, mine: bool, n: nat) {
    exists k: nat :: k <= n && Exhausted(events, mine, k)
  }

  lemma ExhaustedNext(events: seq<(bool, Event)>, mine: bool, n: nat)
    ensures ExhaustedBy(events, mine, n + 1) <==> ExhaustedBy(events, mine, n) || Exhausted(events, mine, n + 1)
  {
    if Exhausted(events, mine, n + 1) {
      assert ExhaustedBy(events, mine, n + 1);
    }
    if ExhaustedBy(events, mine, n + 1) && !Exhausted(events, mine, n + 1) {
      var k: nat :| k <= n + 1 && Exhausted(events, mine, k);
      assert k <= n;
    }
  }

  lemma {:induction false} FailedWhen(events: seq<(bool, Event)>, mine: bool, n: nat)
    requires n <= |events|
    ensures At(events, mine, n).failed <==> ExhaustedBy(events, mine, n)
  {
    if n == 0 {
      assert events[..0] == [];
    } else {
      FailedWhen(events, mine, n - 1);
      ExhaustedNext(events, mine, n - 1);
      RetriesAre(events, mine, n - 1);
      RetriesAre(events, mine, n);
      if Exhausted(events, mine, n) && !ExpiresAt(events, mine, n - 1) {
        assert Exhausted(events, mine, n - 1);
      }
    }
  }

  /** An end has failed if and only if at some moment T401 had run out four times since the window
      was last empty: three retries, and once more. */
  lemma FailsExactly(events: seq<(bool, Event)>, mine: bool)
    ensures ArqOf(Run(Start(), events), mine).failed <==> exists k: nat :: Exhausted(events, mine, k)
  {
    FailedWhen(events, mine, |events|);
    assert events[..|events|] == events;
  }

  // ---- How long T401 has run ------------------------------------------------------------------

  /** T401, with the milliseconds since it was started last. */
  datatype Timer = Stopped | Running(ms: nat)

  /** The number `k` after this one. */
  function Past(n: nat, k: nat): nat {
    (n + k) % MODULUS
  }

  /** N(R) acknowledges some of what is outstanding, all or none of it. */
  predicate InWindow(a: State, nr: nat)
    requires Valid(a)
  {
    exists k: nat :: k <= Unacked(a) && nr == Past(a.va, k)
  }

  lemma PastDistance(n: nat, k: nat, m: nat)
    requires n < MODULUS && k < MODULUS && m < MODULUS
    ensures m == Past(n, k) <==> Distance(n, m) == k
  {
  }

  lemma InWindowIs(a: State, nr: nat)
    requires Valid(a) && nr < MODULUS
    ensures InWindow(a, nr) <==> Distance(a.va, nr) <= Distance(a.va, a.vs)
  {
    PastDistance(a.va, Distance(a.va, nr), nr);
    if InWindow(a, nr) {
      var k: nat :| k <= Unacked(a) && nr == Past(a.va, k);
      PastDistance(a.va, k, nr);
    }
  }

  /** An acknowledgement starts it again, or stops it when nothing is left. */
  function HeardTimer(t: Timer, a: State, f: Frame): Timer
    requires Valid(a)
  {
    if f.U? || (f.S? && f.kind == SREJ) || !InWindow(a, f.nr) then t else if f.nr == a.vs then Stopped else Running(0)
  }

  /** The first I frame starts it, and so does a repetition; it stops with the last. */
  function Next(t: Timer, s: Link, e: Event): Timer
    requires Valid(s.l.arq)
  {
    var a := s.l.arq;
    match e
    case Send => if t.Stopped? && NextFrame(a).1.Some? && NextFrame(a).1.value.I? then Running(0) else t
    case Deliver => if s.toL != [] && InRange(s.toL[0]) then HeardTimer(t, a, s.toL[0]) else t
    case Advance(ms) =>
      if t.Stopped? then Stopped
      else if t.ms + ms < a.t401 || a.va == a.vs then Running(t.ms + ms)
      else if a.retries < a.maxRetries then Running(0)
      else Stopped
    case _ => t
  }

  /** The deadline says so much. */
  predicate Timed(t: Timer, a: State) {
    && a.t401 == 1000
    && match t
       case Stopped => a.deadline == 0
       case Running(ms) => ms <= a.now && a.deadline == a.now + a.t401 - ms
  }

  lemma TimedHear(t: Timer, a: State, f: Frame)
    requires Valid(a) && InRange(f) && Timed(t, a)
    ensures Timed(HeardTimer(t, a, f), TakeFrame(a, f).0)
  {
    if !f.U? {
      InWindowIs(a, f.nr);
      TimedAcknowledge(t, a, f.nr);
    }
  }

  lemma TimedAcknowledge(t: Timer, a: State, nr: nat)
    requires Valid(a) && nr < MODULUS && Timed(t, a)
    ensures Timed(if Distance(a.va, nr) > Distance(a.va, a.vs) then t else if nr == a.vs then Stopped else Running(0),
                  Acknowledge(a, nr))
  {
  }

  lemma TimedStep(t: Timer, s: Link, e: Event)
    requires Valid(s.l.arq) && Valid(s.r.arq) && Timed(t, s.l.arq)
    ensures Timed(Next(t, s, e), StepLeft(s, e).l.arq)
  {
    match e
    case Write(data) => WriteFrame(s.l.arq, data);
    case Deliver =>
      if s.toL != [] && InRange(s.toL[0]) {
        TimedHear(t, s.l.arq, s.toL[0]);
      }
    case Read(n) =>
    case Send =>
    case Lose(i) =>
    case Advance(ms) =>
    case Configure(w, m) =>
  }

  /** The timer of an end after the first `n` events. */
  function TimerAt(events: seq<(bool, Event)>, mine: bool, n: nat): Timer
    requires n <= |events|
  {
    if n == 0 then Stopped
    else
      var t, s := TimerAt(events, mine, n - 1), Run(Start(), events[..n - 1]);
      if events[n - 1].0 == mine then Next(t, Facing(s, mine), events[n - 1].1) else t
  }

  /** In every run the deadline of an end is that of this timer; so T401 runs out when, and only
      when, 1000 ms have passed since it was started last with frames outstanding. */
  lemma {:induction false} TimerIs(events: seq<(bool, Event)>, mine: bool, n: nat)
    requires n <= |events|
    ensures Timed(TimerAt(events, mine, n), At(events, mine, n))
    ensures n < |events| && events[n].0 == mine ==>
      var t, a, e := TimerAt(events, mine, n), At(events, mine, n), events[n].1;
      Expires(a, e) <==> e.Advance? && t.Running? && t.ms + e.ms >= 1000 && a.va != a.vs
  {
    if n == 0 {
      assert events[..0] == [];
    } else {
      TimerIs(events, mine, n - 1);
      RunOn(events, n - 1);
      var s := Run(Start(), events[..n - 1]);
      StepOf(s, mine, events[n - 1].0, events[n - 1].1);
      if events[n - 1].0 == mine {
        TimedStep(TimerAt(events, mine, n - 1), Facing(s, mine), events[n - 1].1);
      }
    }
  }
}
