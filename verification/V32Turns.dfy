/** The V.32bis code under quarter turns: a turned constellation is the same constellation with its
    subsets moved round, and the trellis and the differential coder do not notice. */
module V32Turns {
  import opened Lockstep
  import opened V32Line
  import opened V32Map
  import opened V32Trellis

  function TurnedSubset(subset: nat): (turned: nat)
    ensures turned < 8
  {
    if subset == 0 then 7 else if subset == 1 then 6 else if subset == 2 then 4 else if subset == 3 then 5
    else if subset == 4 then 3 else if subset == 5 then 2 else if subset == 6 then 0 else 1
  }

  function TurnedState(state: nat): (turned: nat)
    ensures turned < STATES
  {
    if state == 0 then 7 else if state == 1 then 6 else if state == 2 then 5 else if state == 3 then 4
    else if state == 4 then 1 else if state == 5 then 0 else if state == 6 then 3 else 2
  }

  function TurnedDibit(y12: nat): (turned: nat)
    ensures turned < 4
  {
    Pick(y12, 3, 2, 0, 1)
  }

  function TurnedCode(rate: Rate, code: nat): (turned: nat)
    ensures turned < 8 * PerSubset(rate)
  {
    TurnedSubset(code / PerSubset(rate)) * PerSubset(rate) + code % PerSubset(rate)
  }

  /** A quarter turn anticlockwise about a point of the imaginary axis. */
  function QuarterTurn(centre: int, p: Pair): Pair {
    (centre - p.1, centre + p.0)
  }

  // ---- The constellations -----------------------------------------------------------------------

  /** Where the middle of a constellation is: the one for 14400 bit/s is two units off. */
  function Centre(rate: Rate): int {
    if rate == R14400 then 2 else 0
  }

  lemma Turns7200(subset: nat, x: nat)
    requires subset < 8 && x < 2
    ensures Map7200(TurnedSubset(subset) * 2 + x) == QuarterTurn(0, Map7200(subset * 2 + x))
  {
  }

  lemma Turns9600(subset: nat, x: nat)
    requires subset < 8 && x < 4
    ensures Map9600(TurnedSubset(subset) * 4 + x) == QuarterTurn(0, Map9600(subset * 4 + x))
  {
  }

  lemma Turns12000(subset: nat, x: nat)
    requires subset < 8 && x < 8
    ensures Map12000(TurnedSubset(subset) * 8 + x) == QuarterTurn(0, Map12000(subset * 8 + x))
  {
  }

  lemma TurnsLow14400(subset: nat, x: nat)
    requires subset < 4 && x < 16
    ensures Map14400(TurnedSubset(subset) * 16 + x) == QuarterTurn(2, Map14400(subset * 16 + x))
  {
  }

  lemma TurnsHigh14400(subset: nat, x: nat)
    requires 4 <= subset < 8 && x < 16
    ensures Map14400(TurnedSubset(subset) * 16 + x) == QuarterTurn(2, Map14400(subset * 16 + x))
  {
  }

  lemma SubsetTurns(rate: Rate, subset: nat, x: nat)
    requires subset < 8 && x < PerSubset(rate)
    ensures MapPoint(rate, TurnedSubset(subset) * PerSubset(rate) + x)
         == QuarterTurn(Centre(rate), MapPoint(rate, subset * PerSubset(rate) + x))
  {
    match rate
    case R7200 => Turns7200(subset, x);
    case R9600 => Turns9600(subset, x);
    case R12000 => Turns12000(subset, x);
    case R14400 =>
      if subset < 4 {
        TurnsLow14400(subset, x);
      } else {
        TurnsHigh14400(subset, x);
      }
  }
  lemma CodeSplits(rate: Rate, code: nat)
    requires code < 8 * PerSubset(rate)
    ensures code / PerSubset(rate) < 8 && code % PerSubset(rate) < PerSubset(rate)
    ensures code == code / PerSubset(rate) * PerSubset(rate) + code % PerSubset(rate)
  {
  }

  /** The label of a turned point: the subset moves, the bits within it stay. */
  lemma CodeTurns(rate: Rate, code: nat)
    requires code < 8 * PerSubset(rate)
    ensures MapPoint(rate, TurnedCode(rate, code)) == QuarterTurn(Centre(rate), MapPoint(rate, code))
  {
    CodeSplits(rate, code);
    SubsetTurns(rate, code / PerSubset(rate), code % PerSubset(rate));
  }

  ghost predicate IsPoint(rate: Rate, p: Pair) {
    exists code: nat :: code < 8 * PerSubset(rate) && MapPoint(rate, code) == p
  }

  lemma NotThere(code: nat)
    requires code < 128
    ensures Map14400(code) != (1, -8)
  {
  }

  /** A quarter turn of the carrier is a turn about the origin.  It leads from points to points
      at every rate but 14400 bit/s: there (-8, -1) would become (1, -8). */
  lemma CarrierTurns(rate: Rate)
    ensures (forall code: nat :: code < 8 * PerSubset(rate) ==> IsPoint(rate, QuarterTurn(0, MapPoint(rate, code))))
      <==> rate != R14400
  {
    if rate == R14400 {
      assert MapPoint(rate, 0) == (-8, -1);
      forall code: nat | code < 128
        ensures MapPoint(rate, code) != (1, -8)
      {
        NotThere(code);
      }
      assert !IsPoint(rate, QuarterTurn(0, MapPoint(rate, 0)));
    } else {
      forall code: nat | code < 8 * PerSubset(rate)
        ensures IsPoint(rate, QuarterTurn(0, MapPoint(rate, code)))
      {
        CodeTurns(rate, code);
        assert TurnedCode(rate, code) < 8 * PerSubset(rate);
      }
    }
  }

  // ---- The trellis ----------------------------------------------------------------------------------

  function TurnedBranch(b: Branch): Branch {
    Branch(TurnedDibit(b.y12), b.x)
  }

  lemma SubsetTurned(state: nat, y12: nat)
    requires state < STATES && y12 < 4
    ensures Subset(TurnedState(state), TurnedDibit(y12)) == TurnedSubset(Subset(state, y12))
  {
  }

  lemma NextTurned(state: nat, y12: nat)
    requires state < STATES && y12 < 4
    ensures NextState(TurnedState(state), TurnedDibit(y12)) == TurnedState(NextState(state, y12))
  {
  }

  lemma CodeJoins(rate: Rate, subset: nat, x: nat)
    requires x < PerSubset(rate)
    ensures (subset * PerSubset(rate) + x) / PerSubset(rate) == subset
    ensures (subset * PerSubset(rate) + x) % PerSubset(rate) == x
  {
  }

  lemma LabelTurned(rate: Rate, state: nat, b: Branch)
    requires state < STATES && Possible(rate, b)
    ensures LabelOf(rate, TurnedState(state), TurnedBranch(b)) == TurnedCode(rate, LabelOf(rate, state, b))
  {
    SubsetTurned(state, b.y12);
    CodeJoins(rate, Subset(state, b.y12), b.x);
  }

  /** Turning a branch's point turns the branch and the states at both its ends. */
  lemma BranchTurns(rate: Rate, state: nat, b: Branch)
    requires state < STATES && Possible(rate, b)
    ensures Possible(rate, TurnedBranch(b))
    ensures PointOf(rate, TurnedState(state), TurnedBranch(b)) == QuarterTurn(Centre(rate), PointOf(rate, state, b))
    ensures NextState(TurnedState(state), TurnedBranch(b).y12) == TurnedState(NextState(state, b.y12))
  {
    LabelTurned(rate, state, b);
    CodeTurns(rate, LabelOf(rate, state, b));
    NextTurned(state, b.y12);
  }

  ghost predicate Renames(turned: nat -> nat, state: nat, y12: nat)
    requires state < STATES && y12 < 4
  {
    && turned(state) < STATES
    && Subset(turned(state), TurnedDibit(y12)) == TurnedSubset(Subset(state, y12))
    && NextState(turned(state), TurnedDibit(y12)) == turned(NextState(state, y12))
  }

  /** No other renaming of the states would do. */
  lemma StatesTurnOnlySo(turned: nat -> nat, state: nat)
    requires state < STATES
    requires forall s: nat, y12: nat :: s < STATES && y12 < 4 ==> Renames(turned, s, y12)
    ensures turned(state) == TurnedState(state)
  {
    assert Renames(turned, 0, 0) && Renames(turned, 0, 1) && Renames(turned, 0, 2) && Renames(turned, 0, 3);
    assert Renames(turned, 4, 0) && Renames(turned, 4, 1) && Renames(turned, 4, 2) && Renames(turned, 4, 3);
  }

  // ---- Runs ------------------------------------------------------------------------------------------

  /** The points a path sends. */
  function Sent(rate: Rate, state: nat, path: Path): (points: seq<Pair>)
    requires state < STATES && Feasible(rate, path)
    ensures |points| == |path|
  {
    if path == [] then []
    else
      var rest := path[..|path| - 1];
      Sent(rate, state, rest) + [PointOf(rate, Led(state, rest), path[|path| - 1])]
  }

  function TurnedPath(path: Path): (turned: Path)
    ensures |turned| == |path|
  {
    seq(|path|, i requires 0 <= i < |path| => TurnedBranch(path[i]))
  }

  ghost predicate PointsTurned(rate: Rate, p: seq<Pair>, q: seq<Pair>) {
    |p| == |q| && forall i :: 0 <= i < |p| ==> q[i] == QuarterTurn(Centre(rate), p[i])
  }

  lemma RunOn(rate: Rate, state: nat, path: Path, b: Branch)
    requires state < STATES && Feasible(rate, path) && Possible(rate, b)
    ensures Feasible(rate, path + [b]) && Led(state, path + [b]) == NextState(Led(state, path), b.y12)
    ensures Sent(rate, state, path + [b]) == Sent(rate, state, path) + [PointOf(rate, Led(state, path), b)]
  {
    assert (path + [b])[..|path|] == path;
  }

  lemma TurnedOn(path: Path, b: Branch)
    ensures TurnedPath(path + [b]) == TurnedPath(path) + [TurnedBranch(b)]
  {
  }

  lemma TurnsOn(rate: Rate, state: nat, path: Path, b: Branch)
    requires state < STATES && Feasible(rate, path) && Possible(rate, b) && Feasible(rate, TurnedPath(path))
    requires Led(TurnedState(state), TurnedPath(path)) == TurnedState(Led(state, path))
    requires PointsTurned(rate, Sent(rate, state, path), Sent(rate, TurnedState(state), TurnedPath(path)))
    ensures Feasible(rate, path + [b]) && Feasible(rate, TurnedPath(path + [b]))
    ensures Led(TurnedState(state), TurnedPath(path + [b])) == TurnedState(Led(state, path + [b]))
    ensures PointsTurned(rate, Sent(rate, state, path + [b]), Sent(rate, TurnedState(state), TurnedPath(path + [b])))
  {
    BranchTurns(rate, Led(state, path), b);
    RunOn(rate, state, path, b);
    RunOn(rate, TurnedState(state), TurnedPath(path), TurnedBranch(b));
    TurnedOn(path, b);
  }

  /** A run turned as a whole is the run of the turned branches from the turned state. */
  lemma {:induction false} RunTurns(rate: Rate, state: nat, path: Path)
    requires state < STATES && Feasible(rate, path)
    ensures Feasible(rate, TurnedPath(path))
    ensures Led(TurnedState(state), TurnedPath(path)) == TurnedState(Led(state, path))
    ensures PointsTurned(rate, Sent(rate, state, path), Sent(rate, TurnedState(state), TurnedPath(path)))
  {
    if path != [] {
      var n := |path| - 1;
      assert path == path[..n] + [path[n]];
      RunTurns(rate, state, path[..n]);
      TurnsOn(rate, state, path[..n], path[n]);
    }
  }

  // ---- The differential coder ------------------------------------------------------------------------

  lemma DibitTurns(q: nat, previous: nat)
    requires q < 4 && previous < 4
    ensures DiffEncode(q, TurnedDibit(previous)) == TurnedDibit(DiffEncode(q, previous))
    ensures DiffDecode(TurnedDibit(q), TurnedDibit(previous)) == DiffDecode(q, previous)
  {
  }
  function TurnedLine(s: Line): Line {
    Line(s.history, TurnedDibit(s.previous))
  }

  lemma PayloadTurned(rate: Rate, b: Branch)
    requires Possible(rate, b)
    ensures PayloadOf(rate, TurnedBranch(b)) / PerSubset(rate) == TurnedDibit(b.y12)
    ensures PayloadOf(rate, TurnedBranch(b)) % PerSubset(rate) == b.x
  {
    PayloadSplits(rate, TurnedBranch(b));
  }

  /** A symbol read by an end whose last dibit is turned as well gives the same bits. */
  lemma SymbolTurned(rate: Rate, tap: nat, s: Line, b: Branch)
    requires s.previous < 4 && Possible(rate, b)
    ensures var (t, bits) := Demodulate(rate, tap, s, PayloadOf(rate, b));
      t.previous < 4 && Demodulate(rate, tap, TurnedLine(s), PayloadOf(rate, TurnedBranch(b))) == (TurnedLine(t), bits)
  {
    PayloadSplits(rate, b);
    PayloadTurned(rate, b);
    DibitTurns(b.y12, s.previous);
  }

  /** `take` does to `turned` things what it does to the things themselves. */
  ghost predicate TakesTurned(rate: Rate, take: (Line, Branch) -> (Line, seq<bool>), s: Line, b: Branch) {
    s.previous < 4 && Possible(rate, b) ==>
      && take(s, b).0.previous < 4
      && take(TurnedLine(s), TurnedBranch(b)) == (TurnedLine(take(s, b).0), take(s, b).1)
  }

  lemma {:induction false} AllTakenTurned(rate: Rate, take: (Line, Branch) -> (Line, seq<bool>), s: Line, path: Path)
    requires s.previous < 4 && Feasible(rate, path) && (forall x, b :: TakesTurned(rate, take, x, b))
    ensures var (t, groups) := SendAll(take, s, path);
      t.previous < 4 && SendAll(take, TurnedLine(s), TurnedPath(path)) == (TurnedLine(t), groups)
  {
    if path != [] {
      var n := |path| - 1;
      var rest, b := path[..n], path[n];
      assert path == rest + [b];
      AllTakenTurned(rate, take, s, rest);
      TurnedOn(rest, b);
      assert TakesTurned(rate, take, SendAll(take, s, rest).0, b);
      SendSnoc(take, s, rest, b);
      SendSnoc(take, TurnedLine(s), TurnedPath(rest), TurnedBranch(b));
    }
  }

  /** So whatever was sent is read from the turned run bit for bit. */
  lemma TurnedRead(rate: Rate, tap: nat, s: Line, groups: seq<seq<bool>>)
    requires Groups(rate, groups) && s.previous < 4
    ensures var (t, path) := SendAll(Modulating(rate, tap), s, groups);
      SendAll(Demodulating(rate, tap), TurnedLine(s), TurnedPath(path)) == (TurnedLine(t), groups)
  {
    var take := Demodulating(rate, tap);
    forall x, b
      ensures TakesTurned(rate, take, x, b)
    {
      if x.previous < 4 && Possible(rate, b) {
        SymbolTurned(rate, tap, x, b);
      }
    }
    BranchesPossible(rate, tap, s, groups);
    LineRoundTrip(rate, tap, s, groups);
    AllTakenTurned(rate, take, s, SendAll(Modulating(rate, tap), s, groups).1);
  }
}
