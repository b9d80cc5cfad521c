/** The three trellis coders of src/v34_trellis.c and the subsets their steps depend on. */
module V34Trellis {
  import opened V34Points

  datatype Kind = Sixteen | ThirtyTwo | SixtyFour
  {
    function Bits(): (n: nat)
    {
      match this
      case Sixteen => 4
      case ThirtyTwo => 5
      case SixtyFour => 6
    }
  }

  /** The delay cells, least significant state bit first. */
  datatype Cells = Cells(d0: bool, d1: bool, d2: bool, d3: bool, d4: bool, d5: bool)

  const ZERO_STATE: Cells := Cells(false, false, false, false, false, false)

  function Xor(a: bool, b: bool): bool {
    a != b
  }

  /** v34_trellis_output: the last cell in use. */
  function Output(kind: Kind, s: Cells): bool {
    match kind
    case Sixteen => s.d3
    case ThirtyTwo => s.d4
    case SixtyFour => s.d5
  }

  /** The four coder inputs. */
  datatype Inputs = Inputs(y4: bool, y3: bool, y2: bool, y1: bool)

  /** v34_trellis_put. */
  function Step(kind: Kind, s: Cells, y: Inputs): Cells {
    var output := Output(kind, s);
    match kind
    case Sixteen =>
      Cells(output, Xor(s.d0, y.y2), Xor(s.d1, y.y2), Xor(s.d2, y.y1), false, false)
    case ThirtyTwo =>
      Cells(output, Xor(s.d0, y.y2), Xor(s.d1, y.y1), Xor(s.d2, y.y4), Xor(s.d3, y.y2), false)
    case SixtyFour =>
      var a, b := Xor(s.d0, s.d1), Xor(s.d1, y.y1);
      Cells(Xor(Xor(y.y4, a), s.d2 && b), Xor(Xor(Xor(a, s.d3), y.y3), y.y2 && s.d2), Xor(b, s.d2), s.d2,
            output, Xor(Xor(s.d4, s.d2), y.y2))
  }

  function Pick4(k: nat, a: nat, b: nat, c: nat, d: nat): nat {
    if k == 0 then a else if k == 1 then b else if k == 2 then c else d
  }

  function Pick8(k: nat, a: nat, b: nat, c: nat, d: nat, e: nat, f: nat, g: nat, h: nat): nat {
    if k < 4 then Pick4(k, a, b, c, d) else Pick4(k - 4, e, f, g, h)
  }

  /** The table of v34_subset_label. */
  function LabelAt(row: nat, column: nat): (subset: nat)
    ensures subset < 8
  {
    Pick4(row, Pick4(column, 1, 6, 5, 2), Pick4(column, 4, 3, 0, 7),
               Pick4(column, 5, 2, 1, 6), Pick4(column, 0, 7, 4, 3))
  }

  /** modulo8(value) / 2. */
  function Cell(value: int): (n: nat)
    ensures n < 4
  {
    value % 8 / 2
  }

  /** The subset of an odd point, by its coordinates modulo 8. */
  function SubsetLabel(p: Point): (subset: nat)
    ensures subset < 8
  {
    LabelAt(Cell(3 - p.im), Cell(p.re + 3))
  }

  /** The table of v34_subset_pair_bits, row by row. */
  function PairValue(first: nat, second: nat): nat {
    Pick8(first,
      Pick8(second, 0x0, 0x0, 0x1, 0x1, 0x8, 0x8, 0x9, 0x9),
      Pick8(second, 0x3, 0x2, 0x2, 0x3, 0xb, 0xa, 0xa, 0xb),
      Pick8(second, 0x5, 0x5, 0x4, 0x4, 0xd, 0xd, 0xc, 0xc),
      Pick8(second, 0x6, 0x7, 0x7, 0x6, 0xe, 0xf, 0xf, 0xe),
      Pick8(second, 0x8, 0x8, 0x9, 0x9, 0x0, 0x0, 0x1, 0x1),
      Pick8(second, 0xb, 0xa, 0xa, 0xb, 0x3, 0x2, 0x2, 0x3),
      Pick8(second, 0xd, 0xd, 0xc, 0xc, 0x5, 0x5, 0x4, 0x4),
      Pick8(second, 0xe, 0xf, 0xf, 0xe, 0x6, 0x7, 0x7, 0x6))
  }

  function InputsOf(value: nat): Inputs {
    Inputs(value / 8 % 2 == 1, value / 4 % 2 == 1, value / 2 % 2 == 1, value % 2 == 1)
  }

  function PairBits(first: nat, second: nat): Inputs {
    InputsOf(PairValue(first, second))
  }

  /** The coder's step when a pair of points goes by. */
  function Advance(kind: Kind, s: Cells, first: Point, second: Point): Cells {
    Step(kind, s, PairBits(SubsetLabel(first), SubsetLabel(second)))
  }

  // ---- Quarter turns ---------------------------------------------------------------------

  /** A quarter turn moves the subsets round like this. */
  function TurnedLabel(subset: nat): (turned: nat)
    requires subset < 8
    ensures turned < 8
  {
    if subset == 3 then 0 else if subset == 7 then 4 else subset + 1
  }

  predicate Odd(p: Point) {
    p.re % 2 == 1 && p.im % 2 == 1
  }

  lemma Mod8Shift(k: int, x: int)
    ensures (8 * k + x) % 8 == x % 8
  {
  }

  lemma CellTurns(v: int)
    requires v % 2 == 1
    ensures Cell(v + 3) == 3 - Cell(3 - v)
  {
    var k, r := v / 8, v % 8;
    Mod8Shift(k, r + 3);
    Mod8Shift(-k, 3 - r);
    assert r == 1 || r == 3 || r == 5 || r == 7;
  }

  lemma LabelTurns(p: Point)
    requires Odd(p)
    ensures SubsetLabel(RotateClockwise(p, 1)) == TurnedLabel(SubsetLabel(p))
  {
    CellTurns(p.im);
    assert RotateClockwise(p, 1) == Point(p.im, -p.re);
  }

  /** What it does to the inputs: y4 and y1 stay, the number y3 y2 goes up by one. */
  function TurnedInputs(y: Inputs): Inputs {
    Inputs(y.y4, Xor(y.y3, y.y2), !y.y2, y.y1)
  }

  /** The same on the number y4 y3 y2 y1. */
  function TurnedValue(value: nat): nat {
    if value < 8 then (value + 2) % 8 else 8 + (value + 2) % 8
  }

  lemma ValueTurns(first: nat, second: nat)
    requires first < 8 && second < 8
    ensures PairValue(first, second) < 16
    ensures PairValue(TurnedLabel(first), TurnedLabel(second)) == TurnedValue(PairValue(first, second))
  {
  }

  lemma InputsTurn(value: nat)
    requires value < 16
    ensures InputsOf(TurnedValue(value)) == TurnedInputs(InputsOf(value))
  {
  }

  lemma PairTurns(first: nat, second: nat)
    requires first < 8 && second < 8
    ensures PairBits(TurnedLabel(first), TurnedLabel(second)) == TurnedInputs(PairBits(first, second))
  {
    ValueTurns(first, second);
    InputsTurn(PairValue(first, second));
  }

  /** And to the state. */
  function TurnedState(kind: Kind, s: Cells): Cells {
    match kind
    case Sixteen => s.(d1 := !s.d1)
    case ThirtyTwo => s.(d1 := !s.d1, d2 := !s.d2, d3 := !s.d3)
    case SixtyFour => s.(d0 := Xor(s.d0, s.d2), d2 := !s.d2, d3 := !s.d3)
  }

  lemma StepTurns(kind: Kind, s: Cells, y: Inputs)
    ensures Step(kind, TurnedState(kind, s), TurnedInputs(y)) == TurnedState(kind, Step(kind, s, y))
    ensures Output(kind, TurnedState(kind, s)) == Output(kind, s)
  {
    match kind
    case Sixteen =>
    case ThirtyTwo =>
    case SixtyFour =>
  }

  /** All three coders are invariant under quarter turns: turning both points turns the state
      and leaves the coder's output alone. */
  lemma AdvanceTurns(kind: Kind, s: Cells, first: Point, second: Point)
    requires Odd(first) && Odd(second)
    ensures Advance(kind, TurnedState(kind, s), RotateClockwise(first, 1), RotateClockwise(second, 1))
         == TurnedState(kind, Advance(kind, s, first, second))
    ensures Output(kind, TurnedState(kind, s)) == Output(kind, s)
  {
    LabelTurns(first);
    LabelTurns(second);
    PairTurns(SubsetLabel(first), SubsetLabel(second));
    StepTurns(kind, s, PairBits(SubsetLabel(first), SubsetLabel(second)));
  }

  // ---- What the inputs do -----------------------------------------------------------------

  /** From one state two inputs lead to the same state exactly when they agree in the bits this
      coder uses: y2 and y1, then y4 as well, then all four. */
  lemma InputsCount(kind: Kind, s: Cells, y: Inputs, z: Inputs)
    ensures Step(kind, s, y) == Step(kind, s, z) <==>
      match kind
      case Sixteen => y.y2 == z.y2 && y.y1 == z.y1
      case ThirtyTwo => y.y2 == z.y2 && y.y1 == z.y1 && y.y4 == z.y4
      case SixtyFour => y == z
  {
    match kind
    case Sixteen =>
    case ThirtyTwo =>
    case SixtyFour =>
  }

  /** The state after some inputs. */
  function After(kind: Kind, s: Cells, ys: seq<Inputs>): Cells {
    if ys == [] then s else Step(kind, After(kind, s, ys[..|ys| - 1]), ys[|ys| - 1])
  }

  /** The output before input `t`. */
  function OutputAt(kind: Kind, s: Cells, ys: seq<Inputs>, t: nat): bool
    requires t <= |ys|
  {
    Output(kind, After(kind, s, ys[..t]))
  }

  lemma AfterNext(kind: Kind, s: Cells, ys: seq<Inputs>, t: nat)
    requires t < |ys|
    ensures After(kind, s, ys[..t + 1]) == Step(kind, After(kind, s, ys[..t]), ys[t])
  {
    assert ys[..t + 1][..t] == ys[..t];
  }

  /** In every run of the 16-state coder the output is the one four intervals before with
      three input bits added. */
  lemma SixteenLaw(s: Cells, ys: seq<Inputs>, t: nat)
    requires 4 <= t <= |ys|
    ensures Xor(OutputAt(Sixteen, s, ys, t), OutputAt(Sixteen, s, ys, t - 4))
         == Xor(ys[t - 1].y1, Xor(ys[t - 2].y2, ys[t - 3].y2))
  {
    AfterNext(Sixteen, s, ys, t - 4);
    AfterNext(Sixteen, s, ys, t - 3);
    AfterNext(Sixteen, s, ys, t - 2);
    AfterNext(Sixteen, s, ys, t - 1);
  }

  /** In every run of the 32-state coder it is the one five intervals before with four added. */
  lemma ThirtyTwoLaw(s: Cells, ys: seq<Inputs>, t: nat)
    requires 5 <= t <= |ys|
    ensures Xor(OutputAt(ThirtyTwo, s, ys, t), OutputAt(ThirtyTwo, s, ys, t - 5))
         == Xor(Xor(ys[t - 1].y2, ys[t - 2].y4), Xor(ys[t - 3].y1, ys[t - 4].y2))
  {
    AfterNext(ThirtyTwo, s, ys, t - 5);
    AfterNext(ThirtyTwo, s, ys, t - 4);
    AfterNext(ThirtyTwo, s, ys, t - 3);
    AfterNext(ThirtyTwo, s, ys, t - 2);
    AfterNext(ThirtyTwo, s, ys, t - 1);
  }

  // The 64-state coder is not linear.  Three of its cells can be read off the outputs around an
  // interval and the inputs, and they are linked by one more equation.

  /** The third cell at `t`, from the outputs before and after. */
  function Third(out: nat -> bool, y: nat -> Inputs, t: nat): bool
    requires t > 0
  {
    Xor(Xor(out(t + 1), out(t - 1)), y(t).y2)
  }

  /** The second cell, from the third and the one it becomes. */
  function Second(out: nat -> bool, y: nat -> Inputs, t: nat): bool
    requires t > 0
  {
    Xor(Xor(Third(out, y, t + 1), Third(out, y, t)), y(t).y1)
  }

  /** The first cell. */
  function First(out: nat -> bool, y: nat -> Inputs, t: nat): bool
    requires t > 1
  {
    Xor(Xor(Second(out, y, t + 1), Second(out, y, t)),
        Xor(Third(out, y, t - 1), Xor(y(t).y3, y(t).y2 && Third(out, y, t))))
  }

  /** Outputs and inputs of a run. */
  ghost predicate RunsAt(out: nat -> bool, y: nat -> Inputs, states: nat -> Cells, t: nat) {
    out(t) == Output(SixtyFour, states(t)) && states(t + 1) == Step(SixtyFour, states(t), y(t))
  }

  lemma ThirdIs(out: nat -> bool, y: nat -> Inputs, states: nat -> Cells, t: nat)
    requires t > 0 && RunsAt(out, y, states, t - 1) && RunsAt(out, y, states, t) && RunsAt(out, y, states, t + 1)
    ensures Third(out, y, t) == states(t).d2
  {
  }

  lemma SecondIs(out: nat -> bool, y: nat -> Inputs, states: nat -> Cells, t: nat)
    requires t > 0 && (forall i: nat :: RunsAt(out, y, states, i))
    ensures Second(out, y, t) == states(t).d1
  {
    assert RunsAt(out, y, states, t - 1) && RunsAt(out, y, states, t) && RunsAt(out, y, states, t + 1);
    assert RunsAt(out, y, states, t + 2);
    ThirdIs(out, y, states, t);
    ThirdIs(out, y, states, t + 1);
  }

  lemma FirstIs(out: nat -> bool, y: nat -> Inputs, states: nat -> Cells, t: nat)
    requires t > 1 && (forall i: nat :: RunsAt(out, y, states, i))
    ensures First(out, y, t) == states(t).d0
  {
    SecondIs(out, y, states, t);
    SecondIs(out, y, states, t + 1);
    assert RunsAt(out, y, states, t - 2) && RunsAt(out, y, states, t - 1) && RunsAt(out, y, states, t);
    assert RunsAt(out, y, states, t + 1);
    ThirdIs(out, y, states, t - 1);
    ThirdIs(out, y, states, t);
  }

  /** In every run of the 64-state coder. */
  lemma SixtyFourLaw(out: nat -> bool, y: nat -> Inputs, states: nat -> Cells, t: nat)
    requires t > 1 && (forall i: nat :: RunsAt(out, y, states, i))
    ensures First(out, y, t + 1) == Xor(Xor(y(t).y4, Xor(First(out, y, t), Second(out, y, t))),
                                        Third(out, y, t) && Xor(Second(out, y, t), y(t).y1))
  {
    FirstIs(out, y, states, t);
    FirstIs(out, y, states, t + 1);
    SecondIs(out, y, states, t);
    assert RunsAt(out, y, states, t - 1) && RunsAt(out, y, states, t) && RunsAt(out, y, states, t + 1);
    ThirdIs(out, y, states, t);
  }

  // ---- What the inputs are ------------------------------------------------------------------

  function Weight(b: bool): nat {
    if b then 1 else 0
  }

  predicate HalfTurned(first: nat, second: nat)
    requires first < 8
  {
    (second + 8 - first) % 4 >= 2
  }

  lemma PairIs(first: nat, second: nat)
    requires first < 8 && second < 8
    ensures PairValue(first, second)
         == 8 * Weight((first < 4) != (second < 4)) + 2 * (first % 4) + Weight(HalfTurned(first, second))
  {
  }

  lemma InputsFrom(a: bool, r: nat, b: bool)
    requires r < 4
    ensures InputsOf(8 * Weight(a) + 2 * r + Weight(b)) == Inputs(a, r >= 2, r % 2 == 1, b)
  {
  }

  /** The inputs for a pair of subsets: whether the two are in different halves of the eight, how
      far the first is turned, and whether the second is turned from it by a half or more; so a
      quarter turn of the second that leaves this alone, as the coder's own output makes it,
      leaves the inputs alone. */
  lemma PairMeans(first: nat, second: nat)
    requires first < 8 && second < 8
    ensures PairBits(first, second)
         == Inputs((first < 4) != (second < 4), first % 4 >= 2, first % 4 % 2 == 1, HalfTurned(first, second))
  {
    PairIs(first, second);
    InputsFrom((first < 4) != (second < 4), first % 4, HalfTurned(first, second));
  }

  /** The quarter constellation's points are of two kinds, in alternation. */
  predicate SecondKind(p: Point) {
    ((p.re - 1) / 4 + (p.im - 1) / 4) % 2 == 1
  }

  lemma QuarterSubset(p: Point)
    requires QuarterResidue(p)
    ensures SubsetLabel(p) == if SecondKind(p) then 4 else 0
  {
    var a, b := (p.re - 1) / 4, (p.im - 1) / 4;
    assert p.re == 4 * a + 1 && p.im == 4 * b + 1;
  }

  function KindBase(p: Point): (b: nat) {
    if SecondKind(p) then 4 else 0
  }

  lemma NegativeOdd(x: int)
    requires x % 2 == 1
    ensures (-x) % 2 == 1
  {
    assert -x == 2 * (-(x / 2) - 1) + 1;
  }

  lemma OddTurned(p: Point, t: nat)
    requires Odd(p)
    ensures Odd(RotateClockwise(p, t))
  {
    NegativeOdd(p.re);
    NegativeOdd(p.im);
  }

  lemma SubsetNext(p: Point, t: nat, base: nat)
    requires Odd(p) && t < 3 && (base == 0 || base == 4) && SubsetLabel(RotateClockwise(p, t)) == t + base
    ensures SubsetLabel(RotateClockwise(p, t + 1)) == t + 1 + base
  {
    OddTurned(p, t);
    LabelTurns(RotateClockwise(p, t));
    RotateAdds(p, t, 1);
  }

  /** Turned, they are of the subsets 0 to 3 or 4 to 7, by the quarter turns. */
  lemma TurnedSubset(p: Point, t: nat)
    requires QuarterResidue(p) && Odd(p) && t < 4
    ensures SubsetLabel(RotateClockwise(p, t)) == t + KindBase(p)
  {
    QuarterSubset(p);
    assert RotateClockwise(p, 0) == p;
    if t > 0 {
      SubsetNext(p, 0, KindBase(p));
    }
    if t > 1 {
      SubsetNext(p, 1, KindBase(p));
    }
    if t > 2 {
      SubsetNext(p, 2, KindBase(p));
    }
  }
}
