/** The eight-state trellis of src/v32bis_trellis.c, its paths, and what the distance of a path
    from received coordinates is. */
module V32Trellis {
  import opened V32Map

  const STATES: nat := 8

  function Pick(k: nat, a: nat, b: nat, c: nat, d: nat): nat {
    if k == 0 then a else if k == 1 then b else if k == 2 then c else d
  }

  /** v32bis_trellis_next_state. */
  function NextState(state: nat, y12: nat): (next: nat)
    ensures next < STATES
  {
    if state == 0 then Pick(y12, 0, 6, 2, 4)
    else if state == 1 then Pick(y12, 2, 4, 0, 6)
    else if state == 2 then Pick(y12, 4, 2, 6, 0)
    else if state == 3 then Pick(y12, 6, 0, 4, 2)
    else if state == 4 then Pick(y12, 1, 5, 7, 3)
    else if state == 5 then Pick(y12, 3, 7, 5, 1)
    else if state == 6 then Pick(y12, 7, 3, 1, 5)
    else Pick(y12, 5, 1, 3, 7)
  }

  /** v32bis_trellis_subset: the state's top bit above the two coded bits. */
  function Subset(state: nat, y12: nat): (subset: nat)
    requires state < STATES && y12 < 4
    ensures subset < 8
  {
    if state >= 4 then 4 + y12 else y12
  }

  function Weight(b: bool): nat {
    if b then 1 else 0
  }

  /** The delay line behind the table: three cells, of which the last is the state's top bit, and
      two sums into which products of cells and inputs go. */
  lemma DelayLine(state: nat, y12: nat)
    requires state < STATES && y12 < 4
    ensures var d1, d2, d3 := state % 2 == 1, state / 2 % 2 == 1, state / 4 == 1;
      var y1, y2 := y12 / 2 == 1, y12 % 2 == 1;
      NextState(state, y12) == Weight(d3) + 2 * Weight((d1 != (y1 != y2)) != (d3 && d2 != y2))
                             + 4 * Weight((d2 != y2) != (y1 && d3))
  {
  }

  /** One symbol's worth: two coded bits and the bits that choose within the subset. */
  datatype Branch = Branch(y12: nat, x: nat)

  predicate Possible(rate: Rate, b: Branch) {
    b.y12 < 4 && b.x < PerSubset(rate)
  }

  /** The constellation label sent for a branch. */
  function LabelOf(rate: Rate, state: nat, b: Branch): (code: nat)
    requires state < STATES && Possible(rate, b)
    ensures code < 8 * PerSubset(rate)
  {
    Subset(state, b.y12) * PerSubset(rate) + b.x
  }

  lemma LabelInjective(rate: Rate, state: nat, b: Branch, c: Branch)
    requires state < STATES && Possible(rate, b) && Possible(rate, c)
    requires LabelOf(rate, state, b) == LabelOf(rate, state, c)
    ensures b == c
  {
  }

  function PointOf(rate: Rate, state: nat, b: Branch): Pair
    requires state < STATES && Possible(rate, b)
  {
    MapPoint(rate, LabelOf(rate, state, b))
  }

  /** In one state, different branches send different points. */
  lemma PointInjective(rate: Rate, state: nat, b: Branch, c: Branch)
    requires state < STATES && Possible(rate, b) && Possible(rate, c)
    requires PointOf(rate, state, b) == PointOf(rate, state, c)
    ensures b == c
  {
    MapInjective(rate, LabelOf(rate, state, b), LabelOf(rate, state, c));
    LabelInjective(rate, state, b, c);
  }

  // ---- Paths ---------------------------------------------------------------------------------

  type Path = seq<Branch>

  /** The state a path leads to. */
  function Led(state: nat, path: Path): (next: nat)
    ensures state < STATES ==> next < STATES
  {
    if path == [] then state else NextState(Led(state, path[..|path| - 1]), path[|path| - 1].y12)
  }

  /** The state a path from state 0 ends in. */
  function End(path: Path): (state: nat)
    ensures state < STATES
  {
    Led(0, path)
  }

  predicate Feasible(rate: Rate, path: Path) {
    forall i :: 0 <= i < |path| ==> Possible(rate, path[i])
  }

  /** Received coordinates. */
  datatype Received = Received(i: real, q: real)

  /** How far coordinates are from what a branch sends. */
  type Metric = (Received, nat, Branch) -> real

  function Cost(m: Metric, rs: seq<Received>, path: Path): real
    requires |path| <= |rs|
  {
    if path == [] then 0.0
    else
      var n := |path| - 1;
      Cost(m, rs, path[..n]) + m(rs[n], End(path[..n]), path[n])
  }

  lemma EndOn(path: Path, b: Branch)
    ensures End(path + [b]) == NextState(End(path), b.y12)
  {
    assert (path + [b])[..|path|] == path;
  }

  lemma CostOn(m: Metric, rs: seq<Received>, path: Path, b: Branch)
    requires |path| < |rs|
    ensures Cost(m, rs, path + [b]) == Cost(m, rs, path) + m(rs[|path|], End(path), b)
  {
    assert (path + [b])[..|path|] == path;
  }

  /** More received coordinates do not change what a path has cost. */
  lemma {:induction false} CostLater(m: Metric, rs: seq<Received>, r: Received, path: Path)
    requires |path| <= |rs|
    ensures Cost(m, rs + [r], path) == Cost(m, rs, path)
  {
    if path != [] {
      CostLater(m, rs, r, path[..|path| - 1]);
    }
  }
}
