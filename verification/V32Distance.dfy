/** How far apart the V.32bis code keeps its runs: the least squared distance between two
    different paths that leave one state and meet again. */
module V32Distance {
  import opened V32Map
  import opened V32Trellis
  import opened V32Turns

  /** The squared distance of two points. */
  function Apart(p: Pair, q: Pair): (d: int)
    ensures d >= 0
  {
    (p.0 - q.0) * (p.0 - q.0) + (p.1 - q.1) * (p.1 - q.1)
  }

  /** Half the squared distance of next neighbours. */
  function Unit(rate: Rate): (unit: nat)
    ensures unit == 1 || unit == 2
  {
    if rate == R7200 || rate == R12000 then 2 else 1
  }

  // ---- Residues ------------------------------------------------------------------------------------

  /** The points of 7200 and 12000 bit/s have odd coordinates; half their sum and difference lie
      as the coordinates at the other rates do. */
  function Coordinates(rate: Rate, p: Pair): Pair {
    if Unit(rate) == 2 then ((p.0 + p.1) / 2, (p.0 - p.1) / 2) else p
  }

  /** The coordinates modulo 4 of all points of a subset. */
  function ResidueOf(rate: Rate, subset: nat): Pair {
    var up := if rate == R9600 then 0 else 2;
    if subset == 0 then (0, (1 + up) % 4)
    else if subset == 1 then (0, (3 + up) % 4)
    else if subset == 2 then (2, (3 + up) % 4)
    else if subset == 3 then (2, (1 + up) % 4)
    else
      var high := if rate == R14400 then 2 else 0;
      if subset == 4 then (1, (2 + high) % 4)
      else if subset == 5 then (3, (2 + high) % 4)
      else if subset == 6 then (1, high)
      else (3, high)
  }

  predicate HasResidue(p: Pair, r: Pair) {
    p.0 % 4 == r.0 && p.1 % 4 == r.1
  }

  /** The same of the sum and the difference, before they are halved. */
  predicate Doubled(p: Pair, r: Pair) {
    (p.0 + p.1) % 8 == 2 * r.0 && (p.0 - p.1) % 8 == 2 * r.1
  }

  predicate Even(p: Pair) {
    (p.0 + p.1) % 2 == 0
  }

  lemma HalfResidue(n: int, r: int)
    requires n % 8 == 2 * r
    ensures n % 2 == 0 && n / 2 % 4 == r
  {
    assert n == 2 * (4 * (n / 8) + r);
  }

  lemma Halved(p: Pair, r: Pair)
    requires Doubled(p, r)
    ensures Even(p) && HasResidue(((p.0 + p.1) / 2, (p.0 - p.1) / 2), r)
  {
    HalfResidue(p.0 + p.1, r.0);
    HalfResidue(p.0 - p.1, r.1);
  }

  lemma Residue7200(subset: nat, x: nat)
    requires subset < 8 && x < 2
    ensures Doubled(Map7200(subset * 2 + x), ResidueOf(R7200, subset))
  {
  }

  lemma Residue9600(subset: nat, x: nat)
    requires subset < 8 && x < 4
    ensures HasResidue(Map9600(subset * 4 + x), ResidueOf(R9600, subset))
  {
  }

  lemma ResidueLow12000(subset: nat, x: nat)
    requires subset < 4 && x < 8
    ensures Doubled(Map12000(subset * 8 + x), ResidueOf(R12000, subset))
  {
  }

  lemma ResidueHigh12000(subset: nat, x: nat)
    requires 4 <= subset < 8 && x < 8
    ensures Doubled(Map12000(subset * 8 + x), ResidueOf(R12000, subset))
  {
  }

  lemma Residue14400(subset: nat, x: nat)
    requires subset < 8 && x < 16
    ensures HasResidue(Map14400(subset * 16 + x), ResidueOf(R14400, subset))
  {
  }

  lemma Residue12000(subset: nat, x: nat)
    requires subset < 8 && x < 8
    ensures Doubled(Map12000(subset * 8 + x), ResidueOf(R12000, subset))
  {
    if subset < 4 {
      ResidueLow12000(subset, x);
    } else {
      ResidueHigh12000(subset, x);
    }
  }

  predicate Lies(rate: Rate, p: Pair, r: Pair) {
    if Unit(rate) == 2 then Doubled(p, r) else HasResidue(p, r)
  }

  lemma ResidueAt(rate: Rate, subset: nat, x: nat)
    requires subset < 8 && x < PerSubset(rate)
    ensures Lies(rate, MapPoint(rate, subset * PerSubset(rate) + x), ResidueOf(rate, subset))
  {
    match rate
    case R7200 => Residue7200(subset, x);
    case R9600 => Residue9600(subset, x);
    case R12000 => Residue12000(subset, x);
    case R14400 => Residue14400(subset, x);
  }

  lemma LiesAt(rate: Rate, p: Pair, r: Pair)
    requires Lies(rate, p, r)
    ensures HasResidue(Coordinates(rate, p), r) && (Unit(rate) == 2 ==> Even(p))
  {
    if Unit(rate) == 2 {
      Halved(p, r);
    }
  }

  // ---- Subsets --------------------------------------------------------------------------------------

  /** The least squared distance, in units, of points of two subsets: `same` within one. */
  function Gap(a: nat, b: nat, same: nat): nat {
    if a == b then same
    else if (a < 4) != (b < 4) then 2
    else if a < 4 then (if a % 2 == b % 2 then 8 else 4)
    else (if a + b == 11 then 8 else 4)
  }

  /** The least square with a residue modulo 4. */
  function LeastSquare(r: int): nat {
    if r == 0 then 0 else if r == 2 then 4 else 1
  }

  lemma SquareGrows(d: int, k: nat)
    requires d >= k || -d >= k
    ensures d * d >= k * k
  {
    if d >= k {
      assert d * d >= k * d >= k * k;
    } else {
      assert (-d) * (-d) >= k * (-d) >= k * k;
    }
  }

  lemma SquareHas(x: int, y: int, r: int, s: int)
    requires 0 <= r < 4 && 0 <= s < 4 && x % 4 == r && y % 4 == s
    ensures (x - y) * (x - y) >= LeastSquare((r - s) % 4)
    ensures r == s && x != y ==> (x - y) * (x - y) >= 16
  {
    var d := x - y;
    assert d == 4 * (x / 4 - y / 4) + (r - s);
    SquareGrows(d, 0);
    if (r - s) % 4 == 2 {
      SquareGrows(d, 2);
    } else if (r - s) % 4 != 0 {
      SquareGrows(d, 1);
    } else if r == s && x != y {
      SquareGrows(d, 4);
    }
  }

  lemma ResiduesApart(p: Pair, q: Pair, r: Pair, s: Pair)
    requires HasResidue(p, r) && HasResidue(q, s)
    ensures Apart(p, q) >= LeastSquare((r.0 - s.0) % 4) + LeastSquare((r.1 - s.1) % 4)
    ensures r == s && p != q ==> Apart(p, q) >= 16
  {
    SquareHas(p.0, q.0, r.0, s.0);
    SquareHas(p.1, q.1, r.1, s.1);
  }

  lemma GapIs(rate: Rate, a: nat, b: nat)
    requires a < 8 && b < 8
    ensures var r, s := ResidueOf(rate, a), ResidueOf(rate, b);
      LeastSquare((r.0 - s.0) % 4) + LeastSquare((r.1 - s.1) % 4) == Gap(a, b, 0)
  {
  }

  lemma HalvesTurn(u: int, v: int)
    ensures (u + v) * (u + v) + (u - v) * (u - v) == 2 * (u * u + v * v)
  {
  }

  lemma HalfOf(p: Pair)
    requires Even(p)
    ensures p.0 == (p.0 + p.1) / 2 + (p.0 - p.1) / 2 && p.1 == (p.0 + p.1) / 2 - (p.0 - p.1) / 2
  {
  }

  lemma CoordinatesApart(rate: Rate, p: Pair, q: Pair)
    requires Unit(rate) == 2 ==> Even(p) && Even(q)
    ensures Apart(p, q) == Unit(rate) * Apart(Coordinates(rate, p), Coordinates(rate, q))
    ensures p != q ==> Coordinates(rate, p) != Coordinates(rate, q)
  {
    if Unit(rate) == 2 {
      HalfOf(p);
      HalfOf(q);
      var u, v := Coordinates(rate, p), Coordinates(rate, q);
      HalvesTurn(u.0 - v.0, u.1 - v.1);
    }
  }

  /** The point `x` of a subset. */
  function PointIn(rate: Rate, subset: nat, x: nat): Pair {
    MapPoint(rate, subset * PerSubset(rate) + x)
  }

  lemma PointsDiffer(rate: Rate, k: nat, x: nat, l: nat, y: nat)
    requires k < 8 && l < 8 && x < PerSubset(rate) && y < PerSubset(rate) && (k != l || x != y)
    ensures PointIn(rate, k, x) != PointIn(rate, l, y)
  {
    CodeJoins(rate, k, x);
    CodeJoins(rate, l, y);
    if PointIn(rate, k, x) == PointIn(rate, l, y) {
      MapInjective(rate, k * PerSubset(rate) + x, l * PerSubset(rate) + y);
    }
  }

  lemma LyingApart(rate: Rate, p: Pair, q: Pair, k: nat, l: nat)
    requires k < 8 && l < 8 && p != q && Lies(rate, p, ResidueOf(rate, k)) && Lies(rate, q, ResidueOf(rate, l))
    ensures Apart(p, q) >= Unit(rate) * Gap(k, l, 16)
  {
    var r, s := ResidueOf(rate, k), ResidueOf(rate, l);
    LiesAt(rate, p, r);
    LiesAt(rate, q, s);
    CoordinatesApart(rate, p, q);
    ResiduesApart(Coordinates(rate, p), Coordinates(rate, q), r, s);
    GapIs(rate, k, l);
  }

  /** Different points, by their subsets. */
  lemma PointsApart(rate: Rate, k: nat, x: nat, l: nat, y: nat)
    requires k < 8 && l < 8 && x < PerSubset(rate) && y < PerSubset(rate) && (k != l || x != y)
    ensures Apart(PointIn(rate, k, x), PointIn(rate, l, y)) >= Unit(rate) * Gap(k, l, 16)
  {
    ResidueAt(rate, k, x);
    ResidueAt(rate, l, y);
    PointsDiffer(rate, k, x, l, y);
    LyingApart(rate, PointIn(rate, k, x), PointIn(rate, l, y), k, l);
  }

  // ---- Steps ----------------------------------------------------------------------------------------

  /** What two paths must still be apart when they are in these states, in units, to meet again. */
  function Ahead(s: nat, t: nat): nat {
    if s == t then 0 else if (s < 4) == (t < 4) then 4 else 6
  }

  lemma StepsApart(s: nat, t: nat, y: nat, z: nat)
    requires s < STATES && t < STATES && y < 4 && z < 4
    ensures Gap(Subset(s, y), Subset(t, z), 0) + Ahead(NextState(s, y), NextState(t, z)) >= Ahead(s, t)
  {
  }

  lemma StepsPart(s: nat, y: nat, z: nat)
    requires s < STATES && y < 4 && z < 4 && y != z
    ensures Gap(Subset(s, y), Subset(s, z), 0) + Ahead(NextState(s, y), NextState(s, z)) >= 10
  {
  }

  /** The squared distance of two branches from two states. */
  function BranchesApart(rate: Rate, s: nat, t: nat, b: Branch, c: Branch): (d: int)
    requires s < STATES && t < STATES && Possible(rate, b) && Possible(rate, c)
    ensures d >= 0
  {
    Apart(PointOf(rate, s, b), PointOf(rate, t, c))
  }

  lemma GapLow(unit: nat, d: int, k: nat, l: nat)
    requires (unit == 1 || unit == 2) && d >= unit * Gap(k, l, 16)
    ensures d >= unit * Gap(k, l, 0) && (k == l ==> d >= unit * 16)
  {
  }

  lemma BranchIn(rate: Rate, s: nat, b: Branch)
    requires s < STATES && Possible(rate, b)
    ensures PointOf(rate, s, b) == PointIn(rate, Subset(s, b.y12), b.x)
  {
  }

  lemma BranchesGap(rate: Rate, s: nat, t: nat, b: Branch, c: Branch)
    requires s < STATES && t < STATES && Possible(rate, b) && Possible(rate, c)
    ensures BranchesApart(rate, s, t, b, c) >= Unit(rate) * Gap(Subset(s, b.y12), Subset(t, c.y12), 0)
    ensures s == t && b.y12 == c.y12 && b.x != c.x ==> BranchesApart(rate, s, t, b, c) >= Unit(rate) * 16
  {
    var k, l := Subset(s, b.y12), Subset(t, c.y12);
    BranchIn(rate, s, b);
    BranchIn(rate, t, c);
    if k != l || b.x != c.x {
      PointsApart(rate, k, b.x, l, c.x);
      GapLow(Unit(rate), BranchesApart(rate, s, t, b, c), k, l);
    } else {
      assert Gap(k, l, 0) == 0;
    }
  }

  lemma Scaled(unit: nat, d: int, gap: nat, rest: nat, least: nat)
    requires (unit == 1 || unit == 2) && d >= unit * gap && gap + rest >= least
    ensures d + unit * rest >= unit * least
  {
  }

  /** One step on, what two paths are apart is made up by what lies ahead. */
  lemma BranchesAhead(rate: Rate, s: nat, t: nat, b: Branch, c: Branch)
    requires s < STATES && t < STATES && Possible(rate, b) && Possible(rate, c)
    ensures var ahead := Ahead(NextState(s, b.y12), NextState(t, c.y12));
      && BranchesApart(rate, s, t, b, c) + Unit(rate) * ahead >= Unit(rate) * Ahead(s, t)
      && (s == t && b.y12 != c.y12 ==> BranchesApart(rate, s, t, b, c) + Unit(rate) * ahead >= Unit(rate) * 10)
  {
    var ahead := Ahead(NextState(s, b.y12), NextState(t, c.y12));
    var gap := Gap(Subset(s, b.y12), Subset(t, c.y12), 0);
    BranchesGap(rate, s, t, b, c);
    StepsApart(s, t, b.y12, c.y12);
    Scaled(Unit(rate), BranchesApart(rate, s, t, b, c), gap, ahead, Ahead(s, t));
    if s == t && b.y12 != c.y12 {
      StepsPart(s, b.y12, c.y12);
      Scaled(Unit(rate), BranchesApart(rate, s, t, b, c), gap, ahead, 10);
    }
  }

  // ---- Paths ---------------------------------------------------------------------------------------

  /** How far apart two branches from two states are. */
  type Far = (nat, nat, Branch, Branch) -> int

  function FarOf(rate: Rate): Far {
    (s: nat, t: nat, b: Branch, c: Branch) =>
      if s < STATES && t < STATES && Possible(rate, b) && Possible(rate, c) then BranchesApart(rate, s, t, b, c) else 0
  }

  /** And two paths from one state. */
  function RunsApart(far: Far, s: nat, a: Path, b: Path): int
    requires |a| == |b|
  {
    if a == [] then 0
    else
      var n := |a| - 1;
      RunsApart(far, s, a[..n], b[..n]) + far(Led(s, a[..n]), Led(s, b[..n]), a[n], b[n])
  }

  /** The squared distance of what two paths from one state send. */
  function PathsApart(rate: Rate, s: nat, a: Path, b: Path): int
    requires |a| == |b|
  {
    RunsApart(FarOf(rate), s, a, b)
  }

  lemma RunsOn(far: Far, s: nat, a: Path, b: Path, x: Branch, y: Branch)
    requires |a| == |b|
    ensures RunsApart(far, s, a + [x], b + [y]) == RunsApart(far, s, a, b) + far(Led(s, a), Led(s, b), x, y)
    ensures Led(s, a + [x]) == NextState(Led(s, a), x.y12) && Led(s, b + [y]) == NextState(Led(s, b), y.y12)
  {
    assert (a + [x])[..|a|] == a && (b + [y])[..|b|] == b;
  }

  predicate Part(a: Path, b: Path)
    requires |a| == |b|
  {
    exists i :: 0 <= i < |a| && a[i].y12 != b[i].y12
  }

  /** What the steps of two paths must keep to: in `least` and in what lies `ahead`. */
  ghost predicate Keeps(far: Far, ahead: (nat, nat) -> int, least: int, s: nat, t: nat, x: Branch, y: Branch) {
    s < STATES && t < STATES ==>
      && far(s, t, x, y) >= 0
      && far(s, t, x, y) + ahead(NextState(s, x.y12), NextState(t, y.y12)) >= ahead(s, t)
      && (s == t && x.y12 != y.y12 ==>
          far(s, t, x, y) + ahead(NextState(s, x.y12), NextState(t, y.y12)) >= least)
      && (s == t && x.y12 == y.y12 && x != y ==> far(s, t, x, y) >= least)
  }

  ghost predicate AllKeep(rate: Rate, far: Far, ahead: (nat, nat) -> int, least: int) {
    forall s: nat, t: nat, x, y :: Possible(rate, x) && Possible(rate, y) ==> Keeps(far, ahead, least, s, t, x, y)
  }

  /** Paths with the same dibits stay in the same states; others are apart by `least` once what lies
      ahead is counted. */
  lemma {:induction false} AheadOf(rate: Rate, far: Far, ahead: (nat, nat) -> int, least: int, s: nat, a: Path, b: Path)
    requires s < STATES && |a| == |b| && Feasible(rate, a) && Feasible(rate, b) && AllKeep(rate, far, ahead, least)
    ensures RunsApart(far, s, a, b) >= 0
    ensures if Part(a, b) then RunsApart(far, s, a, b) + ahead(Led(s, a), Led(s, b)) >= least
            else Led(s, a) == Led(s, b) && (a != b ==> RunsApart(far, s, a, b) >= least)
  {
    if a != [] {
      var n := |a| - 1;
      var c, d, x, y := a[..n], b[..n], a[n], b[n];
      assert a == c + [x] && b == d + [y];
      AheadOf(rate, far, ahead, least, s, c, d);
      assert Keeps(far, ahead, least, Led(s, c), Led(s, d), x, y);
      RunsOn(far, s, c, d, x, y);
      PartOn(c, d, x, y);
    }
  }

  lemma PartOn(a: Path, b: Path, x: Branch, y: Branch)
    requires |a| == |b|
    ensures Part(a + [x], b + [y]) <==> Part(a, b) || x.y12 != y.y12
  {
    if Part(a, b) {
      var i :| 0 <= i < |a| && a[i].y12 != b[i].y12;
      assert (a + [x])[i] == a[i] && (b + [y])[i] == b[i];
    }
    if x.y12 != y.y12 {
      assert (a + [x])[|a|] == x && (b + [y])[|b|] == y;
    }
  }

  function AheadIn(rate: Rate): (nat, nat) -> int {
    (s: nat, t: nat) => Unit(rate) * Ahead(s, t)
  }

  lemma CodeKeeps(rate: Rate)
    ensures AllKeep(rate, FarOf(rate), AheadIn(rate), 10 * Unit(rate))
  {
    forall s: nat, t: nat, x, y | Possible(rate, x) && Possible(rate, y)
      ensures Keeps(FarOf(rate), AheadIn(rate), 10 * Unit(rate), s, t, x, y)
    {
      if s < STATES && t < STATES {
        BranchesAhead(rate, s, t, x, y);
        BranchesGap(rate, s, t, x, y);
      }
    }
  }

  /** Two different paths that leave one state and meet in one are never nearer to each other than
      ten units: five times what next neighbours of the constellation are. */
  lemma LeastDistance(rate: Rate, s: nat, a: Path, b: Path)
    requires s < STATES && |a| == |b| && Feasible(rate, a) && Feasible(rate, b)
    requires a != b && Led(s, a) == Led(s, b)
    ensures PathsApart(rate, s, a, b) >= 10 * Unit(rate)
  {
    CodeKeeps(rate);
    AheadOf(rate, FarOf(rate), AheadIn(rate), 10 * Unit(rate), s, a, b);
    assert AheadIn(rate)(Led(s, a), Led(s, b)) == 0;
  }

  lemma CodeIn(rate: Rate, code: nat)
    requires code < 8 * PerSubset(rate)
    ensures MapPoint(rate, code) == PointIn(rate, code / PerSubset(rate), code % PerSubset(rate))
  {
    CodeSplits(rate, code);
  }

  /** Next neighbours: no two points are nearer. */
  lemma Neighbours(rate: Rate, a: nat, b: nat)
    requires a < 8 * PerSubset(rate) && b < 8 * PerSubset(rate) && a != b
    ensures Apart(MapPoint(rate, a), MapPoint(rate, b)) >= 2 * Unit(rate)
  {
    CodeSplits(rate, a);
    CodeSplits(rate, b);
    CodeIn(rate, a);
    CodeIn(rate, b);
    PointsApart(rate, a / PerSubset(rate), a % PerSubset(rate), b / PerSubset(rate), b % PerSubset(rate));
  }

  // ---- Ten units are reached ------------------------------------------------------------------------

  /** Two paths from state 0 that are ten units apart. */
  function Straight(rate: Rate): Path {
    [Branch(0, 0), Branch(0, if rate == R9600 then 1 else 0), Branch(0, 0)]
  }

  function Detour(rate: Rate): Path {
    [Branch(1, Edge(rate)), Branch(1, if rate == R9600 then 3 else 0), Branch(1, Edge(rate))]
  }

  function Edge(rate: Rate): nat {
    match rate
    case R7200 => 1
    case R9600 => 3
    case R12000 => 7
    case R14400 => 9
  }

  lemma OneOn(far: Far, x: Branch, v: Branch)
    requires x.y12 == 0 && v.y12 == 1
    ensures RunsApart(far, 0, [x], [v]) == far(0, 0, x, v) && Led(0, [x]) == 0 && Led(0, [v]) == 6
  {
    RunsOn(far, 0, [], [], x, v);
    assert [] + [x] == [x] && [] + [v] == [v];
  }

  lemma PairOn(far: Far, x: Branch, y: Branch, v: Branch, w: Branch)
    requires x.y12 == y.y12 == 0 && v.y12 == w.y12 == 1
    ensures RunsApart(far, 0, [x, y], [v, w]) == far(0, 0, x, v) + far(0, 6, y, w)
    ensures Led(0, [x, y]) == 0 && Led(0, [v, w]) == 3
  {
    OneOn(far, x, v);
    RunsOn(far, 0, [x], [v], y, w);
    assert [x] + [y] == [x, y] && [v] + [w] == [v, w];
  }

  /** Three times the same dibits. */
  lemma ThreeOn(far: Far, a: Path, b: Path)
    requires |a| == |b| == 3 && a[0].y12 == a[1].y12 == a[2].y12 == 0 && b[0].y12 == b[1].y12 == b[2].y12 == 1
    ensures Led(0, a) == 0 && Led(0, b) == 0
    ensures RunsApart(far, 0, a, b) == far(0, 0, a[0], b[0]) + far(0, 6, a[1], b[1]) + far(0, 3, a[2], b[2])
  {
    PairOn(far, a[0], a[1], b[0], b[1]);
    RunsOn(far, 0, [a[0], a[1]], [b[0], b[1]], a[2], b[2]);
    assert [a[0], a[1]] + [a[2]] == a && [b[0], b[1]] + [b[2]] == b;
  }

  lemma NumbersFar()
    ensures Apart(Map7200(0), Map7200(3)) == 8 && Apart(Map7200(0), Map7200(10)) == 4
    ensures Apart(Map9600(0), Map9600(7)) == 4 && Apart(Map9600(1), Map9600(23)) == 2
    ensures Apart(Map12000(0), Map12000(15)) == 8 && Apart(Map12000(0), Map12000(40)) == 4
    ensures Apart(Map14400(0), Map14400(25)) == 4 && Apart(Map14400(0), Map14400(80)) == 2
  {
  }

  lemma EdgeFar(rate: Rate)
    ensures Apart(PointIn(rate, 0, 0), PointIn(rate, 1, Edge(rate))) == 4 * Unit(rate)
  {
    NumbersFar();
  }

  lemma MiddleFar(rate: Rate)
    ensures var (x, y) := if rate == R9600 then (1, 3) else (0, 0);
      Apart(PointIn(rate, 0, x), PointIn(rate, 5, y)) == 2 * Unit(rate)
  {
    NumbersFar();
  }

  lemma FarIs(rate: Rate, t: nat, subset: nat, b: Branch, c: Branch)
    requires t < STATES && Possible(rate, b) && Possible(rate, c) && b.y12 == 0 && subset == Subset(t, c.y12)
    ensures FarOf(rate)(0, t, b, c) == Apart(PointIn(rate, 0, b.x), PointIn(rate, subset, c.x))
  {
    BranchIn(rate, 0, b);
    BranchIn(rate, t, c);
  }

  lemma StepsFar(rate: Rate, a: Path, b: Path)
    requires a == Straight(rate) && b == Detour(rate)
    ensures Feasible(rate, a) && Feasible(rate, b)
    ensures FarOf(rate)(0, 0, a[0], b[0]) + FarOf(rate)(0, 6, a[1], b[1]) + FarOf(rate)(0, 3, a[2], b[2])
         == 10 * Unit(rate)
  {
    EdgeFar(rate);
    MiddleFar(rate);
    FarIs(rate, 0, 1, a[0], b[0]);
    FarIs(rate, 6, 5, a[1], b[1]);
    FarIs(rate, 3, 1, a[2], b[2]);
  }

  /** So ten units are the least at every rate. */
  lemma LeastReached(rate: Rate)
    ensures var a, b := Straight(rate), Detour(rate);
      && Feasible(rate, a) && Feasible(rate, b) && a != b && Led(0, a) == Led(0, b)
      && PathsApart(rate, 0, a, b) == 10 * Unit(rate)
  {
    ThreeOn(FarOf(rate), Straight(rate), Detour(rate));
    StepsFar(rate, Straight(rate), Detour(rate));
  }
}
