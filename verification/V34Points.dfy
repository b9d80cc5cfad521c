/** The points of the V.34 constellations (src/v34_data_mapper.c): odd coordinates, a quarter
    constellation ordered by energy, and its four rotations. */
module V34Points {
  import opened Wrappers

  datatype Point = Point(re: int, im: int)

  const QUARTER_POINTS: nat := 416
  const LOW: int := -63
  const SIDE: nat := 33

  function Rotated(p: Point, turns: nat): Point {
    if turns == 0 || turns == 4 then p
    else if turns == 1 || turns == 5 then Point(p.im, -p.re)
    else if turns == 2 || turns == 6 then Point(-p.re, -p.im)
    else Point(-p.im, p.re)
  }

  /** v34_rotate_clockwise, by quarter turns. */
  function RotateClockwise(p: Point, turns: nat): Point {
    Rotated(p, turns % 4)
  }

  /** Both coordinates are 1 modulo 4. */
  predicate QuarterResidue(p: Point) {
    (p.re - 1) % 4 == 0 && (p.im - 1) % 4 == 0
  }

  lemma RotateBack(p: Point, turns: nat)
    requires turns <= 4
    ensures RotateClockwise(RotateClockwise(p, turns), 4 - turns) == p
    ensures RotateClockwise(RotateClockwise(p, 4 - turns), turns) == p
  {
  }

  lemma RotateModulo(p: Point, s: nat, t: nat)
    requires s % 4 == t % 4
    ensures RotateClockwise(p, s) == RotateClockwise(p, t)
  {
  }

  lemma RotatedAdds(p: Point, s: nat, t: nat)
    requires s < 4 && t < 4
    ensures Rotated(Rotated(p, s), t) == Rotated(p, s + t)
  {
  }

  lemma RotatedModulo(p: Point, s: nat)
    requires s < 8
    ensures Rotated(p, s) == Rotated(p, s % 4)
  {
  }

  lemma ModShift(k: nat, x: nat)
    ensures (4 * k + x) % 4 == x % 4
  {
  }

  lemma ModAdds(s: nat, t: nat)
    ensures (s % 4 + t % 4) % 4 == (s + t) % 4
  {
    ModShift(s / 4 + t / 4, s % 4 + t % 4);
  }

  /** Turns add up. */
  lemma RotateAdds(p: Point, s: nat, t: nat)
    ensures RotateClockwise(RotateClockwise(p, s), t) == RotateClockwise(p, s + t)
  {
    RotatedAdds(p, s % 4, t % 4);
    RotatedModulo(p, s % 4 + t % 4);
    ModAdds(s, t);
  }

  lemma OddTurn(x: int)
    ensures (x - 1) % 4 == 0 ==> (-x - 1) % 4 == 2
    ensures (-x - 1) % 4 == 0 ==> (x - 1) % 4 == 2
  {
  }

  /** Only one of the four rotations of a point is in the quarter constellation's lattice. */
  lemma ResidueTurn(p: Point, s: nat, t: nat)
    requires s < 4 && t < 4 && QuarterResidue(RotateClockwise(p, 4 - s)) && QuarterResidue(RotateClockwise(p, 4 - t))
    ensures s == t
  {
    OddTurn(p.re);
    OddTurn(p.im);
  }

  // ---- The order of the points ------------------------------------------------------------

  function Energy(p: Point): int {
    p.re * p.re + p.im * p.im
  }

  /** compare_points is negative: less energy first, then higher, then further right. */
  predicate Before(a: Point, b: Point) {
    if Energy(a) != Energy(b) then Energy(a) < Energy(b)
    else if a.im != b.im then a.im > b.im
    else a.re > b.re
  }

  predicate OnLattice(p: Point) {
    LOW <= p.re <= 65 && LOW <= p.im <= 65 && QuarterResidue(p)
  }

  predicate Sorted(s: seq<Point>) {
    forall i, j :: 0 <= i < j < |s| ==> Before(s[i], s[j])
  }

  /** The quarter constellation: the first 416 lattice points in that order. */
  ghost predicate Constellation(c: seq<Point>) {
    && |c| == QUARTER_POINTS && Sorted(c)
    && (forall i :: 0 <= i < |c| ==> OnLattice(c[i]))
    && (forall p: Point :: OnLattice(p) && p !in c ==> forall i :: 0 <= i < |c| ==> Before(c[i], p))
  }

  lemma SortedDistinct(s: seq<Point>, i: nat, j: nat)
    requires Sorted(s) && i < j < |s|
    ensures s[i] != s[j]
  {
  }

  lemma SortedInjective(s: seq<Point>, i: nat, j: nat)
    requires Sorted(s) && i < |s| && j < |s| && s[i] == s[j]
    ensures i == j
  {
  }

  lemma BeforeTotal(a: Point, b: Point)
    ensures a == b || Before(a, b) || Before(b, a)
    ensures !(Before(a, b) && Before(b, a))
  {
  }

  /** There is only one such list. */
  lemma {:induction false} ConstellationUnique(c: seq<Point>, d: seq<Point>, k: nat)
    requires Constellation(c) && Constellation(d) && k <= QUARTER_POINTS
    ensures forall i :: 0 <= i < k ==> c[i] == d[i]
  {
    if k > 0 {
      ConstellationUnique(c, d, k - 1);
      NotBeforeOwn(c, d, k - 1);
      NotBeforeOwn(d, c, k - 1);
      BeforeTotal(c[k - 1], d[k - 1]);
    }
  }

  /** If the lists agree below `k`, the entry of `d` cannot come after that of `c`. */
  lemma NotBeforeOwn(c: seq<Point>, d: seq<Point>, k: nat)
    requires Constellation(c) && Constellation(d) && k < QUARTER_POINTS
    requires forall i :: 0 <= i < k ==> c[i] == d[i]
    ensures !Before(c[k], d[k])
  {
    var p := c[k];
    BeforeTotal(p, d[k]);
    forall j | 0 <= j < k
      ensures d[j] != p
    {
      SortedDistinct(c, j, k);
    }
    if p in d {
      var j :| 0 <= j < |d| && d[j] == p;
      BeforeTotal(d[k], d[j]);
    }
  }

  lemma BeforeAfter(a: Point, b: Point, p: Point)
    requires Before(a, b) && Before(b, p)
    ensures Before(a, p)
  {
  }

  /** A sorted list before which no other lattice point comes is where the constellation starts. */
  ghost predicate Leads(first: seq<Point>) {
    && first != [] && Sorted(first) && (forall i :: 0 <= i < |first| ==> OnLattice(first[i]))
    && forall p :: OnLattice(p) && p !in first ==> Before(first[|first| - 1], p)
  }

  lemma NoneEarlier(c: seq<Point>, first: seq<Point>, k: nat)
    requires Constellation(c) && Leads(first) && k < |first| <= QUARTER_POINTS
    requires forall i :: 0 <= i < k ==> c[i] == first[i]
    ensures !Before(c[k], first[k])
  {
    var last := |first| - 1;
    forall i | 0 <= i < k
      ensures first[i] != c[k]
    {
      SortedDistinct(c, i, k);
    }
    BeforeTotal(first[k], c[k]);
    if c[k] in first {
      var i :| 0 <= i < |first| && first[i] == c[k];
    } else if k < last {
      BeforeAfter(first[k], first[last], c[k]);
    }
  }

  lemma InOrAfter(c: seq<Point>, p: Point, k: nat)
    requires Constellation(c) && OnLattice(p) && k < QUARTER_POINTS
    ensures p in c || Before(c[k], p)
  {
  }

  lemma InPlace(c: seq<Point>, first: seq<Point>, k: nat)
    requires Constellation(c) && Leads(first) && k < |first| <= QUARTER_POINTS && !Before(c[k], first[k])
    requires forall i :: 0 <= i < k ==> c[i] == first[i]
    ensures c[k] == first[k]
  {
    var p := first[k];
    forall j | 0 <= j < k
      ensures c[j] != p
    {
      SortedDistinct(first, j, k);
    }
    InOrAfter(c, p, k);
    assert forall j :: k < j < |c| ==> Before(c[k], c[j]);
  }

  lemma NextPlace(c: seq<Point>, first: seq<Point>, k: nat)
    requires Constellation(c) && Leads(first) && k < |first| <= QUARTER_POINTS
    requires forall i :: 0 <= i < k ==> c[i] == first[i]
    ensures c[k] == first[k]
  {
    NoneEarlier(c, first, k);
    InPlace(c, first, k);
  }

  lemma {:induction false} StartsWith(c: seq<Point>, first: seq<Point>, k: nat)
    requires Constellation(c) && Leads(first) && k <= |first| <= QUARTER_POINTS
    ensures forall i :: 0 <= i < k ==> c[i] == first[i]
  {
    if k > 0 {
      StartsWith(c, first, k - 1);
      NextPlace(c, first, k - 1);
    }
  }

  lemma Outer(p: Point)
    requires OnLattice(p)
    ensures Energy(p) >= 34 || p in [Point(1, 1), Point(-3, 1), Point(1, -3), Point(-3, -3), Point(1, 5), Point(5, 1)]
  {
    FarOut(p.re);
    FarOut(p.im);
  }

  lemma SquareFar(x: int)
    requires x >= 7
    ensures x * x >= 49
  {
    assert x * x >= 7 * x;
  }

  lemma FarOut(x: int)
    requires (x - 1) % 4 == 0
    ensures (x == 1 && x * x == 1) || (x == -3 && x * x == 9) || (x == 5 && x * x == 25) || x * x >= 49
  {
    if x >= 7 {
      SquareFar(x);
    } else if x <= -7 {
      SquareFar(-x);
      assert (-x) * (-x) == x * x;
    }
  }

  lemma SixLead(first: seq<Point>)
    requires first == [Point(1, 1), Point(-3, 1), Point(1, -3), Point(-3, -3), Point(1, 5), Point(5, 1)]
    ensures Leads(first)
  {
    assert Energy(first[0]) == 2 && Energy(first[1]) == Energy(first[2]) == 10 && Energy(first[3]) == 18;
    assert Energy(first[4]) == Energy(first[5]) == 26;
    forall p | OnLattice(p) && p !in first
      ensures Before(first[5], p)
    {
      Outer(p);
    }
  }

  /** The innermost points. */
  lemma FirstSix(c: seq<Point>)
    requires Constellation(c)
    ensures c[..6] == [Point(1, 1), Point(-3, 1), Point(1, -3), Point(-3, -3), Point(1, 5), Point(5, 1)]
  {
    var first := [Point(1, 1), Point(-3, 1), Point(1, -3), Point(-3, -3), Point(1, 5), Point(5, 1)];
    SixLead(first);
    StartsWith(c, first, 6);
  }

  // ---- Building it -------------------------------------------------------------------------

  function Insert(p: Point, s: seq<Point>): (r: seq<Point>)
    ensures |r| == |s| + 1
    ensures forall q :: q in r <==> q == p || q in s
  {
    if s == [] then [p]
    else if Before(p, s[0]) then [p] + s
    else
      var r := [s[0]] + Insert(p, s[1..]);
      assert forall q :: q in s <==> q == s[0] || q in s[1..];
      r
  }

  lemma {:induction false} InsertSorted(p: Point, s: seq<Point>)
    requires Sorted(s) && p !in s
    ensures Sorted(Insert(p, s))
  {
    if s != [] {
      if Before(p, s[0]) {
        assert forall j :: 0 <= j < |s| ==> Before(p, s[j]);
      } else {
        InsertSorted(p, s[1..]);
        var r := Insert(p, s[1..]);
        forall j | 0 <= j < |r|
          ensures Before(s[0], r[j])
        {
          assert r[j] in r;
        }
      }
    }
  }

  /** Lattice points in the rows below `y`, and in row `y` to the left of `x`. */
  ghost predicate Scanned(p: Point, x: int, y: int) {
    OnLattice(p) && (p.im < y || (p.im == y && p.re < x))
  }

  lemma ScanInserted(before: seq<Point>, x: int, y: int)
    requires LOW <= x <= 65 && LOW <= y <= 65 && (x - 1) % 4 == 0 && (y - 1) % 4 == 0
    requires Sorted(before) && forall p :: p in before <==> Scanned(p, x, y)
    ensures var after := Insert(Point(x, y), before);
      Sorted(after) && forall p :: p in after <==> Scanned(p, x + 4, y)
  {
    InsertSorted(Point(x, y), before);
    var after := Insert(Point(x, y), before);
    forall p
      ensures p in after <==> Scanned(p, x + 4, y)
    {
      NextScanned(p, x, y);
    }
  }

  lemma RowScanned(x: int, y: int)
    requires 65 < x && LOW <= y <= 65 && (y - 1) % 4 == 0
    ensures forall p :: Scanned(p, x, y) <==> Scanned(p, LOW, y + 4)
  {
    forall p
      ensures Scanned(p, x, y) <==> Scanned(p, LOW, y + 4)
    {
      SameStep(p.im, y);
    }
  }

  /** One row of candidates, sorted in as they come. */
  method ScanRow(before: seq<Point>, y: int) returns (candidates: seq<Point>)
    requires LOW <= y <= 65 && (y - 1) % 4 == 0
    requires Sorted(before) && forall p :: p in before <==> Scanned(p, LOW, y)
    ensures |candidates| == |before| + SIDE
    ensures Sorted(candidates) && forall p :: p in candidates <==> Scanned(p, LOW, y + 4)
  {
    candidates := before;
    var x := LOW;
    while x <= 65
      invariant LOW <= x <= 69 && (x - 1) % 4 == 0
      invariant 4 * (|candidates| - |before|) == x - LOW
      invariant Sorted(candidates) && forall p :: p in candidates <==> Scanned(p, x, y)
    {
      ScanInserted(candidates, x, y);
      candidates := Insert(Point(x, y), candidates);
      x := x + 4;
    }
    RowScanned(x, y);
  }

  lemma FirstPoints(candidates: seq<Point>)
    requires |candidates| >= QUARTER_POINTS && Sorted(candidates)
    requires forall p :: p in candidates <==> OnLattice(p)
    ensures Constellation(candidates[..QUARTER_POINTS])
  {
    var c := candidates[..QUARTER_POINTS];
    assert forall i :: 0 <= i < |c| ==> c[i] in candidates;
    assert forall j :: 0 <= j < |c| ==> candidates[j] == c[j];
    forall p: Point, i | OnLattice(p) && p !in c && 0 <= i < |c|
      ensures Before(c[i], p)
    {
      assert p in candidates;
      var j :| 0 <= j < |candidates| && candidates[j] == p;
    }
  }

  /** v34_constellation_init; the library sort is an insertion sort by the same order. */
  method ConstellationInit() returns (c: seq<Point>)
    ensures Constellation(c)
  {
    var candidates: seq<Point> := [];
    var y := LOW;
    while y <= 65
      invariant LOW <= y <= 69 && (y - 1) % 4 == 0
      invariant 4 * |candidates| == 33 * (y - LOW)
      invariant Sorted(candidates) && forall p :: p in candidates <==> Scanned(p, LOW, y)
    {
      candidates := ScanRow(candidates, y);
      y := y + 4;
    }
    FirstPoints(candidates);
    c := candidates[..QUARTER_POINTS];
  }

  lemma SameStep(a: int, b: int)
    requires (b - 1) % 4 == 0
    ensures (a - 1) % 4 == 0 && b <= a < b + 4 ==> a == b
  {
    var k, l := (a - 1) / 4, (b - 1) / 4;
    assert (a - 1) % 4 == 0 ==> a == 4 * k + 1;
    assert b == 4 * l + 1;
  }

  lemma NextScanned(p: Point, x: int, y: int)
    requires LOW <= x <= 65 && LOW <= y <= 65 && (x - 1) % 4 == 0 && (y - 1) % 4 == 0
    ensures Scanned(p, x + 4, y) <==> p == Point(x, y) || Scanned(p, x, y)
  {
    SameStep(p.re, x);
  }

  // ---- Finding a received point in it --------------------------------------------------------

  /** The point is the one with this index, turned clockwise. */
  predicate Located(c: seq<Point>, p: Point, turn: nat, index: nat) {
    turn < 4 && index < |c| && p == RotateClockwise(c[index], turn)
  }

  lemma LocatedUnique(c: seq<Point>, p: Point, turn: nat, index: nat, turn': nat, index': nat)
    requires Constellation(c) && Located(c, p, turn, index) && Located(c, p, turn', index')
    ensures turn == turn' && index == index'
  {
    RotateBack(c[index], turn);
    RotateBack(c[index'], turn');
    ResidueTurn(p, turn, turn');
    SortedInjective(c, index, index');
  }

  /** v34_quarter_decode: found exactly when the point is a turned constellation point. */
  method QuarterDecode(c: seq<Point>, p: Point) returns (r: Option<(nat, nat)>)
    requires Constellation(c)
    ensures r.Some? ==> Located(c, p, r.value.0, r.value.1)
    ensures r.None? ==> forall turn: nat, index: nat :: !Located(c, p, turn, index)
  {
    for turn := 0 to 4
      invariant forall t: nat, k: nat :: t < turn ==> !Located(c, p, t, k)
    {
      var quarter := RotateClockwise(p, 4 - turn);
      if QuarterResidue(quarter) {
        for candidate := 0 to QUARTER_POINTS
          invariant forall k: nat :: k < candidate ==> c[k] != quarter
        {
          if c[candidate] == quarter {
            RotateBack(p, turn);
            return Some((turn, candidate));
          }
        }
      }
      forall k: nat
        ensures !Located(c, p, turn, k)
      {
        if Located(c, p, turn, k) {
          RotateBack(c[k], turn);
        }
      }
    }
    return None;
  }
}
