/** The soft decision search of src/v34_data_decoder.c: nine candidate points around each
    received pair of coordinates, two survivors for each trellis state and rotation, and a hard
    decode of what is left.  Coordinates and metrics are reals. */
module V34Soft {
  import opened Wrappers
  import opened Bits
  import opened Lockstep
  import opened Reals
  import opened V34Points
  import opened V34Trellis
  import opened V34Interval
  import opened V34Frame
  import opened V34FrameCodec

  const STATE_KEYS: nat := 256
  const PATHS_PER_STATE: nat := 2

  /** A received pair of coordinates. */
  datatype Iq = Iq(i: real, q: real)

  datatype Pair = Pair(first: Iq, second: Iq)

  datatype Candidate = Candidate(point: Point, metric: real, rotation: nat, subset: nat)

  datatype Path = Path(slots: seq<Slot>, metric: real, cells: Cells)

  // ---- Slicing ---------------------------------------------------------------------------------

  /** lround: to the nearest integer, halves away from zero. */
  function Lround(x: real): int {
    if x >= 0.0 then (x + 0.5).Floor else -((0.5 - x).Floor)
  }

  /** The nearest odd number. */
  function NearestOdd(u: real): int {
    2 * Lround((u - 1.0) / 2.0) + 1
  }

  lemma LroundNear(y: real, n: int)
    requires -0.5 < y - n as real < 0.5
    ensures Lround(y) == n
  {
  }

  lemma NearestOddNear(u: real, x: int)
    requires x % 2 == 1 && -1.0 < u - x as real < 1.0
    ensures NearestOdd(u) == x
  {
    var a := x / 2;
    assert x as real == 2.0 * a as real + 1.0;
    LroundNear((u - 1.0) / 2.0, a);
  }

  /** v34_slice_iq. */
  function Slice(iq: Iq, scale: real): Option<Point>
    requires scale > 0.0
  {
    var re, im := NearestOdd(Over(iq.i, scale)), NearestOdd(Over(iq.q, scale));
    if re < -32768 || re > 32767 || im < -32768 || im > 32767 then None else Some(Point(re, im))
  }

  /** Both coordinates are less than one unit of the grid from those of the point. */
  predicate Within(iq: Iq, p: Point, scale: real) {
    && scale > 0.0 && -1.0 < Over(iq.i, scale) - p.re as real < 1.0 && -1.0 < Over(iq.q, scale) - p.im as real < 1.0
  }

  lemma SliceWithin(iq: Iq, p: Point, scale: real)
    requires Within(iq, p, scale) && Known(p)
    ensures Slice(iq, scale) == Some(p)
  {
    NearestOddNear(Over(iq.i, scale), p.re);
    NearestOddNear(Over(iq.q, scale), p.im);
  }

  /** Squared distance in units of the grid. */
  function Distance(iq: Iq, p: Point, scale: real): (d: real)
    requires scale > 0.0
    ensures d >= 0.0
  {
    Square(Over(iq.i, scale) - p.re as real) + Square(Over(iq.q, scale) - p.im as real)
  }

  lemma OddApart(u: real, x: int, y: int)
    requires x % 2 == 1 && y % 2 == 1 && -1.0 < u - x as real < 1.0
    ensures x == y || Square(u - x as real) < Square(u - y as real)
  {
    if x != y {
      assert x - y >= 2 || y - x >= 2;
      SquareGrows(u - x as real, u - y as real);
    }
  }

  /** No other odd point is as near. */
  lemma Nearest(iq: Iq, p: Point, q: Point, scale: real)
    requires Within(iq, p, scale) && Odd(p) && Odd(q)
    ensures p == q || Distance(iq, p, scale) < Distance(iq, q, scale)
  {
    OddApart(Over(iq.i, scale), p.re, q.re);
    OddApart(Over(iq.q, scale), p.im, q.im);
  }

  // ---- What a path is -----------------------------------------------------------------------------

  function Cost(iq: seq<Pair>, scale: real, slots: seq<Slot>): (c: real)
    requires scale > 0.0 && |slots| <= |iq|
    ensures c >= 0.0
  {
    if slots == [] then 0.0
    else
      var n := |slots| - 1;
      Cost(iq, scale, slots[..n]) +
      (Distance(iq[n].first, slots[n].first, scale) + Distance(iq[n].second, slots[n].second, scale))
  }

  /** The trellis state after some intervals. */
  function Walk(k: Coder, cells: Cells, slots: seq<Slot>): Cells {
    if slots == [] then cells
    else
      var n := |slots| - 1;
      k.advance(Walk(k, cells, slots[..n]), slots[n].first, slots[n].second)
  }

  /** What the search is about: the received coordinates and where it starts. */
  datatype Search = Search(k: Coder, cells: Cells, iq: seq<Pair>, scale: real, v0: seq<bool>)

  ghost predicate Posed(h: Search) {
    Recognises(h.k) && h.scale > 0.0 && |h.iq| == 4 && |h.v0| == 4
  }

  /** The nine points around the nearest one. */
  predicate Around(p: Point, q: Point) {
    (q.re == p.re - 2 || q.re == p.re || q.re == p.re + 2) && (q.im == p.im - 2 || q.im == p.im || q.im == p.im + 2)
  }

  /** A constellation point among the nine around the coordinates. */
  ghost predicate Eligible(k: Coder, iq: Iq, scale: real, p: Point)
    requires scale > 0.0
  {
    Slice(iq, scale).Some? && Around(Slice(iq, scale).value, p) && k.look(p).Some?
  }

  /** The trellis can send these points in this state. */
  ghost predicate Passable(k: Coder, cells: Cells, w: Slot)
    requires Recognises(k)
  {
    var x, y := k.look(w.first), k.look(w.second);
    assert Placed(k, w.first);
    x.Some? && y.Some? && Delta(k, State(cells, 0), w.v0, x.value.turn, y.value.turn) % 2 == 0
  }

  ghost predicate Fits(h: Search, slots: seq<Slot>, n: nat)
    requires Posed(h) && |slots| <= 4
  {
    n < |slots| ==>
      && slots[n].v0 == h.v0[n]
      && Eligible(h.k, h.iq[n].first, h.scale, slots[n].first)
      && Eligible(h.k, h.iq[n].second, h.scale, slots[n].second)
      && Passable(h.k, Walk(h.k, h.cells, slots[..n]), slots[n])
  }

  lemma LroundIs(x: real)
    ensures -0.5 <= x - Lround(x) as real <= 0.5
  {
  }

  lemma NearestOddIs(u: real)
    ensures NearestOdd(u) % 2 == 1 && -1.0 <= u - NearestOdd(u) as real <= 1.0
  {
    LroundIs((u - 1.0) / 2.0);
  }

  lemma OddReach(u: real, x: int)
    requires x % 2 == 1
    ensures -2.0 < u - x as real < 2.0 ==> -2 <= x - NearestOdd(u) <= 2
    ensures -2 <= x - NearestOdd(u) <= 2 ==> -3.0 <= u - x as real <= 3.0
    ensures (x - NearestOdd(u)) % 2 == 0
  {
    NearestOddIs(u);
    var n := NearestOdd(u);
    assert x - n == 2 * (x / 2 - n / 2);
  }

  /** Each coordinate is less than `reach` from that of the point. */
  predicate Reaches(iq: Iq, p: Point, scale: real, reach: real)
    requires scale > 0.0
  {
    && -reach < Over(iq.i, scale) - p.re as real < reach && -reach < Over(iq.q, scale) - p.im as real < reach
  }

  /** The nine points are those that can matter: every constellation point less than two units of the grid
      away in both coordinates is among them, and none further away than three. */
  lemma EligibleReach(k: Coder, iq: Iq, scale: real, p: Point)
    requires Recognises(k) && scale > 0.0 && k.look(p).Some?
    ensures Reaches(iq, p, scale, 2.0) ==> Eligible(k, iq, scale, p)
    ensures Eligible(k, iq, scale, p) ==> Reaches(iq, p, scale, 3.1)
  {
    assert Lands(k, p);
    OddReach(Over(iq.i, scale), p.re);
    OddReach(Over(iq.q, scale), p.im);
  }

  /** One of the point sequences the search is to choose from: eligible in every interval, and
      one the trellis can send. */
  ghost predicate Allowed(h: Search, slots: seq<Slot>)
    requires Posed(h)
  {
    |slots| <= 4 && forall n: nat :: Fits(h, slots, n)
  }

  /** A path's points are allowed, and its metric and state are theirs. */
  ghost predicate Sound(h: Search, n: nat, x: Path)
    requires Posed(h) && n <= 4
  {
    && |x.slots| == n && Allowed(h, x.slots)
    && x.metric == Cost(h.iq, h.scale, x.slots) && x.cells == Walk(h.k, h.cells, x.slots)
  }

  /** Paths are kept apart by their trellis states. */
  ghost predicate Filed(h: Search, n: nat, key: nat, x: Path)
    requires Posed(h) && n <= 4
  {
    Sound(h, n, x) && key / 4 == StateNumber(x.cells)
  }

  ghost predicate AllSound(h: Search, n: nat, table: seq<seq<Path>>)
    requires Posed(h) && n <= 4
  {
    && |table| == STATE_KEYS
    && forall key: nat, i :: key < |table| && 0 <= i < |table[key]| ==> Filed(h, n, key, table[key][i])
  }

  // ---- The cheapest sequence ------------------------------------------------------------------

  ghost predicate Dearer(h: Search, w: seq<Slot>, x: seq<Slot>)
    requires Posed(h) && |w| == 4
  {
    |x| == 4 && Allowed(h, x) && x != w ==> Cost(h.iq, h.scale, x) > Cost(h.iq, h.scale, w)
  }

  /** Allowed, and nearer to the coordinates than all other allowed sequences. */
  ghost predicate Cheapest(h: Search, w: seq<Slot>)
    requires Posed(h)
  {
    |w| == 4 && Allowed(h, w) && forall x :: Dearer(h, w, x)
  }

  ghost predicate RunAt(h: Search, slots: seq<Slot>, n: nat)
    requires Posed(h) && |slots| <= 4
  {
    n < |slots| ==> slots[n].v0 == h.v0[n] && Passable(h.k, Walk(h.k, h.cells, slots[..n]), slots[n])
  }

  /** Any sequence the trellis can send, near the coordinates or not. */
  ghost predicate Runs(h: Search, slots: seq<Slot>)
    requires Posed(h)
  {
    |slots| == 4 && forall n: nat :: RunAt(h, slots, n)
  }

  ghost predicate Worse(h: Search, w: seq<Slot>, x: seq<Slot>)
    requires Posed(h) && |w| == 4
  {
    Runs(h, x) && x != w ==> Cost(h.iq, h.scale, x) > Cost(h.iq, h.scale, w)
  }

  ghost predicate NearAt(h: Search, w: seq<Slot>, n: nat)
    requires Posed(h) && |w| == 4
  {
    n < 4 ==>
      Reaches(h.iq[n].first, w[n].first, h.scale, 2.0) && Reaches(h.iq[n].second, w[n].second, h.scale, 2.0)
  }

  lemma AllowedRuns(h: Search, x: seq<Slot>)
    requires Posed(h) && Allowed(h, x) && |x| == 4
    ensures Runs(h, x)
  {
    forall n: nat
      ensures RunAt(h, x, n)
    {
      assert Fits(h, x, n);
    }
  }

  /** If the nearest of all the sequences the trellis can send lies within two units of the grid, it is the
      nearest of those the search is to choose from. */
  lemma NearestOfAll(h: Search, w: seq<Slot>)
    requires Posed(h) && Runs(h, w) && (forall n: nat :: NearAt(h, w, n)) && (forall x :: Worse(h, w, x))
    ensures Cheapest(h, w)
  {
    forall n: nat
      ensures Fits(h, w, n)
    {
      if n < 4 {
        assert RunAt(h, w, n) && NearAt(h, w, n);
        EligibleReach(h.k, h.iq[n].first, h.scale, w[n].first);
        EligibleReach(h.k, h.iq[n].second, h.scale, w[n].second);
      }
    }
    forall x
      ensures Dearer(h, w, x)
    {
      if |x| == 4 && Allowed(h, x) {
        AllowedRuns(h, x);
        assert Worse(h, w, x);
      }
    }
  }

  /** The path along its first `n` intervals. */
  ghost function Truth(h: Search, w: seq<Slot>, n: nat): Path
    requires Posed(h) && n <= 4 && |w| == 4
  {
    Path(w[..n], Cost(h.iq, h.scale, w[..n]), Walk(h.k, h.cells, w[..n]))
  }

  lemma WalkOn(k: Coder, cells: Cells, slots: seq<Slot>, w: Slot)
    ensures Walk(k, cells, slots + [w]) == k.advance(Walk(k, cells, slots), w.first, w.second)
  {
    assert (slots + [w])[..|slots|] == slots;
  }

  lemma CostOn(iq: seq<Pair>, scale: real, slots: seq<Slot>, w: Slot)
    requires scale > 0.0 && |slots| < |iq|
    ensures Cost(iq, scale, slots + [w])
         == Cost(iq, scale, slots)
          + (Distance(iq[|slots|].first, w.first, scale) + Distance(iq[|slots|].second, w.second, scale))
  {
    assert (slots + [w])[..|slots|] == slots;
  }

  lemma AllowedPrefix(h: Search, slots: seq<Slot>, n: nat)
    requires Posed(h) && Allowed(h, slots) && n <= |slots|
    ensures Allowed(h, slots[..n])
  {
    forall i: nat
      ensures Fits(h, slots[..n], i)
    {
      assert Fits(h, slots, i);
      if i < n {
        assert slots[..n][..i] == slots[..i];
      }
    }
  }

  /** One more interval. */
  lemma AllowedOn(h: Search, slots: seq<Slot>, w: Slot)
    requires Posed(h) && |slots| < 4 && Allowed(h, slots) && w.v0 == h.v0[|slots|]
    requires Eligible(h.k, h.iq[|slots|].first, h.scale, w.first)
    requires Eligible(h.k, h.iq[|slots|].second, h.scale, w.second)
    requires Passable(h.k, Walk(h.k, h.cells, slots), w)
    ensures Allowed(h, slots + [w])
  {
    forall i: nat
      ensures Fits(h, slots + [w], i)
    {
      assert Fits(h, slots, i);
      if i <= |slots| {
        assert (slots + [w])[..i] == slots[..i];
        assert slots[..|slots|] == slots;
      }
    }
  }

  /** The same interval after two sequences that have come to one state. */
  lemma SwapOn(h: Search, x: seq<Slot>, y: seq<Slot>, w: Slot)
    requires Posed(h) && |x| == |y| < 4 && Allowed(h, x) && Allowed(h, y + [w])
    requires Walk(h.k, h.cells, x) == Walk(h.k, h.cells, y)
    ensures Allowed(h, x + [w]) && Walk(h.k, h.cells, x + [w]) == Walk(h.k, h.cells, y + [w])
    ensures Cost(h.iq, h.scale, x + [w]) - Cost(h.iq, h.scale, x)
         == Cost(h.iq, h.scale, y + [w]) - Cost(h.iq, h.scale, y)
  {
    assert Fits(h, y + [w], |y|);
    assert (y + [w])[..|y|] == y;
    AllowedOn(h, x, w);
    WalkOn(h.k, h.cells, x, w);
    WalkOn(h.k, h.cells, y, w);
    CostOn(h.iq, h.scale, x, w);
    CostOn(h.iq, h.scale, y, w);
  }

  /** Going on from another sequence that has come to the same state. */
  lemma {:induction false} Swapped(h: Search, x: seq<Slot>, y: seq<Slot>, rest: seq<Slot>)
    requires Posed(h) && |x| == |y| && Allowed(h, x) && Allowed(h, y + rest)
    requires Walk(h.k, h.cells, x) == Walk(h.k, h.cells, y)
    ensures Allowed(h, x + rest) && Walk(h.k, h.cells, x + rest) == Walk(h.k, h.cells, y + rest)
    ensures Cost(h.iq, h.scale, x + rest) - Cost(h.iq, h.scale, x)
         == Cost(h.iq, h.scale, y + rest) - Cost(h.iq, h.scale, y)
  {
    if rest == [] {
      assert x + rest == x && y + rest == y;
    } else {
      var less, last := rest[..|rest| - 1], rest[|rest| - 1];
      assert x + rest == x + less + [last] && y + rest == y + less + [last];
      assert (y + rest)[..|y + less|] == y + less;
      AllowedPrefix(h, y + rest, |y + less|);
      Swapped(h, x, y, less);
      SwapOn(h, x + less, y + less, last);
    }
  }

  /** Of the allowed paths that come to the state the cheapest sequence comes to, its own is
      the cheapest. */
  lemma LeastThere(h: Search, w: seq<Slot>, n: nat, x: Path)
    requires Posed(h) && Cheapest(h, w) && n <= 4 && Sound(h, n, x) && x.cells == Truth(h, w, n).cells
    ensures x == Truth(h, w, n) || x.metric > Truth(h, w, n).metric
  {
    assert w[..n] + w[n..] == w;
    Swapped(h, x.slots, w[..n], w[n..]);
    var y := x.slots + w[n..];
    assert Dearer(h, w, y);
    if y == w {
      assert x.slots == y[..n];
    }
  }

  // ---- Survivors ----------------------------------------------------------------------------------

  /** Survivors of one key after one more path has come to it. */
  function Kept(bucket: seq<Path>, x: Path): seq<Path> {
    if |bucket| < PATHS_PER_STATE then bucket + [x]
    else
      var worst := if bucket[1].metric > bucket[0].metric then 1 else 0;
      if x.metric < bucket[worst].metric then bucket[worst := x] else bucket
  }

  lemma KeptMembers(bucket: seq<Path>, x: Path, y: Path)
    requires y in Kept(bucket, x)
    ensures y == x || y in bucket
  {
  }

  ghost predicate Has(table: seq<seq<Path>>, x: Path) {
    exists key :: 0 <= key < |table| && x in table[key]
  }

  /** A path that is cheaper than the others of its key is not thrown out, and finds a place. */
  lemma KeptLeast(bucket: seq<Path>, x: Path, z: Path)
    requires |bucket| <= PATHS_PER_STATE && (x == z || x.metric > z.metric)
    requires forall i :: 0 <= i < |bucket| ==> bucket[i] == z || bucket[i].metric > z.metric
    requires z in bucket || x == z
    ensures z in Kept(bucket, x)
  {
    var k := Kept(bucket, x);
    if |bucket| < PATHS_PER_STATE {
      assert k[|bucket|] == x;
      assert forall i :: 0 <= i < |bucket| ==> k[i] == bucket[i];
    } else {
      var worst := if bucket[1].metric > bucket[0].metric then 1 else 0;
      if x.metric < bucket[worst].metric {
        assert k[worst] == x && k[1 - worst] == bucket[1 - worst];
      }
    }
  }

  ghost predicate Small(table: seq<seq<Path>>) {
    forall key :: 0 <= key < |table| ==> |table[key]| <= PATHS_PER_STATE
  }

  function StateNumber(s: Cells): (n: nat)
    ensures n < 64
  {
    Bit(s.d0) + 2 * Bit(s.d1) + 4 * Bit(s.d2) + 8 * Bit(s.d3) + 16 * Bit(s.d4) + 32 * Bit(s.d5)
  }

  lemma StatesApart(s: Cells, t: Cells)
    requires StateNumber(s) == StateNumber(t)
    ensures s == t
  {
  }

  /** Keeping a sound path keeps all paths sound, and the cheapest one where it is. */
  lemma TableKept(h: Search, n: nat, w: seq<Slot>, table: seq<seq<Path>>, key: nat, x: Path)
    requires Posed(h) && n <= 4 && AllSound(h, n, table) && Small(table) && key < STATE_KEYS && Filed(h, n, key, x)
    ensures var after := table[key := Kept(table[key], x)];
      && AllSound(h, n, after) && Small(after)
      && (Cheapest(h, w) && (Has(table, Truth(h, w, n)) || x == Truth(h, w, n)) ==> Has(after, Truth(h, w, n)))
  {
    var after := table[key := Kept(table[key], x)];
    forall k: nat, i | k < |after| && 0 <= i < |after[k]|
      ensures Filed(h, n, k, after[k][i])
    {
      if k == key {
        KeptMembers(table[key], x, after[key][i]);
      }
    }
    if Cheapest(h, w) && (Has(table, Truth(h, w, n)) || x == Truth(h, w, n)) {
      TruthKept(h, n, w, table, key, x);
    }
  }

  lemma FiledAfter(h: Search, w: seq<Slot>, n: nat, key: nat, x: Path)
    requires Posed(h) && Cheapest(h, w) && n <= 4 && Filed(h, n, key, x) && Filed(h, n, key, Truth(h, w, n))
    ensures x == Truth(h, w, n) || x.metric > Truth(h, w, n).metric
  {
    StatesApart(x.cells, Truth(h, w, n).cells);
    LeastThere(h, w, n, x);
  }

  lemma TruthKept(h: Search, n: nat, w: seq<Slot>, table: seq<seq<Path>>, key: nat, x: Path)
    requires Posed(h) && n <= 4 && AllSound(h, n, table) && Small(table) && key < STATE_KEYS && Filed(h, n, key, x)
    requires Cheapest(h, w) && (Has(table, Truth(h, w, n)) || x == Truth(h, w, n))
    ensures Has(table[key := Kept(table[key], x)], Truth(h, w, n))
  {
    var z := Truth(h, w, n);
    var after := table[key := Kept(table[key], x)];
    if x == z || z in table[key] {
      assert Filed(h, n, key, z);
      FiledAfter(h, w, n, key, x);
      forall i | 0 <= i < |table[key]|
        ensures table[key][i] == z || table[key][i].metric > z.metric
      {
        assert Filed(h, n, key, table[key][i]);
        FiledAfter(h, w, n, key, table[key][i]);
      }
      KeptLeast(table[key], x, z);
      assert z in after[key];
    } else {
      var k :| 0 <= k < |table| && z in table[k];
      assert z in after[k];
    }
  }

  // ---- Candidates -----------------------------------------------------------------------------------

  ghost predicate CandidateOf(k: Coder, iq: Iq, scale: real, x: Candidate)
    requires scale > 0.0
  {
    && Eligible(k, iq, scale, x.point) && x.rotation == k.look(x.point).value.turn
    && x.metric == Distance(iq, x.point, scale) && x.subset == SubsetLabel(x.point)
  }

  ghost predicate Offered(s: seq<Candidate>, p: Point) {
    exists i :: 0 <= i < |s| && s[i].point == p
  }

  ghost predicate OfferedIf(k: Coder, iq: Iq, scale: real, s: seq<Candidate>, p: Point)
    requires scale > 0.0
  {
    Eligible(k, iq, scale, p) ==> Offered(s, p)
  }

  /** The candidates are the eligible points. */
  ghost predicate CandidatesOf(k: Coder, iq: Iq, scale: real, s: seq<Candidate>)
    requires scale > 0.0
  {
    && (forall i :: 0 <= i < |s| ==> CandidateOf(k, iq, scale, s[i]))
    && (forall p :: OfferedIf(k, iq, scale, s, p))
  }

  lemma OfferedMore(s: seq<Candidate>, t: seq<Candidate>, p: Point)
    ensures Offered(s + t, p) <==> Offered(s, p) || Offered(t, p)
  {
    if Offered(s, p) {
      var i :| 0 <= i < |s| && s[i].point == p;
      assert (s + t)[i].point == p;
    }
    if Offered(t, p) {
      var i :| 0 <= i < |t| && t[i].point == p;
      assert (s + t)[|s| + i].point == p;
    }
  }

  /** In a row of candidates, and left of a column. */
  ghost predicate Passed(k: Coder, s: seq<Candidate>, nearest: Point, dx: int, dy: int) {
    k.look(Point(nearest.re + dx, nearest.im + dy)).Some? ==> Offered(s, Point(nearest.re + dx, nearest.im + dy))
  }

  ghost predicate RowPassed(k: Coder, s: seq<Candidate>, nearest: Point, dy: int) {
    Passed(k, s, nearest, -2, dy) && Passed(k, s, nearest, 0, dy) && Passed(k, s, nearest, 2, dy)
  }

  lemma RowStays(k: Coder, s: seq<Candidate>, t: seq<Candidate>, nearest: Point, dy: int)
    ensures RowPassed(k, s, nearest, dy) ==> RowPassed(k, s + t, nearest, dy)
    ensures RowPassed(k, t, nearest, dy) ==> RowPassed(k, s + t, nearest, dy)
  {
    OfferedMore(s, t, Point(nearest.re - 2, nearest.im + dy));
    OfferedMore(s, t, Point(nearest.re, nearest.im + dy));
    OfferedMore(s, t, Point(nearest.re + 2, nearest.im + dy));
  }

  lemma AllOffered(k: Coder, iq: Iq, scale: real, s: seq<Candidate>, nearest: Point)
    requires scale > 0.0 && Slice(iq, scale) == Some(nearest)
    requires RowPassed(k, s, nearest, -2) && RowPassed(k, s, nearest, 0) && RowPassed(k, s, nearest, 2)
    ensures forall p :: OfferedIf(k, iq, scale, s, p)
  {
    forall p
      ensures OfferedIf(k, iq, scale, s, p)
    {
      if Eligible(k, iq, scale, p) {
        var dx, dy := p.re - nearest.re, p.im - nearest.im;
        assert p == Point(nearest.re + dx, nearest.im + dy);
        assert dx == -2 || dx == 0 || dx == 2;
        assert dy == -2 || dy == 0 || dy == 2;
        assert RowPassed(k, s, nearest, dy);
      }
    }
  }

  /** make_candidates. */
  method MakeCandidates(d: FrameDecoder, iq: Iq, scale: real) returns (s: seq<Candidate>)
    requires d.Valid() && scale > 0.0
    ensures CandidatesOf(d.link.coder, iq, scale, s)
  {
    s := [];
    var sliced := Slice(iq, scale);
    if sliced.None? {
      assert forall p :: OfferedIf(d.link.coder, iq, scale, s, p);
      return;
    }
    var nearest := sliced.value;
    ghost var k := d.link.coder;
    var dy := -2;
    while dy <= 2
      invariant dy == -2 || dy == 0 || dy == 2 || dy == 4
      invariant forall i :: 0 <= i < |s| ==> CandidateOf(k, iq, scale, s[i])
      invariant dy > -2 ==> RowPassed(k, s, nearest, -2)
      invariant dy > 0 ==> RowPassed(k, s, nearest, 0)
      invariant dy > 2 ==> RowPassed(k, s, nearest, 2)
    {
      var row := CandidateRow(d, iq, scale, nearest, dy);
      RowStays(k, s, row, nearest, dy);
      RowStays(k, s, row, nearest, -2);
      RowStays(k, s, row, nearest, 0);
      s := s + row;
      dy := dy + 2;
    }
    AllOffered(k, iq, scale, s, nearest);
  }

  method CandidateRow(d: FrameDecoder, iq: Iq, scale: real, nearest: Point, dy: int) returns (row: seq<Candidate>)
    requires d.Valid() && scale > 0.0 && (dy == -2 || dy == 0 || dy == 2) && Slice(iq, scale) == Some(nearest)
    ensures forall i :: 0 <= i < |row| ==> CandidateOf(d.link.coder, iq, scale, row[i])
    ensures RowPassed(d.link.coder, row, nearest, dy)
  {
    row := [];
    ghost var k := d.link.coder;
    var dx := -2;
    while dx <= 2
      invariant dx == -2 || dx == 0 || dx == 2 || dx == 4
      invariant forall i :: 0 <= i < |row| ==> CandidateOf(k, iq, scale, row[i])
      invariant dx > -2 ==> Passed(k, row, nearest, -2, dy)
      invariant dx > 0 ==> Passed(k, row, nearest, 0, dy)
      invariant dx > 2 ==> Passed(k, row, nearest, 2, dy)
    {
      var point := Point(nearest.re + dx, nearest.im + dy);
      var seen := d.Recognise(point, k);
      if seen.Some? {
        var x := Candidate(point, Distance(iq, point, scale), seen.value.turn, SubsetLabel(point));
        OfferedMore(row, [x], Point(nearest.re - 2, nearest.im + dy));
        OfferedMore(row, [x], Point(nearest.re, nearest.im + dy));
        assert [x][0].point == point;
        OfferedMore(row, [x], point);
        row := row + [x];
      }
      dx := dx + 2;
    }
  }

  // ---- Branches --------------------------------------------------------------------------------------

  /** The path one interval further on. */
  ghost function Extended(h: Search, x: Path, w: Slot): Path
    requires Posed(h) && |x.slots| < 4
  {
    Path(x.slots + [w], Cost(h.iq, h.scale, x.slots + [w]), Walk(h.k, h.cells, x.slots + [w]))
  }

  /** The slot is made of candidates, and the trellis allows it after this path. */
  ghost predicate Follows(h: Search, n: nat, x: Path, w: Slot)
    requires Posed(h) && n < 4
  {
    && w.v0 == h.v0[n] && Eligible(h.k, h.iq[n].first, h.scale, w.first)
    && Eligible(h.k, h.iq[n].second, h.scale, w.second) && Passable(h.k, x.cells, w)
  }

  lemma ExtendedSound(h: Search, n: nat, x: Path, w: Slot)
    requires Posed(h) && n < 4 && Sound(h, n, x) && Follows(h, n, x, w)
    ensures Sound(h, n + 1, Extended(h, x, w))
    ensures Extended(h, x, w).metric
         == x.metric + (Distance(h.iq[n].first, w.first, h.scale) + Distance(h.iq[n].second, w.second, h.scale))
    ensures Extended(h, x, w).cells == h.k.advance(x.cells, w.first, w.second)
  {
    AllowedOn(h, x.slots, w);
    WalkOn(h.k, h.cells, x.slots, w);
    CostOn(h.iq, h.scale, x.slots, w);
  }

  lemma TruthExtends(h: Search, w: seq<Slot>, n: nat)
    requires Posed(h) && Cheapest(h, w) && n < 4
    ensures Extended(h, Truth(h, w, n), w[n]) == Truth(h, w, n + 1) && Follows(h, n, Truth(h, w, n), w[n])
  {
    assert w[..n] + [w[n]] == w[..n + 1];
    assert Fits(h, w, n);
  }

  ghost predicate Searching(h: Search, d: FrameDecoder)
    reads d
  {
    Posed(h) && d.Valid() && h.k == d.link.coder
  }

  /** The trellis output in a state, and the state after a pair of candidates. */
  method StepWith(kind: Kind, s: Cells, a: Candidate, b: Candidate, ghost k: Coder, ghost points: seq<Point>)
    returns (output: bool, next: Cells)
    requires Codes(k, kind, points) && a.subset == SubsetLabel(a.point) && b.subset == SubsetLabel(b.point)
    ensures output == k.output(s) && next == k.advance(s, a.point, b.point)
  {
    assert CodesAt(k, kind, s, a.point, b.point);
    output := Output(kind, s);
    next := Step(kind, s, PairBits(a.subset, b.subset));
  }

  lemma Halves(delta: nat)
    requires delta < 4
    ensures delta != 0 && delta != 2 <==> delta % 2 == 1
  {
  }

  /** A path one pair of candidates further on, if the trellis allows it, and the key of the
      state it leads to. */
  method Branch(kind: Kind, x: Path, a: Candidate, b: Candidate, v0: bool, ghost points: seq<Point>, ghost h: Search,
                ghost n: nat)
    returns (r: Option<(Path, nat)>)
    requires Posed(h) && Codes(h.k, kind, points) && n < 4 && v0 == h.v0[n] && Sound(h, n, x)
    requires CandidateOf(h.k, h.iq[n].first, h.scale, a) && CandidateOf(h.k, h.iq[n].second, h.scale, b)
    ensures r.None? <==> !Follows(h, n, x, Slot(a.point, b.point, v0))
    ensures r.Some? ==>
      && r.value.0 == Extended(h, x, Slot(a.point, b.point, v0)) && a.rotation < 4
      && r.value.1 == 4 * StateNumber(r.value.0.cells) + a.rotation
  {
    assert Placed(h.k, a.point) && Placed(h.k, b.point);
    var output, cells := StepWith(kind, x.cells, a, b, h.k, points);
    var u0 := Xor(output, v0);
    var delta := (b.rotation + 4 - a.rotation - Bit(u0)) % 4;
    Halves(delta);
    if delta != 0 && delta != 2 {
      return None;
    }
    var slot := Slot(a.point, b.point, v0);
    ExtendedSound(h, n, x, slot);
    return Some((Path(x.slots + [slot], x.metric + (a.metric + b.metric), cells), 4 * StateNumber(cells) + a.rotation));
  }

  lemma KeyFiles(h: Search, n: nat, x: Path, key: nat, rotation: nat)
    requires Posed(h) && n <= 4 && Sound(h, n, x) && rotation < 4 && key == 4 * StateNumber(x.cells) + rotation
    ensures Filed(h, n, key, x) && key < STATE_KEYS
  {
  }

  /** keep_path. */
  method KeepPath(next: array<seq<Path>>, key: nat, x: Path, ghost h: Search, ghost n: nat, ghost w: seq<Slot>)
    requires Posed(h) && n <= 4 && |w| == 4 && Filed(h, n, key, x) && key < STATE_KEYS
    requires next.Length == STATE_KEYS && AllSound(h, n, next[..]) && Small(next[..])
    modifies next
    ensures AllSound(h, n, next[..]) && Small(next[..])
    ensures Cheapest(h, w) && (Has(old(next[..]), Truth(h, w, n)) || x == Truth(h, w, n)) ==>
      Has(next[..], Truth(h, w, n))
  {
    ghost var before := next[..];
    TableKept(h, n, w, before, key, x);
    next[key] := Kept(next[key], x);
    assert next[..] == before[key := Kept(before[key], x)];
  }

  /** What a loop over branches leaves of the true path, from what was there before. */
  ghost predicate Carries(h: Search, n: nat, w: seq<Slot>, before: seq<seq<Path>>, after: seq<seq<Path>>)
    requires Posed(h) && n <= 4 && |w| == 4
  {
    && AllSound(h, n, after) && Small(after)
    && (Cheapest(h, w) && Has(before, Truth(h, w, n)) ==> Has(after, Truth(h, w, n)))
  }

  /** One branch of one path. */
  method TryBranch(d: FrameDecoder, x: Path, a: Candidate, b: Candidate, v0: bool, next: array<seq<Path>>,
                   ghost h: Search, ghost n: nat, ghost w: seq<Slot>)
    requires Searching(h, d) && n < 4 && |w| == 4 && v0 == h.v0[n] && Sound(h, n, x)
    requires CandidateOf(h.k, h.iq[n].first, h.scale, a) && CandidateOf(h.k, h.iq[n].second, h.scale, b)
    requires next.Length == STATE_KEYS && AllSound(h, n + 1, next[..]) && Small(next[..])
    modifies next
    ensures Carries(h, n + 1, w, old(next[..]), next[..])
    ensures Cheapest(h, w) && x == Truth(h, w, n) && a.point == w[n].first && b.point == w[n].second ==>
      Has(next[..], Truth(h, w, n + 1))
  {
    var r := Branch(d.kind, x, a, b, v0, d.points, h, n);
    if Cheapest(h, w) {
      TruthExtends(h, w, n);
    }
    if r.None? {
      return;
    }
    ExtendedSound(h, n, x, Slot(a.point, b.point, v0));
    KeyFiles(h, n + 1, r.value.0, r.value.1, a.rotation);
    KeepPath(next, r.value.1, r.value.0, h, n + 1, w);
  }

  /** All branches of one path. */
  method ExtendPath(d: FrameDecoder, x: Path, first: seq<Candidate>, second: seq<Candidate>, v0: bool,
                    next: array<seq<Path>>, ghost h: Search, ghost n: nat, ghost w: seq<Slot>)
    requires Searching(h, d) && n < 4 && |w| == 4 && v0 == h.v0[n] && Sound(h, n, x)
    requires CandidatesOf(h.k, h.iq[n].first, h.scale, first) && CandidatesOf(h.k, h.iq[n].second, h.scale, second)
    requires next.Length == STATE_KEYS && AllSound(h, n + 1, next[..]) && Small(next[..])
    modifies next
    ensures Carries(h, n + 1, w, old(next[..]), next[..])
    ensures Cheapest(h, w) && x == Truth(h, w, n) && Offered(first, w[n].first) && Offered(second, w[n].second) ==>
      Has(next[..], Truth(h, w, n + 1))
  {
    ghost var before := next[..];
    for a := 0 to |first|
      invariant Carries(h, n + 1, w, before, next[..])
      invariant (Cheapest(h, w) && x == Truth(h, w, n) && Offered(first[..a], w[n].first) &&
                 Offered(second, w[n].second)) ==>
        Has(next[..], Truth(h, w, n + 1))
    {
      ExtendFirst(d, x, first[a], second, v0, next, h, n, w);
      OfferedNext(first, a, w[n].first);
    }
    assert first[..|first|] == first;
  }

  lemma OfferedNext(s: seq<Candidate>, n: nat, p: Point)
    requires n < |s|
    ensures Offered(s[..n + 1], p) <==> Offered(s[..n], p) || s[n].point == p
  {
    assert s[..n + 1] == s[..n] + [s[n]];
    OfferedMore(s[..n], [s[n]], p);
    assert [s[n]][0].point == s[n].point;
  }

  /** The branches of one path that start with one candidate. */
  method ExtendFirst(d: FrameDecoder, x: Path, a: Candidate, second: seq<Candidate>, v0: bool, next: array<seq<Path>>,
                     ghost h: Search, ghost n: nat, ghost w: seq<Slot>)
    requires Searching(h, d) && n < 4 && |w| == 4 && v0 == h.v0[n] && Sound(h, n, x)
    requires CandidateOf(h.k, h.iq[n].first, h.scale, a) && CandidatesOf(h.k, h.iq[n].second, h.scale, second)
    requires next.Length == STATE_KEYS && AllSound(h, n + 1, next[..]) && Small(next[..])
    modifies next
    ensures Carries(h, n + 1, w, old(next[..]), next[..])
    ensures Cheapest(h, w) && x == Truth(h, w, n) && a.point == w[n].first && Offered(second, w[n].second) ==>
      Has(next[..], Truth(h, w, n + 1))
  {
    ghost var before := next[..];
    for b := 0 to |second|
      invariant Carries(h, n + 1, w, before, next[..])
      invariant Cheapest(h, w) && x == Truth(h, w, n) && a.point == w[n].first && Offered(second[..b], w[n].second) ==>
        Has(next[..], Truth(h, w, n + 1))
    {
      TryBranch(d, x, a, second[b], v0, next, h, n, w);
      OfferedNext(second, b, w[n].second);
    }
    assert second[..|second|] == second;
  }

  /** All survivors of one key. */
  method ExtendBucket(d: FrameDecoder, bucket: seq<Path>, first: seq<Candidate>, second: seq<Candidate>, v0: bool,
                      next: array<seq<Path>>, ghost h: Search, ghost n: nat, ghost w: seq<Slot>)
    requires Searching(h, d) && n < 4 && |w| == 4 && v0 == h.v0[n]
    requires forall i :: 0 <= i < |bucket| ==> Sound(h, n, bucket[i])
    requires CandidatesOf(h.k, h.iq[n].first, h.scale, first) && CandidatesOf(h.k, h.iq[n].second, h.scale, second)
    requires next.Length == STATE_KEYS && AllSound(h, n + 1, next[..]) && Small(next[..])
    modifies next
    ensures Carries(h, n + 1, w, old(next[..]), next[..])
    ensures Cheapest(h, w) && Truth(h, w, n) in bucket && Offered(first, w[n].first) && Offered(second, w[n].second) ==>
      Has(next[..], Truth(h, w, n + 1))
  {
    ghost var before := next[..];
    for slot := 0 to |bucket|
      invariant Carries(h, n + 1, w, before, next[..])
      invariant (Cheapest(h, w) && Truth(h, w, n) in bucket[..slot] && Offered(first, w[n].first) &&
                 Offered(second, w[n].second)) ==>
        Has(next[..], Truth(h, w, n + 1))
    {
      ExtendPath(d, bucket[slot], first, second, v0, next, h, n, w);
      assert bucket[..slot + 1] == bucket[..slot] + [bucket[slot]];
    }
    assert bucket[..|bucket|] == bucket;
  }

  /** One interval of the search. */
  method ExtendAll(d: FrameDecoder, current: array<seq<Path>>, first: seq<Candidate>, second: seq<Candidate>, v0: bool,
                   next: array<seq<Path>>, ghost h: Search, ghost n: nat, ghost w: seq<Slot>)
    requires Searching(h, d) && n < 4 && |w| == 4 && v0 == h.v0[n] && current != next
    requires current.Length == STATE_KEYS && AllSound(h, n, current[..])
    requires CandidatesOf(h.k, h.iq[n].first, h.scale, first) && CandidatesOf(h.k, h.iq[n].second, h.scale, second)
    requires next.Length == STATE_KEYS
    modifies next
    ensures AllSound(h, n + 1, next[..]) && Small(next[..])
    ensures (Cheapest(h, w) && Has(current[..], Truth(h, w, n)) && Offered(first, w[n].first) &&
             Offered(second, w[n].second)) ==>
      Has(next[..], Truth(h, w, n + 1))
  {
    for key := 0 to STATE_KEYS
      invariant forall k :: 0 <= k < key ==> next[k] == []
    {
      next[key] := [];
    }
    ghost var table := current[..];
    for key := 0 to STATE_KEYS
      invariant AllSound(h, n + 1, next[..]) && Small(next[..]) && current[..] == table
      invariant (Cheapest(h, w) && Has(table[..key], Truth(h, w, n)) && Offered(first, w[n].first) &&
                 Offered(second, w[n].second)) ==>
        Has(next[..], Truth(h, w, n + 1))
    {
      assert table[key] == current[key];
      ExtendBucket(d, current[key], first, second, v0, next, h, n, w);
      HasNext(table, key, Truth(h, w, n));
    }
    assert table[..STATE_KEYS] == table;
  }

  lemma HasNext(table: seq<seq<Path>>, key: nat, x: Path)
    requires key < |table|
    ensures Has(table[..key + 1], x) ==> Has(table[..key], x) || x in table[key]
  {
    if Has(table[..key + 1], x) && x !in table[key] {
      var k :| 0 <= k < key + 1 && x in table[..key + 1][k];
      assert table[..key][k] == table[k];
    }
  }

  // ---- Near points --------------------------------------------------------------------------------

  lemma {:induction false} PrefixTaken(k: Coder, q: nat, s: State, w: seq<Slot>, n: nat)
    requires Recognises(k) && s.rotation < 4 && n <= |w| && TakeAll(Receiver(k, q), s, w).ok
    ensures TakeAll(Receiver(k, q), s, w[..n]).ok
    ensures TakeAll(Receiver(k, q), s, w[..n]).state.cells == Walk(k, s.cells, w[..n])
    ensures TakeAll(Receiver(k, q), s, w[..n]).state.rotation < 4
  {
    var take := Receiver(k, q);
    if !TakeAll(take, s, w[..n]).ok {
      StaysRefused(take, s, w, n);
    }
    if n > 0 {
      PrefixTaken(k, q, s, w, n - 1);
      var t := TakeAll(take, s, w[..n - 1]).state;
      assert w[..n][..n - 1] == w[..n - 1];
      assert Placed(k, w[n - 1].first);
      assert take(t, w[n - 1]).Some?;
      assert take(t, w[n - 1]).value.0.cells == k.advance(t.cells, w[n - 1].first, w[n - 1].second);
    }
  }

  lemma TakenNext(k: Coder, q: nat, s: State, w: seq<Slot>, n: nat) returns (t: State)
    requires Recognises(k) && s.rotation < 4 && n < |w| && TakeAll(Receiver(k, q), s, w).ok
    ensures t == TakeAll(Receiver(k, q), s, w[..n]).state && t.rotation < 4 && Receive(k, q, t, w[n]).Some?
  {
    PrefixTaken(k, q, s, w, n);
    PrefixTaken(k, q, s, w, n + 1);
    t := TakeAll(Receiver(k, q), s, w[..n]).state;
    assert w[..n + 1][..n] == w[..n];
  }

  lemma ReceivedPassable(k: Coder, q: nat, t: State, w: Slot)
    requires Recognises(k) && t.rotation < 4 && Receive(k, q, t, w).Some?
    ensures Passable(k, t.cells, w)
  {
    assert Placed(k, w.first);
    var x, y := k.look(w.first).value, k.look(w.second).value;
    assert Delta(k, t, w.v0, x.turn, y.turn) == Delta(k, State(t.cells, 0), w.v0, x.turn, y.turn);
  }

  /** Points the hard decoder accepts are ones the trellis can send. */
  lemma TakenPassable(k: Coder, q: nat, s: State, w: seq<Slot>, n: nat)
    requires Recognises(k) && s.rotation < 4 && n < |w| && TakeAll(Receiver(k, q), s, w).ok
    ensures Passable(k, Walk(k, s.cells, w[..n]), w[n])
  {
    PrefixTaken(k, q, s, w, n);
    var t := TakenNext(k, q, s, w, n);
    ReceivedPassable(k, q, t, w[n]);
  }

  /** Every coordinate is less than one unit of the grid from these points. */
  ghost predicate Close(h: Search, w: seq<Slot>)
    requires Posed(h)
  {
    && |w| == 4
    && forall i :: 0 <= i < 4 ==>
         && w[i].v0 == h.v0[i] && Within(h.iq[i].first, w[i].first, h.scale)
         && Within(h.iq[i].second, w[i].second, h.scale)
  }

  ghost predicate AllKnown(slots: seq<Slot>) {
    forall i :: 0 <= i < |slots| ==> Known(slots[i].first) && Known(slots[i].second)
  }

  lemma AllowedKnown(h: Search, slots: seq<Slot>)
    requires Posed(h) && Allowed(h, slots)
    ensures AllKnown(slots) && forall i :: 0 <= i < |slots| ==> slots[i].v0 == h.v0[i]
  {
    forall i | 0 <= i < |slots|
      ensures Known(slots[i].first) && Known(slots[i].second) && slots[i].v0 == h.v0[i]
    {
      assert Fits(h, slots, i);
      assert Lands(h.k, slots[i].first) && Lands(h.k, slots[i].second);
    }
  }

  lemma {:induction false} CloseIsCheapest(h: Search, w: seq<Slot>, slots: seq<Slot>)
    requires Posed(h) && Close(h, w) && AllKnown(w) && |slots| <= 4 && AllKnown(slots)
    requires forall i :: 0 <= i < |slots| ==> slots[i].v0 == h.v0[i]
    ensures slots == w[..|slots|] || Cost(h.iq, h.scale, w[..|slots|]) < Cost(h.iq, h.scale, slots)
  {
    if slots != [] {
      var n := |slots| - 1;
      CloseIsCheapest(h, w, slots[..n]);
      Nearest(h.iq[n].first, w[n].first, slots[n].first, h.scale);
      Nearest(h.iq[n].second, w[n].second, slots[n].second, h.scale);
      assert slots == slots[..n] + [slots[n]];
      assert w[..n + 1] == w[..n] + [w[n]];
      CostOn(h.iq, h.scale, w[..n], w[n]);
      CostOn(h.iq, h.scale, slots[..n], slots[n]);
    }
  }

  lemma CloseAllowed(h: Search, w: seq<Slot>, q: nat, s: State)
    requires Posed(h) && Close(h, w) && h.cells == s.cells && s.rotation < 4 && TakeAll(Receiver(h.k, q), s, w).ok
    ensures Allowed(h, w)
  {
    forall n: nat
      ensures Fits(h, w, n)
    {
      if n < 4 {
        TakenPassable(h.k, q, s, w, n);
        assert Lands(h.k, w[n].first) && Lands(h.k, w[n].second);
        SliceWithin(h.iq[n].first, w[n].first, h.scale);
        SliceWithin(h.iq[n].second, w[n].second, h.scale);
      }
    }
  }

  /** Points that the hard decoder accepts, with every coordinate less than one unit from them,
      are the cheapest sequence. */
  lemma CloseCheapest(h: Search, l: Link, s: State, w: seq<Slot>, high: bool)
    requires Posed(h) && Linked(l) && h.k == l.coder && h.cells == s.cells && s.rotation < 4
    requires Close(h, w) && Decode(l, s, w, high).1.Some?
    ensures Cheapest(h, w)
  {
    CloseAllowed(h, w, l.p.qBits, s);
    AllowedKnown(h, w);
    assert w[..4] == w;
    forall x
      ensures Dearer(h, w, x)
    {
      if |x| == 4 && Allowed(h, x) {
        AllowedKnown(h, x);
        CloseIsCheapest(h, w, x);
      }
    }
  }

  // ---- The whole search ----------------------------------------------------------------------------------

  /** These points are the cheapest sequence, and the hard decoder accepts them from `s`. */
  ghost predicate Accepted(h: Search, l: Link, s: State, w: seq<Slot>, high: bool)
    requires Posed(h) && Linked(l)
  {
    Cheapest(h, w) && Decode(l, s, w, high).1.Some?
  }

  lemma CheapestOffered(h: Search, w: seq<Slot>, n: nat, first: seq<Candidate>, second: seq<Candidate>)
    requires Posed(h) && Cheapest(h, w) && n < 4
    requires CandidatesOf(h.k, h.iq[n].first, h.scale, first) && CandidatesOf(h.k, h.iq[n].second, h.scale, second)
    ensures Offered(first, w[n].first) && Offered(second, w[n].second)
  {
    assert Fits(h, w, n);
    assert OfferedIf(h.k, h.iq[n].first, h.scale, first, w[n].first);
    assert OfferedIf(h.k, h.iq[n].second, h.scale, second, w[n].second);
  }

  /** The survivors after all four intervals, if every interval has candidates. */
  method Survive(d: FrameDecoder, iq: seq<Pair>, scale: real, v0: seq<bool>, ghost h: Search, ghost w: seq<Slot>)
    returns (ok: bool, table: array<seq<Path>>)
    requires Searching(h, d) && h == Search(h.k, d.cells, iq, scale, v0) && |w| == 4
    ensures fresh(table) && table.Length == STATE_KEYS
    ensures ok ==> AllSound(h, 4, table[..])
    ensures Cheapest(h, w) ==> ok && Has(table[..], Truth(h, w, 4))
  {
    table := new seq<Path>[STATE_KEYS](i => []);
    var start := 4 * StateNumber(d.cells) + d.rotation;
    table[start] := [Path([], 0.0, d.cells)];
    assert w[..0] == [];
    assert Truth(h, w, 0) in table[..][start];
    for interval := 0 to 4
      invariant fresh(table) && table.Length == STATE_KEYS && AllSound(h, interval, table[..])
      invariant Cheapest(h, w) ==> Has(table[..], Truth(h, w, interval))
    {
      var first := MakeCandidates(d, iq[interval].first, scale);
      var second := MakeCandidates(d, iq[interval].second, scale);
      if Cheapest(h, w) {
        CheapestOffered(h, w, interval, first, second);
      }
      if |first| == 0 || |second| == 0 {
        ok := false;
        return;
      }
      var next := new seq<Path>[STATE_KEYS](i => []);
      ExtendAll(d, table, first, second, v0[interval], next, h, interval, w);
      table := next;
    }
    ok := true;
  }

  datatype Best = Best(metric: real, bits: seq<bool>, slots: seq<Slot>, state: State)

  ghost predicate Chosen(h: Search, l: Link, s: State, high: bool, b: Best)
    requires Posed(h) && Linked(l)
  {
    && |b.slots| == 4 && Decode(l, s, b.slots, high) == (b.state, Some(b.bits)) && b.state.rotation < 4
    && b.metric == Cost(h.iq, h.scale, b.slots) && Allowed(h, b.slots)
  }

  /** `good` tells the paths that the hard decoder accepts, and `chosen` what may be the choice. */
  datatype Judge = Judge(good: Path -> bool, chosen: Best -> bool)

  ghost predicate TellsGood(j: Judge, l: Link, s: State, high: bool, x: Path)
    requires Linked(l)
  {
    |x.slots| == 4 ==> (j.good(x) <==> Decode(l, s, x.slots, high).1.Some?)
  }

  ghost predicate TellsChosen(j: Judge, h: Search, l: Link, s: State, high: bool, b: Best)
    requires Posed(h) && Linked(l)
  {
    j.chosen(b) <==> Chosen(h, l, s, high, b)
  }

  ghost predicate Tells(j: Judge, h: Search, l: Link, s: State, high: bool)
    requires Posed(h) && Linked(l)
  {
    (forall x :: TellsGood(j, l, s, high, x)) && (forall b :: TellsChosen(j, h, l, s, high, b))
  }

  ghost predicate Choice(j: Judge, b: Option<Best>) {
    b.Some? ==> j.chosen(b.value)
  }

  /** Not worse than this path, if that decodes. */
  ghost predicate AsGood(r: Option<Best>, j: Judge, x: Path) {
    j.good(x) ==> r.Some? && r.value.metric <= x.metric
  }

  ghost predicate NotWorse(r: Option<Best>, best: Option<Best>) {
    best.Some? ==> r.Some? && r.value.metric <= best.value.metric
  }

  /** One survivor: it becomes the choice if it is better and decodes. */
  method Consider(d: FrameDecoder, x: Path, start: State, high: bool, best: Option<Best>, ghost h: Search,
                  ghost j: Judge)
    returns (r: Option<Best>)
    requires Searching(h, d) && Sound(h, 4, x) && start.rotation < 4 && Tells(j, h, d.link, start, high)
    requires Choice(j, best)
    modifies d
    ensures d.Valid() && Choice(j, r) && NotWorse(r, best) && AsGood(r, j, x)
  {
    if best.Some? && x.metric >= best.value.metric {
      return best;
    }
    d.cells, d.rotation := start.cells, start.rotation;
    var bits := d.DecodeMappingFrame(x.slots, high);
    assert TellsGood(j, d.link, start, high, x);
    if bits.None? {
      return best;
    }
    var b := Best(x.metric, bits.value, x.slots, State(d.cells, d.rotation));
    assert TellsChosen(j, h, d.link, start, high, b);
    return Some(b);
  }

  method ConsiderBucket(d: FrameDecoder, bucket: seq<Path>, start: State, high: bool, best: Option<Best>,
                        ghost h: Search, ghost j: Judge)
    returns (r: Option<Best>)
    requires Searching(h, d) && start.rotation < 4 && Tells(j, h, d.link, start, high) && Choice(j, best)
    requires forall i :: 0 <= i < |bucket| ==> Sound(h, 4, bucket[i])
    modifies d
    ensures d.Valid() && Choice(j, r) && NotWorse(r, best)
    ensures forall i :: 0 <= i < |bucket| ==> AsGood(r, j, bucket[i])
  {
    r := best;
    for slot := 0 to |bucket|
      invariant d.Valid() && Choice(j, r) && NotWorse(r, best)
      invariant forall i :: 0 <= i < slot ==> AsGood(r, j, bucket[i])
    {
      assert Sound(h, 4, bucket[slot]);
      r := Consider(d, bucket[slot], start, high, r, h, j);
    }
  }

  method Choose(d: FrameDecoder, table: array<seq<Path>>, start: State, high: bool, ghost h: Search, ghost truth: Path,
                ghost j: Judge)
    returns (best: Option<Best>)
    requires Searching(h, d) && start.rotation < 4 && table.Length == STATE_KEYS && AllSound(h, 4, table[..])
    requires Tells(j, h, d.link, start, high)
    modifies d
    ensures d.Valid() && Choice(j, best)
    ensures Has(table[..], truth) ==> AsGood(best, j, truth)
  {
    best := None;
    ghost var paths := table[..];
    for key := 0 to STATE_KEYS
      invariant d.Valid() && Choice(j, best)
      invariant Has(paths[..key], truth) ==> AsGood(best, j, truth)
    {
      assert paths[key] == table[key];
      best := ConsiderBucket(d, table[key], start, high, best, h, j);
      HasNext(paths, key, truth);
    }
    assert paths[..STATE_KEYS] == paths;
  }

  lemma Judged(h: Search, l: Link, s: State, high: bool) returns (j: Judge)
    requires Posed(h) && Linked(l)
    ensures Tells(j, h, l, s, high)
  {
    j := Judge((x: Path) => |x.slots| == 4 && Decode(l, s, x.slots, high).1.Some?,
               (b: Best) => Chosen(h, l, s, high, b));
    assert forall x :: TellsGood(j, l, s, high, x);
    assert forall b :: TellsChosen(j, h, l, s, high, b);
  }

  lemma ChosenCheapest(h: Search, l: Link, s: State, high: bool, b: Best, w: seq<Slot>)
    requires Posed(h) && Linked(l) && Cheapest(h, w) && Chosen(h, l, s, high, b) && b.metric <= Truth(h, w, 4).metric
    ensures b.slots == w
  {
    assert Dearer(h, w, b.slots);
    assert w[..4] == w;
  }

  /** The accepted cheapest sequence, if there is one; there are no others. */
  lemma PickTruth(h: Search, l: Link, s: State, high: bool) returns (w: seq<Slot>)
    requires Posed(h) && Linked(l)
    ensures |w| == 4 && forall x :: Accepted(h, l, s, x, high) ==> x == w
  {
    w := seq(4, i => Slot(Point(0, 0), Point(0, 0), false));
    if x :| Accepted(h, l, s, x, high) {
      w := x;
      forall y | Accepted(h, l, s, y, high)
        ensures y == w
      {
        assert Dearer(h, w, y) && Dearer(h, y, w);
      }
    }
  }

  /** v34_decode_mapping_frame_soft.  What it accepts is the hard decode of the points it reports
      as decided, and these are among the sequences to choose from; and when one of those is
      nearer to the coordinates than all others, and the hard decoder accepts it, it decides
      for that one. */
  method DecodeSoft(d: FrameDecoder, iq: seq<Pair>, scale: real, v0: seq<bool>, high: bool)
    returns (r: Option<(seq<bool>, seq<Slot>)>)
    requires d.Valid() && |iq| == 4 && |v0| == 4
    modifies d
    ensures d.Valid()
    ensures r.None? ==> d.Now() == old(d.Now())
    ensures scale <= 0.0 ==> r.None?
    ensures r.Some? ==>
      && |r.value.1| == 4 && Decode(d.link, old(d.Now()), r.value.1, high) == (d.Now(), Some(r.value.0))
      && Allowed(Search(d.link.coder, old(d.cells), iq, scale, v0), r.value.1)
    ensures scale > 0.0 ==>
      forall w :: Accepted(Search(d.link.coder, old(d.cells), iq, scale, v0), d.link, old(d.Now()), w, high) ==>
      r.Some? && r.value.1 == w
  {
    if scale <= 0.0 {
      return None;
    }
    var start := State(d.cells, d.rotation);
    ghost var h := Search(d.link.coder, d.cells, iq, scale, v0);
    ghost var w := PickTruth(h, d.link, start, high);
    var ok, table := Survive(d, iq, scale, v0, h, w);
    if !ok {
      return None;
    }
    ghost var j := Judged(h, d.link, start, high);
    ghost var truth := Truth(h, w, 4);
    var best := Choose(d, table, start, high, h, truth, j);
    assert TellsGood(j, d.link, start, high, truth) && truth.slots == w;
    if best.None? {
      d.cells, d.rotation := start.cells, start.rotation;
      return None;
    }
    assert TellsChosen(j, h, d.link, start, high, best.value);
    d.cells, d.rotation := best.value.state.cells, best.value.state.rotation;
    if Accepted(h, d.link, start, w, high) {
      ChosenCheapest(h, d.link, start, high, best.value, w);
    }
    return Some((best.value.bits, best.value.slots));
  }
}
