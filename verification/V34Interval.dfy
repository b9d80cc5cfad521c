/** One four-dimensional interval: what the encoder sends for a group and two constellation
    indices, and what the decoder reads off two points (src/v34_data_mapper.c:99-139,
    src/v34_trellis.c:132-161, src/v34_data_decoder.c:75-132). */
module V34Interval {
  import opened Wrappers
  import opened Bits
  import opened V34Points
  import opened V34Trellis
  import opened V34Parse

  /** What a point is found to be: a constellation point turned clockwise. */
  datatype Seen = Seen(turn: nat, index: nat)

  /** A trellis coder and a constellation: the coder's output bit and its step on a pair of
      points; the point with an index and a number of turns, and the way back. */
  datatype Coder = Coder(output: Cells -> bool, advance: (Cells, Point, Point) -> Cells,
                         place: (nat, nat) -> Point, look: Point -> Option<Seen>)

  ghost function Look(c: seq<Point>, p: Point): (r: Option<Seen>)
    ensures r.Some? ==> Located(c, p, r.value.turn, r.value.index)
    ensures r.None? ==> forall turn: nat, index: nat :: !Located(c, p, turn, index)
  {
    if exists turn: nat, index: nat :: Located(c, p, turn, index) then
      var turn: nat, index: nat :| Located(c, p, turn, index);
      Some(Seen(turn, index))
    else None
  }

  function Place(c: seq<Point>, index: nat, turns: nat): Point {
    if index < |c| then RotateClockwise(c[index], turns) else Point(0, 0)
  }

  ghost function CoderOf(kind: Kind, c: seq<Point>): Coder {
    Coder((s: Cells) => Output(kind, s), (s: Cells, first: Point, second: Point) => Advance(kind, s, first, second),
          (index: nat, turns: nat) => Place(c, index, turns), (p: Point) => Look(c, p))
  }

  /** The source's tables and searches are the coder's functions. */
  ghost predicate CodesAt(k: Coder, kind: Kind, s: Cells, first: Point, second: Point) {
    k.output(s) == Output(kind, s) && k.advance(s, first, second) == Advance(kind, s, first, second)
  }

  ghost predicate PlacesAt(k: Coder, c: seq<Point>, index: nat, turns: nat) {
    index < |c| ==> k.place(index, turns) == RotateClockwise(c[index], turns)
  }

  ghost predicate LooksAt(k: Coder, c: seq<Point>, p: Point) {
    k.look(p) == Look(c, p)
  }

  ghost predicate Codes(k: Coder, kind: Kind, c: seq<Point>) {
    && |c| == QUARTER_POINTS
    && (forall s, first, second :: CodesAt(k, kind, s, first, second))
    && (forall index: nat, turns: nat :: PlacesAt(k, c, index, turns))
    && (forall p :: LooksAt(k, c, p))
  }

  // ---- What the interval coder needs of its constellation -----------------------------------

  ghost predicate Found(k: Coder, index: nat, turns: nat) {
    index < QUARTER_POINTS ==> k.look(k.place(index, turns)) == Some(Seen(turns % 4, index))
  }

  ghost predicate Placed(k: Coder, p: Point) {
    k.look(p).Some? ==>
      var x := k.look(p).value; x.turn < 4 && x.index < QUARTER_POINTS && k.place(x.index, x.turn) == p
  }

  /** On the lattice, and no further out than constellations reach. */
  predicate Known(p: Point) {
    Odd(p) && -65 <= p.re <= 65 && -65 <= p.im <= 65
  }

  ghost predicate Lands(k: Coder, p: Point) {
    k.look(p).Some? ==> Known(p)
  }

  ghost predicate SameTurn(k: Coder, index: nat, turns: nat) {
    k.place(index, turns) == k.place(index, turns % 4)
  }

  ghost predicate Recognises(k: Coder) {
    && (forall index: nat, turns: nat :: Found(k, index, turns))
    && (forall p :: Placed(k, p))
    && (forall p :: Lands(k, p))
    && (forall index: nat, turns: nat :: SameTurn(k, index, turns))
  }

  lemma LookFinds(c: seq<Point>, index: nat, turns: nat)
    requires Constellation(c) && index < |c|
    ensures Look(c, RotateClockwise(c[index], turns)) == Some(Seen(turns % 4, index))
  {
    var p := RotateClockwise(c[index], turns);
    RotateModulo(c[index], turns, turns % 4);
    assert Located(c, p, turns % 4, index);
    var r := Look(c, p).value;
    LocatedUnique(c, p, turns % 4, index, r.turn, r.index);
  }

  lemma OddResidue(x: int)
    requires (x - 1) % 4 == 0
    ensures x % 2 == 1 && (-x) % 2 == 1
  {
    var k := (x - 1) / 4;
    assert x == 2 * (2 * k) + 1;
    assert -x == 2 * (-2 * k - 1) + 1;
  }

  lemma LookLands(c: seq<Point>, p: Point)
    requires Constellation(c) && Look(c, p).Some?
    ensures Known(p)
  {
    var x := Look(c, p).value;
    assert OnLattice(c[x.index]);
    OddResidue(c[x.index].re);
    OddResidue(c[x.index].im);
  }

  lemma CoderRecognises(kind: Kind, c: seq<Point>)
    requires Constellation(c)
    ensures Recognises(CoderOf(kind, c))
  {
    var k := CoderOf(kind, c);
    forall index: nat, turns: nat
      ensures Found(k, index, turns)
    {
      if index < QUARTER_POINTS {
        LookFinds(c, index, turns);
      }
    }
    forall p
      ensures Placed(k, p)
    {
    }
    forall p
      ensures Lands(k, p)
    {
      if k.look(p).Some? {
        LookLands(c, p);
      }
    }
    forall index: nat, turns: nat
      ensures SameTurn(k, index, turns)
    {
      if index < |c| {
        RotateModulo(c[index], turns, turns % 4);
      }
    }
  }

  // ---- Sending and receiving ------------------------------------------------------------------

  /** What both ends carry from interval to interval. */
  datatype State = State(cells: Cells, rotation: nat)

  /** What one interval carries: a group, two rings, the constellation indices they make, and
      the inversion bit both ends know. */
  datatype Cell = Cell(group: Group, ra: nat, rb: nat, a: nat, b: nat, v0: bool)

  /** The two points of an interval, with the same inversion bit. */
  datatype Slot = Slot(first: Point, second: Point, v0: bool)

  function Bit(b: bool): (n: nat)
    ensures n < 2
  {
    if b then 1 else 0
  }

  function TurnOf(s: State, g: Group): (z: nat)
    ensures z < 4
  {
    (s.rotation + Bit(g.i2) + 2 * Bit(g.i3)) % 4
  }

  function SecondTurn(k: Coder, s: State, g: Group, v0: bool): nat {
    TurnOf(s, g) + 2 * Bit(g.i1) + Bit(Xor(k.output(s.cells), v0))
  }

  function Send(k: Coder, s: State, c: Cell): (State, Slot) {
    var first := k.place(c.a, TurnOf(s, c.group));
    var second := k.place(c.b, SecondTurn(k, s, c.group, c.v0));
    (State(k.advance(s.cells, first, second), TurnOf(s, c.group)), Slot(first, second, c.v0))
  }

  /** How far the second point is turned against the first, beyond what the trellis asks. */
  function Delta(k: Coder, s: State, v0: bool, first: nat, second: nat): nat
    requires first < 4
  {
    (second + 4 - first - Bit(Xor(k.output(s.cells), v0))) % 4
  }

  /** The differential rotation bits. */
  function Differential(s: State, first: nat): nat
    requires s.rotation < 4
  {
    (first + 4 - s.rotation) % 4
  }

  function GroupRead(k: Coder, s: State, v0: bool, x: Seen, y: Seen, q: nat): Group
    requires x.turn < 4 && s.rotation < 4
  {
    Group(Delta(k, s, v0, x.turn, y.turn) / 2 == 1,
          Differential(s, x.turn) % 2 == 1, Differential(s, x.turn) / 2 % 2 == 1,
          ToBits(x.index, q), ToBits(y.index, q))
  }

  /** `index` shifted right by `q` bits. */
  function High(index: nat, q: nat): nat {
    if q == 0 then index else High(index / 2, q - 1)
  }

  /** The rings are stored in an octet each. */
  function RingRead(index: nat, q: nat): nat {
    High(index, q) % 256
  }

  function CellRead(k: Coder, s: State, v0: bool, x: Seen, y: Seen, q: nat): Cell
    requires x.turn < 4 && s.rotation < 4
  {
    Cell(GroupRead(k, s, v0, x, y, q), RingRead(x.index, q), RingRead(y.index, q), x.index, y.index, v0)
  }

  ghost function Receive(k: Coder, q: nat, s: State, w: Slot): Option<(State, Cell)>
    requires s.rotation < 4 && Recognises(k)
  {
    assert Placed(k, w.first);
    var x, y := k.look(w.first), k.look(w.second);
    if x.None? || y.None? then None
    else if Delta(k, s, w.v0, x.value.turn, y.value.turn) % 2 == 1 then None
    else Some((State(k.advance(s.cells, w.first, w.second), x.value.turn), CellRead(k, s, w.v0, x.value, y.value, q)))
  }

  /** The indices of a cell say what the rest of it says. */
  ghost predicate Faithful(q: nat, c: Cell) {
    && c.a < QUARTER_POINTS && c.b < QUARTER_POINTS && Holding(c.group, q)
    && ToBits(c.a, q) == c.group.qa && ToBits(c.b, q) == c.group.qb
    && RingRead(c.a, q) == c.ra && RingRead(c.b, q) == c.rb
  }

  // ---- Indices and their bits ------------------------------------------------------------

  /** The ring above the further bits. */
  function IndexOf(r: nat, bits: seq<bool>): nat {
    if bits == [] then r else Bit(bits[0]) + 2 * IndexOf(r, bits[1..])
  }

  lemma {:induction false} IndexValue(r: nat, bits: seq<bool>)
    ensures IndexOf(r, bits) == FromBits(bits) + r * Pow2(|bits|)
  {
    if bits != [] {
      IndexValue(r, bits[1..]);
      assert r * Pow2(|bits|) == 2 * (r * Pow2(|bits| - 1));
    }
  }

  lemma {:induction false} IndexReads(r: nat, bits: seq<bool>)
    ensures ToBits(IndexOf(r, bits), |bits|) == bits && High(IndexOf(r, bits), |bits|) == r
  {
    if bits != [] {
      IndexReads(r, bits[1..]);
      Halve(bits[0], IndexOf(r, bits[1..]));
    }
  }

  lemma {:induction false} IndexWrites(index: nat, q: nat)
    ensures IndexOf(High(index, q), ToBits(index, q)) == index
  {
    if q > 0 {
      IndexWrites(index / 2, q - 1);
      assert ToBits(index, q)[1..] == ToBits(index / 2, q - 1);
    }
  }

  // ---- One interval there and back -----------------------------------------------------------

  lemma TurnDifference(z: nat, i: nat, u: nat)
    requires z < 4 && i < 2 && u < 2
    ensures ((z + 2 * i + u) % 4 + 4 - z - u) % 4 == 2 * i
  {
  }

  lemma RotationDifference(rotation: nat, i: nat, j: nat)
    requires rotation < 4 && i < 2 && j < 2
    ensures ((rotation + i + 2 * j) % 4 + 4 - rotation) % 4 == i + 2 * j
  {
  }

  lemma BitsRead(i1: bool, i2: bool, i3: bool)
    ensures 2 * Bit(i1) % 2 == 0 && (2 * Bit(i1) / 2 == 1 <==> i1)
    ensures (Bit(i2) + 2 * Bit(i3)) % 2 == 1 <==> i2
    ensures (Bit(i2) + 2 * Bit(i3)) / 2 % 2 == 1 <==> i3
  {
  }

  lemma DeltaRead(k: Coder, s: State, g: Group, v0: bool)
    ensures Delta(k, s, v0, TurnOf(s, g), SecondTurn(k, s, g, v0) % 4) == 2 * Bit(g.i1)
  {
    TurnDifference(TurnOf(s, g), Bit(g.i1), Bit(Xor(k.output(s.cells), v0)));
  }

  lemma DifferentialRead(s: State, g: Group)
    requires s.rotation < 4
    ensures Differential(s, TurnOf(s, g)) == Bit(g.i2) + 2 * Bit(g.i3)
  {
    RotationDifference(s.rotation, Bit(g.i2), Bit(g.i3));
  }

  lemma TurnsRead(k: Coder, s: State, c: Cell, q: nat)
    requires s.rotation < 4 && Faithful(q, c)
    ensures var x, y := Seen(TurnOf(s, c.group), c.a), Seen(SecondTurn(k, s, c.group, c.v0) % 4, c.b);
      Delta(k, s, c.v0, x.turn, y.turn) % 2 == 0 && CellRead(k, s, c.v0, x, y, q) == c
  {
    DeltaRead(k, s, c.group, c.v0);
    DifferentialRead(s, c.group);
    BitsRead(c.group.i1, c.group.i2, c.group.i3);
  }

  lemma SentSeen(k: Coder, s: State, c: Cell)
    requires Recognises(k) && c.a < QUARTER_POINTS && c.b < QUARTER_POINTS
    ensures var w := Send(k, s, c).1;
      && k.look(w.first) == Some(Seen(TurnOf(s, c.group), c.a))
      && k.look(w.second) == Some(Seen(SecondTurn(k, s, c.group, c.v0) % 4, c.b))
  {
    assert Found(k, c.a, TurnOf(s, c.group));
    assert Found(k, c.b, SecondTurn(k, s, c.group, c.v0));
  }

  lemma ReceiveSeen(k: Coder, q: nat, s: State, w: Slot, x: Seen, y: Seen)
    requires s.rotation < 4 && Recognises(k) && x.turn < 4 && k.look(w.first) == Some(x) && k.look(w.second) == Some(y)
    ensures Receive(k, q, s, w) ==
      if Delta(k, s, w.v0, x.turn, y.turn) % 2 == 1 then None
      else Some((State(k.advance(s.cells, w.first, w.second), x.turn), CellRead(k, s, w.v0, x, y, q)))
  {
  }

  /** The decoder reads back what the encoder put into the interval, and both go on from the
      same state. */
  lemma ReadBack(k: Coder, q: nat, s: State, c: Cell)
    requires Recognises(k) && s.rotation < 4 && Faithful(q, c)
    ensures var (next, w) := Send(k, s, c);
      next.rotation < 4 && Receive(k, q, s, w) == Some((next, c))
  {
    var w := Send(k, s, c).1;
    SentSeen(k, s, c);
    TurnsRead(k, s, c, q);
    ReceiveSeen(k, q, s, w, Seen(TurnOf(s, c.group), c.a), Seen(SecondTurn(k, s, c.group, c.v0) % 4, c.b));
  }

  lemma RotationBack(rotation: nat, turn: nat)
    requires rotation < 4 && turn < 4
    ensures var d := (turn + 4 - rotation) % 4;
      (rotation + d % 2 + 2 * (d / 2 % 2)) % 4 == turn
  {
  }

  lemma TurnBack(x: nat, y: nat, u: nat)
    requires x < 4 && y < 4 && u < 2 && (y + 4 - x - u) % 4 % 2 == 0
    ensures var d := (y + 4 - x - u) % 4;
      (d == 0 || d == 2) && (x + 2 * (d / 2) + u) % 4 == y
  {
  }

  lemma BitsBack(d: nat)
    requires d < 4
    ensures Bit(d % 2 == 1) == d % 2 && Bit(d / 2 % 2 == 1) == d / 2 % 2 && Bit(d / 2 == 1) == d / 2
  {
  }

  lemma TurnsWrite(k: Coder, s: State, v0: bool, x: Seen, y: Seen, q: nat)
    requires s.rotation < 4 && x.turn < 4 && y.turn < 4 && Delta(k, s, v0, x.turn, y.turn) % 2 == 0
    ensures var g := GroupRead(k, s, v0, x, y, q);
      TurnOf(s, g) == x.turn && SecondTurn(k, s, g, v0) % 4 == y.turn
  {
    BitsBack(Differential(s, x.turn));
    BitsBack(Delta(k, s, v0, x.turn, y.turn));
    RotationBack(s.rotation, x.turn);
    TurnBack(x.turn, y.turn, Bit(Xor(k.output(s.cells), v0)));
  }

  lemma SendSeen(k: Coder, s: State, c: Cell, w: Slot, x: Seen, y: Seen)
    requires Recognises(k) && k.look(w.first) == Some(x) && k.look(w.second) == Some(y)
    requires c.a == x.index && c.b == y.index && c.v0 == w.v0
    requires TurnOf(s, c.group) == x.turn && SecondTurn(k, s, c.group, c.v0) % 4 == y.turn
    ensures Send(k, s, c) == (State(k.advance(s.cells, w.first, w.second), x.turn), w)
  {
    assert Placed(k, w.first) && Placed(k, w.second);
    assert SameTurn(k, y.index, SecondTurn(k, s, c.group, c.v0));
  }

  /** Whatever the decoder accepts is what the encoder sends for what was read. */
  lemma SendBack(k: Coder, q: nat, s: State, w: Slot)
    requires Recognises(k) && s.rotation < 4 && Receive(k, q, s, w).Some?
    ensures var (next, c) := Receive(k, q, s, w).value;
      next.rotation < 4 && Faithful(q, c) && Send(k, s, c) == (next, w)
  {
    assert Placed(k, w.first) && Placed(k, w.second);
    var x, y := k.look(w.first).value, k.look(w.second).value;
    ReceiveSeen(k, q, s, w, x, y);
    TurnsWrite(k, s, w.v0, x, y, q);
    SendSeen(k, s, CellRead(k, s, w.v0, x, y, q), w, x, y);
  }

  // ---- What the encoder tells the coder ------------------------------------------------------

  /** The subsets of two quarter points, of the second kind if `p` and if `q`, when the first is turned
      by `z` and the second by a half more if `i1` and by a further quarter if `u`. */
  predicate Labels(first: nat, second: nat, z: nat, i1: bool, u: nat, p: bool, q: bool) {
    z < 4 && u < 2 && first == z + 4 * Bit(p) && second == (z + 2 * Bit(i1) + u) % 4 + 4 * Bit(q)
  }

  lemma LabelsSay(first: nat, second: nat, z: nat, i1: bool, u: nat, p: bool, q: bool)
    requires Labels(first, second, z, i1, u, p, q)
    ensures first < 8 && second < 8 && first % 4 == z && HalfTurned(first, second) == i1
    ensures (first < 4 <==> !p) && (second < 4 <==> !q) && (first + second) % 2 == u
  {
  }

  lemma LabelsTell(first: nat, second: nat, z: nat, i1: bool, u: nat, p: bool, q: bool)
    requires Labels(first, second, z, i1, u, p, q)
    ensures PairBits(first, second) == Inputs(p != q, z >= 2, z % 2 == 1, i1) && (first + second) % 2 == u
  {
    LabelsSay(first, second, z, i1, u, p, q);
    PairMeans(first, second);
  }

  lemma SentSubset(c: seq<Point>, index: nat, turns: nat)
    requires Constellation(c) && index < |c|
    ensures SubsetLabel(Place(c, index, turns)) == turns % 4 + 4 * Bit(SecondKind(c[index]))
  {
    assert OnLattice(c[index]);
    OddResidue(c[index].re);
    OddResidue(c[index].im);
    RotateModulo(c[index], turns, turns % 4);
    TurnedSubset(c[index], turns % 4);
  }

  /** `tell` gives the subset of quarter point `index` of `c` turned `turns` times. */
  ghost predicate TellsSubset(tell: (nat, nat) -> nat, c: seq<Point>, index: nat, turns: nat) {
    index < |c| ==> tell(index, turns) == turns % 4 + 4 * Bit(SecondKind(c[index]))
  }

  lemma LabelsSent(tell: (nat, nat) -> nat, c: seq<Point>, a: nat, b: nat, z: nat, i1: bool, u: nat)
    requires forall index: nat, turns: nat :: TellsSubset(tell, c, index, turns)
    requires a < |c| && b < |c| && z < 4 && u < 2
    ensures Labels(tell(a, z), tell(b, z + 2 * Bit(i1) + u), z, i1, u, SecondKind(c[a]), SecondKind(c[b]))
  {
    assert TellsSubset(tell, c, a, z) && TellsSubset(tell, c, b, z + 2 * Bit(i1) + u);
  }

  lemma LabelsTold(c: seq<Point>, a: nat, b: nat, z: nat, i1: bool, u: nat)
    requires Constellation(c) && a < |c| && b < |c| && z < 4 && u < 2
    ensures Labels(SubsetLabel(Place(c, a, z)), SubsetLabel(Place(c, b, z + 2 * Bit(i1) + u)), z, i1, u,
                   SecondKind(c[a]), SecondKind(c[b]))
  {
    var tell := (index: nat, turns: nat) => SubsetLabel(Place(c, index, turns));
    forall index: nat, turns: nat
      ensures TellsSubset(tell, c, index, turns)
    {
      if index < |c| {
        SentSubset(c, index, turns);
      }
    }
    LabelsSent(tell, c, a, b, z, i1, u);
  }

  lemma StepSent(kind: Kind, c: seq<Point>, s: Cells, a: nat, b: nat, z: nat, i1: bool, u: nat, p: Point, q: Point)
    requires Constellation(c) && a < |c| && b < |c| && z < 4 && u < 2
    requires p == Place(c, a, z) && q == Place(c, b, z + 2 * Bit(i1) + u)
    ensures Advance(kind, s, p, q)
         == V34Trellis.Step(kind, s, Inputs(SecondKind(c[a]) != SecondKind(c[b]), z >= 2, z % 2 == 1, i1))
    ensures (SubsetLabel(p) + SubsetLabel(q)) % 2 == u
  {
    LabelsTold(c, a, b, z, i1, u);
    LabelsTell(SubsetLabel(p), SubsetLabel(q), z, i1, u, SecondKind(c[a]), SecondKind(c[b]));
  }

  lemma AdvancedTo(k: Coder, kind: Kind, c: seq<Point>, s: Cells, p: Point, q: Point, then': Cells)
    requires Codes(k, kind, c) && Advance(kind, s, p, q) == then'
    ensures k.advance(s, p, q) == then'
  {
    assert CodesAt(k, kind, s, p, q);
  }

  lemma SentTo(k: Coder, kind: Kind, c: seq<Point>, s: Cells, a: nat, b: nat, z: nat, i1: bool, u: nat, p: Point,
      q: Point)
    requires Codes(k, kind, c) && Constellation(c) && a < |c| && b < |c| && z < 4 && u < 2
    requires p == k.place(a, z) && q == k.place(b, z + 2 * Bit(i1) + u)
    ensures k.advance(s, p, q)
         == V34Trellis.Step(kind, s, Inputs(SecondKind(c[a]) != SecondKind(c[b]), z >= 2, z % 2 == 1, i1))
    ensures (SubsetLabel(p) + SubsetLabel(q)) % 2 == u
  {
    assert PlacesAt(k, c, a, z) && PlacesAt(k, c, b, z + 2 * Bit(i1) + u);
    StepSent(kind, c, s, a, b, z, i1, u, p, q);
    AdvancedTo(k, kind, c, s, p, q,
               V34Trellis.Step(kind, s, Inputs(SecondKind(c[a]) != SecondKind(c[b]), z >= 2, z % 2 == 1, i1)));
  }

  lemma SendIs(k: Coder, s: State, cell: Cell, z: nat, u: nat, next: State, w: Slot)
    requires Send(k, s, cell) == (next, w) && z == TurnOf(s, cell.group)
    requires u == Bit(Xor(k.output(s.cells), cell.v0))
    ensures w.first == k.place(cell.a, z) && w.second == k.place(cell.b, z + 2 * Bit(cell.group.i1) + u)
    ensures next.rotation == z && next.cells == k.advance(s.cells, w.first, w.second)
  {
  }

  /** The coder goes on with four bits: whether the two points' quarter points are of different
      kinds, the two bits of the first point's rotation, and the bit that turns the second by
      a half.  Its output, with the inversion bit added, says whether the two subsets sent differ
      in parity, as a receiver can check. */
  lemma CoderInputs(k: Coder, kind: Kind, c: seq<Point>, s: State, cell: Cell, next: State, w: Slot)
    requires Codes(k, kind, c) && Constellation(c) && cell.a < |c| && cell.b < |c|
    requires Send(k, s, cell) == (next, w)
    ensures next.rotation < 4
    ensures next.cells == V34Trellis.Step(kind, s.cells, Inputs(SecondKind(c[cell.a]) != SecondKind(c[cell.b]),
                                          next.rotation >= 2, next.rotation % 2 == 1, cell.group.i1))
    ensures (SubsetLabel(w.first) + SubsetLabel(w.second)) % 2 == 1 <==> Xor(Output(kind, s.cells), cell.v0)
  {
    var z, u := TurnOf(s, cell.group), Bit(Xor(k.output(s.cells), cell.v0));
    assert CodesAt(k, kind, s.cells, w.first, w.second);
    SendIs(k, s, cell, z, u, next, w);
    SentTo(k, kind, c, s.cells, cell.a, cell.b, z, cell.group.i1, u, w.first, w.second);
  }

  function Pair(i2: bool, i3: bool): Group {
    Group(false, i2, i3, [], [])
  }

  /** The differential encoder on six pairs of bits, from rotation 0. */
  lemma RotationsKnown(s: Cells)
    ensures TurnOf(State(s, 0), Pair(false, false)) == 0 && TurnOf(State(s, 0), Pair(true, false)) == 1
    ensures TurnOf(State(s, 1), Pair(false, true)) == 3 && TurnOf(State(s, 3), Pair(true, true)) == 2
    ensures TurnOf(State(s, 2), Pair(true, false)) == 3 && TurnOf(State(s, 3), Pair(false, false)) == 3
  {
  }

  // ---- Quarter turns --------------------------------------------------------------------------

  function Turned(turn: Cells -> Cells, s: State): State {
    State(turn(s.cells), (s.rotation + 1) % 4)
  }

  function TurnedSlot(w: Slot): Slot {
    Slot(RotateClockwise(w.first, 1), RotateClockwise(w.second, 1), w.v0)
  }

  /** Turning both points of a pair turns the coder's state and leaves its output alone. */
  ghost predicate TurnsStep(k: Coder, turn: Cells -> Cells, s: Cells, first: Point, second: Point) {
    Odd(first) && Odd(second) ==>
      k.advance(turn(s), RotateClockwise(first, 1), RotateClockwise(second, 1)) == turn(k.advance(s, first, second))
  }

  /** One more turn of a constellation point; all of them are odd. */
  ghost predicate TurnsPlace(k: Coder, index: nat, turns: nat) {
    index < QUARTER_POINTS ==>
      Odd(k.place(index, turns)) && k.place(index, turns + 1) == RotateClockwise(k.place(index, turns), 1)
  }

  ghost predicate Turnable(k: Coder, turn: Cells -> Cells) {
    && (forall s :: k.output(turn(s)) == k.output(s))
    && (forall s, first, second :: TurnsStep(k, turn, s, first, second))
    && (forall index: nat, turns: nat :: TurnsPlace(k, index, turns))
  }

  function Turning(kind: Kind): Cells -> Cells {
    (s: Cells) => TurnedState(kind, s)
  }

  lemma PlaceTurns(c: seq<Point>, index: nat, turns: nat)
    requires Constellation(c) && index < QUARTER_POINTS
    ensures Odd(Place(c, index, turns)) && Place(c, index, turns + 1) == RotateClockwise(Place(c, index, turns), 1)
  {
    assert OnLattice(c[index]);
    OddResidue(c[index].re);
    OddResidue(c[index].im);
    RotateAdds(c[index], turns, 1);
  }

  lemma CodersTurnable(kind: Kind, c: seq<Point>)
    requires Constellation(c)
    ensures Turnable(CoderOf(kind, c), Turning(kind))
  {
    var k := CoderOf(kind, c);
    var turn := Turning(kind);
    forall s, first, second
      ensures TurnsStep(k, turn, s, first, second)
    {
      if Odd(first) && Odd(second) {
        AdvanceTurns(kind, s, first, second);
      }
    }
    forall index: nat, turns: nat
      ensures TurnsPlace(k, index, turns)
    {
      if index < QUARTER_POINTS {
        PlaceTurns(c, index, turns);
      }
    }
    forall s
      ensures k.output(turn(s)) == k.output(s)
    {
      StepTurns(kind, s, Inputs(false, false, false, false));
    }
  }

  lemma ModAddsLeft(s: nat, t: nat)
    ensures (s % 4 + t) % 4 == (s + t) % 4
  {
    ModShift(s / 4, s % 4 + t);
  }

  lemma TurnedTurn(rotation: nat, d: nat)
    ensures ((rotation + 1) % 4 + d) % 4 == ((rotation + d) % 4 + 1) % 4
    ensures ((rotation + 1) % 4 + d) % 4 == (rotation + d + 1) % 4
  {
    ModAddsLeft(rotation + 1, d);
    ModAddsLeft(rotation + d, 1);
  }

  lemma FirstTurned(turn: Cells -> Cells, s: State, g: Group)
    ensures TurnOf(Turned(turn, s), g) == (TurnOf(s, g) + 1) % 4
  {
    TurnedTurn(s.rotation, Bit(g.i2) + 2 * Bit(g.i3));
  }

  lemma SecondTurned(k: Coder, turn: Cells -> Cells, s: State, g: Group, v0: bool)
    requires Turnable(k, turn)
    ensures SecondTurn(k, Turned(turn, s), g, v0) % 4 == (SecondTurn(k, s, g, v0) + 1) % 4
  {
    FirstTurned(turn, s, g);
    assert k.output(turn(s.cells)) == k.output(s.cells);
    TurnedTurn(TurnOf(s, g), 2 * Bit(g.i1) + Bit(Xor(k.output(s.cells), v0)));
  }

  lemma PlaceTurned(k: Coder, turn: Cells -> Cells, index: nat, t: nat, t': nat)
    requires Recognises(k) && Turnable(k, turn) && index < QUARTER_POINTS && t' % 4 == (t + 1) % 4
    ensures k.place(index, t') == RotateClockwise(k.place(index, t), 1) && Odd(k.place(index, t))
  {
    assert TurnsPlace(k, index, t);
    assert SameTurn(k, index, t') && SameTurn(k, index, t + 1);
  }

  lemma AdvanceTurned(k: Coder, turn: Cells -> Cells, s: Cells, w: Slot)
    requires Turnable(k, turn) && Odd(w.first) && Odd(w.second)
    ensures var t := TurnedSlot(w);
      k.advance(turn(s), t.first, t.second) == turn(k.advance(s, w.first, w.second))
  {
    assert TurnsStep(k, turn, s, w.first, w.second);
  }

  lemma SlotTurns(k: Coder, turn: Cells -> Cells, s: State, c: Cell)
    requires Recognises(k) && Turnable(k, turn) && c.a < QUARTER_POINTS && c.b < QUARTER_POINTS
    ensures var w := Send(k, s, c).1;
      Send(k, Turned(turn, s), c).1 == TurnedSlot(w) && Odd(w.first) && Odd(w.second)
  {
    FirstTurned(turn, s, c.group);
    SecondTurned(k, turn, s, c.group, c.v0);
    PlaceTurned(k, turn, c.a, TurnOf(s, c.group), TurnOf(Turned(turn, s), c.group));
    PlaceTurned(k, turn, c.b, SecondTurn(k, s, c.group, c.v0), SecondTurn(k, Turned(turn, s), c.group, c.v0));
  }

  /** Turning the state by a quarter turns the points sent, and nothing else. */
  lemma SendTurns(k: Coder, turn: Cells -> Cells, s: State, c: Cell)
    requires Recognises(k) && Turnable(k, turn) && c.a < QUARTER_POINTS && c.b < QUARTER_POINTS
    ensures var (next, w) := Send(k, s, c);
      Send(k, Turned(turn, s), c) == (Turned(turn, next), TurnedSlot(w))
  {
    SlotTurns(k, turn, s, c);
    FirstTurned(turn, s, c.group);
    AdvanceTurned(k, turn, s.cells, Send(k, s, c).1);
  }
}
