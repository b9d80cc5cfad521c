/** The shell mapper of src/v34_mapper.c: shell bits to eight rings and back, over tables of
    counts built by loops. */
module ShellMapper {
  import opened Wrappers
  import opened Bits
  import opened ShellCounts
  import opened ShellRank
  import opened ShellParams

  const MAX_G2: nat := 34
  const MAX_G4: nat := 68
  const MAX_G8: nat := 136

  // ---- What the two operations compute ------------------------------------------------

  type Pair = (nat, nat)
  type Four = (Pair, Pair)
  type Eight = (Four, Four)

  /** Eight-tuples of rings below `m`. */
  function Tuples(m: nat): Numbering<Eight> {
    Twice(Twice(Twice(Single(m))))
  }

  function Top(m: nat): nat
    requires m > 0
  {
    8 * m - 7
  }

  function Flat(x: Eight): (s: seq<nat>)
    ensures |s| == 8
  {
    [x.0.0.0, x.0.0.1, x.0.1.0, x.0.1.1, x.1.0.0, x.1.0.1, x.1.1.0, x.1.1.1]
  }

  function Deep(s: seq<nat>): Eight
    requires |s| == 8
  {
    (((s[0], s[1]), (s[2], s[3])), ((s[4], s[5]), (s[6], s[7])))
  }

  predicate RingsBelow(s: seq<nat>, m: nat) {
    |s| == 8 && forall i :: 0 <= i < 8 ==> s[i] < m
  }

  function Total(s: seq<nat>): nat
    requires |s| == 8
  {
    s[0] + s[1] + (s[2] + s[3]) + (s[4] + s[5] + (s[6] + s[7]))
  }

  ghost predicate Pairs(n: Numbering<Pair>, m: nat) {
    forall y: Pair :: (n.ok(y) <==> y.0 < m && y.1 < m) && n.total(y) == y.0 + y.1
  }

  ghost predicate Fours(n: Numbering<Four>, m: nat) {
    forall y: Four ::
      && (n.ok(y) <==> y.0.0 < m && y.0.1 < m && y.1.0 < m && y.1.1 < m)
      && n.total(y) == y.0.0 + y.0.1 + (y.1.0 + y.1.1)
  }

  ghost predicate Eights(n: Numbering<Eight>, m: nat) {
    forall y: Eight :: (n.ok(y) <==> RingsBelow(Flat(y), m)) && n.total(y) == Total(Flat(y))
  }

  lemma PairsAre(m: nat)
    ensures Pairs(Twice(Single(m)), m)
  {
  }

  lemma FoursAre(n: Numbering<Pair>, m: nat)
    requires Pairs(n, m)
    ensures Fours(Twice(n), m)
  {
  }

  lemma EightsAre(n: Numbering<Four>, m: nat)
    requires Fours(n, m)
    ensures Eights(Twice(n), m)
  {
    forall y: Eight
      ensures Twice(n).ok(y) <==> RingsBelow(Flat(y), m)
      ensures Twice(n).total(y) == Total(Flat(y))
    {
      var s := Flat(y);
      assert Twice(n).ok(y) <==> n.ok(y.0) && n.ok(y.1);
      assert RingsBelow(s, m) <==>
        s[0] < m && s[1] < m && s[2] < m && s[3] < m && s[4] < m && s[5] < m && s[6] < m && s[7] < m;
    }
  }

  /** The facts about `Tuples(m)` everything below rests on. */
  ghost predicate Shell(n: Numbering<Eight>, m: nat) {
    m > 0 && Valid(n) && Ends(n.count, Top(m)) && Sum(n.count, Top(m)) == Pow8(m) && Eights(n, m)
  }

  lemma FourPairs(pairs: Numbering<Pair>, m: nat)
    requires m > 0 && Valid(pairs) && Pairs(pairs, m) && pairs.count == Two(m)
    ensures Shell(Twice(Twice(pairs)), m)
  {
    var fours := Twice(pairs);
    TwiceValid(pairs);
    FoursAre(pairs, m);
    FourFours(fours, m);
  }

  lemma FourFours(fours: Numbering<Four>, m: nat)
    requires m > 0 && Valid(fours) && Fours(fours, m) && fours.count == ShellCounts.Four(m)
    ensures Shell(Twice(fours), m)
  {
    TwiceValid(fours);
    EightsAre(fours, m);
    EightTotal(m);
  }

  lemma TuplesShell(m: nat)
    requires m > 0
    ensures Shell(Tuples(m), m)
  {
    SingleValid(m);
    TwiceValid(Single(m));
    PairsAre(m);
    FourPairs(Twice(Single(m)), m);
  }

  // ---- What the tables hold -----------------------------------------------------------

  /** The pair table counts the pairs of rings below `m` by their sum, */
  lemma PairsCounted(m: nat, s: nat) returns (pairs: set<Pair>)
    ensures |pairs| == ShellCounts.Two(m)(s)
    ensures forall x: Pair :: x in pairs <==> x.0 < m && x.1 < m && x.0 + x.1 == s
  {
    SingleValid(m);
    TwiceValid(Single(m));
    PairsAre(m);
    pairs := Counts(Twice(Single(m)), s);
  }

  lemma CountedIn(n: Numbering<Four>, m: nat, s: nat) returns (fours: set<Four>)
    requires Valid(n) && Fours(n, m)
    ensures |fours| == n.count(s)
    ensures forall x: Four ::
      x in fours <==> x.0.0 < m && x.0.1 < m && x.1.0 < m && x.1.1 < m && x.0.0 + x.0.1 + (x.1.0 + x.1.1) == s
  {
    fours := Counts(n, s);
  }

  /** the next the four-tuples, */
  lemma FoursCounted(m: nat, s: nat) returns (fours: set<Four>)
    ensures |fours| == ShellCounts.Four(m)(s)
    ensures forall x: Four ::
      x in fours <==> x.0.0 < m && x.0.1 < m && x.1.0 < m && x.1.1 < m && x.0.0 + x.0.1 + (x.1.0 + x.1.1) == s
  {
    SingleValid(m);
    TwiceValid(Single(m));
    PairsAre(m);
    TwiceValid(Twice(Single(m)));
    FoursAre(Twice(Single(m)), m);
    fours := CountedIn(Twice(Twice(Single(m))), m, s);
  }

  lemma EightsCountedIn(fours: Numbering<Four>, m: nat, s: nat) returns (eights: set<Eight>)
    requires Valid(fours) && Fours(fours, m)
    ensures |eights| == Conv(fours.count, s)
    ensures forall x: Eight :: x in eights <==> RingsBelow(Flat(x), m) && Total(Flat(x)) == s
  {
    TwiceValid(fours);
    EightsAre(fours, m);
    eights := Counts(Twice(fours), s);
  }

  /** and the last the eight-tuples. */
  lemma EightsCounted(m: nat, s: nat) returns (eights: set<Eight>)
    ensures |eights| == ShellCounts.Eight(m)(s)
    ensures forall x: Eight :: x in eights <==> RingsBelow(Flat(x), m) && Total(Flat(x)) == s
  {
    SingleValid(m);
    TwiceValid(Single(m));
    PairsAre(m);
    TwiceValid(Twice(Single(m)));
    FoursAre(Twice(Single(m)), m);
    eights := EightsCountedIn(Twice(Twice(Single(m))), m, s);
  }

  /** The tuple numbered `rank`, or nothing past the last one. */
  ghost function TupleAt(n: Numbering<Eight>, m: nat, rank: nat): (r: Option<seq<nat>>)
    requires Shell(n, m)
  {
    if rank < Pow8(m) then Some(Flat(ObjectAt(n, Top(m), rank))) else None
  }

  ghost function RankOf(n: Numbering<Eight>, s: seq<nat>): nat
    requires |s| == 8
  {
    NumberOf(n, Deep(s))
  }

  ghost predicate Usable(p: Parameters, expanded: bool) {
    p.shellBits <= MAX_SHELL_BITS && 0 < p.Rings(expanded) <= MAX_RINGS
  }

  ghost function MapIn(n: Numbering<Eight>, p: Parameters, bits: seq<bool>, expanded: bool): Option<seq<nat>>
    requires |bits| >= p.shellBits
    requires Usable(p, expanded) ==> Shell(n, p.Rings(expanded))
  {
    if Usable(p, expanded) then TupleAt(n, p.Rings(expanded), FromBits(bits[..p.shellBits])) else None
  }

  ghost function UnmapIn(n: Numbering<Eight>, p: Parameters, s: seq<nat>, expanded: bool): Option<seq<bool>>
    requires |s| == 8
    requires Usable(p, expanded) ==> Shell(n, p.Rings(expanded))
  {
    if Usable(p, expanded) && RingsBelow(s, p.Rings(expanded)) && RankOf(n, s) < Pow2(p.shellBits)
    then Some(ToBits(RankOf(n, s), p.shellBits)) else None
  }

  ghost function Map(p: Parameters, bits: seq<bool>, expanded: bool): Option<seq<nat>>
    requires |bits| >= p.shellBits
  {
    if Usable(p, expanded) then TuplesShell(p.Rings(expanded)); MapIn(Tuples(p.Rings(expanded)), p, bits, expanded)
    else None
  }

  ghost function Unmap(p: Parameters, s: seq<nat>, expanded: bool): Option<seq<bool>>
    requires |s| == 8
  {
    if Usable(p, expanded) then TuplesShell(p.Rings(expanded)); UnmapIn(Tuples(p.Rings(expanded)), p, s, expanded)
    else None
  }

  // ---- The two are mutually inverse -----------------------------------------------------

  lemma TupleRank(n: Numbering<Eight>, m: nat, rank: nat)
    requires Shell(n, m) && rank < Pow8(m)
    ensures var s := TupleAt(n, m, rank).value; RingsBelow(s, m) && RankOf(n, s) == rank
  {
    var x := ObjectAt(n, Top(m), rank);
    NumberOfObject(n, Top(m), rank);
    assert Deep(Flat(x)) == x;
  }

  lemma RankTuple(n: Numbering<Eight>, m: nat, s: seq<nat>)
    requires Shell(n, m) && RingsBelow(s, m)
    ensures RankOf(n, s) < Pow8(m) && TupleAt(n, m, RankOf(n, s)) == Some(s)
  {
    assert Flat(Deep(s)) == s;
    ObjectOfNumber(n, Top(m), Deep(s));
  }

  lemma MapUnmapIn(n: Numbering<Eight>, p: Parameters, bits: seq<bool>, expanded: bool)
    requires Usable(p, expanded) && Shell(n, p.Rings(expanded))
    requires |bits| == p.shellBits && MapIn(n, p, bits, expanded).Some?
    ensures RingsBelow(MapIn(n, p, bits, expanded).value, p.Rings(expanded))
    ensures UnmapIn(n, p, MapIn(n, p, bits, expanded).value, expanded) == Some(bits)
  {
    assert bits[..p.shellBits] == bits;
    TupleRank(n, p.Rings(expanded), FromBits(bits));
    FromBitsBound(bits);
    ToFromBits(bits);
  }

  lemma UnmapMapIn(n: Numbering<Eight>, p: Parameters, s: seq<nat>, expanded: bool)
    requires Usable(p, expanded) && Shell(n, p.Rings(expanded))
    requires |s| == 8 && UnmapIn(n, p, s, expanded).Some?
    ensures MapIn(n, p, UnmapIn(n, p, s, expanded).value, expanded) == Some(s)
  {
    var bits := UnmapIn(n, p, s, expanded).value;
    assert bits[..p.shellBits] == bits;
    RankTuple(n, p.Rings(expanded), s);
    FromToBits(RankOf(n, s), p.shellBits);
  }

  lemma LeastTotalsIn(n: Numbering<Eight>, m: nat, rank: nat, limit: nat, other: seq<nat>)
    requires Shell(n, m) && rank < limit <= Pow8(m) && RingsBelow(other, m) && RankOf(n, other) >= limit
    ensures Total(TupleAt(n, m, rank).value) <= Total(other)
  {
    TupleRank(n, m, rank);
    var s := TupleAt(n, m, rank).value;
    assert Flat(Deep(s)) == s && Flat(Deep(other)) == other;
    OrderedByTotal(n, Deep(s), Deep(other));
  }

  /** Whatever the mapper produces unmaps to the bits it came from. */
  lemma MapUnmap(p: Parameters, bits: seq<bool>, expanded: bool)
    requires |bits| == p.shellBits && Map(p, bits, expanded).Some?
    ensures RingsBelow(Map(p, bits, expanded).value, p.Rings(expanded))
    ensures Unmap(p, Map(p, bits, expanded).value, expanded) == Some(bits)
  {
    TuplesShell(p.Rings(expanded));
    MapUnmapIn(Tuples(p.Rings(expanded)), p, bits, expanded);
  }

  /** Every tuple the unmapper accepts maps back to itself. */
  lemma UnmapMap(p: Parameters, s: seq<nat>, expanded: bool)
    requires |s| == 8 && Unmap(p, s, expanded).Some?
    ensures Map(p, Unmap(p, s, expanded).value, expanded) == Some(s)
  {
    TuplesShell(p.Rings(expanded));
    UnmapMapIn(Tuples(p.Rings(expanded)), p, s, expanded);
  }

  /** With the parameters of any frame length every word of shell bits maps, with either ring
      count. */
  lemma EveryWordMaps(b: nat, p: Parameters, bits: seq<bool>, expanded: bool)
    requires Sized(b, p) && |bits| == p.shellBits
    ensures Map(p, bits, expanded).Some?
  {
    assert RingsFit(p, false);
    assert bits[..p.shellBits] == bits;
    FromBitsBound(bits);
    Pow8Grows(p.minimumRings, p.Rings(expanded));
    TuplesShell(p.Rings(expanded));
  }

  /** The tuples in use are ones of least sum: no tuple left out has a smaller sum than one
      that some word maps to. */
  lemma LeastTotals(b: nat, p: Parameters, bits: seq<bool>, expanded: bool, other: seq<nat>)
    requires Sized(b, p) && |bits| == p.shellBits && Map(p, bits, expanded).Some?
    requires RingsBelow(other, p.Rings(expanded)) && Unmap(p, other, expanded).None?
    ensures Total(Map(p, bits, expanded).value) <= Total(other)
  {
    assert RingsFit(p, false);
    var m := p.Rings(expanded);
    assert bits[..p.shellBits] == bits;
    FromBitsBound(bits);
    Pow8Grows(p.minimumRings, m);
    TuplesShell(m);
    LeastTotalsIn(Tuples(m), m, FromBits(bits), Pow2(p.shellBits), other);
  }
  // ---- The order of the tuples ------------------------------------------------------------------

  /** Of pairs, and of four-tuples, of one sum: by the sum of the first half, then by the second half
      and last by the first. */
  predicate FourBefore(x: Four, y: Four) {
    var a, b := x.0.0 + x.0.1, y.0.0 + y.0.1;
    a < b || (a == b && (x.1.0 < y.1.0 || (x.1 == y.1 && x.0.0 < y.0.0)))
  }

  /** Of all eight-tuples: by their sum first. */
  predicate Before(x: Eight, y: Eight) {
    var a, b := Total(Flat(x)), Total(Flat(y));
    var c, d := x.0.0.0 + x.0.0.1 + (x.0.1.0 + x.0.1.1), y.0.0.0 + y.0.0.1 + (y.0.1.0 + y.0.1.1);
    a < b || (a == b && (c < d || (c == d && (FourBefore(x.1, y.1) || (x.1 == y.1 && FourBefore(x.0, y.0))))))
  }

  ghost predicate Ranks<X>(n: Numbering<X>, before: (X, X) -> bool, x: X, y: X) {
    n.ok(x) && n.ok(y) && n.total(x) == n.total(y) ==> (n.rank(x) < n.rank(y) <==> before(x, y))
  }

  ghost predicate RanksBy<X(!new)>(n: Numbering<X>, before: (X, X) -> bool) {
    forall x, y :: Ranks(n, before, x, y)
  }

  /** The order of pairs of objects, from that of objects. */
  function Doubled<X(==)>(total: X -> nat, before: (X, X) -> bool): ((X, X), (X, X)) -> bool {
    (x: (X, X), y: (X, X)) =>
      total(x.0) < total(y.0) || (total(x.0) == total(y.0) && (before(x.1, y.1) || (x.1 == y.1 && before(x.0, y.0))))
  }

  lemma TwiceRanks<X(!new)>(n: Numbering<X>, before: (X, X) -> bool)
    requires Valid(n) && RanksBy(n, before)
    ensures RanksBy(Twice(n), Doubled(n.total, before))
  {
    var d, b := Twice(n), Doubled(n.total, before);
    forall x, y
      ensures Ranks(d, b, x, y)
    {
      if d.ok(x) && d.ok(y) && d.total(x) == d.total(y) {
        TwiceOrders(n, x, y);
        if n.total(x.0) == n.total(y.0) {
          assert Ranks(n, before, x.1, y.1) && Ranks(n, before, x.0, y.0);
          if n.rank(x.1) == n.rank(y.1) {
            RanksTell(n, x.1, y.1);
          }
        }
      }
    }
  }
  function PairOrder(): (Pair, Pair) -> bool {
    (x: Pair, y: Pair) => x.0 < y.0
  }

  function FourOrder(): (Four, Four) -> bool {
    (x: Four, y: Four) => FourBefore(x, y)
  }

  ghost predicate Same<X>(before: (X, X) -> bool, other: (X, X) -> bool, x: X, y: X) {
    before(x, y) == other(x, y)
  }

  lemma RanksSame<X(!new)>(n: Numbering<X>, before: (X, X) -> bool, other: (X, X) -> bool)
    requires RanksBy(n, before) && forall x, y :: Same(before, other, x, y)
    ensures RanksBy(n, other)
  {
    forall x, y
      ensures Ranks(n, other, x, y)
    {
      assert Ranks(n, before, x, y) && Same(before, other, x, y);
    }
  }

  lemma PairsRank(m: nat)
    ensures RanksBy(Twice(Single(m)), PairOrder())
  {
    var none := (x: nat, y: nat) => false;
    SingleValid(m);
    assert RanksBy(Single(m), none);
    TwiceRanks(Single(m), none);
    forall x, y
      ensures Same(Doubled(Single(m).total, none), PairOrder(), x, y)
    {
    }
    RanksSame(Twice(Single(m)), Doubled(Single(m).total, none), PairOrder());
  }

  lemma FoursRank(pairs: Numbering<Pair>, m: nat)
    requires Valid(pairs) && Pairs(pairs, m) && RanksBy(pairs, PairOrder())
    ensures RanksBy(Twice(pairs), FourOrder())
  {
    TwiceRanks(pairs, PairOrder());
    forall x, y
      ensures Same(Doubled(pairs.total, PairOrder()), FourOrder(), x, y)
    {
    }
    RanksSame(Twice(pairs), Doubled(pairs.total, PairOrder()), FourOrder());
  }

  ghost predicate OrdersSo(before: (Eight, Eight) -> bool, x: Eight, y: Eight) {
    Total(Flat(x)) == Total(Flat(y)) ==> (before(x, y) <==> Before(x, y))
  }

  lemma EightsRank(n: Numbering<Eight>, before: (Eight, Eight) -> bool, m: nat, x: Eight, y: Eight)
    requires Valid(n) && Eights(n, m) && RanksBy(n, before) && OrdersSo(before, x, y)
    requires RingsBelow(Flat(x), m) && RingsBelow(Flat(y), m)
    ensures NumberOf(n, x) < NumberOf(n, y) <==> Before(x, y)
  {
    NumbersOrder(n, x, y);
    assert Ranks(n, before, x, y);
    SumsFirst(x, y);
  }

  lemma SumsFirst(x: Eight, y: Eight)
    ensures Total(Flat(x)) < Total(Flat(y)) ==> Before(x, y)
    ensures Total(Flat(x)) > Total(Flat(y)) ==> !Before(x, y)
  {
  }

  lemma DoubledFours(fours: Numbering<Four>, m: nat, x: Eight, y: Eight)
    requires Fours(fours, m)
    ensures OrdersSo(Doubled(fours.total, FourOrder()), x, y)
  {
  }

  lemma FoursOrder(fours: Numbering<Four>, m: nat, x: Eight, y: Eight)
    requires Valid(fours) && Fours(fours, m) && RanksBy(fours, FourOrder())
    requires RingsBelow(Flat(x), m) && RingsBelow(Flat(y), m)
    ensures NumberOf(Twice(fours), x) < NumberOf(Twice(fours), y) <==> Before(x, y)
  {
    TwiceValid(fours);
    EightsAre(fours, m);
    TwiceRanks(fours, FourOrder());
    DoubledFours(fours, m, x, y);
    EightsRank(Twice(fours), Doubled(fours.total, FourOrder()), m, x, y);
  }

  ghost predicate OrderedAt(n: Numbering<Eight>, m: nat, x: Eight, y: Eight) {
    RingsBelow(Flat(x), m) && RingsBelow(Flat(y), m) ==> (NumberOf(n, x) < NumberOf(n, y) <==> Before(x, y))
  }

  ghost predicate Ordered(n: Numbering<Eight>, m: nat) {
    forall x, y :: OrderedAt(n, m, x, y)
  }

  lemma FoursOrdered(fours: Numbering<Four>, m: nat)
    requires Valid(fours) && Fours(fours, m) && RanksBy(fours, FourOrder())
    ensures Ordered(Twice(fours), m)
  {
    forall x, y
      ensures OrderedAt(Twice(fours), m, x, y)
    {
      if RingsBelow(Flat(x), m) && RingsBelow(Flat(y), m) {
        FoursOrder(fours, m, x, y);
      }
    }
  }

  lemma PairsOrdered(pairs: Numbering<Pair>, m: nat)
    requires Valid(pairs) && Pairs(pairs, m) && RanksBy(pairs, PairOrder())
    ensures Ordered(Twice(Twice(pairs)), m)
  {
    TwiceValid(pairs);
    FoursAre(pairs, m);
    FoursRank(pairs, m);
    FoursOrdered(Twice(pairs), m);
  }

  lemma TuplesOrdered(m: nat)
    ensures Ordered(Tuples(m), m)
  {
    SingleValid(m);
    TwiceValid(Single(m));
    PairsAre(m);
    PairsRank(m);
    PairsOrdered(Twice(Single(m)), m);
  }

  lemma OrderedIn(n: Numbering<Eight>, m: nat, s: seq<nat>, t: seq<nat>)
    requires Ordered(n, m) && RingsBelow(s, m) && RingsBelow(t, m)
    ensures RankOf(n, s) < RankOf(n, t) <==> Before(Deep(s), Deep(t))
  {
    assert Flat(Deep(s)) == s && Flat(Deep(t)) == t;
    assert OrderedAt(n, m, Deep(s), Deep(t));
  }

  /** The words number the tuples in this order: of two tuples, one has the smaller rank exactly when it
      comes before the other. */
  lemma RankOrders(m: nat, s: seq<nat>, t: seq<nat>)
    requires RingsBelow(s, m) && RingsBelow(t, m)
    ensures RankOf(Tuples(m), s) < RankOf(Tuples(m), t) <==> Before(Deep(s), Deep(t))
  {
    TuplesOrdered(m);
    OrderedIn(Tuples(m), m, s, t);
  }
  lemma MapRanks(n: Numbering<Eight>, p: Parameters, bits: seq<bool>, expanded: bool, s: seq<nat>)
    requires Usable(p, expanded) && Shell(n, p.Rings(expanded)) && |bits| == p.shellBits
    requires MapIn(n, p, bits, expanded) == Some(s)
    ensures RingsBelow(s, p.Rings(expanded)) && RankOf(n, s) == FromBits(bits)
  {
    assert bits[..p.shellBits] == bits;
    TupleRank(n, p.Rings(expanded), FromBits(bits));
  }

  /** So the words, read as numbers with the first bit the least, map in that order. */
  lemma MapOrders(p: Parameters, a: seq<bool>, b: seq<bool>, expanded: bool, s: seq<nat>, t: seq<nat>)
    requires |a| == |b| == p.shellBits && Map(p, a, expanded) == Some(s) && Map(p, b, expanded) == Some(t)
    ensures |s| == |t| == 8 && (FromBits(a) < FromBits(b) <==> Before(Deep(s), Deep(t)))
  {
    var m := p.Rings(expanded);
    TuplesShell(m);
    MapRanks(Tuples(m), p, a, expanded, s);
    MapRanks(Tuples(m), p, b, expanded, t);
    RankOrders(m, s, t);
  }
}
