/** The loops of src/v34_mapper.c over its tables of counts, proved to compute
    `ShellMapper.Map` and `ShellMapper.Unmap`. */
module ShellCodec {
  import opened Wrappers
  import opened Bits
  import opened ShellCounts
  import opened ShellRank
  import opened ShellParams
  import opened ShellMapper

  /** The table holds `g`, which has nothing beyond its end. */
  ghost predicate Tabled(a: seq<nat>, g: Count) {
    (forall i :: 0 <= i < |a| ==> a[i] == g(i)) && Ends(g, |a|)
  }

  /** The table holds the running totals of `g`, at least as far as `g` goes. */
  ghost predicate Totalled(a: seq<nat>, g: Count, top: nat) {
    top < |a| && (forall i :: 0 <= i <= top ==> a[i] == Sum(g, i)) && forall i :: top < i < |a| ==> a[i] == 0
  }

  lemma TotalledStep(a: seq<nat>, g: Count, p: nat)
    requires Totalled(a, g, p) && p + 1 < |a|
    ensures Totalled(a[p + 1 := a[p] + g(p)], g, p + 1)
  {
  }

  /** One entry of a convolution: the inner loop of shell_counts. */
  method ConvolutionAt(counts: array<nat>, maximum: nat, p: nat, ghost g: Count) returns (sum: nat)
    requires maximum < counts.Length && Ends(g, maximum + 1)
    requires forall i :: 0 <= i <= maximum ==> counts[i] == g(i)
    ensures sum == Conv(g, p)
  {
    sum := 0;
    var n := 0;
    while n <= p
      invariant 0 <= n <= p + 1 && sum == Prefix(g, p, n)
    {
      if n <= maximum && p - n <= maximum {
        sum := sum + counts[n] * counts[p - n];
      } else {
        assert g(n) * g(p - n) == 0;
      }
      n := n + 1;
    }
  }

  method Clear(a: array<nat>)
    modifies a
    ensures forall i :: 0 <= i < a.Length ==> a[i] == 0
  {
    for i := 0 to a.Length
      invariant forall j :: 0 <= j < i ==> a[j] == 0
    {
      a[i] := 0;
    }
  }

  lemma PairCountIs(rings: nat, p: nat, g: Count)
    requires 1 <= rings && g == Two(rings)
    ensures g(p) == if p <= 2 * (rings - 1) then PairCount(rings, p) else 0
  {
    TwoClosedForm(rings, p);
  }

  method PairCounts(rings: nat, g2: array<nat>, ghost g: Count)
    requires 1 <= rings <= MAX_RINGS && g2.Length == MAX_G2 + 1 && g == Two(rings) && Ends(g, 2 * rings - 1)
    modifies g2
    ensures Tabled(g2[..], g)
  {
    Clear(g2);
    var max2 := 2 * (rings - 1);
    for p := 0 to max2 + 1
      invariant forall i :: 0 <= i < p ==> g2[i] == g(i)
      invariant forall i :: p <= i < g2.Length ==> g2[i] == 0
    {
      var distance := if p > rings - 1 then p - (rings - 1) else rings - 1 - p;
      PairCountIs(rings, p, g);
      g2[p] := rings - distance;
    }
  }

  method FourCounts(max2: nat, g2: array<nat>, g4: array<nat>, ghost g: Count)
    requires max2 < g2.Length && 2 * max2 < g4.Length && g2 != g4
    requires Tabled(g2[..], g) && Ends(g, max2 + 1) && Ends(Convolved(g), 2 * max2 + 1)
    modifies g4
    ensures Tabled(g4[..], Convolved(g))
  {
    Clear(g4);
    var max4 := 2 * max2;
    for p := 0 to max4 + 1
      invariant forall i :: 0 <= i < p ==> g4[i] == Convolved(g)(i)
      invariant forall i :: p <= i < g4.Length ==> g4[i] == 0
    {
      g4[p] := ConvolutionAt(g2, max2, p, g);
    }
  }

  method EightCounts(max4: nat, g4: array<nat>, g8: array<nat>, z8: array<nat>, ghost g: Count)
    requires max4 < g4.Length && 2 * max4 < g8.Length && z8.Length == g8.Length + 1
    requires g4 != g8 && g4 != z8 && g8 != z8
    requires Tabled(g4[..], g) && Ends(g, max4 + 1) && Ends(Convolved(g), 2 * max4 + 1)
    modifies g8, z8
    ensures Tabled(g8[..], Convolved(g)) && Totalled(z8[..], Convolved(g), 2 * max4 + 1)
  {
    Clear(g8);
    Clear(z8);
    ghost var h := Convolved(g);
    var max8 := 2 * max4;
    for p := 0 to max8 + 1
      invariant forall i :: 0 <= i < p ==> g8[i] == h(i)
      invariant forall i :: p <= i < g8.Length ==> g8[i] == 0
      invariant Totalled(z8[..], h, p)
    {
      var count := ConvolutionAt(g4, max4, p, g);
      assert count == h(p);
      g8[p] := count;
      ghost var before := z8[..];
      TotalledStep(before, h, p);
      z8[p + 1] := z8[p] + count;
      assert z8[..] == before[p + 1 := before[p] + count];
    }
  }

  /** The first part's sum and the rank left over; `maximum + 1` when no split fits. */
  method SplitRank(rank: nat, total: nat, counts: array<nat>, ghost g: Count) returns (first: nat, left: nat)
    requires counts.Length > 0 && Tabled(counts[..], g)
    ensures if rank < Conv(g, total) then (first, left) == Split(g, total, rank) else first == counts.Length
  {
    var maximum := counts.Length - 1;
    first, left := 0, rank;
    while first <= total && first <= maximum
      invariant 0 <= first <= total + 1 && first <= maximum + 1 && Prefix(g, total, first) + left == rank
    {
      if total - first > maximum {
        assert g(first) * g(total - first) == 0;
      } else {
        var combinations := counts[first] * counts[total - first];
        if left < combinations {
          PrefixGrows(g, total, first + 1, total + 1);
          var (s, r) := Split(g, total, rank);
          SplitUnique(g, total, first, left, s, r);
          return;
        }
        left := left - combinations;
      }
      first := first + 1;
    }
    PrefixEnds(g, maximum + 1, total, first);
    first := maximum + 1;
  }

  lemma {:induction false} PrefixEnds(g: Count, top: nat, total: nat, k: nat)
    requires Ends(g, top) && k <= total + 1 && (k == total + 1 || k >= top)
    ensures Prefix(g, total, k) == Conv(g, total)
    decreases total + 1 - k
  {
    if k <= total {
      PrefixEnds(g, top, total, k + 1);
      assert g(k) * g(total - k) == 0;
    }
  }

  /** The pair of rings at a rank among those of a sum, in closed form. */
  function SplitPair(total: nat, rings: nat, rank: nat): (r: (int, int)) {
    if total < rings then (rank, total - rank) else (total - (rings - 1 - rank), rings - 1 - rank)
  }

  lemma SplitPairIsPair(total: nat, rings: nat, rank: nat)
    requires rings > 0 && rank < Two(rings)(total)
    ensures SplitPair(total, rings, rank) == Twice(Single(rings)).at(total, rank)
  {
    TwoClosedForm(rings, total);
    var (x, y) := SplitPair(total, rings, rank);
    var g := One(rings);
    PrefixOne(rings, total, x);
    assert PartsOf(g, total, rank, Parts(x, 0, y, 0));
    PartsUnique(g, total, rank, Parts(x, 0, y, 0), Unjoin(g, total, rank));
  }

  /** The rank of a pair among those of its sum, in closed form. */
  function PairRank(rings: nat, x: nat, y: nat): int {
    if x + y < rings then x else rings - 1 - y
  }

  lemma PairRankIsRank(rings: nat, x: nat, y: nat)
    requires x < rings && y < rings
    ensures PairRank(rings, x, y) == Twice(Single(rings)).rank((x, y))
  {
    PrefixOne(rings, x + y, x);
  }

  method ConvolutionPrefix(counts: array<nat>, total: nat, first: nat, ghost g: Count) returns (rank: nat)
    requires counts.Length > 0 && Tabled(counts[..], g) && first <= total
    ensures rank == Prefix(g, total, first)
  {
    var maximum := counts.Length - 1;
    rank := 0;
    for index := 0 to first
      invariant rank == Prefix(g, total, index)
    {
      if index <= maximum && total >= index && total - index <= maximum {
        rank := rank + counts[index] * counts[total - index];
      } else {
        assert g(index) * g(total - index) == 0;
      }
    }
  }

  // ---- The two entry points -------------------------------------------------------------

  lemma BothAt<X>(n: Numbering<X>, s: nat, r: nat, first: nat, left: nat)
    requires r < Conv(n.count, s) && Split(n.count, s, r) == (first, left)
    ensures n.count(first) > 0 && left % n.count(first) < n.count(first) && left / n.count(first) < n.count(s - first)
    ensures Both(n, s, r) == (n.at(first, left % n.count(first)), n.at(s - first, left / n.count(first)))
  {
    JoinSplit(n.count, s, r);
    var u := Unjoin(n.count, s, r);
    assert u == Parts(first, left % n.count(first), s - first, left / n.count(first));
  }

  /** Pairs of rings are numbered by the closed forms. */
  ghost predicate Closed(n: Numbering<Pair>, rings: nat) {
    && (forall total: nat, rank: nat :: rank < n.count(total) ==> n.at(total, rank) == SplitPair(total, rings, rank))
    && (forall x: nat, y: nat :: x < rings && y < rings ==> n.rank((x, y)) == PairRank(rings, x, y))
  }

  lemma PairsClosed(rings: nat)
    requires rings > 0
    ensures Closed(Twice(Single(rings)), rings)
  {
    var n := Twice(Single(rings));
    forall total: nat, rank: nat | rank < n.count(total)
      ensures n.at(total, rank) == SplitPair(total, rings, rank)
    {
      SplitPairIsPair(total, rings, rank);
    }
    forall x: nat, y: nat | x < rings && y < rings
      ensures n.rank((x, y)) == PairRank(rings, x, y)
    {
      PairRankIsRank(rings, x, y);
    }
  }

  lemma FourAt(n: Numbering<Pair>, rings: nat, total: nat, rank: nat, first: nat, left: nat)
    requires Closed(n, rings) && rank < Conv(n.count, total) && Split(n.count, total, rank) == (first, left)
    ensures var c := n.count(first);
      c > 0 && Both(n, total, rank) == (SplitPair(first, rings, left % c), SplitPair(total - first, rings, left / c))
  {
    BothAt(n, total, rank, first, left);
  }

  ghost predicate BuiltAt<X>(d: Numbering<(X, X)>, n: Numbering<X>) {
    d.count == Convolved(n.count) && forall s: nat, r: nat :: d.at(s, r) == Both(n, s, r)
  }

  /** Four rings of sum `total` from their rank. */
  method MapFour(rings: nat, total: nat, rank: nat, g2: array<nat>, ghost n: Numbering<Pair>,
                 ghost fours: Numbering<Four>)
    returns (r: Option<Four>)
    requires g2.Length == MAX_G2 + 1 && Tabled(g2[..], n.count) && Closed(n, rings) && BuiltAt(fours, n)
    ensures r == if rank < fours.count(total) then Some(fours.at(total, rank)) else None
  {
    var first, left := SplitRank(rank, total, g2, n.count);
    if first > MAX_G2 || g2[first] == 0 {
      return None;
    }
    FourAt(n, rings, total, rank, first, left);
    return Some((SplitPair(first, rings, left % g2[first]), SplitPair(total - first, rings, left / g2[first])));
  }

  ghost predicate Built<X(!new)>(d: Numbering<(X, X)>, n: Numbering<X>) {
    && BuiltAt(d, n)
    && (forall x, y :: d.rank((x, y)) == BothRank(n, (x, y)))
    && (forall x, y :: d.total((x, y)) == n.total(x) + n.total(y))
  }

  lemma TwiceBuilt<X(!new)>(n: Numbering<X>)
    ensures Built(Twice(n), n)
  {
  }

  /** The numberings behind the tables for `rings` rings. */
  datatype Books = Books(pairs: Numbering<Pair>, fours: Numbering<Four>, eights: Numbering<Eight>)

  ghost predicate BooksOf(k: Books, rings: nat) {
    && 1 <= rings <= MAX_RINGS && k.pairs.count == Two(rings) && Closed(k.pairs, rings)
    && Built(k.fours, k.pairs) && Built(k.eights, k.fours) && Shell(k.eights, rings) && Pairs(k.pairs, rings)
    && Ends(k.pairs.count, 2 * rings - 1) && Ends(k.fours.count, 4 * rings - 3) && Ends(k.eights.count, 8 * rings - 7)
  }

  lemma BooksFor(rings: nat) returns (k: Books)
    requires 1 <= rings <= MAX_RINGS
    ensures BooksOf(k, rings) && k.eights == Tuples(rings)
  {
    var pairs := Twice(Single(rings));
    var fours := Twice(pairs);
    var eights := Twice(fours);
    k := Books(pairs, fours, eights);
    PairsClosed(rings);
    PairsAre(rings);
    TwiceBuilt(pairs);
    TwiceBuilt(fours);
    TuplesShell(rings);
    EightTotal(rings);
  }

  method Tables(rings: nat, ghost k: Books) returns (g2: array<nat>, g4: array<nat>, g8: array<nat>, z8: array<nat>)
    requires BooksOf(k, rings)
    ensures fresh(g2) && fresh(g4) && fresh(g8) && fresh(z8)
    ensures g2.Length == MAX_G2 + 1 && Tabled(g2[..], k.pairs.count)
    ensures g4.Length == MAX_G4 + 1 && Tabled(g4[..], k.fours.count)
    ensures g8.Length == MAX_G8 + 1 && Tabled(g8[..], k.eights.count)
    ensures z8.Length == MAX_G8 + 2 && Totalled(z8[..], k.eights.count, Top(rings))
  {
    g2 := new nat[MAX_G2 + 1];
    g4 := new nat[MAX_G4 + 1];
    g8 := new nat[MAX_G8 + 1];
    z8 := new nat[MAX_G8 + 2];
    PairCounts(rings, g2, k.pairs.count);
    FourCounts(2 * (rings - 1), g2, g4, k.pairs.count);
    EightCounts(4 * (rings - 1), g4, g8, z8, k.fours.count);
  }

  /** The eight rings at a rank among those of sum `a`. */
  method MapSum(rings: nat, a: nat, rank: nat, g2: array<nat>, g4: array<nat>,
                ghost n: Numbering<Pair>, ghost fours: Numbering<Four>) returns (r: Option<Eight>)
    requires g2.Length == MAX_G2 + 1 && Tabled(g2[..], n.count) && Closed(n, rings)
    requires g4.Length == MAX_G4 + 1 && Tabled(g4[..], fours.count) && BuiltAt(fours, n)
    ensures r == if rank < Conv(fours.count, a) then Some(Both(fours, a, rank)) else None
  {
    var b, left := SplitRank(rank, a, g4, fours.count);
    if b > MAX_G4 || g4[b] == 0 {
      return None;
    }
    BothAt(fours, a, rank, b, left);
    var r2, r3 := left % g4[b], left / g4[b];
    var head := MapFour(rings, b, r2, g2, n, fours);
    var tail := MapFour(rings, a - b, r3, g2, n, fours);
    if head.None? || tail.None? {
      return None;
    }
    return Some((head.value, tail.value));
  }

  /** Where a number falls in the running totals. */
  method FindSum(z8: array<nat>, max8: nat, number: nat, ghost g: Count) returns (a: nat)
    requires max8 + 1 < z8.Length && Totalled(z8[..], g, max8 + 1)
    ensures a <= max8 + 1 && Sum(g, a) <= number && (a <= max8 ==> number < Sum(g, a + 1))
  {
    a := 0;
    while a <= max8 && z8[a + 1] <= number
      invariant 0 <= a <= max8 + 1 && Sum(g, a) <= number
    {
      assert z8[..][a + 1] == Sum(g, a + 1);
      a := a + 1;
    }
    if a <= max8 {
      assert z8[..][a + 1] == Sum(g, a + 1);
    }
  }

  /** The tuple with a number that falls among those of sum `a`, or past the last. */
  lemma TupleIs(n: Numbering<Eight>, rings: nat, number: nat, a: nat)
    requires Shell(n, rings) && a <= Top(rings) && Sum(n.count, a) <= number
    requires a < Top(rings) ==> number < Sum(n.count, a + 1)
    ensures a == Top(rings) ==> TupleAt(n, rings, number) == None
    ensures a < Top(rings) ==> TupleAt(n, rings, number) == Some(Flat(n.at(a, number - Sum(n.count, a))))
  {
    if a < Top(rings) {
      PickAt(n.count, n.at, Top(rings), a, number - Sum(n.count, a), number);
    }
  }

  ghost predicate ConvolvesAt(c: Count, g: Count, s: nat) {
    g(s) == Conv(c, s)
  }

  ghost predicate Convolves(c: Count, g: Count) {
    forall s: nat :: ConvolvesAt(c, g, s)
  }

  lemma BooksConvolve(k: Books, rings: nat)
    requires BooksOf(k, rings)
    ensures Convolves(k.fours.count, k.eights.count)
  {
    forall s: nat
      ensures ConvolvesAt(k.fours.count, k.eights.count, s)
    {
    }
  }

  lemma RankBelow(c: Count, g: Count, a: nat, number: nat)
    requires Convolves(c, g) && Sum(g, a) <= number < Sum(g, a + 1)
    ensures number - Sum(g, a) < Conv(c, a)
  {
    assert ConvolvesAt(c, g, a);
  }

  /** Where a number falls among the sums, and its rank there; none past the last. */
  method Locate(rings: nat, number: nat, z8: array<nat>, ghost g: Count) returns (a: nat, rank: Option<nat>)
    requires 1 <= rings <= MAX_RINGS && z8.Length == MAX_G8 + 2 && Totalled(z8[..], g, Top(rings))
    ensures a <= Top(rings) && Sum(g, a) <= number && (a < Top(rings) ==> number < Sum(g, a + 1))
    ensures rank == if a == Top(rings) then None else Some(number - Sum(g, a))
  {
    var max8 := 8 * (rings - 1);
    a := FindSum(z8, max8, number, g);
    assert z8[..][a] == Sum(g, a);
    if a > max8 || number < z8[a] {
      return a, None;
    }
    return a, Some(number - z8[a]);
  }

  method MapRank(rings: nat, number: nat, ghost k: Books) returns (r: Option<seq<nat>>)
    requires BooksOf(k, rings)
    ensures r == TupleAt(k.eights, rings, number)
  {
    var g2, g4, g8, z8 := Tables(rings, k);
    var a, rank := Locate(rings, number, z8, k.eights.count);
    TupleIs(k.eights, rings, number, a);
    if rank.None? {
      return None;
    }
    BooksConvolve(k, rings);
    RankBelow(k.fours.count, k.eights.count, a, number);
    var x := MapSum(rings, a, rank.value, g2, g4, k.pairs, k.fours);
    if x.None? {
      return None;
    }
    return Some(Flat(x.value));
  }

  lemma FourRank(n: Numbering<Pair>, rings: nat, p: Pair, q: Pair)
    requires Closed(n, rings) && Pairs(n, rings)
    requires p.0 < rings && p.1 < rings && q.0 < rings && q.1 < rings
    ensures var e, f := PairRank(rings, p.0, p.1), PairRank(rings, q.0, q.1);
      var c, t := p.0 + p.1, q.0 + q.1;
      e >= 0 && f >= 0 && BothTotal(n, (p, q)) == c + t && BothRank(n, (p, q)) == Join(n.count, c, t, e, f)
  {
    assert n.total(p) == p.0 + p.1 && n.total(q) == q.0 + q.1;
    assert n.rank((p.0, p.1)) == PairRank(rings, p.0, p.1) && n.rank((q.0, q.1)) == PairRank(rings, q.0, q.1);
  }

  /** The sum of four rings and their rank among those of that sum. */
  method UnmapFour(rings: nat, p: Pair, q: Pair, g2: array<nat>, ghost n: Numbering<Pair>) returns (b: nat, rank: nat)
    requires Closed(n, rings) && Pairs(n, rings) && rings <= MAX_RINGS
    requires g2.Length == MAX_G2 + 1 && Tabled(g2[..], n.count)
    requires p.0 < rings && p.1 < rings && q.0 < rings && q.1 < rings
    ensures b == BothTotal(n, (p, q)) == p.0 + p.1 + (q.0 + q.1) && rank == BothRank(n, (p, q))
  {
    FourRank(n, rings, p, q);
    var c := p.0 + p.1;
    b := c + (q.0 + q.1);
    var e, f := PairRank(rings, p.0, p.1), PairRank(rings, q.0, q.1);
    var count := g2[c];
    assert count == n.count(c);
    var before := ConvolutionPrefix(g2, b, c, n.count);
    rank := before + (f * count + e);
  }

  lemma BuiltRank<X(!new)>(d: Numbering<(X, X)>, n: Numbering<X>, x: X, y: X)
    requires Built(d, n)
    ensures d.total((x, y)) == BothTotal(n, (x, y)) && d.rank((x, y)) == BothRank(n, (x, y))
  {
  }

  lemma RankAdds(fours: Numbering<Four>, eights: Numbering<Eight>, x: Four, y: Four, b: nat, l: nat, r2: nat, r3: nat,
                 c: nat)
    requires Built(eights, fours) && fours.total(x) == b && fours.total(y) == l
    requires r2 == fours.rank(x) && r3 == fours.rank(y) && c == fours.count(b)
    ensures NumberOf(eights, (x, y)) == Sum(eights.count, b + l) + Prefix(fours.count, b + l, b) + r3 * c + r2
  {
    BuiltRank(eights, fours, x, y);
    assert BothRank(fours, (x, y)) == Join(fours.count, b, l, r2, r3);
  }

  /** The number of a tuple, from the sums and ranks of its halves. */
  method JoinRank(b: nat, l: nat, r2: nat, r3: nat, g4: array<nat>, z8: array<nat>, top: nat, ghost f: Count,
                  ghost g: Count)
    returns (rank: nat)
    requires b < g4.Length && b + l <= top && Tabled(g4[..], f) && Totalled(z8[..], g, top)
    ensures rank == Sum(g, b + l) + Prefix(f, b + l, b) + r3 * f(b) + r2
  {
    var a := b + l;
    assert g4[..][b] == f(b) && z8[..][a] == Sum(g, a);
    var before4 := ConvolutionPrefix(g4, a, b, f);
    rank := z8[a] + before4 + r3 * g4[b] + r2;
  }

  /** The number of a tuple of rings. */
  method UnmapRank(rings: nat, x: Four, y: Four, ghost k: Books) returns (rank: nat)
    requires BooksOf(k, rings)
    requires x.0.0 < rings && x.0.1 < rings && x.1.0 < rings && x.1.1 < rings
    requires y.0.0 < rings && y.0.1 < rings && y.1.0 < rings && y.1.1 < rings
    ensures rank == NumberOf(k.eights, (x, y))
  {
    var g2, g4, g8, z8 := Tables(rings, k);
    var b, r2 := UnmapFour(rings, x.0, x.1, g2, k.pairs);
    var l, r3 := UnmapFour(rings, y.0, y.1, g2, k.pairs);
    BuiltRank(k.fours, k.pairs, x.0, x.1);
    BuiltRank(k.fours, k.pairs, y.0, y.1);
    rank := JoinRank(b, l, r2, r3, g4, z8, Top(rings), k.fours.count, k.eights.count);
    RankAdds(k.fours, k.eights, x, y, b, l, r2, r3, k.fours.count(b));
  }

  /** v34_shell_map: a word of shell bits to eight rings. */
  method ShellMap(p: Parameters, bits: seq<bool>, expanded: bool) returns (r: Option<seq<nat>>)
    requires |bits| >= p.shellBits
    ensures r == Map(p, bits, expanded)
  {
    var rings := p.Rings(expanded);
    if p.shellBits > MAX_SHELL_BITS || rings == 0 || rings > MAX_RINGS {
      return None;
    }
    var rank := 0;
    for bit := 0 to p.shellBits
      invariant rank == FromBits(bits[..bit])
    {
      FromBitsSnoc(bits[..bit], bits[bit]);
      assert bits[..bit + 1] == bits[..bit] + [bits[bit]];
      if bits[bit] {
        rank := rank + Pow2(bit);
      }
    }
    ghost var k := BooksFor(rings);
    r := MapRank(rings, rank, k);
  }

  /** The low bits of a number, by shifting it. */
  method LowBits(x: nat, n: nat) returns (bits: seq<bool>)
    ensures bits == ToBits(x, n)
  {
    bits := [];
    var rest := x;
    for index := 0 to n
      invariant |bits| == index
      invariant ToBits(x, n) == bits + ToBits(rest, n - index)
    {
      Regroup(bits, [rest % 2 == 1], ToBits(rest / 2, n - index - 1));
      bits := bits + [rest % 2 == 1];
      rest := rest / 2;
    }
  }

  method AllBelow(s: seq<nat>, rings: nat) returns (below: bool)
    requires |s| == 8
    ensures below <==> RingsBelow(s, rings)
  {
    for index := 0 to 8
      invariant forall i :: 0 <= i < index ==> s[i] < rings
    {
      if s[index] >= rings {
        return false;
      }
    }
    return true;
  }

  /** The bits of rings that are all below the ring count. */
  method UnmapBelow(p: Parameters, s: seq<nat>, expanded: bool, ghost k: Books) returns (r: Option<seq<bool>>)
    requires Usable(p, expanded) && RingsBelow(s, p.Rings(expanded)) && BooksOf(k, p.Rings(expanded))
    ensures r == UnmapIn(k.eights, p, s, expanded)
  {
    var rank := UnmapRank(p.Rings(expanded), ((s[0], s[1]), (s[2], s[3])), ((s[4], s[5]), (s[6], s[7])), k);
    var limit := Pow2(p.shellBits);
    if rank >= limit {
      return None;
    }
    var bits := LowBits(rank, p.shellBits);
    return Some(bits);
  }

  /** v34_shell_unmap: eight rings back to the shell bits. */
  method ShellUnmap(p: Parameters, s: seq<nat>, expanded: bool) returns (r: Option<seq<bool>>)
    requires |s| == 8
    ensures r == Unmap(p, s, expanded)
  {
    var rings := p.Rings(expanded);
    if rings == 0 || rings > MAX_RINGS || p.shellBits > MAX_SHELL_BITS {
      return None;
    }
    var below := AllBelow(s, rings);
    if !below {
      return None;
    }
    ghost var k := BooksFor(rings);
    r := UnmapBelow(p, s, expanded, k);
  }
}
