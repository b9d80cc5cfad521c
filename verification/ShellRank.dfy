/** The numbering of eight-tuples of rings that src/v34_mapper.c maps shell bits through:
    first by their sum, then by the sum of the first half, and so on down to single rings. */
module ShellRank {
  import opened ShellCounts

  // ---- Two parts --------------------------------------------------------------------

  lemma {:induction false} PrefixGrows(g: Count, total: nat, k: nat, l: nat)
    requires k <= l <= total + 1
    ensures Prefix(g, total, k) <= Prefix(g, total, l)
    decreases l
  {
    if k < l {
      PrefixGrows(g, total, k, l - 1);
    }
  }

  /** The split at `first` leaves rank `left` among the objects it starts. */
  ghost predicate SplitsAt(g: Count, total: nat, rank: nat, first: nat, left: nat) {
    first <= total && left < g(first) * g(total - first) && Prefix(g, total, first) + left == rank
  }

  lemma PrefixNext(g: Count, total: nat, first: nat)
    requires first <= total
    ensures Prefix(g, total, first + 1) == Prefix(g, total, first) + g(first) * g(total - first)
  {
  }

  /** The first part's sum, and the rank left over, counting from a first part of sum `first`
      with `before` objects before it. */
  function SplitFrom(g: Count, total: nat, rank: nat, first: nat, before: nat): (r: (nat, nat))
    requires first <= total && before == Prefix(g, total, first) && before <= rank < Conv(g, total)
    ensures SplitsAt(g, total, rank, r.0, r.1)
    decreases total - first
  {
    PrefixNext(g, total, first);
    var through := before + g(first) * g(total - first);
    if rank < through then (first, rank - before) else SplitFrom(g, total, rank, first + 1, through)
  }

  function Split(g: Count, total: nat, rank: nat): (r: (nat, nat))
    requires rank < Conv(g, total)
    ensures r.0 <= total && r.1 < g(r.0) * g(total - r.0)
    ensures Prefix(g, total, r.0) + r.1 == rank
  {
    SplitFrom(g, total, rank, 0, 0)
  }

  /** Only one split fits a rank. */
  lemma SplitUnique(g: Count, total: nat, s: nat, r: nat, s': nat, r': nat)
    requires s <= total && s' <= total && r < g(s) * g(total - s) && r' < g(s') * g(total - s')
    requires Prefix(g, total, s) + r == Prefix(g, total, s') + r'
    ensures s == s' && r == r'
  {
    if s < s' {
      PrefixGrows(g, total, s + 1, s');
    } else if s' < s {
      PrefixGrows(g, total, s' + 1, s);
    }
  }

  lemma ProductGrows(k: nat, l: nat, d: nat)
    requires k <= l
    ensures k * d <= l * d
  {
  }

  lemma DivModUnique(q: nat, d: nat, r: nat)
    requires r < d
    ensures (q * d + r) / d == q && (q * d + r) % d == r
  {
    var x := q * d + r;
    var q', r' := x / d, x % d;
    assert x == q' * d + r';
    if q < q' {
      ProductGrows(q + 1, q', d);
    } else if q' < q {
      ProductGrows(q' + 1, q, d);
    }
  }

  lemma PairInRange(q: nat, e: nat, d: nat, r: nat)
    requires q < e && r < d
    ensures q * d + r < d * e
  {
    ProductGrows(q + 1, e, d);
  }

  /** The rank of an object of sum `s + t` whose parts have sums `s`, `t` and ranks `rs`, `rt`. */
  function Join(g: Count, s: nat, t: nat, rs: nat, rt: nat): nat {
    Prefix(g, s + t, s) + (rt * g(s) + rs)
  }

  lemma {:induction false} SumGrows(g: Count, k: nat, l: nat)
    requires k <= l
    ensures Sum(g, k) <= Sum(g, l)
  {
    if k < l {
      SumGrows(g, k, l - 1);
    }
  }

  lemma JoinInRange(g: Count, s: nat, t: nat, rs: nat, rt: nat)
    requires rs < g(s) && rt < g(t)
    ensures rt * g(s) + rs < g(s) * g(t)
    ensures Join(g, s, t, rs, rt) < Conv(g, s + t)
  {
    PairInRange(rt, g(t), g(s), rs);
    PrefixGrows(g, s + t, s + 1, s + t + 1);
  }

  lemma JoinSplit(g: Count, total: nat, rank: nat)
    requires rank < Conv(g, total)
    ensures var (s, r) := Split(g, total, rank);
      && g(s) > 0 && r % g(s) < g(s) && r / g(s) < g(total - s)
      && Join(g, s, total - s, r % g(s), r / g(s)) == rank
  {
    var (s, r) := Split(g, total, rank);
    var q, e := r / g(s), g(total - s);
    assert r == q * g(s) + r % g(s);
    if q >= e {
      ProductGrows(e, q, g(s));
    }
  }

  /** Sum and rank of both parts. */
  datatype Parts = Parts(s: nat, rs: nat, t: nat, rt: nat)

  ghost predicate PartsOf(g: Count, total: nat, rank: nat, p: Parts) {
    p.s + p.t == total && p.rs < g(p.s) && p.rt < g(p.t) && Join(g, p.s, p.t, p.rs, p.rt) == rank
  }

  /** What a rank says about the two parts: joining them gives the rank back. */
  function Unjoin(g: Count, total: nat, rank: nat): (p: Parts)
    requires rank < Conv(g, total)
    ensures PartsOf(g, total, rank, p)
  {
    JoinSplit(g, total, rank);
    var (s, r) := Split(g, total, rank);
    Parts(s, r % g(s), total - s, r / g(s))
  }

  /** And there is only one such pair of parts. */
  lemma PartsUnique(g: Count, total: nat, rank: nat, p: Parts, p': Parts)
    requires PartsOf(g, total, rank, p) && PartsOf(g, total, rank, p')
    ensures p == p'
  {
    JoinInRange(g, p.s, p.t, p.rs, p.rt);
    JoinInRange(g, p'.s, p'.t, p'.rs, p'.rt);
    SplitUnique(g, total, p.s, p.rt * g(p.s) + p.rs, p'.s, p'.rt * g(p'.s) + p'.rs);
    DivModUnique(p.rt, g(p.s), p.rs);
    DivModUnique(p'.rt, g(p.s), p'.rs);
  }

  lemma UnjoinJoin(g: Count, p: Parts)
    requires p.rs < g(p.s) && p.rt < g(p.t)
    ensures var rank := Join(g, p.s, p.t, p.rs, p.rt);
      rank < Conv(g, p.s + p.t) && Unjoin(g, p.s + p.t, rank) == p
  {
    var rank := Join(g, p.s, p.t, p.rs, p.rt);
    JoinInRange(g, p.s, p.t, p.rs, p.rt);
    PartsUnique(g, p.s + p.t, rank, p, Unjoin(g, p.s + p.t, rank));
  }

  // ---- Numberings -------------------------------------------------------------------

  /** Objects with a sum, numbered from 0 among those of the same sum: `count(s)` of them have
      sum `s`, and `at(s, r)` is the one numbered `r`. */
  datatype Numbering<!X> = Numbering(count: Count, at: (nat, nat) -> X, total: X -> nat, rank: X -> nat, ok: X -> bool)

  ghost predicate Valid<X(!new)>(n: Numbering<X>) {
    && (forall s: nat, r: nat :: r < n.count(s) ==> Names(n, s, r, n.at(s, r)))
    && (forall x :: n.ok(x) ==> Named(n, x))
  }

  ghost predicate Named<X>(n: Numbering<X>, x: X) {
    n.rank(x) < n.count(n.total(x)) && n.at(n.total(x), n.rank(x)) == x
  }

  ghost predicate Names<X>(n: Numbering<X>, s: nat, r: nat, x: X) {
    n.ok(x) && n.total(x) == s && n.rank(x) == r
  }

  /** Single rings below `m`: one for each sum. */
  function Single(m: nat): Numbering<nat> {
    Numbering(One(m), (s: nat, r: nat) => s, (x: nat) => x, (x: nat) => 0, (x: nat) => x < m)
  }

  /** The pair of objects at a rank among those of sum `s`. */
  function Both<X>(n: Numbering<X>, s: nat, r: nat): (X, X) {
    if r < Conv(n.count, s) then
      var u := Unjoin(n.count, s, r);
      (n.at(u.s, u.rs), n.at(u.t, u.rt))
    else (n.at(0, 0), n.at(0, 0))
  }

  function BothTotal<X>(n: Numbering<X>, x: (X, X)): nat {
    n.total(x.0) + n.total(x.1)
  }

  function BothRank<X>(n: Numbering<X>, x: (X, X)): nat {
    Join(n.count, n.total(x.0), n.total(x.1), n.rank(x.0), n.rank(x.1))
  }

  /** Pairs of objects: by the sum of the first, then by its rank and that of the second. */
  function Twice<X>(n: Numbering<X>): Numbering<(X, X)> {
    Numbering(Convolved(n.count), (s: nat, r: nat) => Both(n, s, r), (x: (X, X)) => BothTotal(n, x),
              (x: (X, X)) => BothRank(n, x), (x: (X, X)) => n.ok(x.0) && n.ok(x.1))
  }

  lemma SingleValid(m: nat)
    ensures Valid(Single(m))
  {
  }

  lemma TwiceNames<X(!new)>(n: Numbering<X>, s: nat, r: nat)
    requires Valid(n) && r < Conv(n.count, s)
    ensures Names(Twice(n), s, r, Twice(n).at(s, r))
  {
    var u := Unjoin(n.count, s, r);
    assert Names(n, u.s, u.rs, n.at(u.s, u.rs)) && Names(n, u.t, u.rt, n.at(u.t, u.rt));
  }

  lemma TwiceRank<X(!new)>(n: Numbering<X>, x: (X, X))
    requires Valid(n) && n.ok(x.0) && n.ok(x.1)
    ensures Named(Twice(n), x)
  {
    assert Named(n, x.0) && Named(n, x.1);
    UnjoinJoin(n.count, Parts(n.total(x.0), n.rank(x.0), n.total(x.1), n.rank(x.1)));
  }

  /** Pairs of numbered objects are numbered. */
  lemma TwiceValid<X(!new)>(n: Numbering<X>)
    requires Valid(n)
    ensures Valid(Twice(n))
  {
    var d := Twice(n);
    forall s: nat, r: nat | r < d.count(s)
      ensures Names(d, s, r, d.at(s, r))
    {
      TwiceNames(n, s, r);
    }
    forall x | d.ok(x)
      ensures Named(d, x)
    {
      TwiceRank(n, x);
    }
  }

  // ---- All objects, by their sum first -------------------------------------------------

  /** The last entry of the running total that is not above `rank`. */
  function FindTotal(g: Count, rank: nat, top: nat, a: nat): (r: nat)
    requires a < top && Sum(g, a) <= rank < Sum(g, top)
    ensures a <= r < top && Sum(g, r) <= rank < Sum(g, r + 1)
    decreases top - a
  {
    if rank < Sum(g, a + 1) then a else FindTotal(g, rank, top, a + 1)
  }

  lemma TotalUnique(g: Count, rank: nat, a: nat, b: nat)
    requires Sum(g, a) <= rank < Sum(g, a + 1) && Sum(g, b) <= rank < Sum(g, b + 1)
    ensures a == b
  {
    if a < b {
      SumGrows(g, a + 1, b);
    } else if b < a {
      SumGrows(g, b + 1, a);
    }
  }

  /** The item listed at `number` when items are listed by their sum first. */
  function Pick<X>(g: Count, at: (nat, nat) -> X, top: nat, number: nat): (x: X)
    requires top > 0 && number < Sum(g, top)
  {
    var a := FindTotal(g, number, top, 0);
    at(a, number - Sum(g, a))
  }

  lemma PickAt<X>(g: Count, at: (nat, nat) -> X, top: nat, a: nat, r: nat, number: nat)
    requires a < top && r < g(a) && number == Sum(g, a) + r
    ensures number < Sum(g, top) && Pick(g, at, top, number) == at(a, r)
  {
    SumGrows(g, a + 1, top);
    var b := FindTotal(g, number, top, 0);
    TotalUnique(g, number, a, b);
  }

  lemma PickFinds<X>(g: Count, at: (nat, nat) -> X, top: nat, number: nat) returns (a: nat, r: nat)
    requires top > 0 && number < Sum(g, top)
    ensures a < top && r < g(a) && number == Sum(g, a) + r && Pick(g, at, top, number) == at(a, r)
  {
    a := FindTotal(g, number, top, 0);
    r := number - Sum(g, a);
  }

  /** The object numbered `number` among all, and the number of an object. */
  function ObjectAt<X>(n: Numbering<X>, top: nat, number: nat): (x: X)
    requires top > 0 && number < Sum(n.count, top)
  {
    Pick(n.count, n.at, top, number)
  }

  function NumberOf<X>(n: Numbering<X>, x: X): (number: nat) {
    Sum(n.count, n.total(x)) + n.rank(x)
  }

  /** Every number below the total names an object, which has that number. */
  lemma NumberOfObject<X(!new)>(n: Numbering<X>, top: nat, number: nat)
    requires Valid(n) && top > 0 && number < Sum(n.count, top)
    ensures var x := ObjectAt(n, top, number); n.ok(x) && NumberOf(n, x) == number
  {
    var a, r := PickFinds(n.count, n.at, top, number);
    assert Names(n, a, r, n.at(a, r));
  }

  /** Every object has a number below the total, which names it. */
  lemma ObjectOfNumber<X(!new)>(n: Numbering<X>, top: nat, x: X)
    requires Valid(n) && top > 0 && Ends(n.count, top) && n.ok(x)
    ensures NumberOf(n, x) < Sum(n.count, top) && ObjectAt(n, top, NumberOf(n, x)) == x
  {
    assert Named(n, x);
    PickAt(n.count, n.at, top, n.total(x), n.rank(x), NumberOf(n, x));
  }

  /** Numbers grow with the sum: of two objects, the one with the smaller number does not have
      the larger sum. */
  lemma OrderedByTotal<X(!new)>(n: Numbering<X>, x: X, y: X)
    requires Valid(n) && n.ok(x) && n.ok(y) && NumberOf(n, x) <= NumberOf(n, y)
    ensures n.total(x) <= n.total(y)
  {
    if n.total(y) < n.total(x) {
      SumGrows(n.count, n.total(y) + 1, n.total(x));
    }
  }

  // ---- The order ------------------------------------------------------------------------

  lemma QuotientOrders(d: nat, q: nat, r: nat, q': nat, r': nat)
    requires r < d && r' < d
    ensures q * d + r < q' * d + r' <==> q < q' || (q == q' && r < r')
  {
    if q < q' {
      ProductGrows(q + 1, q', d);
    } else if q' < q {
      ProductGrows(q' + 1, q, d);
    }
  }

  lemma PartsOrder(g: Count, p: Parts, q: Parts)
    requires p.s + p.t == q.s + q.t && p.rs < g(p.s) && p.rt < g(p.t) && q.rs < g(q.s) && q.rt < g(q.t) && p.s < q.s
    ensures Join(g, p.s, p.t, p.rs, p.rt) < Join(g, q.s, q.t, q.rs, q.rt)
  {
    JoinInRange(g, p.s, p.t, p.rs, p.rt);
    PrefixNext(g, p.s + p.t, p.s);
    PrefixGrows(g, p.s + p.t, p.s + 1, q.s);
  }

  /** Of two joins of one sum the one with the smaller first part comes first; then it is the rank of
      the second part that counts, and last that of the first. */
  lemma JoinOrders(g: Count, p: Parts, q: Parts)
    requires p.s + p.t == q.s + q.t && p.rs < g(p.s) && p.rt < g(p.t) && q.rs < g(q.s) && q.rt < g(q.t)
    ensures Join(g, p.s, p.t, p.rs, p.rt) < Join(g, q.s, q.t, q.rs, q.rt)
      <==> p.s < q.s || (p.s == q.s && (p.rt < q.rt || (p.rt == q.rt && p.rs < q.rs)))
  {
    if p.s < q.s {
      PartsOrder(g, p, q);
    } else if q.s < p.s {
      PartsOrder(g, q, p);
    } else {
      QuotientOrders(g(p.s), p.rt, p.rs, q.rt, q.rs);
    }
  }

  /** Pairs of objects of one sum. */
  lemma TwiceOrders<X(!new)>(n: Numbering<X>, x: (X, X), y: (X, X))
    requires Valid(n) && n.ok(x.0) && n.ok(x.1) && n.ok(y.0) && n.ok(y.1) && BothTotal(n, x) == BothTotal(n, y)
    ensures BothRank(n, x) < BothRank(n, y) <==>
      (n.total(x.0) < n.total(y.0)
       || (n.total(x.0) == n.total(y.0)
           && (n.rank(x.1) < n.rank(y.1) || (n.rank(x.1) == n.rank(y.1) && n.rank(x.0) < n.rank(y.0)))))
  {
    assert Named(n, x.0) && Named(n, x.1) && Named(n, y.0) && Named(n, y.1);
    JoinOrders(n.count, Parts(n.total(x.0), n.rank(x.0), n.total(x.1), n.rank(x.1)),
               Parts(n.total(y.0), n.rank(y.0), n.total(y.1), n.rank(y.1)));
  }

  lemma RanksTell<X(!new)>(n: Numbering<X>, x: X, y: X)
    requires Valid(n) && n.ok(x) && n.ok(y) && n.total(x) == n.total(y) && n.rank(x) == n.rank(y)
    ensures x == y
  {
    assert Named(n, x) && Named(n, y);
  }

  /** All objects: the smaller sum first. */
  lemma NumbersOrder<X(!new)>(n: Numbering<X>, x: X, y: X)
    requires Valid(n) && n.ok(x) && n.ok(y)
    ensures NumberOf(n, x) < NumberOf(n, y)
      <==> n.total(x) < n.total(y) || (n.total(x) == n.total(y) && n.rank(x) < n.rank(y))
  {
    assert Named(n, x) && Named(n, y);
    if n.total(x) < n.total(y) {
      SumGrows(n.count, n.total(x) + 1, n.total(y));
    } else if n.total(y) < n.total(x) {
      SumGrows(n.count, n.total(y) + 1, n.total(x));
    }
  }

  // ---- The tables count ---------------------------------------------------------------

  lemma {:induction false} FirstObjects<X(!new)>(n: Numbering<X>, s: nat, k: nat) returns (objects: set<X>)
    requires Valid(n) && k <= n.count(s)
    ensures |objects| == k && forall x :: x in objects <==> n.ok(x) && n.total(x) == s && n.rank(x) < k
    decreases k
  {
    if k == 0 {
      objects := {};
    } else {
      objects := FirstObjects(n, s, k - 1);
      var x := n.at(s, k - 1);
      assert Names(n, s, k - 1, x);
      objects := objects + {x};
    }
  }

  /** `count(s)` is the number of objects of sum `s`. */
  lemma Counts<X(!new)>(n: Numbering<X>, s: nat) returns (objects: set<X>)
    requires Valid(n)
    ensures |objects| == n.count(s) && forall x :: x in objects <==> n.ok(x) && n.total(x) == s
  {
    objects := FirstObjects(n, s, n.count(s));
  }
}
