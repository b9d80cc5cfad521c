/** Counting behind the shell mapper of src/v34_mapper.c: how many tuples of rings have a
    given sum, and a numbering of them.  Two-tuples are built from single rings, four-tuples
    from pairs and eight-tuples from four-tuples, always by the same convolution. */
module ShellCounts {
  type Count = nat -> nat

  /** Sum of `g(n)` for n below `k`. */
  function Sum(g: Count, k: nat): nat {
    if k == 0 then 0 else Sum(g, k - 1) + g(k - 1)
  }

  /** Sum of `g(n) * g(total - n)` for n below `k`: the objects of sum `total` whose first part
      has a sum below `k`. */
  function Prefix(g: Count, total: nat, k: nat): nat
    requires k <= total + 1
  {
    if k == 0 then 0 else Prefix(g, total, k - 1) + g(k - 1) * g(total - (k - 1))
  }

  function Conv(g: Count, total: nat): nat {
    Prefix(g, total, total + 1)
  }

  /** The counts of pairs of objects whose counts are `g`. */
  function Convolved(g: Count): Count {
    (n: nat) => Conv(g, n)
  }

  /** One ring out of `m`, pairs, four-tuples and eight-tuples, by their sum. */
  function One(m: nat): Count {
    (n: nat) => if n < m then 1 else 0
  }

  function Two(m: nat): Count {
    Convolved(One(m))
  }

  function Four(m: nat): Count {
    Convolved(Two(m))
  }

  function Eight(m: nat): Count {
    Convolved(Four(m))
  }

  // ---- Totals -----------------------------------------------------------------------

  /** Sum of `g(n) * Sum(g, p - n)` for n below `k`. */
  function Triangle(g: Count, p: nat, k: nat): nat
    requires k <= p
  {
    if k == 0 then 0 else Triangle(g, p, k - 1) + g(k - 1) * Sum(g, p - (k - 1))
  }

  lemma Distributes(a: nat, b: nat, c: nat)
    ensures (a + b) * c == a * c + b * c && c * (a + b) == c * a + c * b
  {
  }

  lemma {:induction false} TriangleStep(g: Count, p: nat, k: nat)
    requires k <= p
    ensures Triangle(g, p + 1, k) == Triangle(g, p, k) + Prefix(g, p, k)
  {
    if k > 0 {
      TriangleStep(g, p, k - 1);
      var s, x, y := Sum(g, p - (k - 1)), g(k - 1), g(p - (k - 1));
      assert Sum(g, p + 1 - (k - 1)) == s + y;
      Distributes(s, y, x);
    }
  }

  lemma {:induction false} SumOfConv(g: Count, p: nat)
    ensures Sum(Convolved(g), p) == Triangle(g, p, p)
  {
    if p > 0 {
      SumOfConv(g, p - 1);
      TriangleStep(g, p - 1, p - 1);
      assert Sum(g, 1) == Sum(g, 0) + g(0) == g(0);
    }
  }

  /** `g` is zero from `top` on. */
  ghost predicate Ends(g: Count, top: nat) {
    forall n: nat :: n >= top ==> g(n) == 0
  }

  lemma {:induction false} SumBeyond(g: Count, top: nat, k: nat)
    requires Ends(g, top) && top <= k
    ensures Sum(g, k) == Sum(g, top)
  {
    if top < k {
      SumBeyond(g, top, k - 1);
    }
  }

  lemma {:induction false} TriangleProduct(g: Count, top: nat, p: nat, k: nat)
    requires Ends(g, top) && k <= p && p + 1 >= 2 * top
    ensures Triangle(g, p, k) == Sum(g, k) * Sum(g, top)
  {
    if k > 0 {
      TriangleProduct(g, top, p, k - 1);
      var x, t := g(k - 1), Sum(g, top);
      if k - 1 < top {
        SumBeyond(g, top, p - (k - 1));
      }
      Distributes(Sum(g, k - 1), x, t);
    }
  }

  lemma {:induction false} PrefixZero(g: Count, top: nat, total: nat, k: nat)
    requires Ends(g, top) && k <= total + 1 && total + 1 >= 2 * top
    ensures Prefix(g, total, k) == 0
  {
    if k > 0 {
      PrefixZero(g, top, total, k - 1);
    }
  }

  /** A convolution ends at twice the length, and its total is the square. */
  lemma ConvTotal(g: Count, top: nat)
    requires Ends(g, top) && top > 0
    ensures Ends(Convolved(g), 2 * top - 1)
    ensures Sum(Convolved(g), 2 * top - 1) == Sum(g, top) * Sum(g, top)
  {
    forall n: nat | n >= 2 * top - 1
      ensures Conv(g, n) == 0
    {
      PrefixZero(g, top, n, n + 1);
    }
    SumOfConv(g, 2 * top - 1);
    TriangleProduct(g, top, 2 * top - 1, 2 * top - 1);
    SumBeyond(g, top, 2 * top - 1);
  }

  lemma {:induction false} SumOne(m: nat, k: nat)
    ensures Sum(One(m), k) == if k < m then k else m
  {
    if k > 0 {
      SumOne(m, k - 1);
    }
  }

  function Squared(n: nat): nat {
    n * n
  }

  function Pow8(m: nat): nat {
    Squared(Squared(Squared(m)))
  }

  lemma LevelTotal(g: Count, h: Count, top: nat, total: nat)
    requires h == Convolved(g) && Ends(g, top) && Sum(g, top) == total && top > 0
    ensures Ends(h, 2 * top - 1) && Sum(h, 2 * top - 1) == Squared(total)
  {
    ConvTotal(g, top);
  }

  lemma TwoTotal(m: nat)
    requires m > 0
    ensures Ends(Two(m), 2 * m - 1) && Sum(Two(m), 2 * m - 1) == Squared(m)
  {
    SumOne(m, m);
    LevelTotal(One(m), Two(m), m, m);
  }

  lemma FourTotal(m: nat)
    requires m > 0
    ensures Ends(Four(m), 4 * m - 3) && Sum(Four(m), 4 * m - 3) == Squared(Squared(m))
  {
    TwoTotal(m);
    LevelTotal(Two(m), Four(m), 2 * m - 1, Squared(m));
  }

  /** All eight-tuples together: the last entry of z8 is the eighth power of the ring count. */
  lemma EightTotal(m: nat)
    requires m > 0
    ensures Ends(Two(m), 2 * m - 1) && Ends(Four(m), 4 * m - 3) && Ends(Eight(m), 8 * m - 7)
    ensures Sum(Eight(m), 8 * m - 7) == Pow8(m)
  {
    TwoTotal(m);
    FourTotal(m);
    LevelTotal(Four(m), Eight(m), 4 * m - 3, Squared(Squared(m)));
  }

  // ---- The closed form of the pair counts --------------------------------------------

  /** The formula of the source. */
  function PairCount(m: nat, p: nat): (n: int)
    requires m > 0
  {
    var distance := if p > m - 1 then p - (m - 1) else (m - 1) - p;
    m - distance
  }

  lemma {:induction false} PrefixOne(m: nat, p: nat, k: nat)
    requires m > 0 && k <= p + 1
    ensures var low := if p >= m then p - m + 1 else 0; var high := if k < m then k else m;
      Prefix(One(m), p, k) == if low < high then high - low else 0
  {
    if k > 0 {
      PrefixOne(m, p, k - 1);
    }
  }

  lemma TwoClosedForm(m: nat, p: nat)
    requires m > 0
    ensures Two(m)(p) == if p <= 2 * (m - 1) then PairCount(m, p) else 0
  {
    PrefixOne(m, p, p + 1);
  }
}
