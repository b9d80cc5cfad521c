/** The sizes that follow from the number of bits in a high mapping frame
    (v34_mapping_parameters_init in src/v34_mapper.c), with the powers of two taken over the
    integers. */
module ShellParams {
  import opened Wrappers
  import opened Bits
  import opened ShellCounts

  const MAX_SHELL_BITS: nat := 31
  const MAX_Q_BITS: nat := 5
  const MAX_RINGS: nat := 18

  datatype Parameters = Parameters(frameBits: nat, shellBits: nat, qBits: nat, minimumRings: nat,
                                   expandedRings: nat, minimumPoints: nat, expandedPoints: nat)
  {
    function Rings(expanded: bool): nat {
      if expanded then expandedRings else minimumRings
    }
  }

  /** `m` rings hold at least `k` bits in an eight-tuple: m >= 2^(k/8). */
  predicate Holds(k: nat, m: nat) {
    Pow8(m) >= Pow2(k)
  }

  /** e <= 1.25 * 2^(k/8) + 0.5. */
  predicate Spread(k: nat, e: nat) {
    e == 0 || Pow8(4 * e - 2) <= Pow8(5) * Pow2(k)
  }

  lemma Pow8Grows(m: nat, n: nat)
    requires m <= n
    ensures Pow8(m) <= Pow8(n)
  {
    SquareGrows(m, n);
    SquareGrows(Squared(m), Squared(n));
    SquareGrows(Squared(Squared(m)), Squared(Squared(n)));
  }

  lemma SquareGrows(a: nat, b: nat)
    requires a <= b
    ensures Squared(a) <= Squared(b)
  {
    assert a * a <= a * b <= b * b;
  }

  lemma {:induction false} Pow2Grows(m: nat, n: nat)
    requires m <= n
    ensures Pow2(m) <= Pow2(n)
  {
    if m < n {
      Pow2Grows(m, n - 1);
    }
  }

  lemma Pow2Values()
    ensures Pow2(5) == 32 && Pow2(27) == 134217728 && Pow2(31) == 2147483648
  {
    assert Pow2(5) == 32;
    Pow2Add(5, 5);
    Pow2Add(10, 10);
    Pow2Add(20, 5);
    assert Pow2(27) == 2 * 2 * Pow2(25);
    assert Pow2(29) == 2 * 2 * Pow2(27);
  }

  lemma {:induction false} Pow2Add(m: nat, n: nat)
    ensures Pow2(m + n) == Pow2(m) * Pow2(n)
  {
    if n > 0 {
      Pow2Add(m, n - 1);
      assert Pow2(m + n) == 2 * Pow2(m + (n - 1));
    }
  }

  /** Points of a constellation: four quarters of `rings` rings of 2^q points. */
  function Points(rings: nat, q: nat): nat {
    4 * (rings * Pow2(q))
  }

  /** Without expansion: enough rings for the shell bits, and no more.  Expanded: as many more as
      a quarter again allows, and room for every point in the quarter constellation. */
  ghost predicate RingsFit(p: Parameters, expanded: bool) {
    if expanded then
      && (p.expandedRings == p.minimumRings || Spread(p.shellBits, p.expandedRings))
      && !Spread(p.shellBits, p.expandedRings + 1)
      && p.expandedPoints == Points(p.expandedRings, p.qBits) <= 1664
    else
      && p.minimumRings >= 1 && Holds(p.shellBits, p.minimumRings) && !Holds(p.shellBits, p.minimumRings - 1)
      && p.minimumPoints == Points(p.minimumRings, p.qBits)
  }

  /** What a caller may rely on. */
  ghost predicate Sized(b: nat, p: Parameters) {
    && p.frameBits == b && p.shellBits <= MAX_SHELL_BITS && p.qBits <= MAX_Q_BITS
    && (if b <= 12 then p.shellBits == 0 && p.qBits == 0 else b == 12 + p.shellBits + 8 * p.qBits && p.shellBits > 0)
    && (p.qBits > 0 ==> p.shellBits >= 24)
    && 1 <= p.minimumRings <= p.expandedRings <= MAX_RINGS
    && forall expanded :: RingsFit(p, expanded)
  }

  /** Fifteen rings are enough for all shell bits, and none too few for any. */
  lemma HoldsBound(k: nat)
    requires k <= MAX_SHELL_BITS
    ensures Holds(k, 15) && !Holds(k, 0)
  {
    Pow2Values();
    Pow2Grows(0, k);
    Pow2Grows(k, 31);
    assert Pow8(15) == 2562890625;
  }

  method MinimumRings(k: nat) returns (m: nat)
    requires k <= MAX_SHELL_BITS
    ensures 1 <= m <= 15 && Holds(k, m) && !Holds(k, m - 1)
  {
    HoldsBound(k);
    m := 1;
    while !Holds(k, m)
      invariant 1 <= m <= 15 && !Holds(k, m - 1)
      decreases 15 - m
    {
      m := m + 1;
    }
  }

  /** Nothing past `e` can satisfy `Spread` either. */
  lemma SpreadStops(k: nat, e: nat, f: nat)
    requires !Spread(k, e) && e <= f
    ensures !Spread(k, f)
  {
    Pow8Grows(4 * e - 2, 4 * f - 2);
  }

  /** A ring count too large for `j` bits is too large for fewer. */
  lemma SpreadFewer(k: nat, j: nat, e: nat)
    requires k <= j && !Spread(j, e)
    ensures !Spread(k, e)
  {
    Pow2Grows(k, j);
  }

  lemma Pow8Values()
    ensures Pow8(5) == 390625 && Pow8(54) == 72301961339136 && Pow8(74) == 899194740203776
  {
  }

  /** So many rings are too many to expand to. */
  lemma SpreadBound(k: nat)
    requires k <= MAX_SHELL_BITS
    ensures !Spread(k, 19) && (k <= 27 ==> !Spread(k, 14))
  {
    Pow2Values();
    Pow8Values();
    SpreadFewer(k, 31, 19);
    if k <= 27 {
      SpreadFewer(k, 27, 14);
    }
  }

  method ExpandedRings(k: nat, minimum: nat) returns (e: nat)
    requires k <= MAX_SHELL_BITS && 1 <= minimum <= 15
    ensures minimum <= e <= 18 && (k <= 27 && minimum <= 13 ==> e <= 13)
    ensures (e == minimum || Spread(k, e)) && !Spread(k, e + 1)
  {
    SpreadBound(k);
    e := 0;
    while Spread(k, e + 1)
      invariant 0 <= e <= 18 && (e == 0 || Spread(k, e))
      invariant k <= 27 ==> e <= 13
      decreases 18 - e
    {
      e := e + 1;
    }
    if e < minimum {
      SpreadStops(k, e + 1, minimum + 1);
      e := minimum;
    }
  }

  method Init(b: nat) returns (r: Option<Parameters>)
    ensures if b < 8 || b > 79 then r.None? else r.Some? && Sized(b, r.value)
  {
    if b < 8 || b > 79 {
      return None;
    }
    var k, q := 0, 0;
    if b > 12 {
      while b - 12 - 8 * q >= 32
        invariant 0 <= 8 * q <= b - 12 && q <= 5
        invariant q > 0 ==> b - 12 - 8 * q >= 24
        decreases b - 8 * q
      {
        q := q + 1;
      }
      k := b - 12 - 8 * q;
    }
    if k > MAX_SHELL_BITS || q > MAX_Q_BITS {
      return None;
    }
    var minimum := MinimumRings(k);
    var expanded := ExpandedRings(k, minimum);
    PointsFit(k, q, minimum, expanded);
    r := Some(Parameters(b, k, q, minimum, expanded,
                         Points(minimum, q), Points(expanded, q)));
  }

  lemma ProductAtMost(a: nat, b: nat, c: nat, d: nat)
    requires a <= c && b <= d
    ensures a * b <= c * d
  {
    assert a * b <= c * b;
    assert c * b <= c * d;
  }

  lemma PointsAtMost(rings: nat, q: nat, more: nat, further: nat)
    requires rings <= more && q <= further
    ensures Points(rings, q) <= Points(more, further)
  {
    Pow2Grows(q, further);
    ProductAtMost(rings, Pow2(q), more, Pow2(further));
  }

  /** Thirteen rings hold 27 bits. */
  lemma MinimumSmall(k: nat, minimum: nat)
    requires k <= 27 && 1 <= minimum && !Holds(k, minimum - 1)
    ensures minimum <= 13
  {
    Pow2Values();
    Pow2Grows(k, 27);
    assert Pow8(13) == 815730721;
    if minimum > 13 {
      Pow8Grows(13, minimum - 1);
    }
  }

  lemma PointsFit(k: nat, q: nat, minimum: nat, e: nat)
    requires q <= 5 && e <= 18 && 12 + k + 8 * q <= 79
    requires 1 <= minimum && !Holds(k, minimum - 1)
    requires k <= 27 && minimum <= 13 ==> e <= 13
    ensures Points(e, q) <= 1664
  {
    if q == 5 {
      MinimumSmall(k, minimum);
      PointsAtMost(e, q, 13, 5);
    } else {
      PointsAtMost(e, q, 18, 4);
    }
  }
}
