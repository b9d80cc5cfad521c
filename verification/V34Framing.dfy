/** Data frames, mapping frames and superframes (src/v34_framing.c) and the symbol clock they
    are sent by (src/v34_timing.c). */
module V34Framing {
  import opened Wrappers
  import opened Bits
  import opened ShellParams
  import opened V34Parse

  const SYMBOL_COUNT: nat := 6

  /** Data frames in a superframe and mapping frames in a data frame, by symbol rate. */
  function DataFrames(s: nat): nat {
    if s == 1 || s == 5 then 8 else 7
  }

  function MappingFrames(s: nat): nat {
    if s == 0 || s == 1 then 12 else if s == 2 then 14 else if s == 4 then 16 else 15
  }

  function MaximumRate(s: nat): nat {
    if s == 0 then 21600
    else if s == 1 || s == 2 then 26400
    else if s == 3 then 28800
    else if s == 4 then 31200
    else 33600
  }

  lemma WithinStep(rate: nat, k: nat, limit: nat)
    requires rate % 2400 == 0 && limit == 2400 * k
    ensures rate <= limit <==> rate < limit + 2400
  {
    var n := rate / 2400;
    assert rate == 2400 * n;
  }

  /** The maximum is the greatest multiple of 2400 bit/s of which a superframe of 280 ms takes no
      mapping frame beyond 79 bits. */
  lemma MaximumIs(s: nat, rate: nat)
    requires s < SYMBOL_COUNT && rate % 2400 == 0
    ensures rate <= MaximumRate(s) <==> rate * 28 <= 79 * (DataFrames(s) * MappingFrames(s)) * 100
  {
    WithinStep(rate, MaximumRate(s) / 2400, MaximumRate(s));
  }

  /** The switching pattern's bit `mappingFrames - 1 - i` is for mapping frame `i`. */
  datatype Geometry = Geometry(dataFrames: nat, mappingFrames: nat, dataFrameBits: nat,
                               highFrameBits: nat, highFrames: nat, pattern: seq<bool>)
  {
    /** v34_mapping_frame_high. */
    predicate High(i: nat) {
      i < mappingFrames <= |pattern| && pattern[mappingFrames - 1 - i]
    }

    function FrameBits(i: nat): int {
      if High(i) then highFrameBits else highFrameBits - 1
    }

    /** Bits in the first `n` mapping frames. */
    function BitsBefore(n: nat): int {
      if n == 0 then 0 else BitsBefore(n - 1) + FrameBits(n - 1)
    }

    /** High frames among the first `n`. */
    function HighBefore(n: nat): nat {
      if n == 0 then 0 else HighBefore(n - 1) + if High(n - 1) then 1 else 0
    }
  }

  /** What the initialiser gives: high frames spread as evenly as they can be. */
  ghost predicate Framed(g: Geometry, s: nat, rate: nat) {
    && g.dataFrames == DataFrames(s) && g.mappingFrames == MappingFrames(s)
    && g.dataFrameBits * g.dataFrames * 100 == rate * 28
    && 1 <= g.highFrames <= g.mappingFrames
    && (forall i: nat :: i <= g.mappingFrames ==> Spread(g, i))
    && g.BitsBefore(g.mappingFrames) == g.dataFrameBits
  }

  /** Among the first `i` mapping frames, floor(i * highFrames / mappingFrames) are high. */
  ghost predicate Spread(g: Geometry, i: nat) {
    g.mappingFrames > 0 && g.HighBefore(i) == i * g.highFrames / g.mappingFrames
  }

  /** The accumulator: what is carried over and how often it has run over. */
  function Carry(r: nat, p: nat, i: nat): (c: (nat, nat))
    requires 0 < r <= p
    ensures c.0 < p
  {
    if i == 0 then (0, 0)
    else
      var (c, k) := Carry(r, p, i - 1);
      if c + r >= p then (c + r - p, k + 1) else (c + r, k)
  }

  lemma {:induction false} CarryCounts(r: nat, p: nat, i: nat)
    requires 0 < r <= p
    ensures var (c, k) := Carry(r, p, i); i * r == k * p + c && i * r / p == k
  {
    if i > 0 {
      CarryCounts(r, p, i - 1);
      var (c, k) := Carry(r, p, i - 1);
      assert i * r == (i - 1) * r + r;
      assert (k + 1) * p == k * p + p;
    }
    var (c, k) := Carry(r, p, i);
    Quotient(k, p, c);
  }

  lemma Quotient(k: nat, p: nat, c: nat)
    requires c < p
    ensures (k * p + c) / p == k
  {
    var q := (k * p + c) / p;
    assert q * p <= k * p + c < (q + 1) * p;
    if q < k {
      Grows(q + 1, k, p);
    } else if k < q {
      Grows(k + 1, q, p);
    }
  }

  lemma Grows(a: nat, b: nat, d: nat)
    requires a <= b
    ensures a * d <= b * d
  {
  }

  lemma {:induction false} BitsAdd(g: Geometry, n: nat)
    ensures g.BitsBefore(n) == n * (g.highFrameBits - 1) + g.HighBefore(n)
  {
    if n > 0 {
      BitsAdd(g, n - 1);
      assert n * (g.highFrameBits - 1) == (n - 1) * (g.highFrameBits - 1) + (g.highFrameBits - 1);
    }
  }

  /** The pattern follows the accumulator. */
  ghost predicate Follows(g: Geometry, n: nat) {
    && 0 < g.highFrames <= g.mappingFrames == |g.pattern| && n <= g.mappingFrames
    && forall i: nat :: i < n ==>
         (g.High(i) <==> Carry(g.highFrames, g.mappingFrames, i).0 + g.highFrames >= g.mappingFrames)
  }

  lemma {:induction false} FollowsCounts(g: Geometry, n: nat)
    requires Follows(g, n)
    ensures g.HighBefore(n) == Carry(g.highFrames, g.mappingFrames, n).1
  {
    if n > 0 {
      FollowsCounts(g, n - 1);
      assert g.High(n - 1) <==> Carry(g.highFrames, g.mappingFrames, n - 1).0 + g.highFrames >= g.mappingFrames;
    }
  }

  lemma FollowsFramed(g: Geometry, s: nat, rate: nat)
    requires s < SYMBOL_COUNT && Follows(g, g.mappingFrames)
    requires g.dataFrames == DataFrames(s) && g.mappingFrames == MappingFrames(s)
    requires g.dataFrameBits * g.dataFrames * 100 == rate * 28
    requires g.highFrames == g.dataFrameBits - (g.highFrameBits - 1) * g.mappingFrames
    ensures Framed(g, s, rate)
  {
    forall i: nat | i <= g.mappingFrames
      ensures Spread(g, i)
    {
      FollowsCounts(g, i);
      CarryCounts(g.highFrames, g.mappingFrames, i);
    }
    var p := g.mappingFrames;
    BitsAdd(g, p);
    assert Spread(g, p);
    Quotient(g.highFrames, p, 0);
  }

  /** The bit for mapping frame `k`. */
  ghost predicate BitFor(pattern: seq<bool>, p: nat, high: nat, k: nat)
    requires k < p == |pattern| && 0 < high <= p
  {
    pattern[p - 1 - k] <==> Carry(high, p, k).0 + high >= p
  }

  method SwitchingPattern(high: nat, p: nat) returns (pattern: seq<bool>)
    requires 0 < high <= p
    ensures |pattern| == p && forall k: nat :: k < p ==> BitFor(pattern, p, high, k)
  {
    var c := 0;
    pattern := seq(p, i => false);
    for i := 0 to p
      invariant |pattern| == p && c == Carry(high, p, i).0
      invariant forall k: nat :: k < i ==> BitFor(pattern, p, high, k)
      invariant forall m :: 0 <= m < p - i ==> !pattern[m]
    {
      ghost var before := pattern;
      c := c + high;
      if c >= p {
        pattern := pattern[p - 1 - i := true];
        c := c - p;
      }
      forall k: nat | k < i + 1
        ensures BitFor(pattern, p, high, k)
      {
        if k < i {
          assert BitFor(before, p, high, k);
        }
      }
    }
  }

  /** v34_frame_geometry_init. */
  method GeometryInit(s: nat, rate: nat) returns (r: Option<Geometry>)
    ensures r.Some? <==> s < SYMBOL_COUNT && 2400 <= rate <= MaximumRate(s) && rate % 2400 == 0
    ensures r.Some? ==> Framed(r.value, s, rate)
  {
    if s >= SYMBOL_COUNT || rate < 2400 || rate > MaximumRate(s) || rate % 2400 != 0 {
      return None;
    }
    var j, p := DataFrames(s), MappingFrames(s);
    var n := rate * 28 / (100 * j);
    Divides(s, rate, n);
    var b := (n + p - 1) / p;
    RoundUp(n, p, b);
    var high := n - (b - 1) * p;
    var pattern := SwitchingPattern(high, p);
    var g := Geometry(j, p, n, b, high, pattern);
    forall k: nat | k < p
      ensures g.High(k) <==> Carry(high, p, k).0 + high >= p
    {
      assert BitFor(pattern, p, high, k);
    }
    FollowsFramed(g, s, rate);
    return Some(g);
  }

  lemma Divides(s: nat, rate: nat, n: nat)
    requires s < SYMBOL_COUNT && rate % 2400 == 0 && n == rate * 28 / (100 * DataFrames(s))
    ensures n * DataFrames(s) * 100 == rate * 28
    ensures rate >= 2400 ==> n >= 84
  {
    var k := rate / 2400;
    assert rate == 2400 * k;
    assert rate * 28 == 67200 * k;
    if DataFrames(s) == 7 {
      assert n == 96 * k;
    } else {
      assert n == 84 * k;
    }
  }

  lemma RoundUp(n: nat, p: nat, b: nat)
    requires 0 < p && 0 < n && b == (n + p - 1) / p
    ensures b >= 1 && 0 < n - (b - 1) * p <= p
  {
    assert b * p <= n + p - 1 < b * p + p;
    assert (b - 1) * p == b * p - p;
  }

  // ---- Every mapping frame can be parsed -------------------------------------------------------

  /** With a geometry and parameters that both initialisers accept, no mapping frame has a length
      the parser refuses. */
  lemma FramesParse(g: Geometry, s: nat, rate: nat, p: Parameters, i: nat, bits: seq<bool>)
    requires s < SYMBOL_COUNT && 2400 <= rate <= MaximumRate(s) && rate % 2400 == 0 && Framed(g, s, rate)
    requires Parameterised(p) && p.frameBits == g.highFrameBits && i < g.mappingFrames && |bits| == g.FrameBits(i)
    ensures Parse(p, bits).Some? && Accepts(p, |bits|)
  {
    if p.frameBits <= 12 {
      SmallFrames(g, s, rate);
      if !g.High(i) {
        LowFrame(g, i);
      }
    }
  }

  lemma {:induction false} LowFrame(g: Geometry, i: nat)
    requires i < g.mappingFrames && !g.High(i) && g.HighBefore(g.mappingFrames) == g.highFrames
    ensures g.highFrames < g.mappingFrames
  {
    HighAtMost(g, i);
    HighAfter(g, i + 1, g.mappingFrames);
  }

  lemma {:induction false} HighAtMost(g: Geometry, n: nat)
    ensures g.HighBefore(n) <= n
  {
    if n > 0 {
      HighAtMost(g, n - 1);
    }
  }

  lemma {:induction false} HighAfter(g: Geometry, m: nat, n: nat)
    requires m <= n
    ensures g.HighBefore(n) <= g.HighBefore(m) + (n - m)
  {
    if m < n {
      HighAfter(g, m, n - 1);
    }
  }

  /** The short frames there are: 8 or 12 bits, and 12 or 11 bits. */
  lemma SmallFrames(g: Geometry, s: nat, rate: nat)
    requires s < SYMBOL_COUNT && rate % 2400 == 0 && Framed(g, s, rate) && 8 <= g.highFrameBits <= 12
    ensures g.HighBefore(g.mappingFrames) == g.highFrames
    ensures g.highFrameBits == 8 || g.highFrameBits == 12
    ensures g.highFrameBits == 8 ==> g.highFrames == g.mappingFrames
  {
    var p, k := g.mappingFrames, rate / 2400;
    assert Spread(g, p);
    Quotient(g.highFrames, p, 0);
    BitsAdd(g, p);
    DataBits(s, g.dataFrameBits, rate, k);
    SmallCases(s, g.dataFrameBits, k, p, g.highFrameBits, g.highFrames);
  }

  lemma DataBits(s: nat, n: nat, rate: nat, k: nat)
    requires s < SYMBOL_COUNT && rate == 2400 * k && n * DataFrames(s) * 100 == rate * 28
    ensures n == (if DataFrames(s) == 7 then 96 else 84) * k
  {
  }

  lemma SmallCases(s: nat, n: nat, k: nat, p: nat, b: nat, r: nat)
    requires s < SYMBOL_COUNT && p == MappingFrames(s) && n == (if DataFrames(s) == 7 then 96 else 84) * k
    requires 8 <= b <= 12 && 1 <= r <= p && n == p * (b - 1) + r
    ensures b == 8 || b == 12
    ensures b == 8 ==> r == p
  {
    assert k == 1 || k == 2;
  }

  // ---- The symbol clock --------------------------------------------------------------------------

  /** Symbols per second are 2400 * num / den. */
  function RateNum(s: nat): nat {
    if s == 0 then 1 else if s == 1 then 8 else if s == 2 then 7 else if s == 3 then 5 else if s == 4 then 4 else 10
  }

  function RateDen(s: nat): nat {
    if s == 0 then 1 else if s == 1 || s == 5 then 7 else if s == 2 then 6 else if s == 3 then 4 else 3
  }

  class SymbolClock {
    var numerator: nat
    var denominator: nat
    var phase: nat
    var samples: nat
    var symbols: nat

    /** v34_symbol_clock_init. */
    constructor (s: nat, sampleRate: nat)
      requires s < SYMBOL_COUNT && sampleRate > 0
      ensures numerator == 2400 * RateNum(s) && denominator == sampleRate * RateDen(s) > 0
      ensures phase == samples == symbols == 0
    {
      numerator := RateNum(s) * 2400;
      denominator := sampleRate * RateDen(s);
      phase, samples, symbols := 0, 0, 0;
      new;
      Grows(1, sampleRate, RateDen(s));
    }

    /** v34_symbol_clock_tick. */
    method Tick() returns (boundary: bool)
      requires denominator > 0
      modifies this`phase, this`samples, this`symbols
      ensures (phase, symbols) == Ticked(numerator, denominator, old(phase), old(symbols))
      ensures samples == old(samples) + 1 && boundary == (symbols != old(symbols))
    {
      samples := samples + 1;
      phase := phase + numerator;
      if phase >= denominator {
        phase := phase - denominator;
        symbols := symbols + 1;
        return true;
      }
      return false;
    }

    /** So many ticks, one after another. */
    method Ticks(n: nat)
      requires denominator > 0
      modifies this`phase, this`samples, this`symbols
      ensures (phase, symbols) == After(numerator, denominator, old(phase), old(symbols), n)
      ensures samples == old(samples) + n
    {
      for i := 0 to n
        invariant (phase, symbols) == After(numerator, denominator, old(phase), old(symbols), i)
        invariant samples == old(samples) + i
      {
        var boundary := Tick();
      }
    }
  }

  function Ticked(num: nat, den: nat, phase: nat, symbols: nat): (nat, nat) {
    if phase + num >= den then (phase + num - den, symbols + 1) else (phase + num, symbols)
  }

  /** Phase and symbol count after `n` ticks. */
  function After(num: nat, den: nat, phase: nat, symbols: nat, n: nat): (nat, nat) {
    if n == 0 then (phase, symbols)
    else
      var (f, k) := After(num, den, phase, symbols, n - 1);
      Ticked(num, den, f, k)
  }

  /** Nothing is lost between phase and count.  At most one symbol a sample is counted: below the
      symbol rate the phase keeps what is over, above it the count falls behind. */
  lemma {:induction false} ClockKeeps(num: nat, den: nat, phase: nat, symbols: nat, n: nat)
    requires den > 0 && phase < den
    ensures var (f, k) := After(num, den, phase, symbols, n);
      && k >= symbols && (k - symbols) * den + f == phase + n * num
      && (if num <= den then f < den else k - symbols == n)
  {
    if n > 0 {
      ClockKeeps(num, den, phase, symbols, n - 1);
      var (f, k) := After(num, den, phase, symbols, n - 1);
      assert n * num == (n - 1) * num + num;
      assert (k - symbols + 1) * den == (k - symbols) * den + den;
    }
  }

  function Least(a: nat, b: nat): nat {
    if a <= b then a else b
  }

  /** The clock counts the floor of samples times rate, or the samples if those are fewer. */
  lemma ClockCounts(num: nat, den: nat, phase: nat, symbols: nat, n: nat)
    requires den > 0 && phase < den
    ensures After(num, den, phase, symbols, n).1 - symbols == Least(n, (phase + n * num) / den)
    ensures num <= den ==> After(num, den, phase, symbols, n).0 < den && (phase + n * num) / den <= n
  {
    ClockKeeps(num, den, phase, symbols, n);
    var (f, k) := After(num, den, phase, symbols, n);
    if num <= den {
      NotMore(num, den, phase, n);
      BelowFloor(k - symbols, f, n, den, phase + n * num);
    } else {
      AtFloor(f, n, den, phase + n * num);
    }
  }

  lemma NotMore(num: nat, den: nat, phase: nat, n: nat)
    requires num <= den && phase < den
    ensures phase + n * num < n * den + den
  {
    Grows(num, den, n);
  }

  lemma BelowFloor(k: nat, f: nat, n: nat, den: nat, total: nat)
    requires k * den + f == total < n * den + den && f < den
    ensures total / den == k <= n
  {
    Quotient(k, den, f);
    FewerThan(k, n, den, total);
  }

  lemma AtFloor(f: nat, n: nat, den: nat, total: nat)
    requires n * den + f == total && den > 0
    ensures total / den >= n
  {
    var q := total / den;
    Division(total, den, q);
    NoFewerThan(q, n, den, total);
  }

  lemma Division(x: nat, d: nat, q: nat)
    requires d > 0 && q == x / d
    ensures q * d <= x < q * d + d
  {
  }

  lemma NoFewerThan(q: nat, n: nat, den: nat, x: nat)
    requires n * den <= x < q * den + den
    ensures n <= q
  {
    assert (q + 1) * den == q * den + den;
    if n > q {
      Grows(q + 1, n, den);
    }
  }

  lemma FewerThan(q: nat, n: nat, den: nat, x: nat)
    requires q * den <= x < n * den + den
    ensures q <= n
  {
    assert (n + 1) * den == n * den + den;
    if q > n {
      Grows(n + 1, q, den);
    }
  }

  /** So it is the floor after every number of samples if and only if there are at least as many
      samples as symbols. */
  lemma CountsFloorWhen(num: nat, den: nat, phase: nat)
    requires den > 0 && phase < den
    ensures num <= den <==> forall n: nat :: CountsFloor(num, den, phase, n)
  {
    forall n: nat | num <= den
      ensures CountsFloor(num, den, phase, n)
    {
      ClockCounts(num, den, phase, 0, n);
    }
    if num > den {
      var n := den;
      ClockCounts(num, den, phase, 0, n);
      var q := (phase + n * num) / den;
      Division(phase + n * num, den, q);
      Grows(den + 1, num, den);
      assert (den + 1) * den == den * den + den;
      assert num * den == n * num;
      if q <= n {
        Grows(q, n, den);
      }
      assert !CountsFloor(num, den, phase, n);
    }
  }

  predicate CountsFloor(num: nat, den: nat, phase: nat, n: nat)
    requires den > 0
  {
    After(num, den, phase, 0, n).1 == (phase + n * num) / den
  }

  /** v34_samples_for_symbols. */
  function SamplesForSymbols(s: nat, sampleRate: nat, symbols: nat): nat
    requires s < SYMBOL_COUNT && sampleRate > 0
  {
    if symbols == 0 then 0 else RoundedQuotient(symbols * (sampleRate * RateDen(s)), RateNum(s) * 2400)
  }

  function RoundedQuotient(x: nat, d: nat): nat
    requires d > 0
  {
    (x + d - 1) / d
  }

  lemma RoundedUp(x: nat, d: nat, n: nat)
    requires d > 0
    ensures n >= RoundedQuotient(x, d) <==> n * d >= x
  {
    var q := RoundedQuotient(x, d);
    assert q * d <= x + d - 1 < q * d + d;
    if n >= q {
      Grows(q, n, d);
    } else {
      Grows(n + 1, q, d);
      assert (n + 1) * d == n * d + d;
    }
  }

  /** `k` whole `d`s fit into the total. */
  lemma Threshold(k: nat, d: nat, f: nat, total: nat, n: nat)
    requires f < d && k * d + f == total
    ensures k >= n <==> total >= n * d
  {
    if k >= n {
      Grows(n, k, d);
    } else {
      Grows(k + 1, n, d);
      assert (k + 1) * d == k * d + d;
    }
  }

  /** Symbols after `n` samples of a clock started at phase zero. */
  function Symbols(s: nat, sampleRate: nat, n: nat): nat {
    After(RateNum(s) * 2400, sampleRate * RateDen(s), 0, 0, n).1
  }

  /** Such a clock has reached `symbols` symbols exactly when `n` is at least the computed number,
      and there has been a sample for each. */
  lemma SamplesReach(s: nat, sampleRate: nat, symbols: nat, n: nat)
    requires s < SYMBOL_COUNT && sampleRate > 0
    ensures Symbols(s, sampleRate, n) >= symbols <==> n >= SamplesForSymbols(s, sampleRate, symbols) && n >= symbols
  {
    var num, den := RateNum(s) * 2400, sampleRate * RateDen(s);
    Grows(1, sampleRate, RateDen(s));
    ReachesFirst(num, den, symbols, n);
    if symbols == 0 {
      RoundedUp(0, num, 0);
    }
  }

  lemma ReachesFirst(num: nat, den: nat, symbols: nat, n: nat)
    requires num > 0 && den > 0
    ensures After(num, den, 0, 0, n).1 >= symbols <==> n >= RoundedQuotient(symbols * den, num) && n >= symbols
  {
    ClockCounts(num, den, 0, 0, n);
    var q := n * num / den;
    Division(n * num, den, q);
    Threshold(q, den, n * num - q * den, n * num, symbols);
    RoundedUp(symbols * den, num, n);
  }

  /** At no less than the symbol rate the computed number is the first sample that reaches so many
      symbols. */
  lemma SamplesAreFirst(s: nat, sampleRate: nat, symbols: nat)
    requires s < SYMBOL_COUNT && sampleRate > 0 && RateNum(s) * 2400 <= sampleRate * RateDen(s)
    ensures forall n: nat :: Symbols(s, sampleRate, n) >= symbols <==> n >= SamplesForSymbols(s, sampleRate, symbols)
  {
    var num, den := RateNum(s) * 2400, sampleRate * RateDen(s);
    var first := SamplesForSymbols(s, sampleRate, symbols);
    if symbols > 0 {
      RoundedUp(symbols * den, num, symbols - 1);
      Grows(num, den, symbols);
      assert symbols * num == (symbols - 1) * num + num;
    }
    forall n: nat
      ensures Symbols(s, sampleRate, n) >= symbols <==> n >= first
    {
      SamplesReach(s, sampleRate, symbols, n);
    }
  }

  /** At any rate, that is so if and only if it is no less than the number of symbols. */
  lemma SamplesFirstWhen(s: nat, sampleRate: nat, symbols: nat)
    requires s < SYMBOL_COUNT && sampleRate > 0
    ensures var first := SamplesForSymbols(s, sampleRate, symbols);
      first >= symbols <==> forall n: nat :: Symbols(s, sampleRate, n) >= symbols <==> n >= first
  {
    var first := SamplesForSymbols(s, sampleRate, symbols);
    forall n: nat
      ensures Symbols(s, sampleRate, n) >= symbols <==> n >= first && n >= symbols
    {
      SamplesReach(s, sampleRate, symbols, n);
    }
    assert Symbols(s, sampleRate, first) >= symbols <==> first >= symbols;
  }

  /** Symbols in a superframe: two in each of the four intervals of every mapping frame. */
  function SuperframeSymbols(s: nat): nat {
    8 * MappingFrames(s) * DataFrames(s)
  }

  const SUPERFRAME_SAMPLES: nat := 2240

  /** At 8000 samples a second, from any phase a symbol boundary can leave, the last symbol of a
      superframe ends on sample 2240 exactly, and the phase is what it was. */
  lemma SuperframeTakes2240(s: nat, phase: nat, n: nat)
    requires s < SYMBOL_COUNT && phase < RateNum(s) * 2400
    ensures var num, den := RateNum(s) * 2400, 8000 * RateDen(s);
      && (After(num, den, phase, 0, n).1 >= SuperframeSymbols(s) <==> n >= SUPERFRAME_SAMPLES)
      && After(num, den, phase, 0, SUPERFRAME_SAMPLES) == (phase, SuperframeSymbols(s))
  {
    var num, den := RateNum(s) * 2400, 8000 * RateDen(s);
    assert SuperframeSymbols(s) * den == SUPERFRAME_SAMPLES * num;
    Reaches(num, den, phase, SuperframeSymbols(s), SUPERFRAME_SAMPLES, n);
  }

  lemma Late(phase: nat, num: nat, n: nat, samples: nat)
    requires phase < num
    ensures phase + n * num >= samples * num <==> n >= samples
  {
    Threshold(n, num, phase, n * num + phase, samples);
  }

  lemma Reaches(num: nat, den: nat, phase: nat, symbols: nat, samples: nat, n: nat)
    requires 0 < num <= den && phase < num && symbols * den == samples * num
    ensures After(num, den, phase, 0, n).1 >= symbols <==> n >= samples
    ensures After(num, den, phase, 0, samples) == (phase, symbols)
  {
    ClockKeeps(num, den, phase, 0, n);
    var (f, k) := After(num, den, phase, 0, n);
    Threshold(k, den, f, phase + n * num, symbols);
    Late(phase, num, n, samples);
    ClockKeeps(num, den, phase, 0, samples);
    var (g, j) := After(num, den, phase, 0, samples);
    Quotient(symbols, den, phase);
    Quotient(j, den, g);
  }
}
