/** The modulation parameter sequence of Phase 4: its 88-bit frame, and the rates two of them
    settle on (src/v34_mp.c). */
module V34Mp {
  import opened Wrappers
  import opened Bits
  import opened Hdlc
  import opened HdlcErrors

  const FRAME_BITS: nat := 88
  const RATE_STEP: nat := 2400
  const RATE_COUNT: nat := 14

  /** `rates[i]` offers (i + 1) * 2400 bit/s; the word has sixteen places. */
  datatype Mp = Mp(callToAnswer: nat, answerToCall: nat, auxiliary: bool, trellis: nat, nonlinear: bool,
                   shaping: bool, acknowledge: bool, rates: seq<bool>, asymmetric: bool)

  predicate Offers(rates: seq<bool>) {
    |rates| == 16 && !rates[14] && !rates[15] && exists i :: 0 <= i < RATE_COUNT && rates[i]
  }

  /** valid. */
  predicate ValidMp(m: Mp) {
    1 <= m.callToAnswer <= 14 && 1 <= m.answerToCall <= 14 && m.trellis <= 2 && Offers(m.rates)
  }

  // ---- The check sequence ------------------------------------------------------------------

  /** One bit enters the register: the polynomial is that of HDLC. */
  function CrcBit(crc: Word, bit: bool): Word {
    FcsShift(crc[0 := crc[0] != bit])
  }

  function Crc(bits: seq<bool>): Word {
    if bits == [] then Ones(16) else CrcBit(Crc(bits[..|bits| - 1]), bits[|bits| - 1])
  }

  /** What the check sequence covers. */
  function Covered(f: seq<bool>): (r: seq<bool>)
    requires |f| >= 68
    ensures |r| == 48
  {
    f[18..34] + f[35..51] + f[52..68]
  }

  /** v34_info_crc. */
  method InfoCrc(bits: seq<bool>) returns (crc: Word)
    ensures crc == Crc(bits)
  {
    crc := Ones(16);
    for i := 0 to |bits|
      invariant crc == Crc(bits[..i])
    {
      assert bits[..i + 1][..i] == bits[..i];
      var feedback := crc[0] != bits[i];
      crc := FcsShift(crc[0 := feedback]);
    }
    assert bits[..|bits|] == bits;
  }

  // ---- The frame -------------------------------------------------------------------------------

  /** Everything in front of the check sequence. */
  function Body(m: Mp): (f: seq<bool>)
    requires |m.rates| == 16
    ensures |f| == 69
  {
    Ones(17) + Zeros(3) + ToBits(m.callToAnswer, 4) + ToBits(m.answerToCall, 4) + [m.auxiliary] + ToBits(m.trellis, 2)
    + [m.nonlinear, m.shaping, m.acknowledge, false] + m.rates[..14] + [false, m.asymmetric] + Zeros(18)
  }

  function FrameOf(m: Mp): (f: seq<bool>)
    requires |m.rates| == 16
    ensures |f| == FRAME_BITS
  {
    Body(m) + Crc(Covered(Body(m))) + Zeros(3)
  }

  function FieldsOf(f: seq<bool>): Mp
    requires |f| == FRAME_BITS
  {
    Mp(FromBits(f[20..24]), FromBits(f[24..28]), f[28], FromBits(f[29..31]), f[31], f[32], f[33],
       f[35..49] + [false, false], f[50])
  }

  /** The bits every frame has. */
  predicate Fixed(f: seq<bool>)
    requires |f| == FRAME_BITS
  {
    && f[..17] == Ones(17) && !f[17] && !f[18] && !f[19] && !f[34] && !f[49] && !f[51]
    && f[52..68] == Zeros(16) && !f[68] && f[85..88] == Zeros(3)
  }

  /** What v34_mp0_decode accepts, and as what. */
  function DecodeOf(f: seq<bool>): Option<Mp>
    requires |f| == FRAME_BITS
  {
    if Fixed(f) && f[69..85] == Crc(Covered(f)) && ValidMp(FieldsOf(f)) then Some(FieldsOf(f)) else None
  }

  lemma BodyFields(m: Mp)
    requires |m.rates| == 16
    ensures var f := FrameOf(m);
      && Fixed(f) && f[20..24] == ToBits(m.callToAnswer, 4) && f[24..28] == ToBits(m.answerToCall, 4)
      && f[28] == m.auxiliary && f[29..31] == ToBits(m.trellis, 2) && f[31] == m.nonlinear && f[32] == m.shaping
      && f[33] == m.acknowledge && f[35..49] == m.rates[..14] && f[50] == m.asymmetric
      && f[69..85] == Crc(Covered(Body(m))) && Covered(f) == Covered(Body(m))
  {
    var f, b := FrameOf(m), Body(m);
    assert f[..69] == b;
    assert f[18..34] == b[18..34] && f[35..51] == b[35..51] && f[52..68] == b[52..68];
    assert b[51..] == Zeros(18);
  }

  lemma NibbleValues()
    ensures Pow2(4) == 16 && Pow2(2) == 4
  {
  }

  /** Every valid sequence comes back from its frame. */
  lemma DecodeEncode(m: Mp)
    requires ValidMp(m)
    ensures DecodeOf(FrameOf(m)) == Some(m)
  {
    BodyFields(m);
    NibbleValues();
    FromToBits(m.callToAnswer, 4);
    FromToBits(m.answerToCall, 4);
    FromToBits(m.trellis, 2);
    assert m.rates == m.rates[..14] + [false, false];
  }

  lemma FieldsBack(f: seq<bool>)
    requires |f| == FRAME_BITS
    ensures var m := FieldsOf(f);
      && ToBits(m.callToAnswer, 4) == f[20..24] && ToBits(m.answerToCall, 4) == f[24..28]
      && ToBits(m.trellis, 2) == f[29..31]
      && m.rates[..14] == f[35..49]
  {
    ToFromBits(f[20..24]);
    ToFromBits(f[24..28]);
    ToFromBits(f[29..31]);
  }

  lemma SameFrame(f: seq<bool>, g: seq<bool>)
    requires |f| == |g| == FRAME_BITS && f[..69] == g[..69] && f[85..88] == g[85..88]
    requires f[69..85] == Crc(Covered(f)) && g[69..85] == Crc(Covered(g))
    ensures f == g
  {
    assert f[18..34] == f[..69][18..34] && f[35..51] == f[..69][35..51] && f[52..68] == f[..69][52..68];
    assert g[18..34] == g[..69][18..34] && g[35..51] == g[..69][35..51] && g[52..68] == g[..69][52..68];
    assert f == f[..69] + f[69..85] + f[85..88] && g == g[..69] + g[69..85] + g[85..88];
  }

  /** And whatever is accepted is the frame of what was read: no two frames mean the same. */
  lemma EncodeDecode(f: seq<bool>)
    requires |f| == FRAME_BITS && DecodeOf(f).Some?
    ensures ValidMp(DecodeOf(f).value) && FrameOf(DecodeOf(f).value) == f
  {
    FieldsBack(f);
    BodyFields(FieldsOf(f));
    SameBody(f, FrameOf(FieldsOf(f)));
    SameFrame(f, FrameOf(FieldsOf(f)));
  }

  lemma SameBody(f: seq<bool>, g: seq<bool>)
    requires |f| == |g| == FRAME_BITS && Fixed(f) && Fixed(g)
    requires f[20..24] == g[20..24] && f[24..28] == g[24..28] && f[28] == g[28] && f[29..31] == g[29..31]
    requires f[31] == g[31] && f[32] == g[32] && f[33] == g[33] && f[35..49] == g[35..49] && f[50] == g[50]
    ensures f[..69] == g[..69]
  {
    assert f[..20] == f[..17] + [f[17], f[18], f[19]] && g[..20] == g[..17] + [g[17], g[18], g[19]];
    assert f[20..31] == f[20..24] + f[24..28] + [f[28]] + f[29..31];
    assert g[20..31] == g[20..24] + g[24..28] + [g[28]] + g[29..31];
    assert f[31..50] == [f[31], f[32], f[33], f[34]] + f[35..49] + [f[49]];
    assert g[31..50] == [g[31], g[32], g[33], g[34]] + g[35..49] + [g[49]];
    assert f[50..69] == [f[50], f[51]] + f[52..68] + [f[68]] && g[50..69] == [g[50], g[51]] + g[52..68] + [g[68]];
    assert f[..69] == f[..20] + f[20..31] + f[31..50] + f[50..69];
    assert g[..69] == g[..20] + g[20..31] + g[31..50] + g[50..69];
  }

  // ---- Reading and writing the buffer ---------------------------------------------------------------

  /** putb, the bits of the value given. */
  method PutBits(f: array<bool>, o: nat, bits: seq<bool>)
    requires o + |bits| <= f.Length
    modifies f
    ensures f[..] == old(f[..o]) + bits + old(f[o + |bits|..])
  {
    ghost var before := f[..];
    for i := 0 to |bits|
      invariant forall k :: 0 <= k < f.Length ==> f[k] == if o <= k < o + i then bits[k - o] else before[k]
    {
      f[o + i] := bits[i];
    }
  }

  /** So far written, and nothing after it. */
  ghost predicate Written(f: seq<bool>, prefix: seq<bool>) {
    |f| == FRAME_BITS && |prefix| <= FRAME_BITS && f == prefix + Zeros(FRAME_BITS - |prefix|)
  }

  lemma WrittenOn(f: seq<bool>, prefix: seq<bool>, gap: nat, bits: seq<bool>, g: seq<bool>)
    requires Written(f, prefix) && |prefix| + gap + |bits| <= FRAME_BITS
    requires g == f[..|prefix| + gap] + bits + f[|prefix| + gap + |bits|..]
    ensures Written(g, prefix + Zeros(gap) + bits)
  {
  }

  /** One field, some zeros after what is there. */
  method PutField(f: array<bool>, o: nat, bits: seq<bool>, ghost prefix: seq<bool>)
    requires f.Length == FRAME_BITS && |prefix| <= o && o + |bits| <= FRAME_BITS && Written(f[..], prefix)
    modifies f
    ensures Written(f[..], prefix + Zeros(o - |prefix|) + bits)
  {
    ghost var before := f[..];
    PutBits(f, o, bits);
    WrittenOn(before, prefix, o - |prefix|, bits, f[..]);
  }

  /** crc48. */
  method Crc48(f: seq<bool>) returns (crc: Word)
    requires |f| == FRAME_BITS
    ensures crc == Crc(Covered(f))
  {
    crc := InfoCrc(f[18..34] + f[35..51] + f[52..68]);
  }

  /** v34_mp0_encode. */
  method Encode(m: Mp, f: array<bool>) returns (ok: bool)
    requires f.Length == FRAME_BITS
    modifies f
    ensures ok <==> ValidMp(m)
    ensures if ok then f[..] == FrameOf(m) else f[..] == old(f[..])
  {
    if !ValidMp(m) {
      return false;
    }
    for i := 0 to FRAME_BITS
      invariant forall k :: 0 <= k < i ==> !f[k]
    {
      f[i] := false;
    }
    PutFields(m, f);
    var crc := Crc48(f[..]);
    assert Covered(f[..]) == Covered(Body(m));
    PutField(f, 69, crc, Body(m));
    return true;
  }

  /** A field right after what is there. */
  method PutNext(f: array<bool>, o: nat, bits: seq<bool>, ghost prefix: seq<bool>)
    requires f.Length == FRAME_BITS && |prefix| == o && o + |bits| <= FRAME_BITS && Written(f[..], prefix)
    modifies f
    ensures Written(f[..], prefix + bits)
  {
    PutField(f, o, bits, prefix);
    assert prefix + Zeros(0) == prefix;
  }

  ghost function Head(m: Mp): (f: seq<bool>)
    ensures |f| == 31
  {
    Ones(17) + Zeros(3) + ToBits(m.callToAnswer, 4) + ToBits(m.answerToCall, 4) + [m.auxiliary] + ToBits(m.trellis, 2)
  }

  method PutHead(m: Mp, f: array<bool>)
    requires f.Length == FRAME_BITS && Written(f[..], [])
    modifies f
    ensures Written(f[..], Head(m))
  {
    PutNext(f, 0, Ones(17), []);
    assert [] + Ones(17) == Ones(17);
    PutField(f, 20, ToBits(m.callToAnswer, 4), Ones(17));
    ghost var p := Ones(17) + Zeros(3) + ToBits(m.callToAnswer, 4);
    PutNext(f, 24, ToBits(m.answerToCall, 4), p);
    PutNext(f, 28, [m.auxiliary], p + ToBits(m.answerToCall, 4));
    PutNext(f, 29, ToBits(m.trellis, 2), p + ToBits(m.answerToCall, 4) + [m.auxiliary]);
  }

  method PutFields(m: Mp, f: array<bool>)
    requires f.Length == FRAME_BITS && Written(f[..], []) && |m.rates| == 16
    modifies f
    ensures Written(f[..], Body(m))
  {
    PutHead(m, f);
    PutNext(f, 31, [m.nonlinear], Head(m));
    PutNext(f, 32, [m.shaping], Head(m) + [m.nonlinear]);
    PutNext(f, 33, [m.acknowledge], Head(m) + [m.nonlinear] + [m.shaping]);
    ghost var p := Head(m) + [m.nonlinear] + [m.shaping] + [m.acknowledge];
    PutField(f, 35, m.rates[..14], p);
    PutField(f, 50, [m.asymmetric], p + Zeros(1) + m.rates[..14]);
    BodyWritten(m, p, f[..]);
  }

  lemma BodyWritten(m: Mp, p: seq<bool>, f: seq<bool>)
    requires |m.rates| == 16 && p == Head(m) + [m.nonlinear] + [m.shaping] + [m.acknowledge]
    requires Written(f, p + Zeros(1) + m.rates[..14] + Zeros(1) + [m.asymmetric])
    ensures Written(f, Body(m))
  {
    var q := p + Zeros(1) + m.rates[..14] + Zeros(1) + [m.asymmetric];
    assert Body(m) == q + Zeros(18);
    assert q + Zeros(FRAME_BITS - |q|) == (q + Zeros(18)) + Zeros(FRAME_BITS - |q| - 18);
  }

  /** v34_mp0_decode. */
  method Decode(f: seq<bool>) returns (m: Option<Mp>)
    requires |f| == FRAME_BITS
    ensures m == DecodeOf(f)
  {
    if f[..17] != Ones(17) || f[17] || f[18] || f[19] || f[34] || f[49] || f[51] || f[52..68] != Zeros(16) || f[68]
      || f[85..88] != Zeros(3) {
      return None;
    }
    var crc := Crc48(f);
    if f[69..85] != crc {
      return None;
    }
    var read := Mp(FromBits(f[20..24]), FromBits(f[24..28]), f[28], FromBits(f[29..31]), f[31], f[32], f[33],
                   f[35..49] + [false, false], f[50]);
    if !ValidMp(read) {
      return None;
    }
    return Some(read);
  }

  // ---- The rates two ends settle on ------------------------------------------------------------------

  predicate Both(l: Mp, r: Mp, i: nat) {
    i < |l.rates| && i < |r.rates| && l.rates[i] && r.rates[i]
  }

  /** The greatest rate below place `n` that both offer and `cap` allows; 0 if there is none. */
  function Greatest(l: Mp, r: Mp, cap: nat, n: nat): nat {
    if n == 0 then 0
    else if Both(l, r, n - 1) && n * RATE_STEP <= cap then n * RATE_STEP
    else Greatest(l, r, cap, n - 1)
  }

  /** It is one both offer, and no other they could have taken is greater. */
  lemma {:induction false} GreatestIs(l: Mp, r: Mp, cap: nat, n: nat, i: nat)
    ensures var g := Greatest(l, r, cap, n);
      && g <= cap && (g > 0 ==> exists k: nat :: k < n && Both(l, r, k) && g == (k + 1) * RATE_STEP)
      && (i < n && Both(l, r, i) && (i + 1) * RATE_STEP <= cap ==> (i + 1) * RATE_STEP <= g)
  {
    if n > 0 {
      GreatestIs(l, r, cap, n - 1, i);
      if Both(l, r, n - 1) && n * RATE_STEP <= cap {
        assert n * RATE_STEP == (n - 1 + 1) * RATE_STEP;
      }
    }
  }

  lemma {:induction false} GreatestSame(l: Mp, r: Mp, cap: nat, n: nat)
    ensures Greatest(l, r, cap, n) == Greatest(r, l, cap, n)
  {
    if n > 0 {
      GreatestSame(l, r, cap, n - 1);
    }
  }

  function Least(a: nat, b: nat): nat {
    if a < b then a else b
  }

  /** The rate from the calling end, and the rate to it. */
  datatype Final = Final(callToAnswer: nat, answerToCall: nat, asymmetric: bool)

  function CapToAnswer(l: Mp, r: Mp, maximum: nat): nat {
    Least(Least(l.callToAnswer * RATE_STEP, r.callToAnswer * RATE_STEP), maximum)
  }

  function CapToCall(l: Mp, r: Mp, maximum: nat): nat {
    Least(Least(l.answerToCall * RATE_STEP, r.answerToCall * RATE_STEP), maximum)
  }

  function Settled(l: Mp, r: Mp, maximum: nat): Option<Final> {
    var c, a := CapToAnswer(l, r, maximum), CapToCall(l, r, maximum);
    var there, back := Greatest(l, r, c, RATE_COUNT), Greatest(l, r, a, RATE_COUNT);
    var common := Greatest(l, r, Least(c, a), RATE_COUNT);
    if !ValidMp(l) || !ValidMp(r) then None
    else if !(l.asymmetric && r.asymmetric) then
      if common == 0 then None else Some(Final(common, common, false))
    else if there == 0 || back == 0 then None else Some(Final(there, back, true))
  }

  /** A rate both offer, within the maximum, within both limits of the direction from the calling end
      if `there` and of the one to it if `back`. */
  ghost predicate MayRun(l: Mp, r: Mp, maximum: nat, rate: nat, there: bool, back: bool) {
    && (exists i: nat :: i < RATE_COUNT && Both(l, r, i) && rate == (i + 1) * RATE_STEP) && rate <= maximum
    && (there ==> rate <= l.callToAnswer * RATE_STEP && rate <= r.callToAnswer * RATE_STEP)
    && (back ==> rate <= l.answerToCall * RATE_STEP && rate <= r.answerToCall * RATE_STEP)
  }

  ghost predicate Best(l: Mp, r: Mp, maximum: nat, rate: nat, there: bool, back: bool) {
    MayRun(l, r, maximum, rate, there, back)
    && forall other: nat :: MayRun(l, r, maximum, other, there, back) ==> other <= rate
  }

  ghost predicate AnyRuns(l: Mp, r: Mp, maximum: nat, there: bool, back: bool) {
    exists rate: nat :: MayRun(l, r, maximum, rate, there, back)
  }

  ghost predicate Allows(l: Mp, r: Mp, maximum: nat, cap: nat, there: bool, back: bool) {
    forall rate: nat :: MayRun(l, r, maximum, rate, there, back) ==> rate <= cap
  }

  /** With the limits put into one number. */
  lemma GreatestBest(l: Mp, r: Mp, maximum: nat, cap: nat, there: bool, back: bool)
    requires cap <= maximum && Allows(l, r, maximum, cap, there, back)
    requires there ==> cap <= l.callToAnswer * RATE_STEP && cap <= r.callToAnswer * RATE_STEP
    requires back ==> cap <= l.answerToCall * RATE_STEP && cap <= r.answerToCall * RATE_STEP
    ensures var g := Greatest(l, r, cap, RATE_COUNT);
      if g > 0 then Best(l, r, maximum, g, there, back) else !AnyRuns(l, r, maximum, there, back)
  {
    var g := Greatest(l, r, cap, RATE_COUNT);
    GreatestIs(l, r, cap, RATE_COUNT, 0);
    forall rate: nat | MayRun(l, r, maximum, rate, there, back)
      ensures 0 < rate <= g
    {
      var i: nat :| i < RATE_COUNT && Both(l, r, i) && rate == (i + 1) * RATE_STEP;
      GreatestIs(l, r, cap, RATE_COUNT, i);
    }
  }

  /** What the two ends may settle on: each direction's own greatest rate if both ends want that, the
      greatest that suits both directions if not, and nothing exactly when there is none. */
  ghost predicate SettlesOn(l: Mp, r: Mp, maximum: nat, final: Option<Final>) {
    if !ValidMp(l) || !ValidMp(r) then final.None?
    else if l.asymmetric && r.asymmetric then
      match final
      case None => !AnyRuns(l, r, maximum, true, false) || !AnyRuns(l, r, maximum, false, true)
      case Some(f) =>
        && f.asymmetric && Best(l, r, maximum, f.callToAnswer, true, false)
        && Best(l, r, maximum, f.answerToCall, false, true)
    else
      match final
      case None => !AnyRuns(l, r, maximum, true, true)
      case Some(f) =>
        !f.asymmetric && f.callToAnswer == f.answerToCall && Best(l, r, maximum, f.callToAnswer, true, true)
  }

  lemma SettledRight(l: Mp, r: Mp, maximum: nat)
    ensures SettlesOn(l, r, maximum, Settled(l, r, maximum))
  {
    var c, a := CapToAnswer(l, r, maximum), CapToCall(l, r, maximum);
    GreatestBest(l, r, maximum, c, true, false);
    GreatestBest(l, r, maximum, a, false, true);
    GreatestBest(l, r, maximum, Least(c, a), true, true);
  }

  /** Both ends settle on the same, whichever calls the other remote. */
  lemma SettledAlike(l: Mp, r: Mp, maximum: nat)
    ensures Settled(l, r, maximum) == Settled(r, l, maximum)
  {
    var c, a := CapToAnswer(l, r, maximum), CapToCall(l, r, maximum);
    GreatestSame(l, r, c, RATE_COUNT);
    GreatestSame(l, r, a, RATE_COUNT);
    GreatestSame(l, r, Least(c, a), RATE_COUNT);
  }

  /** v34_rates_up_to. */
  function RatesUpTo(maximum: nat): (rates: seq<bool>)
    ensures |rates| == 16 && forall i :: 0 <= i < RATE_COUNT ==> (rates[i] <==> Affords(maximum, i))
  {
    var count := maximum / RATE_STEP;
    if maximum < RATE_STEP then Zeros(16)
    else if maximum >= RATE_COUNT * RATE_STEP then Ones(14) + Zeros(2)
    else Upto(maximum, count); seq(16, i requires 0 <= i => i < count)
  }

  lemma Upto(maximum: nat, count: nat)
    requires count == maximum / RATE_STEP
    ensures forall i: nat :: Affords(maximum, i) <==> i < count
  {
  }

  predicate Affords(maximum: nat, i: nat) {
    (i + 1) * RATE_STEP <= maximum
  }

  /** v34_highest_rate, on the rates both offer up to a limit. */
  method SelectRate(l: Mp, r: Mp, mask: seq<bool>, cap: nat) returns (rate: nat)
    requires |mask| == 16 && forall i :: 0 <= i < RATE_COUNT ==> (mask[i] <==> Both(l, r, i))
    ensures rate == Greatest(l, r, cap, RATE_COUNT)
  {
    var allowed := RatesUpTo(cap);
    var i := RATE_COUNT;
    while i > 0
      invariant 0 <= i <= RATE_COUNT && Greatest(l, r, cap, i) == Greatest(l, r, cap, RATE_COUNT)
    {
      if mask[i - 1] && allowed[i - 1] {
        return i * RATE_STEP;
      }
      i := i - 1;
    }
    return 0;
  }

  /** v34_mp0_negotiate_rates. */
  method Negotiate(l: Mp, r: Mp, maximum: nat) returns (final: Option<Final>)
    ensures final == Settled(l, r, maximum) && SettlesOn(l, r, maximum, final)
  {
    SettledRight(l, r, maximum);
    if !ValidMp(l) || !ValidMp(r) {
      return None;
    }
    var mask := seq(16, i requires 0 <= i < 16 => l.rates[i] && r.rates[i]);
    var c := Least(Least(l.callToAnswer * RATE_STEP, r.callToAnswer * RATE_STEP), maximum);
    var a := Least(Least(l.answerToCall * RATE_STEP, r.answerToCall * RATE_STEP), maximum);
    if !(l.asymmetric && r.asymmetric) {
      var common := SelectRate(l, r, mask, Least(c, a));
      if common == 0 {
        return None;
      }
      return Some(Final(common, common, false));
    }
    var there := SelectRate(l, r, mask, c);
    var back := SelectRate(l, r, mask, a);
    if there == 0 || back == 0 {
      return None;
    }
    return Some(Final(there, back, true));
  }
  lemma {:induction false} GreatestOffered(l: Mp, r: Mp, k: nat, n: nat)
    requires 1 <= k <= n && (forall i: nat :: i < n ==> Both(l, r, i))
    ensures Greatest(l, r, k * RATE_STEP, n) == k * RATE_STEP
  {
    assert Both(l, r, n - 1);
    if k < n {
      GreatestOffered(l, r, k, n - 1);
    }
  }

  /** Ends that offer all rates and limit them to 33600 and 28800, and to 31200 and 24000 bit/s. */
  lemma RatesKnown(l: Mp, r: Mp, maximum: nat)
    requires ValidMp(l) && ValidMp(r) && forall i :: 0 <= i < RATE_COUNT ==> l.rates[i] && r.rates[i]
    requires l.callToAnswer == 14 && l.answerToCall == 12 && r.callToAnswer == 13 && r.answerToCall == 10
    ensures l.asymmetric && r.asymmetric && maximum == 33600 ==>
      Settled(l, r, maximum) == Some(Final(31200, 24000, true))
    ensures !r.asymmetric && maximum == 33600 ==> Settled(l, r, maximum) == Some(Final(24000, 24000, false))
    ensures !r.asymmetric && maximum == 19200 ==> Settled(l, r, maximum) == Some(Final(19200, 19200, false))
  {
    GreatestOffered(l, r, 13, RATE_COUNT);
    GreatestOffered(l, r, 10, RATE_COUNT);
    GreatestOffered(l, r, 8, RATE_COUNT);
  }

  // ---- What the check sequence refuses -------------------------------------------------------------

  lemma {:induction false} CrcFeeds(bits: seq<bool>)
    ensures Crc(bits) == Feed(FCS_START, bits)
  {
    if bits != [] {
      var n := |bits| - 1;
      CrcFeeds(bits[..n]);
      EnterBit(Crc(bits[..n]), bits[n]);
    }
  }

  lemma EnterBit(crc: Word, bit: bool)
    ensures crc[0 := crc[0] != bit] == Xor(crc, Low([bit]))
  {
  }

  lemma SameCovered(f: seq<bool>, g: seq<bool>)
    requires |f| == |g| == FRAME_BITS && Covered(f) == Covered(g) && Fixed(f) && Fixed(g)
    ensures f[..69] == g[..69] && f[85..88] == g[85..88]
  {
    var u, v := Covered(f), Covered(g);
    assert f[18..34] == u[..16] && f[35..51] == u[16..32] && f[52..68] == u[32..];
    assert g[18..34] == v[..16] && g[35..51] == v[16..32] && g[52..68] == v[32..];
    assert f[..69] == f[..17] + [f[17]] + f[18..34] + [f[34]] + f[35..51] + [f[51]] + f[52..68] + [f[68]];
    assert g[..69] == g[..17] + [g[17]] + g[18..34] + [g[34]] + g[35..51] + [g[51]] + g[52..68] + [g[68]];
  }

  /** An accepted frame of which up to sixteen covered bits in a row were changed is refused. */
  lemma BurstRefused(f: seq<bool>, g: seq<bool>, from: nat)
    requires |f| == |g| == FRAME_BITS && DecodeOf(f).Some? && Burst(Covered(f), Covered(g), from)
    requires f[69..85] == g[69..85] && f != g
    ensures DecodeOf(g).None?
  {
    if DecodeOf(g).Some? {
      CrcFeeds(Covered(f));
      CrcFeeds(Covered(g));
      BurstTells(FCS_START, Covered(f), Covered(g), from);
      SameCovered(f, g);
      SameFrame(f, g);
    }
  }
}
