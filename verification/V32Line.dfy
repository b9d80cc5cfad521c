/** Bits to trellis branches and back: scrambling, differential coding and the split into coded
    and uncoded bits (v32bis_data_next and v32bis_data_put in src/v32bis_data.c, the tables of
    src/v32_std.c). */
module V32Line {
  import opened Lockstep
  import opened Scrambler
  import opened V32Map
  import opened V32Trellis

  /** v32bis_trellis_diff_encode. */
  function DiffEncode(q: nat, previous: nat): (y: nat)
    ensures previous < 4 ==> y < 4
  {
    if q == 0 then Pick(previous, 0, 1, 2, 3)
    else if q == 1 then Pick(previous, 1, 0, 3, 2)
    else if q == 2 then Pick(previous, 2, 3, 1, 0)
    else Pick(previous, 3, 2, 0, 1)
  }

  /** v32bis_trellis_diff_decode: the first dibit that encodes to this one. */
  function DiffDecode(y: nat, previous: nat): nat {
    if DiffEncode(0, previous) == y then 0
    else if DiffEncode(1, previous) == y then 1
    else if DiffEncode(2, previous) == y then 2
    else 3
  }

  /** The decoder undoes the encoder, and every dibit is the code of one. */
  lemma DiffInverse(q: nat, previous: nat)
    requires q < 4 && previous < 4
    ensures DiffDecode(DiffEncode(q, previous), previous) == q
    ensures DiffEncode(DiffDecode(q, previous), previous) == q
  {
  }

  /** From dibit 0 a dibit is coded as itself, and dibit 0 repeats the last. */
  lemma DiffFrom(q: nat, previous: nat)
    requires q < 4 && previous < 4
    ensures DiffEncode(q, 0) == q && DiffEncode(0, previous) == previous
  {
  }

  // ---- Numbers, most significant bit first ---------------------------------------------------

  function Msb(s: seq<bool>): nat {
    if s == [] then 0 else 2 * Msb(s[..|s| - 1]) + if s[|s| - 1] then 1 else 0
  }

  /** The number the bits from place `k` on stand for. */
  function MsbFrom(s: seq<bool>, k: nat): nat {
    if |s| <= k then 0 else 2 * MsbFrom(s[..|s| - 1], k) + if s[|s| - 1] then 1 else 0
  }

  lemma {:induction false} MsbFromIs(s: seq<bool>, k: nat)
    requires k <= |s|
    ensures MsbFrom(s, k) == Msb(s[k..])
  {
    if |s| > k {
      MsbFromIs(s[..|s| - 1], k);
      assert s[k..][..|s| - 1 - k] == s[..|s| - 1][k..];
    }
  }

  function MsbBits(x: nat, n: nat): (s: seq<bool>)
    ensures |s| == n
  {
    if n == 0 then [] else MsbBits(x / 2, n - 1) + [x % 2 == 1]
  }

  function Power(n: nat): nat {
    if n == 0 then 1 else 2 * Power(n - 1)
  }

  lemma {:induction false} MsbInverse(s: seq<bool>)
    ensures Msb(s) < Power(|s|) && MsbBits(Msb(s), |s|) == s
  {
    if s != [] {
      MsbInverse(s[..|s| - 1]);
    }
  }

  lemma SubsetSize(rate: Rate)
    ensures PerSubset(rate) == Power(ExtraBits(rate))
  {
    assert Power(1) == 2;
    assert Power(3) == 8;
  }

  // ---- One symbol ----------------------------------------------------------------------------------

  /** What each end carries: a scrambler register and the last coded dibit. */
  datatype Line = Line(history: History, previous: nat)

  function InfoBits(rate: Rate): nat {
    2 + ExtraBits(rate)
  }

  function Modulate(rate: Rate, tap: nat, s: Line, bits: seq<bool>): (Line, Branch) {
    var (h, line) := ScrambleAll(tap, s.history, bits);
    if |bits| == InfoBits(rate) then
      var y12 := DiffEncode(Msb(line[..2]), s.previous);
      (Line(h, y12), Branch(y12, MsbFrom(line, 2)))
    else (s, Branch(0, 0))
  }

  function Demodulate(rate: Rate, tap: nat, s: Line, payload: nat): (Line, seq<bool>) {
    var y12 := payload / PerSubset(rate);
    var q12 := DiffDecode(y12, s.previous);
    var line := MsbBits(q12, 2) + MsbBits(payload % PerSubset(rate), ExtraBits(rate));
    var (h, bits) := DescrambleAll(tap, s.history, line);
    (Line(h, y12), bits)
  }

  /** The stored form of a branch. */
  function PayloadOf(rate: Rate, b: Branch): nat {
    b.y12 * PerSubset(rate) + b.x
  }

  lemma PayloadSplits(rate: Rate, b: Branch)
    requires Possible(rate, b)
    ensures PayloadOf(rate, b) / PerSubset(rate) == b.y12 && PayloadOf(rate, b) % PerSubset(rate) == b.x
  {
  }

  /** A symbol's bits come back, and both ends go on from the same state. */
  lemma SymbolRoundTrip(rate: Rate, tap: nat, s: Line, bits: seq<bool>)
    requires |bits| == InfoBits(rate) && s.previous < 4
    ensures var (t, b) := Modulate(rate, tap, s, bits);
      t.previous < 4 && Possible(rate, b) && Demodulate(rate, tap, s, PayloadOf(rate, b)) == (t, bits)
  {
    var (h, line) := ScrambleAll(tap, s.history, bits);
    var (t, b) := Modulate(rate, tap, s, bits);
    MsbInverse(line[..2]);
    MsbInverse(line[2..]);
    MsbFromIs(line, 2);
    assert Power(2) == 4;
    SubsetSize(rate);
    DiffInverse(Msb(line[..2]), s.previous);
    PayloadSplits(rate, b);
    assert line[..2] + line[2..] == line;
    DescrambleScramble(tap, s.history, bits);
  }

  function Modulating(rate: Rate, tap: nat): (Line, seq<bool>) -> (Line, Branch) {
    (s: Line, bits: seq<bool>) => Modulate(rate, tap, s, bits)
  }

  function Demodulating(rate: Rate, tap: nat): (Line, Branch) -> (Line, seq<bool>) {
    (s: Line, b: Branch) => Demodulate(rate, tap, s, PayloadOf(rate, b))
  }

  ghost predicate Groups(rate: Rate, groups: seq<seq<bool>>) {
    forall i :: 0 <= i < |groups| ==> |groups[i]| == InfoBits(rate)
  }

  /** Any number of symbols. */
  lemma LineRoundTrip(rate: Rate, tap: nat, s: Line, groups: seq<seq<bool>>)
    requires Groups(rate, groups) && s.previous < 4
    ensures var (t, path) := SendAll(Modulating(rate, tap), s, groups);
      SendAll(Demodulating(rate, tap), s, path) == (t, groups)
  {
    var send, take := Modulating(rate, tap), Demodulating(rate, tap);
    var shared := (x: Line) => x.previous < 4;
    var good := (g: seq<bool>) => |g| == InfoBits(rate);
    var want := (g: seq<bool>) => g;
    forall x, g
      ensures Undoes(send, take, shared, good, want, x, g)
    {
      if x.previous < 4 && |g| == InfoBits(rate) {
        SymbolRoundTrip(rate, tap, x, g);
      }
    }
    StayInStep(send, take, shared, good, want, s, groups);
    var (t, path) := SendAll(send, s, groups);
    var got := SendAll(take, s, path).1;
    assert forall i :: 0 <= i < |groups| ==> got[i] == want(groups[i]) == groups[i];
    assert got == groups;
  }

  lemma {:induction false} BranchesPossible(rate: Rate, tap: nat, s: Line, groups: seq<seq<bool>>)
    requires Groups(rate, groups) && s.previous < 4
    ensures var (t, path) := SendAll(Modulating(rate, tap), s, groups); t.previous < 4 && Feasible(rate, path)
  {
    if groups != [] {
      var n := |groups| - 1;
      BranchesPossible(rate, tap, s, groups[..n]);
      SymbolRoundTrip(rate, tap, SendAll(Modulating(rate, tap), s, groups[..n]).0, groups[n]);
    }
  }

  // ---- The first symbols -----------------------------------------------------------------------

  lemma MsbFour(p: bool, q: bool, r: bool, s: bool)
    ensures Msb([p, q, r, s][..2]) == (if p then 2 else 0) + if q then 1 else 0
    ensures MsbFrom([p, q, r, s], 2) == (if r then 2 else 0) + if s then 1 else 0
  {
    MsbFromIs([p, q, r, s], 2);
    MsbTwo(p, q);
    MsbTwo(r, s);
    assert [p, q, r, s][..2] == [p, q] && [p, q, r, s][2..] == [r, s];
  }

  lemma MsbTwo(p: bool, q: bool)
    ensures Msb([p, q]) == (if p then 2 else 0) + if q then 1 else 0
  {
    assert [p, q][..1] == [p] && [p][..0] == [];
    assert Msb([p]) == if p then 1 else 0;
  }

  /** From a cleared register the first 18 bits go out as they are. */
  lemma FirstPlain(first: seq<bool>, second: seq<bool>)
    requires |first| + |second| <= 18
    ensures var (t, line) := ScrambleAll(18, CLEARED, first); line == first && ScrambleAll(18, t, second).1 == second
  {
    var bits, both := first + second, ScrambleAll(18, CLEARED, first + second).1;
    forall i | 0 <= i < |bits|
      ensures both[i] == bits[i]
    {
      PlainAtFirst(18, bits, i);
    }
    RunsOn(18, CLEARED, first, second);
    var (t, line) := ScrambleAll(18, CLEARED, first);
    assert both == bits == line + ScrambleAll(18, t, second).1;
    assert bits[..|first|] == first && bits[|first|..] == second;
    assert both[..|first|] == line && both[|first|..] == ScrambleAll(18, t, second).1;
  }

  lemma PlainSymbol(s: Line, bits: seq<bool>)
    requires |bits| == 4 && ScrambleAll(18, s.history, bits).1 == bits
    ensures var y12 := DiffEncode((if bits[0] then 2 else 0) + if bits[1] then 1 else 0, s.previous);
      Modulate(R9600, 18, s, bits) == (Line(ScrambleAll(18, s.history, bits).0, y12),
                                       Branch(y12, (if bits[2] then 2 else 0) + if bits[3] then 1 else 0))
  {
    MsbFour(bits[0], bits[1], bits[2], bits[3]);
    assert bits == [bits[0], bits[1], bits[2], bits[3]];
  }

  lemma TwoSent(send: (Line, seq<bool>) -> (Line, Branch), s: Line, first: seq<bool>, second: seq<bool>)
    ensures var (t, b) := send(s, first); SendAll(send, s, [first, second]).1 == [b, send(t, second).1]
  {
    SendSnoc(send, s, [], first);
    SendSnoc(send, s, [first], second);
    assert [] + [first] == [first] && [first] + [second] == [first, second];
  }

  /** The bits of octet 1 behind a start bit, as a calling sender at 9600 bit/s codes them first: the
      labels are 4 and 20. */
  lemma FirstSymbols(first: seq<bool>, second: seq<bool>)
    requires first == [false, true, false, false] && second == [false, false, false, false]
    ensures SendAll(Modulating(R9600, 18), Line(CLEARED, 0), [first, second]).1 == [Branch(1, 0), Branch(1, 0)]
    ensures LabelOf(R9600, 0, Branch(1, 0)) == 4 && LabelOf(R9600, NextState(0, 1), Branch(1, 0)) == 20
  {
    FirstPlain(first, second);
    var s := Line(CLEARED, 0);
    PlainSymbol(s, first);
    PlainSymbol(Modulate(R9600, 18, s, first).0, second);
    TwoSent(Modulating(R9600, 18), s, first, second);
  }
}
