/** The self-synchronising scramblers of src/v34_training_symbols.c and src/v32_std.c: each line
    bit is the data bit with two earlier line bits added, the one `tap` before and the one 23
    before. */
module Scrambler {
  import opened Lockstep

  const HISTORY: nat := 23

  /** The last 23 line bits, newest first. */
  type History = seq<bool>

  predicate Register(h: History) {
    |h| == HISTORY
  }

  predicate Tap(tap: nat) {
    tap == 5 || tap == 18
  }

  function Feedback(tap: nat, h: History): bool {
    if Register(h) && Tap(tap) then h[tap - 1] != h[22] else false
  }

  function Shifted(h: History, line: bool): History {
    if h == [] then [] else [line] + h[..|h| - 1]
  }

  /** v34_scramble_bit, v32_std_scramble. */
  function Scramble(tap: nat, h: History, bit: bool): (History, bool) {
    var line := bit != Feedback(tap, h);
    (Shifted(h, line), line)
  }

  /** v34_descramble_bit, v32_std_descramble. */
  function Descramble(tap: nat, h: History, line: bool): (History, bool) {
    (Shifted(h, line), line != Feedback(tap, h))
  }

  function Scrambling(tap: nat): (History, bool) -> (History, bool) {
    (h: History, bit: bool) => Scramble(tap, h, bit)
  }

  function Descrambling(tap: nat): (History, bool) -> (History, bool) {
    (h: History, line: bool) => Descramble(tap, h, line)
  }

  function ScrambleAll(tap: nat, h: History, bits: seq<bool>): (r: (History, seq<bool>))
    ensures |r.1| == |bits|
  {
    SendAll(Scrambling(tap), h, bits)
  }

  function DescrambleAll(tap: nat, h: History, line: seq<bool>): (r: (History, seq<bool>))
    ensures |r.1| == |line|
  {
    SendAll(Descrambling(tap), h, line)
  }

  /** From equal histories the descrambler gives the bits back, and the histories stay equal. */
  lemma DescrambleScramble(tap: nat, h: History, bits: seq<bool>)
    ensures var (t, line) := ScrambleAll(tap, h, bits);
      DescrambleAll(tap, h, line) == (t, bits)
  {
    var same := (b: bool) => b;
    var any, all := (x: History) => true, (b: bool) => true;
    StayInStep(Scrambling(tap), Descrambling(tap), any, all, same, h, bits);
    var (t, line) := ScrambleAll(tap, h, bits);
    var got := DescrambleAll(tap, h, line).1;
    assert forall i :: 0 <= i < |bits| ==> got[i] == same(bits[i]) == bits[i];
    assert got == bits;
  }

  /** After some line bits a register holds them, newest first, above what it held before. */
  function Reversed(s: seq<bool>): (r: seq<bool>)
    ensures |r| == |s|
  {
    if s == [] then [] else [s[|s| - 1]] + Reversed(s[..|s| - 1])
  }

  lemma ShiftedOn(late: seq<bool>, h: History, n: nat, bit: bool)
    requires 0 < n <= |h|
    ensures Shifted(late + h[..n], bit) == ([bit] + late) + h[..n - 1]
  {
    var t := late + h[..n];
    assert t[..|t| - 1] == late + h[..n - 1];
  }

  /** The register holds the line bits, the latest first, and then what it held before. */
  lemma {:induction false} HoldsLine(tap: nat, h: History, line: seq<bool>)
    requires Register(h) && |line| <= HISTORY
    ensures DescrambleAll(tap, h, line).0 == Reversed(line) + h[..HISTORY - |line|]
  {
    if line != [] {
      var head, last := line[..|line| - 1], line[|line| - 1];
      HoldsLine(tap, h, head);
      ShiftedOn(Reversed(head), h, HISTORY - |head|, last);
    }
  }

  /** Scrambler and descrambler shift in the same line bits. */
  lemma {:induction false} SameRegister(tap: nat, h: History, bits: seq<bool>)
    ensures var (t, line) := ScrambleAll(tap, h, bits); DescrambleAll(tap, h, line).0 == t
  {
    DescrambleScramble(tap, h, bits);
  }

  lemma {:induction false} RunsOn(tap: nat, h: History, a: seq<bool>, b: seq<bool>)
    ensures var (t, x) := DescrambleAll(tap, h, a); var (u, y) := DescrambleAll(tap, t, b);
      DescrambleAll(tap, h, a + b) == (u, x + y)
    ensures var (t, x) := ScrambleAll(tap, h, a); var (u, y) := ScrambleAll(tap, t, b);
      ScrambleAll(tap, h, a + b) == (u, x + y)
  {
    SendAppend(Descrambling(tap), h, a, b);
    SendAppend(Scrambling(tap), h, a, b);
  }

  /** From any two histories at all, the descrambler is right from the 24th line bit on. */
  lemma SelfSynchronises(tap: nat, h: History, other: History, bits: seq<bool>)
    requires Register(h) && Register(other) && |bits| >= HISTORY
    ensures var line := ScrambleAll(tap, h, bits).1;
      DescrambleAll(tap, other, line).1[HISTORY..] == bits[HISTORY..]
  {
    var head, tail := bits[..HISTORY], bits[HISTORY..];
    assert head + tail == bits;
    RunsOn(tap, h, head, tail);
    var (t, first) := ScrambleAll(tap, h, head);
    var second := ScrambleAll(tap, t, tail).1;
    SameRegister(tap, h, head);
    HoldsLine(tap, h, first);
    HoldsLine(tap, other, first);
    assert DescrambleAll(tap, other, first).0 == t;
    RunsOn(tap, other, first, second);
    DescrambleScramble(tap, t, tail);
  }
  // ---- What the line carries ---------------------------------------------------------------------

  /** Line bit `i`; the register holds those before the first. */
  function LineAt(h: History, line: seq<bool>, i: int): bool
    requires -|h| <= i < |line|
  {
    if i < 0 then h[-1 - i] else line[i]
  }

  ghost predicate Remembers(h: History, line: seq<bool>, t: History) {
    |t| == |h| && forall j :: 0 <= j < |t| ==> t[j] == LineAt(h, line, |line| - 1 - j)
  }

  lemma RemembersOn(h: History, line: seq<bool>, t: History, bit: bool)
    requires h != [] && Remembers(h, line, t)
    ensures Remembers(h, line + [bit], Shifted(t, bit))
  {
    var u, now := Shifted(t, bit), line + [bit];
    forall j | 0 <= j < |u|
      ensures u[j] == LineAt(h, now, |now| - 1 - j)
    {
      if j > 0 {
        assert u[j] == t[j - 1] == LineAt(h, line, |line| - j);
      }
    }
  }

  lemma {:induction false} RegisterHolds(tap: nat, h: History, bits: seq<bool>)
    requires Register(h)
    ensures var (t, line) := ScrambleAll(tap, h, bits); Remembers(h, line, t)
  {
    if bits != [] {
      var n := |bits| - 1;
      RegisterHolds(tap, h, bits[..n]);
      var (t, line) := ScrambleAll(tap, h, bits[..n]);
      RemembersOn(h, line, t, Scramble(tap, t, bits[n]).1);
    }
  }

  lemma FeedbackIs(tap: nat, h: History, line: seq<bool>, t: History)
    requires Register(h) && Tap(tap) && Remembers(h, line, t)
    ensures Feedback(tap, t) == (LineAt(h, line, |line| - tap) != LineAt(h, line, |line| - 23))
  {
    assert t[tap - 1] == LineAt(h, line, |line| - 1 - (tap - 1)) && t[22] == LineAt(h, line, |line| - 1 - 22);
  }

  lemma NextLineBit(tap: nat, h: History, bits: seq<bool>, i: nat)
    requires i < |bits|
    ensures var line := ScrambleAll(tap, h, bits).1; var (t, head) := ScrambleAll(tap, h, bits[..i]);
      line[..i] == head && line[i] == (bits[i] != Feedback(tap, t))
  {
    SendAt(Scrambling(tap), h, bits, i);
    SendPrefix(Scrambling(tap), h, bits, i);
  }

  /** In every run a line bit is the data bit with the line bits `tap` and 23 before it added. */
  lemma LineLaw(tap: nat, h: History, bits: seq<bool>, i: nat)
    requires Register(h) && Tap(tap) && i < |bits|
    ensures var line := ScrambleAll(tap, h, bits).1;
      line[i] == (bits[i] != (LineAt(h, line, i - tap) != LineAt(h, line, i - 23)))
  {
    var line := ScrambleAll(tap, h, bits).1;
    var (t, head) := ScrambleAll(tap, h, bits[..i]);
    RegisterHolds(tap, h, bits[..i]);
    NextLineBit(tap, h, bits, i);
    FeedbackIs(tap, h, head, t);
    assert LineAt(h, head, i - tap) == LineAt(h, line, i - tap);
    assert LineAt(h, head, i - 23) == LineAt(h, line, i - 23);
  }

  const CLEARED: History := seq(HISTORY, i => false)

  /** From a cleared register the first bits go out as they are. */
  lemma PlainAtFirst(tap: nat, bits: seq<bool>, i: nat)
    requires Tap(tap) && i < |bits| && i < tap
    ensures ScrambleAll(tap, CLEARED, bits).1[i] == bits[i]
  {
    LineLaw(tap, CLEARED, bits, i);
  }

  /** Ones from a cleared register: `tap` ones and then a zero. */
  lemma OnesKnown(tap: nat, bits: seq<bool>)
    requires Tap(tap) && |bits| > tap && (forall i :: 0 <= i < |bits| ==> bits[i])
    ensures var line := ScrambleAll(tap, CLEARED, bits).1; (forall i :: 0 <= i < tap ==> line[i]) && !line[tap]
  {
    forall i | 0 <= i < tap
      ensures ScrambleAll(tap, CLEARED, bits).1[i]
    {
      PlainAtFirst(tap, bits, i);
    }
    LineLaw(tap, CLEARED, bits, tap);
  }
}
