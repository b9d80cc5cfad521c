/** HDLC framing as in src/v42_hdlc.c: frame check sequence, zero insertion, flags. */
module Hdlc {
  import opened Wrappers
  import opened Bits

  const MAX_INFO := 256
  const MAX_BITS := (MAX_INFO + 6) * 10
  const FLAG: seq<bool> := [false, true, true, true, true, true, true, false]
  /** The preset register, and the one a good frame leaves: 0xf0b8. */
  const FCS_START: Word := Ones(16)
  const FCS_RESIDUE: Word := [false, false, false, true, true, true, false, true,
                              false, false, false, false, true, true, true, true]

  // ---- Frame check sequence -------------------------------------------------------

  /** A 16-bit register, least significant bit first. */
  type Word = s: seq<bool> | |s| == 16 witness Zeros(16)

  function Zeros(n: nat): (s: seq<bool>)
    ensures |s| == n
  {
    seq(n, i => false)
  }

  function Ones(n: nat): (s: seq<bool>)
    ensures |s| == n
  {
    seq(n, i => true)
  }

  function Xor(a: seq<bool>, b: seq<bool>): (s: seq<bool>)
    requires |a| == |b|
    ensures |s| == |a|
  {
    seq(|a|, i requires 0 <= i < |a| => a[i] != b[i])
  }

  function Not(a: seq<bool>): (s: seq<bool>)
    ensures |s| == |a|
  {
    seq(|a|, i requires 0 <= i < |a| => !a[i])
  }

  /** The one bits of 0x8408. */
  predicate Tap(i: nat) {
    i == 3 || i == 10 || i == 15
  }

  /** `fcs >> 1`, exclusive-or 0x8408 if the bit shifted out is a one. */
  function FcsShift(f: Word): Word {
    seq(16, i requires 0 <= i < 16 => (i < 15 && f[i + 1]) != (f[0] && Tap(i)))
  }

  function FcsShifts(f: Word, n: nat): Word
    decreases n
  {
    if n == 0 then f else FcsShifts(FcsShift(f), n - 1)
  }

  /** An octet in the low half of a word. */
  function LowWord(x: Byte): Word {
    ByteBits(x) + Zeros(8)
  }

  /** One octet enters the register: exclusive-or, then eight shifts. */
  function FcsUpdate(f: Word, x: Byte): Word {
    FcsShifts(Xor(f, LowWord(x)), OCTET)
  }

  function FcsFold(f: Word, bytes: seq<Byte>): Word
    decreases |bytes|
  {
    if bytes == [] then f else FcsFold(FcsUpdate(f, bytes[0]), bytes[1..])
  }

  /** The octets that follow a frame: the complemented register, low octet first. */
  function CheckOctets(f: Word): (s: seq<Byte>)
    ensures |s| == 2
  {
    [BitsByte(Not(f[..8])), BitsByte(Not(f[8..]))]
  }

  function FcsOctets(bytes: seq<Byte>): (s: seq<Byte>)
    ensures |s| == 2
  {
    CheckOctets(FcsFold(FCS_START, bytes))
  }

  predicate FcsGood(raw: seq<Byte>) {
    FcsFold(FCS_START, raw) == FCS_RESIDUE
  }

  lemma {:induction false} FcsFoldAppend(f: Word, a: seq<Byte>, b: seq<Byte>)
    ensures FcsFold(f, a + b) == FcsFold(FcsFold(f, a), b)
    decreases |a|
  {
    if a == [] {
      assert a + b == b;
    } else {
      assert (a + b)[1..] == a[1..] + b;
      FcsFoldAppend(FcsUpdate(f, a[0]), a[1..], b);
    }
  }

  lemma FcsFoldTwo(f: Word, x: Byte, y: Byte)
    ensures FcsFold(f, [x, y]) == FcsUpdate(FcsUpdate(f, x), y)
  {
    assert [x, y][1..] == [y];
    assert FcsFold(FcsUpdate(f, x), [y]) == FcsFold(FcsUpdate(FcsUpdate(f, x), y), [y][1..]);
  }

  lemma ShiftXor(f: Word, g: Word)
    ensures FcsShift(Xor(f, g)) == Xor(FcsShift(f), FcsShift(g))
  {
  }

  /** The register is linear in its start value. */
  lemma {:induction false} ShiftsXor(f: Word, g: Word, n: nat)
    ensures FcsShifts(Xor(f, g), n) == Xor(FcsShifts(f, n), FcsShifts(g, n))
    decreases n
  {
    if n > 0 {
      ShiftXor(f, g);
      ShiftsXor(FcsShift(f), FcsShift(g), n - 1);
    }
  }

  /** Zeros that leave the register are not fed back. */
  lemma {:induction false} ShiftsZeros(h: seq<bool>, n: nat)
    requires |h| + n == 16
    ensures FcsShifts(Zeros(n) + h, n) == h + Zeros(n)
    decreases n
  {
    if n == 0 {
      assert Zeros(0) + h == h == h + Zeros(0);
    } else {
      assert FcsShift(Zeros(n) + h) == Zeros(n - 1) + (h + Zeros(1));
      ShiftsZeros(h + Zeros(1), n - 1);
      assert (h + Zeros(1)) + Zeros(n - 1) == h + Zeros(n);
    }
  }

  lemma {:induction false} ShiftsBack(f: Word, n: nat)
    ensures FcsShifts(f, n + 1) == FcsShift(FcsShifts(f, n))
    decreases n
  {
    if n > 0 {
      ShiftsBack(FcsShift(f), n - 1);
    }
  }

  /** Bit `i` of the register that starts as eight ones, `n` shifts later; after the eighth
      shift the low octet is complemented. */
  predicate CheckBit(n: nat, i: nat) {
    if n == 0 then i < 8
    else ((i < 15 && CheckBit(n - 1, i + 1)) != (CheckBit(n - 1, 0) && Tap(i))) != (n == 8 && i < 8)
  }

  function CheckWord(n: nat): Word {
    seq(16, i requires 0 <= i < 16 => CheckBit(n, i))
  }

  lemma CheckWordNext(n: nat)
    ensures n + 1 != 8 ==> FcsShift(CheckWord(n)) == CheckWord(n + 1)
  {
  }

  lemma {:induction false} CheckWordShifts(n: nat)
    requires n <= 8
    ensures n < 8 ==> FcsShifts(CheckWord(0), n) == CheckWord(n)
    ensures FcsShifts(CheckWord(8), n) == CheckWord(8 + n)
    decreases n
  {
    if n > 0 {
      CheckWordShifts(n - 1);
      CheckWordNext(n - 1);
      CheckWordNext(8 + n - 1);
      ShiftsBack(CheckWord(0), n - 1);
      ShiftsBack(CheckWord(8), n - 1);
    }
  }

  lemma Complemented(ones: Word)
    requires ones == CheckWord(0)
    ensures Xor(FcsShift(CheckWord(7)), ones) == CheckWord(8)
  {
  }

  lemma CheckConstants()
    ensures FcsShifts(Xor(FcsShifts(Ones(8) + Zeros(8), OCTET), Ones(8) + Zeros(8)), OCTET) == FCS_RESIDUE
  {
    var ones: Word := Ones(8) + Zeros(8);
    assert ones == CheckWord(0);
    CheckWordShifts(7);
    ShiftsBack(ones, 7);
    Complemented(ones);
    CheckWordShifts(8);
    CheckWordResidue();
  }

  lemma CheckWordResidue()
    ensures CheckWord(16) == FCS_RESIDUE
  {
    CheckBits16();
  }

  lemma CheckBits4()
    ensures !CheckBit(4, 0) && !CheckBit(4, 1) && !CheckBit(4, 2) && !CheckBit(4, 3)
    ensures !CheckBit(4, 4) && !CheckBit(4, 5) && !CheckBit(4, 6) && CheckBit(4, 7)
    ensures CheckBit(4, 8) && CheckBit(4, 9) && CheckBit(4, 10) && !CheckBit(4, 11)
    ensures CheckBit(4, 12) && CheckBit(4, 13) && CheckBit(4, 14) && CheckBit(4, 15)
  {
  }

  lemma CheckBits8()
    ensures CheckBit(8, 0) && CheckBit(8, 1) && CheckBit(8, 2) && !CheckBit(8, 3)
    ensures !CheckBit(8, 4) && !CheckBit(8, 5) && !CheckBit(8, 6) && CheckBit(8, 7)
    ensures CheckBit(8, 8) && CheckBit(8, 9) && CheckBit(8, 10) && CheckBit(8, 11)
    ensures !CheckBit(8, 12) && !CheckBit(8, 13) && !CheckBit(8, 14) && !CheckBit(8, 15)
  {
    CheckBits4();
  }

  lemma CheckBits12()
    ensures CheckBit(12, 0) && CheckBit(12, 1) && CheckBit(12, 2) && CheckBit(12, 3)
    ensures CheckBit(12, 4) && CheckBit(12, 5) && CheckBit(12, 6) && !CheckBit(12, 7)
    ensures CheckBit(12, 8) && CheckBit(12, 9) && !CheckBit(12, 10) && !CheckBit(12, 11)
    ensures CheckBit(12, 12) && CheckBit(12, 13) && CheckBit(12, 14) && !CheckBit(12, 15)
  {
    CheckBits8();
  }

  lemma CheckBits16()
    ensures !CheckBit(16, 0) && !CheckBit(16, 1) && !CheckBit(16, 2) && CheckBit(16, 3)
    ensures CheckBit(16, 4) && CheckBit(16, 5) && !CheckBit(16, 6) && CheckBit(16, 7)
    ensures !CheckBit(16, 8) && !CheckBit(16, 9) && !CheckBit(16, 10) && !CheckBit(16, 11)
    ensures CheckBit(16, 12) && CheckBit(16, 13) && CheckBit(16, 14) && CheckBit(16, 15)
  {
    CheckBits12();
  }

  lemma FcsFoldCheck(f: Word)
    ensures FcsFold(f, CheckOctets(f)) == FCS_RESIDUE
  {
    var x, y := BitsByte(Not(f[..8])), BitsByte(Not(f[8..]));
    FcsFoldTwo(f, x, y);
    ToFromBits(Not(f[..8]));
    ToFromBits(Not(f[8..]));
    LowCheckOctet(f, x);
    HighCheckOctet(f, y);
    CheckConstants();
  }

  /** The low check octet sets the low half of the register to ones. */
  lemma LowCheckOctet(f: Word, x: Byte)
    requires ByteBits(x) == Not(f[..8])
    ensures FcsUpdate(f, x) == Xor(FcsShifts(Ones(8) + Zeros(8), OCTET), f[8..] + Zeros(8))
  {
    assert Xor(f, LowWord(x)) == Xor(Ones(8) + Zeros(8), Zeros(8) + f[8..]);
    ShiftsXor(Ones(8) + Zeros(8), Zeros(8) + f[8..], OCTET);
    ShiftsZeros(f[8..], OCTET);
  }

  lemma HighCheckOctet(f: Word, y: Byte)
    requires ByteBits(y) == Not(f[8..])
    ensures forall c: Word :: Xor(Xor(c, f[8..] + Zeros(8)), LowWord(y)) == Xor(c, Ones(8) + Zeros(8))
  {
    forall c: Word
      ensures Xor(Xor(c, f[8..] + Zeros(8)), LowWord(y)) == Xor(c, Ones(8) + Zeros(8))
    {
    }
  }

  /** Appending the complemented check sequence always leaves the fixed residue. */
  lemma FcsResidue(bytes: seq<Byte>)
    ensures FcsGood(bytes + FcsOctets(bytes))
  {
    FcsFoldAppend(FCS_START, bytes, FcsOctets(bytes));
    FcsFoldCheck(FcsFold(FCS_START, bytes));
  }

  // ---- Zero insertion -------------------------------------------------------------

  /** Transmitted bits for `s` when `ones` one-bits have just been sent. */
  function Stuff(s: seq<bool>, ones: nat): (t: seq<bool>)
    requires ones < 5
  {
    if s == [] then []
    else if !s[0] then [false] + Stuff(s[1..], 0)
    else if ones == 4 then [true, false] + Stuff(s[1..], 0)
    else [true] + Stuff(s[1..], ones + 1)
  }

  /** The sender's run length after `s`. */
  function OnesAfter(s: seq<bool>, ones: nat): (r: nat)
    requires ones < 5
    ensures r < 5
  {
    if s == [] then ones
    else OnesAfter(s[1..], if !s[0] || ones == 4 then 0 else ones + 1)
  }

  /** The receiver's inverse: a zero after five ones is dropped, seven ones are an error. */
  function Unstuff(s: seq<bool>, ones: nat): (t: Option<seq<bool>>) {
    if s == [] then Some([])
    else if s[0] then
      if ones + 1 > 6 then None else Prepend([true], Unstuff(s[1..], ones + 1))
    else if ones == 5 then Unstuff(s[1..], 0)
    else Prepend([false], Unstuff(s[1..], 0))
  }

  function Prepend(a: seq<bool>, t: Option<seq<bool>>): Option<seq<bool>> {
    match t case None => None case Some(b) => Some(a + b)
  }

  lemma {:induction false} UnstuffStuff(s: seq<bool>, ones: nat)
    requires ones < 5
    ensures Unstuff(Stuff(s, ones), ones) == Some(s)
  {
    if s != [] {
      var t := Stuff(s, ones);
      if s[0] && ones == 4 {
        UnstuffStuff(s[1..], 0);
        assert t[1..][1..] == Stuff(s[1..], 0);
        assert !t[1..][0];
        assert Unstuff(t[1..], 5) == Some(s[1..]);
      } else {
        var k := if s[0] then ones + 1 else 0;
        UnstuffStuff(s[1..], k);
        assert t[1..] == Stuff(s[1..], k);
      }
      assert s == [s[0]] + s[1..];
    }
  }

  lemma {:induction false} StuffAppend(s: seq<bool>, t: seq<bool>, ones: nat)
    requires ones < 5
    ensures Stuff(s + t, ones) == Stuff(s, ones) + Stuff(t, OnesAfter(s, ones))
    ensures OnesAfter(s + t, ones) == OnesAfter(t, OnesAfter(s, ones))
  {
    if s == [] {
      assert s + t == t;
    } else {
      assert (s + t)[1..] == s[1..] + t;
      var k := if !s[0] || ones == 4 then 0 else ones + 1;
      StuffAppend(s[1..], t, k);
      Regroup(if s[0] && ones == 4 then [true, false] else [s[0]], Stuff(s[1..], k), Stuff(t, OnesAfter(s, ones)));
    }
  }

  lemma {:induction false} StuffLength(s: seq<bool>, ones: nat)
    requires ones < 5
    ensures |s| <= |Stuff(s, ones)|
    ensures 5 * |Stuff(s, ones)| <= 6 * |s| + ones
  {
    if s != [] {
      StuffLength(s[1..], if !s[0] || ones == 4 then 0 else ones + 1);
    }
  }

  /** No run of ones in `s` grows beyond five, counting `ones` already sent. */
  ghost predicate ShortRuns(s: seq<bool>, ones: nat) {
    ones <= 5 && (s == [] || ShortRuns(s[1..], if s[0] then ones + 1 else 0))
  }

  lemma {:induction false} StuffShortRuns(s: seq<bool>, ones: nat)
    requires ones < 5
    ensures ShortRuns(Stuff(s, ones), ones)
  {
    if s != [] {
      var t := Stuff(s, ones);
      if s[0] && ones == 4 {
        StuffShortRuns(s[1..], 0);
        assert t[1..][1..] == Stuff(s[1..], 0);
      } else {
        var k := if s[0] then ones + 1 else 0;
        StuffShortRuns(s[1..], k);
        assert t[1..] == Stuff(s[1..], k);
      }
    }
  }

  lemma {:induction false} ShortRunsLimit(s: seq<bool>, ones: nat, m: nat)
    requires ShortRuns(s, ones) && m <= |s| && forall j :: 0 <= j < m ==> s[j]
    ensures ones + m <= 5
  {
    if m > 0 {
      assert s[0];
      ShortRunsLimit(s[1..], ones + 1, m - 1);
    }
  }

  lemma {:induction false} ShortRunsSix(s: seq<bool>, ones: nat, p: nat)
    requires ShortRuns(s, ones) && p + 6 <= |s|
    ensures exists j :: p <= j < p + 6 && !s[j]
  {
    if p > 0 {
      ShortRunsSix(s[1..], if s[0] then ones + 1 else 0, p - 1);
      var j :| p - 1 <= j < p - 1 + 6 && !s[1..][j];
      assert !s[j + 1];
    } else if forall j :: 0 <= j < 6 ==> s[j] {
      ShortRunsLimit(s, ones, 6);
    }
  }

  // ---- Frames on the line ---------------------------------------------------------

  function Body(frame: seq<Byte>): (s: seq<bool>) {
    Stuff(Serial(frame + FcsOctets(frame)), 0)
  }

  /** The line form of a frame: flag, stuffed octets with check sequence, flag. */
  function Encoded(frame: seq<Byte>): (s: seq<bool>) {
    FLAG + Body(frame) + FLAG
  }

  predicate FlagAt(s: seq<bool>, i: nat)
    requires i + 8 <= |s|
  {
    forall k :: 0 <= k < 8 ==> s[i + k] == FLAG[k]
  }

  /** The first position from `i` on where a flag starts, or `|s|` if there is none. */
  function FindFlag(s: seq<bool>, i: nat): (p: nat)
    requires i <= |s|
    ensures i <= p <= |s|
    ensures p < |s| ==> p + 8 <= |s| && FlagAt(s, p)
    ensures forall k :: i <= k < p && k + 8 <= |s| ==> !FlagAt(s, k)
    decreases |s| - i
  {
    if i + 8 > |s| then |s| else if FlagAt(s, i) then i else FindFlag(s, i + 1)
  }

  /** What the receiver makes of the bits between two flags. */
  function DecodeBody(body: seq<bool>): (r: Option<seq<Byte>>) {
    match Unstuff(body, 0)
    case None => None
    case Some(t) => DecodeOctets(t)
  }

  function DecodeOctets(t: seq<bool>): (r: Option<seq<Byte>>) {
    if |t| % 8 != 0 || |t| / 8 > MAX_INFO + 4 || |t| / 8 < 3 || !FcsGood(Octets(t)) then None
    else Some(Octets(t)[..|t| / 8 - 2])
  }

  /** The bits between the first two flags of `s`. */
  function Between(s: seq<bool>): (body: Option<seq<bool>>) {
    var i := FindFlag(s, 0);
    if |s| < 16 || i == |s| then None
    else
      var k := FindFlag(s, i + 1);
      if k == |s| || k <= i + 8 then None else Some(s[i + 8..k])
  }

  /** The receiver: the frame between the first two flags of `s`, if it is a good one. */
  function Decoded(s: seq<bool>): (r: Option<seq<Byte>>) {
    match Between(s) case None => None case Some(body) => DecodeBody(body)
  }

  lemma Slices(f: seq<bool>, body: seq<bool>)
    ensures (f + body + f)[..|f|] == f
    ensures (f + body + f)[|f|..|f| + |body|] == body
    ensures (f + body + f)[|f| + |body|..|f| + |body| + |f|] == f
  {
  }

  lemma FlagBits(s: seq<bool>, i: nat, k: nat)
    requires i + 8 <= |s| && FlagAt(s, i) && k < 8
    ensures s[i + k] == FLAG[k]
  {
  }

  lemma FlagSlice(s: seq<bool>, i: nat)
    requires i + 8 <= |s|
    ensures FlagAt(s, i) <==> s[i..i + 8] == FLAG
  {
    if s[i..i + 8] == FLAG {
      forall k | 0 <= k < 8
        ensures s[i + k] == FLAG[k]
      {
        assert s[i + k] == s[i..i + 8][k];
      }
    }
  }

  lemma FlagsAround(body: seq<bool>, i: nat)
    requires ShortRuns(body, 0)
    requires i + 8 <= |FLAG + body + FLAG| && FlagAt(FLAG + body + FLAG, i)
    ensures i == 0 || i == |body| + 8
  {
    var w := FLAG + body + FLAG;
    var last := |body| + 8;
    if 0 < i < 7 {
      FlagBits(w, i, 7 - i);
    } else if 7 <= i < last && i + 6 >= last {
      FlagBits(w, i, last - i);
    } else if 7 <= i < last {
      ShortRunsSix(body, 0, i - 7);
      var j :| i - 7 <= j < i - 1 && !body[j];
      FlagBits(w, i, 8 + j - i);
    }
  }

  /** The only flags in an encoded frame are its opening and its closing one. */
  lemma OnlyTwoFlags(frame: seq<Byte>, i: nat)
    requires i + 8 <= |Encoded(frame)|
    ensures FlagAt(Encoded(frame), i) <==> i == 0 || i == |Encoded(frame)| - 8
  {
    StuffShortRuns(Serial(frame + FcsOctets(frame)), 0);
    Slices(FLAG, Body(frame));
    if FlagAt(Encoded(frame), i) {
      FlagsAround(Body(frame), i);
    }
  }

  /** The longest frame still fits the line buffers. */
  lemma EncodedLength(frame: seq<Byte>)
    requires |frame| <= MAX_INFO + 2
    ensures 16 + 8 * (|frame| + 2) <= |Encoded(frame)| <= 2512 < MAX_BITS
  {
    StuffLength(Serial(frame + FcsOctets(frame)), 0);
  }

  lemma DecodeOctetsOfFrame(frame: seq<Byte>, check: seq<Byte>)
    requires 1 <= |frame| <= MAX_INFO + 2 && |check| == 2 && FcsGood(frame + check)
    ensures DecodeOctets(Serial(frame + check)) == Some(frame)
  {
    OctetsSerial(frame + check);
  }

  lemma DecodeBodyOfFrame(frame: seq<Byte>)
    requires 1 <= |frame| <= MAX_INFO + 2
    ensures DecodeBody(Body(frame)) == Some(frame)
  {
    var check := FcsOctets(frame);
    UnstuffStuff(Serial(frame + check), 0);
    FcsResidue(frame);
    DecodeOctetsOfFrame(frame, check);
  }

  lemma FlagsThere(f: seq<bool>, body: seq<bool>)
    requires f == FLAG
    ensures var w := f + body + f; FlagAt(w, 0) && FlagAt(w, |body| + 8)
  {
    Slices(f, body);
  }

  /** The search does not go past a flag. */
  lemma FirstFlag(s: seq<bool>, i: nat, k: nat)
    requires i <= k && k + 8 <= |s| && FlagAt(s, k)
    ensures FindFlag(s, i) <= k && FindFlag(s, i) + 8 <= |s| && FlagAt(s, FindFlag(s, i))
  {
    var p := FindFlag(s, i);
    assert !(i <= k < p);
  }

  lemma FindFlagsAround(body: seq<bool>)
    requires |body| > 0 && ShortRuns(body, 0)
    ensures var w := FLAG + body + FLAG; FindFlag(w, 0) == 0 && FindFlag(w, 1) == |body| + 8
  {
    var w := FLAG + body + FLAG;
    FlagsThere(FLAG, body);
    FirstFlag(w, 0, 0);
    FirstFlag(w, 1, |body| + 8);
    FlagsAround(body, FindFlag(w, 1));
  }

  lemma BetweenAt(s: seq<bool>, k: nat)
    requires |s| >= 16 && FindFlag(s, 0) == 0 && FindFlag(s, 1) == k && 8 < k < |s|
    ensures Between(s) == Some(s[8..k])
  {
  }

  lemma BetweenFlags(body: seq<bool>)
    requires |body| > 0 && ShortRuns(body, 0)
    ensures Between(FLAG + body + FLAG) == Some(body)
  {
    FindFlagsAround(body);
    Slices(FLAG, body);
    BetweenAt(FLAG + body + FLAG, |body| + 8);
  }

  /** HDLC round trip. */
  lemma RoundTrip(frame: seq<Byte>)
    requires 1 <= |frame| <= MAX_INFO + 2
    ensures Decoded(Encoded(frame)) == Some(frame)
  {
    EncodedLength(frame);
    StuffShortRuns(Serial(frame + FcsOctets(frame)), 0);
    BetweenFlags(Body(frame));
    DecodeBodyOfFrame(frame);
  }
}
