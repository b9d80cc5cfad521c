/** What the check sequence of src/v42_hdlc.c is: division by x^16 + x^12 + x^5 + 1, from a register
    of ones; and some check sequences. */
module HdlcKnown {
  import opened Bits
  import opened Hdlc
  import opened HdlcErrors

  // ---- The generator ----------------------------------------------------------------------------

  /** The bit fed back when bit `k` enters; none before the first or after the last. */
  predicate Back(f: Word, bits: seq<bool>, k: int) {
    0 <= k < |bits| && Feed(f, bits[..k])[0] != bits[k]
  }

  /** A bit of the register a run starts from, in the order in which they come out. */
  predicate From(f: Word, k: nat) {
    k < 16 && f[k]
  }

  lemma BackPrefix(f: Word, bits: seq<bool>, n: nat, k: int)
    requires n <= |bits| && k < n
    ensures Back(f, bits[..n], k) == Back(f, bits, k)
  {
    if 0 <= k {
      assert bits[..n][..k] == bits[..k];
    }
  }

  lemma FeedBit(f: Word, bits: seq<bool>, i: nat)
    requires bits != [] && i < 16
    ensures var n := |bits| - 1;
      Feed(f, bits)[i] == ((i < 15 && Feed(f, bits[..n])[i + 1]) != (Back(f, bits, n) && Tap(i)))
  {
    var n := |bits| - 1;
    var r, x := Feed(f, bits[..n]), Low([bits[n]]);
    assert Xor(r, x)[0] == (r[0] != bits[n]) && (i < 15 ==> Xor(r, x)[i + 1] == r[i + 1]);
  }

  /** The bits fed back 4, 11 and 16 places before `k`, and the register at the start. */
  predicate Sum(f: Word, bits: seq<bool>, k: nat) {
    From(f, k) != (Back(f, bits, k - 4) != (Back(f, bits, k - 11) != Back(f, bits, k - 16)))
  }

  lemma BackKept(f: Word, bits: seq<bool>, n: nat, k: int)
    requires n + 1 == |bits|
    ensures Back(f, bits, k) == (if k == n then Back(f, bits, n) else Back(f, bits[..n], k))
  {
    if k < n {
      BackPrefix(f, bits, n, k);
    }
  }

  lemma SumKept(f: Word, bits: seq<bool>, n: nat, k: nat)
    requires n + 1 == |bits|
    ensures Sum(f, bits, k)
      == (Sum(f, bits[..n], k) != ((k == n + 4 || k == n + 11 || k == n + 16) && Back(f, bits, n)))
  {
    BackKept(f, bits, n, k - 4);
    BackKept(f, bits, n, k - 11);
    BackKept(f, bits, n, k - 16);
    assert !Back(f, bits[..n], n);
  }

  /** Nothing lies beyond the register. */
  lemma SumEnds(f: Word, bits: seq<bool>)
    ensures !Sum(f, bits, 16 + |bits|)
  {
  }

  lemma SumOn(f: Word, bits: seq<bool>, i: nat, was: bool, now: bool)
    requires bits != [] && i < 16
    requires now == ((i < 15 && was) != (Back(f, bits, |bits| - 1) && Tap(i)))
    requires i < 15 ==> was == Sum(f, bits[..|bits| - 1], i + |bits|)
    ensures now == Sum(f, bits, i + |bits|)
  {
    var n := |bits| - 1;
    SumKept(f, bits, n, i + |bits|);
    if i == 15 {
      SumEnds(f, bits[..n]);
    }
  }

  /** The register after any run of bits holds the bits fed back 4, 11 and 16 places before. */
  lemma {:induction false} GeneratorLaw(f: Word, bits: seq<bool>, i: nat)
    requires i < 16
    ensures Feed(f, bits)[i] == Sum(f, bits, i + |bits|)
    decreases |bits|
  {
    if bits != [] {
      var n := |bits| - 1;
      FeedBit(f, bits, i);
      var was := i < 15 && Feed(f, bits[..n])[i + 1];
      if i < 15 {
        GeneratorLaw(f, bits[..n], i + 1);
      }
      SumOn(f, bits, i, was, Feed(f, bits)[i]);
    }
  }

  /** So the bits fed back are the quotient of the division by x^16 + x^12 + x^5 + 1. */
  lemma QuotientLaw(f: Word, bits: seq<bool>, k: nat)
    requires k < |bits|
    ensures Back(f, bits, k) == (bits[k] != Sum(f, bits, k))
  {
    GeneratorLaw(f, bits[..k], 0);
    BackPrefix(f, bits, k, k - 4);
    BackPrefix(f, bits, k, k - 11);
    BackPrefix(f, bits, k, k - 16);
  }

  // ---- Octet by octet -----------------------------------------------------------------------------

  /** Eight bits by their names. */
  datatype O = O(o0: bool, o1: bool, o2: bool, o3: bool, o4: bool, o5: bool, o6: bool, o7: bool)

  const NONE: O := O(false, false, false, false, false, false, false, false)

  /** The law with functions for what enters, with the register it comes out with added, and what is
      fed back. */
  ghost predicate Divides(enter: int -> bool, back: int -> bool, k: int) {
    back(k) == (enter(k) != (back(k - 4) != (back(k - 11) != back(k - 16))))
  }

  /** Bits `b` to `b + 7` of a function. */
  ghost predicate Octet(bit: int -> bool, b: int, x: O) {
    FirstFour(bit, b, x) && LastFour(bit, b, x)
  }

  ghost predicate FirstFour(bit: int -> bool, b: int, x: O) {
    bit(b) == x.o0 && bit(b + 1) == x.o1 && bit(b + 2) == x.o2 && bit(b + 3) == x.o3
  }

  ghost predicate LastFour(bit: int -> bool, b: int, x: O) {
    bit(b + 4) == x.o4 && bit(b + 5) == x.o5 && bit(b + 6) == x.o6 && bit(b + 7) == x.o7
  }

  /** The quotient's next octet, from what enters and its last two octets. */
  function NextOctet(x: O, p: O, r: O): O {
    var q0, q1 := x.o0 != (p.o4 != (r.o5 != r.o0)), x.o1 != (p.o5 != (r.o6 != r.o1));
    var q2, q3 := x.o2 != (p.o6 != (r.o7 != r.o2)), x.o3 != (p.o7 != (p.o0 != r.o3));
    O(q0, q1, q2, q3, x.o4 != (q0 != (p.o1 != r.o4)), x.o5 != (q1 != (p.o2 != r.o5)),
      x.o6 != (q2 != (p.o3 != r.o6)), x.o7 != (q3 != (p.o4 != r.o7)))
  }

  lemma NextFirst(enter: int -> bool, back: int -> bool, b: int, x: O, p: O, r: O)
    requires Octet(enter, b, x) && Octet(back, b - 8, p) && Octet(back, b - 16, r)
    requires Divides(enter, back, b) && Divides(enter, back, b + 1)
    requires Divides(enter, back, b + 2) && Divides(enter, back, b + 3)
    ensures FirstFour(back, b, NextOctet(x, p, r))
  {
  }

  lemma NextLast(enter: int -> bool, back: int -> bool, b: int, x: O, p: O, r: O)
    requires Octet(enter, b, x) && Octet(back, b - 8, p) && Octet(back, b - 16, r)
    requires FirstFour(back, b, NextOctet(x, p, r))
    requires Divides(enter, back, b + 4) && Divides(enter, back, b + 5)
    requires Divides(enter, back, b + 6) && Divides(enter, back, b + 7)
    ensures LastFour(back, b, NextOctet(x, p, r))
  {
  }
  lemma NextQuotient(enter: int -> bool, back: int -> bool, b: int, x: O, p: O, r: O)
    requires Octet(enter, b, x) && Octet(back, b - 8, p) && Octet(back, b - 16, r)
    requires forall k :: b <= k < b + 8 ==> Divides(enter, back, k)
    ensures Octet(back, b, NextOctet(x, p, r))
  {
    NextFirst(enter, back, b, x, p, r);
    NextLast(enter, back, b, x, p, r);
  }

  /** The register, from the last two octets of the quotient. */
  function LowOctet(q: O, p: O): O {
    O(q.o4 != (p.o5 != p.o0), q.o5 != (p.o6 != p.o1), q.o6 != (p.o7 != p.o2), q.o7 != (q.o0 != p.o3),
      q.o1 != p.o4, q.o2 != p.o5, q.o3 != p.o6, q.o4 != p.o7)
  }

  function HighOctet(q: O): O {
    O(q.o5 != q.o0, q.o6 != q.o1, q.o7 != q.o2, q.o3, q.o4, q.o5, q.o6, q.o7)
  }

  /** What the register holds when nothing more is fed back. */
  ghost predicate Remains(back: int -> bool, register: int -> bool, k: int) {
    register(k) == (back(k - 4) != (back(k - 11) != back(k - 16)))
  }

  lemma LowFirst(back: int -> bool, register: int -> bool, b: int, q: O, p: O)
    requires Octet(back, b - 8, q) && Octet(back, b - 16, p)
    requires Remains(back, register, b) && Remains(back, register, b + 1)
    requires Remains(back, register, b + 2) && Remains(back, register, b + 3)
    ensures FirstFour(register, b, LowOctet(q, p))
  {
  }

  lemma LowLast(back: int -> bool, register: int -> bool, b: int, q: O, p: O)
    requires Octet(back, b - 8, q) && Octet(back, b - 16, p) && Octet(back, b, NONE)
    requires Remains(back, register, b + 4) && Remains(back, register, b + 5)
    requires Remains(back, register, b + 6) && Remains(back, register, b + 7)
    ensures LastFour(register, b, LowOctet(q, p))
  {
  }

  lemma HighFirst(back: int -> bool, register: int -> bool, b: int, q: O)
    requires Octet(back, b - 8, q) && Octet(back, b, NONE) && Octet(back, b + 8, NONE)
    requires Remains(back, register, b + 8) && Remains(back, register, b + 9)
    requires Remains(back, register, b + 10) && Remains(back, register, b + 11)
    ensures FirstFour(register, b + 8, HighOctet(q))
  {
  }

  lemma HighLast(back: int -> bool, register: int -> bool, b: int, q: O)
    requires Octet(back, b - 8, q) && Octet(back, b, NONE) && Octet(back, b + 8, NONE)
    requires Remains(back, register, b + 12) && Remains(back, register, b + 13)
    requires Remains(back, register, b + 14) && Remains(back, register, b + 15)
    ensures LastFour(register, b + 8, HighOctet(q))
  {
  }

  lemma Remainder(back: int -> bool, register: int -> bool, b: int, q: O, p: O)
    requires Octet(back, b - 8, q) && Octet(back, b - 16, p) && Octet(back, b, NONE) && Octet(back, b + 8, NONE)
    requires forall k :: b <= k < b + 16 ==> Remains(back, register, k)
    ensures Octet(register, b, LowOctet(q, p)) && Octet(register, b + 8, HighOctet(q))
  {
    LowFirst(back, register, b, q, p);
    LowLast(back, register, b, q, p);
    HighFirst(back, register, b, q);
    HighLast(back, register, b, q);
  }

  function Named(s: seq<bool>): O
    requires |s| == 8
  {
    O(s[0], s[1], s[2], s[3], s[4], s[5], s[6], s[7])
  }

  function NotOctet(x: O): O {
    O(!x.o0, !x.o1, !x.o2, !x.o3, !x.o4, !x.o5, !x.o6, !x.o7)
  }

  lemma SameNamed(s: seq<bool>, t: seq<bool>)
    requires |s| == |t| == 8 && Named(s) == Named(t)
    ensures s == t
  {
  }

  ghost predicate AgreesAt(bit: int -> bool, b: int, s: seq<bool>, i: nat)
    requires i < |s|
  {
    bit(b + i) == s[i]
  }

  lemma OctetNamed(bit: int -> bool, b: int, s: seq<bool>, x: O)
    requires |s| == 8 && (forall i: nat :: i < 8 ==> AgreesAt(bit, b, s, i))
    ensures Octet(bit, b, x) <==> Named(s) == x
  {
    assert AgreesAt(bit, b, s, 0) && AgreesAt(bit, b, s, 1) && AgreesAt(bit, b, s, 2) && AgreesAt(bit, b, s, 3);
    assert AgreesAt(bit, b, s, 4) && AgreesAt(bit, b, s, 5) && AgreesAt(bit, b, s, 6) && AgreesAt(bit, b, s, 7);
  }

  // ---- Whole messages -------------------------------------------------------------------------------

  /** What enters a register of ones. */
  function Entering(bits: seq<bool>): int -> bool {
    (k: int) => 0 <= k < |bits| && bits[k] != (k < 16)
  }

  function Backing(bits: seq<bool>): int -> bool {
    (k: int) => Back(FCS_START, bits, k)
  }

  function Held(bits: seq<bool>): int -> bool {
    (k: int) => |bits| <= k < |bits| + 16 && Feed(FCS_START, bits)[k - |bits|]
  }

  lemma StartOnes(k: nat)
    ensures From(FCS_START, k) <==> k < 16
  {
  }

  lemma DividesAt(bits: seq<bool>, k: int)
    requires 0 <= k < |bits|
    ensures Divides(Entering(bits), Backing(bits), k)
  {
    QuotientLaw(FCS_START, bits, k);
    StartOnes(k);
  }

  lemma RemainsAt(bits: seq<bool>, k: int)
    requires 16 <= |bits| <= k < |bits| + 16
    ensures Remains(Backing(bits), Held(bits), k)
  {
    GeneratorLaw(FCS_START, bits, k - |bits|);
    StartOnes(k);
  }

  lemma {:induction false} SerialAt(bytes: seq<Byte>, j: nat, i: nat)
    requires j < |bytes| && i < 8
    ensures Serial(bytes)[8 * j + i] == ByteBits(bytes[j])[i]
  {
    if j > 0 {
      SerialAt(bytes[1..], j - 1, i);
    }
  }

  /** Octet `j` as it enters: the first two meet the ones of the register. */
  function EnteringBits(bytes: seq<Byte>, j: nat): (s: seq<bool>)
    requires j < |bytes|
    ensures |s| == 8
  {
    if j < 2 then Not(ByteBits(bytes[j])) else ByteBits(bytes[j])
  }

  lemma EnterBit(bits: seq<bool>, octet: seq<bool>, j: nat, i: nat)
    requires 8 * j + i < |bits| && i < 8 == |octet| && bits[8 * j + i] == octet[i]
    ensures AgreesAt(Entering(bits), 8 * j, if j < 2 then Not(octet) else octet, i)
  {
  }

  lemma EntersAt(bytes: seq<Byte>, j: nat, i: nat)
    requires j < |bytes| && i < 8
    ensures AgreesAt(Entering(Serial(bytes)), 8 * j, EnteringBits(bytes, j), i)
  {
    SerialAt(bytes, j, i);
    EnterBit(Serial(bytes), ByteBits(bytes[j]), j, i);
  }

  lemma Enters(bytes: seq<Byte>, j: nat)
    requires j < |bytes|
    ensures Octet(Entering(Serial(bytes)), 8 * j, Named(EnteringBits(bytes, j)))
  {
    forall i: nat | i < 8
      ensures AgreesAt(Entering(Serial(bytes)), 8 * j, EnteringBits(bytes, j), i)
    {
      EntersAt(bytes, j, i);
    }
    OctetNamed(Entering(Serial(bytes)), 8 * j, EnteringBits(bytes, j), Named(EnteringBits(bytes, j)));
  }

  /** Octet `j` of the quotient. */
  ghost predicate QuotientHas(bits: seq<bool>, j: int, q: O) {
    Octet(Backing(bits), 8 * j, q)
  }

  lemma QuotientNone(bits: seq<bool>)
    ensures QuotientHas(bits, -1, NONE) && QuotientHas(bits, -2, NONE)
  {
  }

  lemma HeldLow(bits: seq<bool>, x: O)
    requires Octet(Held(bits), |bits|, x)
    ensures Named(Feed(FCS_START, bits)[..8]) == x
  {
    var f := Feed(FCS_START, bits)[..8];
    forall k: nat | k < 8
      ensures AgreesAt(Held(bits), |bits|, f, k)
    {
    }
    OctetNamed(Held(bits), |bits|, f, x);
  }

  lemma HeldHigh(bits: seq<bool>, x: O)
    requires Octet(Held(bits), |bits| + 8, x)
    ensures Named(Feed(FCS_START, bits)[8..]) == x
  {
    var f, b := Feed(FCS_START, bits)[8..], |bits| + 8;
    forall k: nat | k < 8
      ensures AgreesAt(Held(bits), b, f, k)
    {
    }
    OctetNamed(Held(bits), b, f, x);
  }

  lemma HeldIs(bits: seq<bool>, q: O, p: O)
    requires |bits| >= 16 && Octet(Backing(bits), |bits| - 8, q) && Octet(Backing(bits), |bits| - 16, p)
    ensures Octet(Held(bits), |bits|, LowOctet(q, p)) && Octet(Held(bits), |bits| + 8, HighOctet(q))
  {
    forall k | |bits| <= k < |bits| + 16
      ensures Remains(Backing(bits), Held(bits), k)
    {
      RemainsAt(bits, k);
    }
    NothingAfter(bits, |bits|);
    NothingAfter(bits, |bits| + 8);
    Remainder(Backing(bits), Held(bits), |bits|, q, p);
  }

  lemma NothingAfter(bits: seq<bool>, b: nat)
    requires b >= |bits|
    ensures Octet(Backing(bits), b, NONE)
  {
  }

  /** The register after two octets or more. */
  lemma RegisterIs(bits: seq<bool>, n: nat, q: O, p: O, f: Word)
    requires |bits| == 8 * n && n >= 2 && QuotientHas(bits, n - 1, q) && QuotientHas(bits, n - 2, p)
    requires f == Feed(FCS_START, bits)
    ensures Named(f[..8]) == LowOctet(q, p) && Named(f[8..]) == HighOctet(q)
  {
    HeldIs(bits, q, p);
    HeldLow(bits, LowOctet(q, p));
    HeldHigh(bits, HighOctet(q));
  }

  /** The check octets whose complements the register holds. */
  lemma CheckIs(f: Word, low: Byte, high: Byte)
    requires Named(f[..8]) == NotOctet(Named(ByteBits(low))) && Named(f[8..]) == NotOctet(Named(ByteBits(high)))
    ensures CheckOctets(f) == [low, high]
  {
    SameNamed(Not(f[..8]), ByteBits(low));
    SameNamed(Not(f[8..]), ByteBits(high));
    ByteRoundTrip(low);
    ByteRoundTrip(high);
  }
  // ---- Some check sequences -------------------------------------------------------------------------

  predicate Bit0(d: nat) {
    d % 2 == 1
  }

  predicate Bit1(d: nat) {
    d / 2 % 2 == 1
  }

  predicate Bit2(d: nat) {
    d / 4 % 2 == 1
  }

  predicate Bit3(d: nat) {
    d / 8 % 2 == 1
  }

  /** The octet with two hexadecimal digits. */
  function Hex(p: nat, q: nat): O {
    O(Bit0(q), Bit1(q), Bit2(q), Bit3(q), Bit0(p), Bit1(p), Bit2(p), Bit3(p))
  }

  lemma HexIs(p: nat, q: nat)
    requires p < 16 && q < 16
    ensures Named(ByteBits(16 * p + q)) == Hex(p, q)
  {
    HexLow(p, q);
    HexHigh(p, q);
  }

  lemma {:induction false} BitAt(x: nat, n: nat, k: nat, y: nat)
    requires k < n && y < 2
    requires k == 0 ==> y == x % 2
    requires k == 1 ==> y == x / 2 % 2
    requires k == 2 ==> y == x / 4 % 2
    requires k == 3 ==> y == x / 8 % 2
    requires k < 4
    ensures ToBits(x, n)[k] == (y == 1)
  {
    if k > 0 {
      BitAt(x / 2, n - 1, k - 1, y);
    }
  }

  lemma EvenAdds(p: nat, y: nat)
    ensures (2 * p + y) % 2 == y % 2
  {
  }

  lemma Halves(p: nat, q: nat)
    ensures (16 * p + q) / 2 == 2 * (4 * p) + q / 2
    ensures (16 * p + q) / 4 == 2 * (2 * p) + q / 4
    ensures (16 * p + q) / 8 == 2 * p + q / 8
  {
  }

  lemma LowDigit(p: nat, q: nat)
    ensures (16 * p + q) % 2 == q % 2 && (16 * p + q) / 2 % 2 == q / 2 % 2
    ensures (16 * p + q) / 4 % 2 == q / 4 % 2 && (16 * p + q) / 8 % 2 == q / 8 % 2
  {
    Halves(p, q);
    EvenAdds(8 * p, q);
    EvenAdds(4 * p, q / 2);
    EvenAdds(2 * p, q / 4);
    EvenAdds(p, q / 8);
  }

  lemma HexLow(p: nat, q: nat)
    requires p < 16 && q < 16
    ensures var s := ByteBits(16 * p + q); s[0] == Bit0(q) && s[1] == Bit1(q) && s[2] == Bit2(q) && s[3] == Bit3(q)
  {
    var x: Byte := 16 * p + q;
    LowDigit(p, q);
    BitAt(x, 8, 0, q % 2);
    BitAt(x, 8, 1, q / 2 % 2);
    BitAt(x, 8, 2, q / 4 % 2);
    BitAt(x, 8, 3, q / 8 % 2);
  }

  lemma FourOn(x: nat, k: nat)
    requires k < 4
    ensures ToBits(x, 8)[4 + k] == ToBits(x / 2 / 2 / 2 / 2, 4)[k]
  {
    assert ToBits(x, 8)[4 + k] == ToBits(x / 2, 7)[3 + k];
    assert ToBits(x / 2, 7)[3 + k] == ToBits(x / 2 / 2, 6)[2 + k];
    assert ToBits(x / 2 / 2, 6)[2 + k] == ToBits(x / 2 / 2 / 2, 5)[1 + k];
  }

  lemma HighDigit(p: nat, q: nat)
    requires q < 16
    ensures (16 * p + q) / 2 / 2 / 2 / 2 == p
  {
  }

  lemma FourBits(p: nat, s: seq<bool>)
    requires p < 16 && s == ToBits(p, 4)
    ensures s[0] == Bit0(p) && s[1] == Bit1(p) && s[2] == Bit2(p) && s[3] == Bit3(p)
  {
    BitAt(p, 4, 0, p % 2);
    BitAt(p, 4, 1, p / 2 % 2);
    BitAt(p, 4, 2, p / 4 % 2);
    BitAt(p, 4, 3, p / 8 % 2);
  }

  lemma HighBits(x: nat, p: nat, s: seq<bool>)
    requires p < 16 && x / 2 / 2 / 2 / 2 == p && s == ToBits(x, 8)
    ensures s[4] == Bit0(p) && s[5] == Bit1(p) && s[6] == Bit2(p) && s[7] == Bit3(p)
  {
    FourOn(x, 0);
    FourOn(x, 1);
    FourOn(x, 2);
    FourOn(x, 3);
    FourBits(p, ToBits(p, 4));
  }

  lemma HexHigh(p: nat, q: nat)
    requires p < 16 && q < 16
    ensures var s := ByteBits(16 * p + q); s[4] == Bit0(p) && s[5] == Bit1(p) && s[6] == Bit2(p) && s[7] == Bit3(p)
  {
    HighDigit(p, q);
    HighBits(16 * p + q, p, ByteBits(16 * p + q));
  }

  function EnteringHex(j: nat, h: nat, l: nat): O {
    if j < 2 then NotOctet(Hex(h, l)) else Hex(h, l)
  }

  lemma NamedEnters(bytes: seq<Byte>, j: nat, h: nat, l: nat)
    requires j < |bytes| && h < 16 && l < 16 && bytes[j] == 16 * h + l
    ensures Named(EnteringBits(bytes, j)) == EnteringHex(j, h, l)
  {
    HexIs(h, l);
  }

  lemma EntersHex(bytes: seq<Byte>, j: nat, h: nat, l: nat)
    requires j < |bytes| && h < 16 && l < 16 && bytes[j] == 16 * h + l
    ensures Octet(Entering(Serial(bytes)), 8 * j, EnteringHex(j, h, l))
  {
    NamedEnters(bytes, j, h, l);
    Enters(bytes, j);
  }

  /** What is known of the functions while the first `n` octets go by. */
  ghost predicate Runs(enter: int -> bool, back: int -> bool, n: nat) {
    && (forall k :: 0 <= k < 8 * n ==> Divides(enter, back, k))
    && Octet(back, -8, NONE) && Octet(back, -16, NONE)
  }

  lemma BitsRun(bytes: seq<Byte>)
    ensures Runs(Entering(Serial(bytes)), Backing(Serial(bytes)), |bytes|)
  {
    var bits := Serial(bytes);
    QuotientNone(bits);
    forall k | 0 <= k < 8 * |bytes|
      ensures Divides(Entering(bits), Backing(bits), k)
    {
      DividesAt(bits, k);
    }
  }

  lemma Checks(f: Word, q: O, p: O, low: Byte, high: Byte)
    requires Named(f[..8]) == LowOctet(q, p) && Named(f[8..]) == HighOctet(q)
    requires LowOctet(q, p) == NotOctet(Named(ByteBits(low))) && HighOctet(q) == NotOctet(Named(ByteBits(high)))
    ensures CheckOctets(f) == [low, high]
  {
    CheckIs(f, low, high);
  }

  ghost predicate EntersAsHex(enter: int -> bool, j: nat, x: Byte) {
    Octet(enter, 8 * j, EnteringHex(j, x / 16, x % 16))
  }

  lemma HexAt(enter: int -> bool, j: nat, x: Byte, h: nat, l: nat)
    requires EntersAsHex(enter, j, x) && x == 16 * h + l && l < 16
    ensures Octet(enter, 8 * j, EnteringHex(j, h, l))
  {
    assert x / 16 == h && x % 16 == l;
  }

  /** A register that comes out of the last two octets of the quotient. */
  ghost predicate ComesOut(back: int -> bool, n: nat, f: Word, q: O, p: O) {
    Octet(back, 8 * n - 8, q) && Octet(back, 8 * n - 16, p) ==>
      Named(f[..8]) == LowOctet(q, p) && Named(f[8..]) == HighOctet(q)
  }

  lemma Running(bytes: seq<Byte>) returns (enter: int -> bool, back: int -> bool, f: Word)
    requires |bytes| >= 2
    ensures FcsOctets(bytes) == CheckOctets(f) && Runs(enter, back, |bytes|)
    ensures forall j: nat :: j < |bytes| ==> EntersAsHex(enter, j, bytes[j])
    ensures forall q, p :: ComesOut(back, |bytes|, f, q, p)
  {
    var bits := Serial(bytes);
    enter, back, f := Entering(bits), Backing(bits), Feed(FCS_START, bits);
    BitsRun(bytes);
    FoldFeeds(FCS_START, bytes);
    forall j: nat | j < |bytes|
      ensures EntersAsHex(enter, j, bytes[j])
    {
      EntersHex(bytes, j, bytes[j] / 16, bytes[j] % 16);
    }
    forall q, p
      ensures ComesOut(back, |bytes|, f, q, p)
    {
      if Octet(back, 8 * |bytes| - 8, q) && Octet(back, 8 * |bytes| - 16, p) {
        RegisterIs(bits, |bytes|, q, p, f);
      }
    }
  }

  lemma FirstDigits()
    ensures NextOctet(NotOctet(Hex(3, 1)), NONE, NONE) == Hex(2, 0xe)
    ensures NextOctet(NotOctet(Hex(3, 2)), Hex(2, 0xe), NONE) == Hex(4, 0xf)
    ensures NextOctet(Hex(3, 3), Hex(4, 0xf), Hex(2, 0xe)) == Hex(6, 0)
    ensures NextOctet(Hex(3, 4), Hex(6, 0), Hex(4, 0xf)) == Hex(8, 0xf)
    ensures NextOctet(Hex(3, 5), Hex(8, 0xf), Hex(6, 0)) == Hex(4, 6)
  {
  }

  lemma LastDigits()
    ensures NextOctet(Hex(3, 6), Hex(4, 6), Hex(8, 0xf)) == Hex(1, 9)
    ensures NextOctet(Hex(3, 7), Hex(1, 9), Hex(4, 6)) == Hex(1, 0xa)
    ensures NextOctet(Hex(3, 8), Hex(1, 0xa), Hex(1, 9)) == Hex(0xf, 0)
    ensures NextOctet(Hex(3, 9), Hex(0xf, 0), Hex(1, 0xa)) == Hex(6, 0xc)
    ensures LowOctet(Hex(6, 0xc), Hex(0xf, 0)) == NotOctet(Hex(6, 0xe)) && HighOctet(Hex(6, 0xc)) == NotOctet(Hex(9, 0))
  {
  }

  lemma DigitsQuotient(enter: int -> bool, back: int -> bool)
    requires Runs(enter, back, 9)
    requires Octet(enter, 0, EnteringHex(0, 3, 1)) && Octet(enter, 8, EnteringHex(1, 3, 2))
    requires Octet(enter, 16, EnteringHex(2, 3, 3)) && Octet(enter, 24, EnteringHex(3, 3, 4))
    requires Octet(enter, 32, EnteringHex(4, 3, 5)) && Octet(enter, 40, EnteringHex(5, 3, 6))
    requires Octet(enter, 48, EnteringHex(6, 3, 7)) && Octet(enter, 56, EnteringHex(7, 3, 8))
    requires Octet(enter, 64, EnteringHex(8, 3, 9))
    ensures Octet(back, 64, Hex(6, 0xc)) && Octet(back, 56, Hex(0xf, 0))
  {
    FirstDigits();
    LastDigits();
    NextQuotient(enter, back, 0, NotOctet(Hex(3, 1)), NONE, NONE);
    NextQuotient(enter, back, 8, NotOctet(Hex(3, 2)), Hex(2, 0xe), NONE);
    NextQuotient(enter, back, 16, Hex(3, 3), Hex(4, 0xf), Hex(2, 0xe));
    NextQuotient(enter, back, 24, Hex(3, 4), Hex(6, 0), Hex(4, 0xf));
    NextQuotient(enter, back, 32, Hex(3, 5), Hex(8, 0xf), Hex(6, 0));
    NextQuotient(enter, back, 40, Hex(3, 6), Hex(4, 6), Hex(8, 0xf));
    NextQuotient(enter, back, 48, Hex(3, 7), Hex(1, 9), Hex(4, 6));
    NextQuotient(enter, back, 56, Hex(3, 8), Hex(1, 0xa), Hex(1, 9));
    NextQuotient(enter, back, 64, Hex(3, 9), Hex(0xf, 0), Hex(1, 0xa));
  }

  lemma DigitsOut(f: Word)
    requires Named(f[..8]) == LowOctet(Hex(6, 0xc), Hex(0xf, 0)) && Named(f[8..]) == HighOctet(Hex(6, 0xc))
    ensures CheckOctets(f) == [0x6e, 0x90]
  {
    LastDigits();
    HexIs(6, 0xe);
    HexIs(9, 0);
    Checks(f, Hex(6, 0xc), Hex(0xf, 0), 0x6e, 0x90);
  }

  lemma DigitsRegister(enter: int -> bool, back: int -> bool, f: Word)
    requires Runs(enter, back, 9) && (forall q, p :: ComesOut(back, 9, f, q, p))
    requires EntersAsHex(enter, 0, 0x31) && EntersAsHex(enter, 1, 0x32) && EntersAsHex(enter, 2, 0x33)
    requires EntersAsHex(enter, 3, 0x34) && EntersAsHex(enter, 4, 0x35) && EntersAsHex(enter, 5, 0x36)
    requires EntersAsHex(enter, 6, 0x37) && EntersAsHex(enter, 7, 0x38) && EntersAsHex(enter, 8, 0x39)
    ensures CheckOctets(f) == [0x6e, 0x90]
  {
    HexAt(enter, 0, 0x31, 3, 1);
    HexAt(enter, 1, 0x32, 3, 2);
    HexAt(enter, 2, 0x33, 3, 3);
    HexAt(enter, 3, 0x34, 3, 4);
    HexAt(enter, 4, 0x35, 3, 5);
    HexAt(enter, 5, 0x36, 3, 6);
    HexAt(enter, 6, 0x37, 3, 7);
    HexAt(enter, 7, 0x38, 3, 8);
    HexAt(enter, 8, 0x39, 3, 9);
    DigitsQuotient(enter, back);
    assert ComesOut(back, 9, f, Hex(6, 0xc), Hex(0xf, 0));
    DigitsOut(f);
  }

  /** The check octets of the digits 1 to 9, as characters: 6e 90. */
  lemma DigitsChecked(bytes: seq<Byte>)
    requires |bytes| == 9 && forall j :: 0 <= j < 9 ==> bytes[j] == 0x31 + j
    ensures FcsOctets(bytes) == [0x6e, 0x90]
  {
    var enter, back, f := Running(bytes);
    assert EntersAsHex(enter, 0, bytes[0]) && EntersAsHex(enter, 1, bytes[1]) && EntersAsHex(enter, 2, bytes[2]);
    assert EntersAsHex(enter, 3, bytes[3]) && EntersAsHex(enter, 4, bytes[4]) && EntersAsHex(enter, 5, bytes[5]);
    assert EntersAsHex(enter, 6, bytes[6]) && EntersAsHex(enter, 7, bytes[7]) && EntersAsHex(enter, 8, bytes[8]);
    DigitsRegister(enter, back, f);
  }

  lemma ReadyOctets()
    ensures NextOctet(NotOctet(Hex(0, 3)), NONE, NONE) == Hex(3, 0xc)
    ensures NextOctet(NotOctet(Hex(0, 1)), Hex(3, 0xc), NONE) == Hex(0xc, 0xd)
    ensures NextOctet(Hex(0, 0), Hex(0xc, 0xd), Hex(3, 0xc)) == Hex(0xc, 9)
    ensures LowOctet(Hex(0xc, 9), Hex(0xc, 0xd)) == NotOctet(Hex(7, 0)) && HighOctet(Hex(0xc, 9)) == NotOctet(Hex(3, 0))
  {
  }

  lemma ReadyQuotient(enter: int -> bool, back: int -> bool)
    requires Runs(enter, back, 3)
    requires Octet(enter, 0, EnteringHex(0, 0, 3)) && Octet(enter, 8, EnteringHex(1, 0, 1))
    requires Octet(enter, 16, EnteringHex(2, 0, 0))
    ensures Octet(back, 16, Hex(0xc, 9)) && Octet(back, 8, Hex(0xc, 0xd))
  {
    ReadyOctets();
    NextQuotient(enter, back, 0, NotOctet(Hex(0, 3)), NONE, NONE);
    NextQuotient(enter, back, 8, NotOctet(Hex(0, 1)), Hex(3, 0xc), NONE);
    NextQuotient(enter, back, 16, Hex(0, 0), Hex(0xc, 0xd), Hex(3, 0xc));
  }

  lemma ReadyOut(f: Word)
    requires Named(f[..8]) == LowOctet(Hex(0xc, 9), Hex(0xc, 0xd)) && Named(f[8..]) == HighOctet(Hex(0xc, 9))
    ensures CheckOctets(f) == [0x70, 0x30]
  {
    ReadyOctets();
    HexIs(7, 0);
    HexIs(3, 0);
    Checks(f, Hex(0xc, 9), Hex(0xc, 0xd), 0x70, 0x30);
  }

  lemma ReadyRegister(enter: int -> bool, back: int -> bool, f: Word)
    requires Runs(enter, back, 3) && (forall q, p :: ComesOut(back, 3, f, q, p))
    requires EntersAsHex(enter, 0, 3) && EntersAsHex(enter, 1, 1) && EntersAsHex(enter, 2, 0)
    ensures CheckOctets(f) == [0x70, 0x30]
  {
    HexAt(enter, 0, 3, 0, 3);
    HexAt(enter, 1, 1, 0, 1);
    HexAt(enter, 2, 0, 0, 0);
    ReadyQuotient(enter, back);
    assert ComesOut(back, 3, f, Hex(0xc, 9), Hex(0xc, 0xd));
    ReadyOut(f);
  }

  /** Those of the first receiver-ready frame, 03 01 00: 70 30. */
  lemma ReadyChecked(bytes: seq<Byte>)
    requires |bytes| == 3 && bytes[0] == 3 && bytes[1] == 1 && bytes[2] == 0
    ensures FcsOctets(bytes) == [0x70, 0x30]
  {
    var enter, back, f := Running(bytes);
    assert EntersAsHex(enter, 0, bytes[0]) && EntersAsHex(enter, 1, bytes[1]) && EntersAsHex(enter, 2, bytes[2]);
    ReadyRegister(enter, back, f);
  }

  // ---- Zero octets before a frame ---------------------------------------------------------------------

  /** Equal octets keep different registers apart. */
  lemma {:induction false} FoldApart(f: Word, g: Word, bytes: seq<Byte>)
    ensures FcsFold(f, bytes) == FcsFold(g, bytes) <==> f == g
    decreases |bytes|
  {
    if bytes != [] {
      FoldApart(FcsUpdate(f, bytes[0]), FcsUpdate(g, bytes[0]), bytes[1..]);
      UpdateBijection(bytes[0], f, g);
    }
  }

  lemma UpdateFeeds(f: Word, x: Byte)
    ensures FcsUpdate(f, x) == Feed(f, ByteBits(x))
  {
    assert LowWord(x) == Low(ByteBits(x));
    FeedShifts(f, ByteBits(x));
  }

  /** A zero octet takes the register away from the ones it starts from. */
  lemma ZeroSeen()
    ensures FcsUpdate(FCS_START, 0) != FCS_START
  {
    var bits := ByteBits(0);
    UpdateFeeds(FCS_START, 0);
    assert !bits[0] && !bits[4];
    GeneratorLaw(FCS_START, bits, 12);
    QuotientLaw(FCS_START, bits, 4);
    QuotientLaw(FCS_START, bits, 0);
  }

  /** This is what starting from ones is for: a zero octet before a good frame does not pass. */
  lemma LeadingZero(raw: seq<Byte>)
    requires FcsGood(raw)
    ensures !FcsGood([0] + raw)
  {
    assert ([0] + raw)[1..] == raw;
    ZeroSeen();
    FoldApart(FcsUpdate(FCS_START, 0), FCS_START, raw);
  }
}
