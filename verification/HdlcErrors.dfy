/** What the check sequence of src/v42_hdlc.c detects. */
module HdlcErrors {
  import opened Bits
  import opened Hdlc

  /** The register before a shift, from the register after it. */
  function Unshift(g: Word): Word {
    [g[15]] + seq(15, i requires 0 <= i < 15 => g[i] != (g[15] && Tap(i)))
  }

  function Unshifts(g: Word, n: nat): Word
    decreases n
  {
    if n == 0 then g else Unshift(Unshifts(g, n - 1))
  }

  lemma UnshiftShift(f: Word)
    ensures Unshift(FcsShift(f)) == f && FcsShift(Unshift(f)) == f
  {
  }

  lemma UnshiftsLast(g: Word, h: Word, n: nat)
    requires n > 0 && Unshifts(h, n - 1) == g
    ensures Unshifts(h, n) == Unshift(g)
  {
  }

  lemma {:induction false} ShiftsBack(f: Word, n: nat)
    ensures Unshifts(FcsShifts(f, n), n) == f
    decreases n
  {
    if n > 0 {
      var g := FcsShift(f);
      var h := FcsShifts(g, n - 1);
      assert FcsShifts(f, n) == h;
      ShiftsBack(g, n - 1);
      UnshiftsLast(g, h, n);
      UnshiftShift(f);
    }
  }

  lemma {:induction false} UnshiftsBack(f: Word, n: nat)
    ensures FcsShifts(Unshifts(f, n), n) == f
    decreases n
  {
    if n > 0 {
      UnshiftsBack(f, n - 1);
      UnshiftShift(Unshifts(f, n - 1));
    }
  }

  lemma UnshiftsShifts(f: Word, n: nat)
    ensures Unshifts(FcsShifts(f, n), n) == f && FcsShifts(Unshifts(f, n), n) == f
  {
    ShiftsBack(f, n);
    UnshiftsBack(f, n);
  }

  lemma XorCancel(f: Word, x: Word)
    ensures Xor(Xor(f, x), x) == f
  {
  }

  /** For every octet, the update is a bijection of the register. */
  lemma UpdateBijection(x: Byte, f: Word, g: Word)
    ensures FcsUpdate(f, x) == FcsUpdate(g, x) <==> f == g
    ensures FcsUpdate(Xor(Unshifts(g, OCTET), LowWord(x)), x) == g
  {
    UnshiftsShifts(Xor(f, LowWord(x)), OCTET);
    UnshiftsShifts(Xor(g, LowWord(x)), OCTET);
    XorCancel(f, LowWord(x));
    XorCancel(g, LowWord(x));
    XorCancel(Unshifts(g, OCTET), LowWord(x));
    UnshiftsShifts(g, OCTET);
  }

  // ---- Bit by bit -----------------------------------------------------------------------------

  /** Up to sixteen bits, at the low end of a word. */
  function Low(bits: seq<bool>): Word {
    seq(16, i requires 0 <= i < 16 => i < |bits| && bits[i])
  }

  /** The register after these bits, in the order of the line. */
  function Feed(f: Word, bits: seq<bool>): Word {
    if bits == [] then f
    else
      var n := |bits| - 1;
      FcsShift(Xor(Feed(f, bits[..n]), Low([bits[n]])))
  }

  lemma {:induction false} FeedAppend(f: Word, a: seq<bool>, b: seq<bool>)
    ensures Feed(f, a + b) == Feed(Feed(f, a), b)
    decreases |b|
  {
    if b == [] {
      assert a + b == a;
    } else {
      var n := |b| - 1;
      assert (a + b)[..|a| + n] == a + b[..n];
      FeedAppend(f, a, b[..n]);
    }
  }

  lemma {:induction false} ShiftsLast(f: Word, n: nat)
    ensures FcsShifts(f, n + 1) == FcsShift(FcsShifts(f, n))
    decreases n
  {
    if n > 0 {
      ShiftsLast(FcsShift(f), n - 1);
    }
  }

  /** One more bit of a word, and that bit where the shifts leave it. */
  lemma LowSplits(f: Word, bits: seq<bool>)
    requires 0 < |bits| <= 16
    ensures var n := |bits| - 1; var unit := Zeros(n) + ([bits[n]] + Zeros(15 - n));
      Xor(f, Low(bits)) == Xor(Xor(f, Low(bits[..n])), unit)
  {
  }

  lemma UnitShifts(bit: bool, n: nat)
    requires n < 16
    ensures FcsShifts(Zeros(n) + ([bit] + Zeros(15 - n)), n) == Low([bit])
  {
    ShiftsZeros([bit] + Zeros(15 - n), n);
    assert ([bit] + Zeros(15 - n)) + Zeros(n) == Low([bit]);
  }

  /** Feeding up to sixteen bits is adding them to the register at once and shifting. */
  lemma {:induction false} FeedShifts(f: Word, bits: seq<bool>)
    requires |bits| <= 16
    ensures Feed(f, bits) == FcsShifts(Xor(f, Low(bits)), |bits|)
  {
    if bits == [] {
      assert Xor(f, Low(bits)) == f;
    } else {
      var n := |bits| - 1;
      FeedShifts(f, bits[..n]);
      LowSplits(f, bits);
      UnitShifts(bits[n], n);
      ShiftsXor(Xor(f, Low(bits[..n])), Zeros(n) + ([bits[n]] + Zeros(15 - n)), n);
      ShiftsLast(Xor(f, Low(bits)), n);
    }
  }

  lemma {:induction false} FoldFeeds(f: Word, bytes: seq<Byte>)
    ensures FcsFold(f, bytes) == Feed(f, Serial(bytes))
    decreases |bytes|
  {
    if bytes != [] {
      var bits := ByteBits(bytes[0]);
      assert LowWord(bytes[0]) == Low(bits);
      FeedShifts(f, bits);
      FeedAppend(f, bits, Serial(bytes[1..]));
      FoldFeeds(FcsUpdate(f, bytes[0]), bytes[1..]);
    }
  }

  // ---- Errors -----------------------------------------------------------------------------------

  /** Equal bits keep different registers apart. */
  lemma {:induction false} FeedApart(f: Word, g: Word, bits: seq<bool>)
    ensures Feed(f, bits) == Feed(g, bits) <==> f == g
  {
    if bits != [] {
      var n := |bits| - 1;
      var u, v, x := Feed(f, bits[..n]), Feed(g, bits[..n]), Low([bits[n]]);
      FeedApart(f, g, bits[..n]);
      UnshiftShift(Xor(u, x));
      UnshiftShift(Xor(v, x));
      XorCancel(u, x);
      XorCancel(v, x);
    }
  }

  /** Different bits, sixteen at most, take a register apart. */
  lemma FeedTells(f: Word, s: seq<bool>, t: seq<bool>)
    requires |s| == |t| <= 16 && Feed(f, s) == Feed(f, t)
    ensures s == t
  {
    FeedShifts(f, s);
    FeedShifts(f, t);
    ShiftsBack(Xor(f, Low(s)), |s|);
    ShiftsBack(Xor(f, Low(t)), |t|);
    forall i | 0 <= i < |s|
      ensures s[i] == t[i]
    {
      assert Xor(f, Low(s))[i] == Xor(f, Low(t))[i];
    }
  }

  /** The same bits but for sixteen in a row, at most. */
  ghost predicate Burst(s: seq<bool>, t: seq<bool>, from: nat) {
    |s| == |t| && forall i :: 0 <= i < |s| && !(from <= i < from + 16) ==> s[i] == t[i]
  }

  lemma BurstPieces(s: seq<bool>, t: seq<bool>, from: nat)
    returns (head: seq<bool>, u: seq<bool>, v: seq<bool>, tail: seq<bool>)
    requires Burst(s, t, from)
    ensures s == head + u + tail && t == head + v + tail && |u| == |v| <= 16
  {
    var a := if from <= |s| then from else |s|;
    var b := if a + 16 <= |s| then a + 16 else |s|;
    head, u, v, tail := s[..a], s[a..b], t[a..b], s[b..];
  }

  lemma PiecesTell(f: Word, head: seq<bool>, u: seq<bool>, v: seq<bool>, tail: seq<bool>)
    requires |u| == |v| <= 16 && Feed(f, head + u + tail) == Feed(f, head + v + tail)
    ensures u == v
  {
    var g := Feed(f, head);
    FeedAppend(f, head + u, tail);
    FeedAppend(f, head + v, tail);
    FeedAppend(f, head, u);
    FeedAppend(f, head, v);
    FeedApart(Feed(g, u), Feed(g, v), tail);
    FeedTells(g, u, v);
  }

  lemma BurstTells(f: Word, s: seq<bool>, t: seq<bool>, from: nat)
    requires Burst(s, t, from) && Feed(f, s) == Feed(f, t)
    ensures s == t
  {
    var head, u, v, tail := BurstPieces(s, t, from);
    PiecesTell(f, head, u, v, tail);
  }

  /** Of a good frame of any length, a change confined to sixteen bits in a row, as they go over the
      line before zeros are inserted, is always detected. */
  lemma BurstDetected(a: seq<Byte>, b: seq<Byte>, from: nat)
    requires FcsGood(a) && Burst(Serial(a), Serial(b), from)
    ensures FcsGood(b) <==> a == b
  {
    if FcsGood(b) {
      FoldFeeds(FCS_START, a);
      FoldFeeds(FCS_START, b);
      BurstTells(FCS_START, Serial(a), Serial(b), from);
      OctetsSerial(a);
      OctetsSerial(b);
    }
  }

  lemma TwoInSerial(head: seq<Byte>, x: Byte, y: Byte, tail: seq<Byte>)
    ensures Serial(head + [x, y] + tail) == Serial(head) + (ByteBits(x) + ByteBits(y)) + Serial(tail)
  {
    SerialAppend(head + [x, y], tail);
    SerialAppend(head, [x, y]);
    assert [x, y][1..] == [y] && [y][1..] == [];
    assert Serial([y]) == ByteBits(y);
  }

  lemma MiddleBurst(head: seq<bool>, u: seq<bool>, v: seq<bool>, tail: seq<bool>)
    requires |u| == |v| == 16
    ensures Burst(head + u + tail, head + v + tail, |head|)
  {
  }

  /** So is a change confined to two adjacent octets. */
  lemma AdjacentOctetsDetected(head: seq<Byte>, x: Byte, y: Byte, x': Byte, y': Byte, tail: seq<Byte>)
    requires FcsGood(head + [x, y] + tail)
    ensures FcsGood(head + [x', y'] + tail) <==> x == x' && y == y'
  {
    var a, b := head + [x, y] + tail, head + [x', y'] + tail;
    TwoInSerial(head, x, y, tail);
    TwoInSerial(head, x', y', tail);
    MiddleBurst(Serial(head), ByteBits(x) + ByteBits(y), ByteBits(x') + ByteBits(y'), Serial(tail));
    BurstDetected(a, b, |Serial(head)|);
    assert a[|head|] == x && b[|head|] == x' && a[|head| + 1] == y && b[|head| + 1] == y';
  }
}
