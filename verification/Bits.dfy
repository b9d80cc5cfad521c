/** Octets, bits and the two conversions between numbers and bit strings.  All of the
    modem's serial formats send the least significant bit first. */
module Bits {
  type Byte = x: int | 0 <= x < 256

  /** Bits in an octet. */
  const OCTET: nat := 8

  function Pow2(n: nat): (p: nat)
    ensures p >= 1
  {
    if n == 0 then 1 else 2 * Pow2(n - 1)
  }

  /** The `n` low bits of `x`, least significant first. */
  function ToBits(x: nat, n: nat): (s: seq<bool>)
    ensures |s| == n
  {
    if n == 0 then [] else [x % 2 == 1] + ToBits(x / 2, n - 1)
  }

  /** The number a bit string stands for, least significant bit first. */
  function FromBits(s: seq<bool>): (x: nat)
  {
    if s == [] then 0 else (if s[0] then 1 else 0) + 2 * FromBits(s[1..])
  }

  lemma {:induction false} FromBitsBound(s: seq<bool>)
    ensures FromBits(s) < Pow2(|s|)
  {
    if s != [] {
      FromBitsBound(s[1..]);
    }
  }

  lemma Halve(b: bool, t: nat)
    ensures ((if b then 1 else 0) + 2 * t) % 2 == (if b then 1 else 0)
    ensures ((if b then 1 else 0) + 2 * t) / 2 == t
  {
  }

  lemma {:induction false} ToFromBits(s: seq<bool>)
    ensures ToBits(FromBits(s), |s|) == s
  {
    if s != [] {
      ToFromBits(s[1..]);
      Halve(s[0], FromBits(s[1..]));
    }
  }

  lemma {:induction false} FromToBits(x: nat, n: nat)
    requires x < Pow2(n)
    ensures FromBits(ToBits(x, n)) == x
  {
    if n > 0 {
      FromToBits(x / 2, n - 1);
      assert ToBits(x, n)[1..] == ToBits(x / 2, n - 1);
    }
  }

  lemma Pow2Eight()
    ensures Pow2(8) == 256
  {
    assert Pow2(4) == 16;
  }

  /** Writing one more bit above the ones already there. */
  lemma {:induction false} FromBitsSnoc(s: seq<bool>, b: bool)
    ensures FromBits(s + [b]) == FromBits(s) + (if b then Pow2(|s|) else 0)
  {
    if s == [] {
      assert s + [b] == [b];
      assert [b][1..] == [];
    } else {
      FromBitsSnoc(s[1..], b);
      assert (s + [b])[1..] == s[1..] + [b];
    }
  }

  function ByteBits(x: Byte): (s: seq<bool>)
    ensures |s| == 8
  {
    ToBits(x, OCTET)
  }

  function BitsByte(s: seq<bool>): (x: Byte)
    requires |s| == 8
  {
    FromBitsBound(s);
    Pow2Eight();
    FromBits(s)
  }

  lemma ByteRoundTrip(x: Byte)
    ensures BitsByte(ByteBits(x)) == x
  {
    Pow2Eight();
    FromToBits(x, OCTET);
  }

  /** The serial form of a string of octets. */
  function Serial(bytes: seq<Byte>): (s: seq<bool>)
    ensures |s| == 8 * |bytes|
  {
    if bytes == [] then [] else ByteBits(bytes[0]) + Serial(bytes[1..])
  }

  /** The octets of a serial bit string; a trailing part octet is not looked at. */
  function Octets(s: seq<bool>): (bytes: seq<Byte>)
    ensures |bytes| == |s| / 8
  {
    if |s| < 8 then [] else [BitsByte(s[..8])] + Octets(s[8..])
  }

  lemma {:induction false} OctetsSerial(bytes: seq<Byte>)
    ensures Octets(Serial(bytes)) == bytes
  {
    if bytes != [] {
      var s := Serial(bytes);
      assert s[..8] == ByteBits(bytes[0]);
      assert s[8..] == Serial(bytes[1..]);
      ByteRoundTrip(bytes[0]);
      OctetsSerial(bytes[1..]);
    }
  }

  lemma Regroup<T>(a: seq<T>, b: seq<T>, c: seq<T>)
    ensures (a + b) + c == a + (b + c)
  {
  }

  lemma {:induction false} SerialAppend(a: seq<Byte>, b: seq<Byte>)
    ensures Serial(a + b) == Serial(a) + Serial(b)
  {
    if a == [] {
      assert a + b == b;
    } else {
      SerialAppend(a[1..], b);
      assert (a + b)[1..] == a[1..] + b;
      Regroup(ByteBits(a[0]), Serial(a[1..]), Serial(b));
    }
  }

  lemma SerialSnoc(bytes: seq<Byte>, j: nat)
    requires j < |bytes|
    ensures Serial(bytes[..j + 1]) == Serial(bytes[..j]) + ByteBits(bytes[j])
  {
    SerialAppend(bytes[..j], [bytes[j]]);
    assert bytes[..j] + [bytes[j]] == bytes[..j + 1];
    assert Serial([bytes[j]]) == ByteBits(bytes[j]);
  }

  lemma {:induction false} OctetsSnoc(s: seq<bool>, t: seq<bool>)
    requires |s| % 8 == 0 && |t| == 8
    ensures Octets(s + t) == Octets(s) + [BitsByte(t)]
  {
    if |s| == 0 {
      assert s + t == t;
      assert t[..8] == t && t[8..] == [];
    } else {
      OctetsSnoc(s[8..], t);
      assert (s + t)[..8] == s[..8];
      assert (s + t)[8..] == s[8..] + t;
    }
  }
}
