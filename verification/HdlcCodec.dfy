/** The encoder and decoder loops of src/v42_hdlc.c, over a caller's bit buffer. */
module HdlcCodec {
  import opened Wrappers
  import opened Bits
  import opened Hdlc

  /** The register moves down by one, and the bit that leaves it comes back at the taps. */
  method Shift(f: Word) returns (f': Word)
    ensures f' == FcsShift(f)
  {
    var shifted := f[1..] + [false];
    f' := if f[0] then seq(16, k requires 0 <= k < 16 => shifted[k] != Tap(k)) else shifted;
  }

  /** One octet enters the check register. */
  method Update(f: Word, octet: Byte) returns (f': Word)
    ensures f' == FcsUpdate(f, octet)
  {
    f' := Xor(f, LowWord(octet));
    var i := 0;
    while i < OCTET
      invariant i <= OCTET && FcsShifts(f', OCTET - i) == FcsUpdate(f, octet)
    {
      f' := Shift(f');
      i := i + 1;
    }
  }

  /** Check register after `data`, from the preset value. */
  method Fcs(data: seq<Byte>) returns (f: Word)
    ensures f == FcsFold(FCS_START, data)
  {
    f := FCS_START;
    var i := 0;
    while i < |data|
      invariant i <= |data|
      invariant FcsFold(f, data[i..]) == FcsFold(FCS_START, data)
    {
      assert data[i..][1..] == data[i + 1..];
      f := Update(f, data[i]);
      i := i + 1;
    }
    assert data[i..] == [];
  }

  method Put(out: array<bool>, at: nat, bit: bool) returns (ok: bool, at': nat)
    requires at <= out.Length
    modifies out
    ensures ok == (at < out.Length)
    ensures ok ==> at' == at + 1 && out[..at'] == old(out[..at]) + [bit]
    ensures !ok ==> at' == at
  {
    if at >= out.Length {
      return false, at;
    }
    out[at] := bit;
    ok, at' := true, at + 1;
  }

  method PutFlag(out: array<bool>, at: nat) returns (ok: bool, at': nat)
    requires at <= out.Length
    modifies out
    ensures ok == (at + 8 <= out.Length)
    ensures ok ==> at' == at + 8 && out[..at'] == old(out[..at]) + FLAG
  {
    var i := 0;
    ok, at' := true, at;
    while i < 8
      invariant i <= 8 && at' == at + i <= out.Length
      invariant out[..at'] == old(out[..at]) + FLAG[..i]
    {
      ok, at' := Put(out, at', FLAG[i]);
      if !ok {
        return;
      }
      i := i + 1;
    }
  }

  /** One data bit, and the inserted zero when it is the fifth one in a row. */
  method PutStuffed(out: array<bool>, at: nat, ones: nat, bit: bool) returns (ok: bool, at': nat, ones': nat)
    requires at <= out.Length && ones < 5
    modifies out
    ensures ok == (at + |Stuff([bit], ones)| <= out.Length)
    ensures ok ==> at' == at + |Stuff([bit], ones)| && out[..at'] == old(out[..at]) + Stuff([bit], ones)
    ensures ok ==> ones' == OnesAfter([bit], ones)
  {
    assert Stuff([bit], ones) == if bit && ones == 4 then [true, false] else [bit];
    ones' := ones;
    ok, at' := Put(out, at, bit);
    if !ok {
      return;
    }
    if bit {
      ones' := ones' + 1;
      if ones' == 5 {
        ok, at' := Put(out, at', false);
        ones' := 0;
      }
    } else {
      ones' := 0;
    }
  }

  method PutOctet(out: array<bool>, at: nat, ones: nat, octet: seq<bool>) returns (ok: bool, at': nat, ones': nat)
    requires at <= out.Length && ones < 5
    modifies out
    ensures ok == (at + |Stuff(octet, ones)| <= out.Length)
    ensures ok ==> at' == at + |Stuff(octet, ones)| && out[..at'] == old(out[..at]) + Stuff(octet, ones)
    ensures ok ==> ones' == OnesAfter(octet, ones)
  {
    ok, at', ones' := true, at, ones;
    var b := 0;
    while b < |octet|
      invariant b <= |octet| && ones' < 5
      invariant at' == at + |Stuff(octet[..b], ones)| <= out.Length
      invariant out[..at'] == old(out[..at]) + Stuff(octet[..b], ones)
      invariant ones' == OnesAfter(octet[..b], ones)
    {
      StuffAppend(octet[..b], [octet[b]], ones);
      assert octet[..b] + [octet[b]] == octet[..b + 1];
      StuffAppend(octet[..b + 1], octet[b + 1..], ones);
      assert octet[..b + 1] + octet[b + 1..] == octet;
      ok, at', ones' := PutStuffed(out, at', ones', octet[b]);
      if !ok {
        return;
      }
      b := b + 1;
    }
    assert octet[..b] == octet;
  }

  method PutOctets(out: array<bool>, at: nat, raw: seq<Byte>) returns (ok: bool, at': nat)
    requires at <= out.Length
    modifies out
    ensures ok == (at + |Stuff(Serial(raw), 0)| <= out.Length)
    ensures ok ==> at' == at + |Stuff(Serial(raw), 0)| && out[..at'] == old(out[..at]) + Stuff(Serial(raw), 0)
  {
    ok, at' := true, at;
    var ones, j := 0, 0;
    while j < |raw|
      invariant j <= |raw| && ones < 5
      invariant at' == at + |Stuff(Serial(raw[..j]), 0)| <= out.Length
      invariant out[..at'] == old(out[..at]) + Stuff(Serial(raw[..j]), 0)
      invariant ones == OnesAfter(Serial(raw[..j]), 0)
    {
      OctetStep(raw, j);
      ok, at', ones := PutOctet(out, at', ones, ByteBits(raw[j]));
      if !ok {
        return;
      }
      j := j + 1;
    }
    assert raw[..j] == raw;
  }

  lemma OctetStep(raw: seq<Byte>, j: nat)
    requires j < |raw|
    ensures var done, next := Serial(raw[..j]), ByteBits(raw[j]);
      && Stuff(Serial(raw[..j + 1]), 0) == Stuff(done, 0) + Stuff(next, OnesAfter(done, 0))
      && OnesAfter(Serial(raw[..j + 1]), 0) == OnesAfter(next, OnesAfter(done, 0))
      && |Stuff(Serial(raw[..j + 1]), 0)| <= |Stuff(Serial(raw), 0)|
  {
    SerialAppend(raw[..j], [raw[j]]);
    assert raw[..j] + [raw[j]] == raw[..j + 1];
    assert Serial([raw[j]]) == ByteBits(raw[j]);
    StuffAppend(Serial(raw[..j]), ByteBits(raw[j]), 0);
    SerialAppend(raw[..j + 1], raw[j + 1..]);
    assert raw[..j + 1] + raw[j + 1..] == raw;
    StuffAppend(Serial(raw[..j + 1]), Serial(raw[j + 1..]), 0);
  }

  method PutFrame(out: array<bool>, raw: seq<Byte>) returns (n: nat)
    modifies out
    ensures var w := FLAG + Stuff(Serial(raw), 0) + FLAG;
      && n == (if |w| <= out.Length then |w| else 0)
      && (n > 0 ==> out[..n] == w)
  {
    ghost var body := Stuff(Serial(raw), 0);
    var ok, at := PutFlag(out, 0);
    if !ok {
      return 0;
    }
    ok, at := PutOctets(out, at, raw);
    if !ok {
      return 0;
    }
    ok, at := PutFlag(out, at);
    if !ok {
      return 0;
    }
    return at;
  }

  /** Writes the line form of `frame` into `out`; the number of bits, or 0 if the frame is
      too long or the buffer too short. */
  method EncodeRaw(frame: seq<Byte>, out: array<bool>) returns (n: nat)
    modifies out
    ensures n == if |frame| <= MAX_INFO + 2 && |Encoded(frame)| <= out.Length then |Encoded(frame)| else 0
    ensures n > 0 ==> out[..n] == Encoded(frame)
  {
    if |frame| > MAX_INFO + 2 {
      return 0;
    }
    var f := Fcs(frame);
    n := PutFrame(out, frame + CheckOctets(f));
  }

  // ---- Receiver -------------------------------------------------------------------

  /** Eight bits from `i` on compared with the flag, least significant first. */
  method FlagHere(bits: seq<bool>, i: nat) returns (flag: bool)
    requires i + 8 <= |bits|
    ensures flag == FlagAt(bits, i)
  {
    var v, b := 0, 0;
    while b < 8
      invariant b <= 8 && v == FromBits(bits[i..i + b])
    {
      FromBitsSnoc(bits[i..i + b], bits[i + b]);
      assert bits[i..i + b] + [bits[i + b]] == bits[i..i + b + 1];
      v := v + if bits[i + b] then Pow2(b) else 0;
      b := b + 1;
    }
    FlagValue(bits[i..i + 8]);
    FlagSlice(bits, i);
    flag := v == 0x7e;
  }

  lemma {:induction false} OnesBits(n: nat, k: nat)
    requires k <= n
    ensures ToBits(Pow2(k) - 1, n) == seq(n, i => i < k)
  {
    if n > 0 {
      if k == 0 {
        OnesBits(n - 1, 0);
      } else {
        OnesBits(n - 1, k - 1);
      }
    }
  }

  lemma FlagBitsValue()
    ensures ByteBits(0x7e) == FLAG
  {
    OnesBits(7, 6);
    assert Pow2(6) == 64;
    assert ToBits(63, 7) == seq(7, i => i < 6) == [true, true, true, true, true, true, false];
  }

  lemma FlagValue(s: seq<bool>)
    requires |s| == 8
    ensures FromBits(s) == 0x7e <==> s == FLAG
  {
    FlagBitsValue();
    ToFromBits(s);
    ByteRoundTrip(0x7e);
  }

  /** Positions just after the opening flag and of the closing flag. */
  method FindFlags(bits: seq<bool>) returns (first: nat, last: nat)
    ensures first <= |bits| && last <= |bits|
    ensures Between(bits) == if |bits| < 16 || first == |bits| || last == |bits| || last <= first then None
                             else Some(bits[first..last])
  {
    var n := |bits|;
    first, last := n, n;
    var i := 0;
    while i + 8 <= n
      invariant i <= n && last == n && first <= n
      invariant first == n ==> FindFlag(bits, 0) == FindFlag(bits, i) || FindFlag(bits, 0) + 8 == n
      invariant first < n ==> first >= 8 && first - 8 == FindFlag(bits, 0) < i
      invariant first < n ==> FindFlag(bits, first - 7) == FindFlag(bits, i)
    {
      var flag := FlagHere(bits, i);
      if flag {
        if first == n {
          first := i + 8;
        } else {
          last := i;
          break;
        }
      }
      i := i + 1;
    }
    assert last < n ==> first < n && last == i == FindFlag(bits, first - 7);
    assert last == n ==> FindFlag(bits, i) == n;
  }

  /** One bit enters the octet being built. `packed` and `part` are the bits already in
      `raw` and in `byte`. */
  method PackBit(raw: seq<Byte>, byte: nat, bitsIn: nat, bit: bool, ghost packed: seq<bool>, ghost part: seq<bool>)
    returns (ok: bool, raw': seq<Byte>, byte': nat, bitsIn': nat, ghost packed': seq<bool>, ghost part': seq<bool>)
    requires Packed(raw, byte, bitsIn, packed, part)
    ensures ok == !(bitsIn == 7 && |raw| == MAX_INFO + 4)
    ensures ok ==> Packed(raw', byte', bitsIn', packed', part') && packed' + part' == packed + part + [bit]
  {
    FromBitsSnoc(part, bit);
    ok, raw', packed' := true, raw, packed;
    byte', bitsIn', part' := byte + (if bit then Pow2(bitsIn) else 0), bitsIn + 1, part + [bit];
    if bitsIn' == 8 {
      if |raw| >= MAX_INFO + 4 {
        ok := false;
        return;
      }
      OctetsSnoc(packed, part');
      assert byte' == BitsByte(part');
      raw', byte', bitsIn', packed', part' := raw + [byte'], 0, 0, packed + part', [];
    }
  }

  ghost predicate Packed(raw: seq<Byte>, byte: nat, bitsIn: nat, packed: seq<bool>, part: seq<bool>) {
    && |raw| <= MAX_INFO + 4 && |packed| == 8 * |raw| && raw == Octets(packed)
    && bitsIn < 8 && |part| == bitsIn && byte == FromBits(part)
  }

  /** The receiver's loop over the bits between the flags: removes inserted zeros and packs
      octets.  `None` stands for every rejection. */
  method Unpack(body: seq<bool>) returns (r: Option<seq<Byte>>)
    ensures r == match Unstuff(body, 0) case None => None case Some(t) => WholeOctets(t)
  {
    var raw: seq<Byte> := [];
    var byte, bitsIn, ones, i := 0, 0, 0, 0;
    ghost var packed: seq<bool>, part: seq<bool> := [], [];
    PrependNothing(Unstuff(body, 0));
    assert body[0..] == body && packed + part == [];
    while i < |body|
      invariant i <= |body| && ones <= 6
      invariant Unstuff(body, 0) == Prepend(packed + part, Unstuff(body[i..], ones))
      invariant Packed(raw, byte, bitsIn, packed, part)
    {
      var bit := body[i];
      assert body[i..][1..] == body[i + 1..];
      i := i + 1;
      if bit {
        ones := ones + 1;
        if ones > 6 {
          return None;
        }
      } else {
        if ones == 5 {
          ones := 0;
          continue;
        }
        ones := 0;
      }
      PrependMore(packed + part, bit, Unstuff(body[i..], ones));
      var ok;
      ghost var before := packed + part;
      ok, raw, byte, bitsIn, packed, part := PackBit(raw, byte, bitsIn, bit, packed, part);
      if !ok {
        LongPrefix(before + [bit], Unstuff(body[i..], ones));
        return None;
      }
    }
    FinishPrepend(packed + part, body[i..], ones);
    if bitsIn != 0 {
      return None;
    }
    assert packed + [] == packed;
    return Some(raw);
  }

  /** Octets of a bit string that is a whole number of them, at most a full buffer. */
  function WholeOctets(t: seq<bool>): (r: Option<seq<Byte>>) {
    if |t| % 8 != 0 || |t| / 8 > MAX_INFO + 4 then None else Some(Octets(t))
  }

  lemma FinishPrepend(done: seq<bool>, rest: seq<bool>, ones: nat)
    requires rest == []
    ensures Prepend(done, Unstuff(rest, ones)) == Some(done)
  {
    assert done + [] == done;
  }

  lemma PrependNothing(t: Option<seq<bool>>)
    ensures Prepend([], t) == t
  {
    if t.Some? {
      assert [] + t.value == t.value;
    }
  }

  lemma PrependMore(done: seq<bool>, bit: bool, t: Option<seq<bool>>)
    ensures Prepend(done, Prepend([bit], t)) == Prepend(done + [bit], t)
  {
    if t.Some? {
      Regroup(done, [bit], t.value);
    }
  }

  lemma LongPrefix(done: seq<bool>, t: Option<seq<bool>>)
    requires |done| == 8 * (MAX_INFO + 5)
    ensures Prepend(done, t).Some? ==> WholeOctets(Prepend(done, t).value) == None
  {
  }

  /** Decodes one flag-delimited frame; `cap` is the room for its octets. */
  method DecodeRaw(bits: seq<bool>, cap: nat) returns (r: Option<seq<Byte>>)
    ensures r == if Decoded(bits).Some? && |Decoded(bits).value| <= cap then Decoded(bits) else None
  {
    if |bits| < 16 {
      return None;
    }
    var first, last := FindFlags(bits);
    if first == |bits| || last == |bits| || last <= first {
      return None;
    }
    var unpacked := Unpack(bits[first..last]);
    if unpacked == None || |unpacked.value| < 3 {
      return None;
    }
    var raw := unpacked.value;
    var f := Fcs(raw);
    if f != FCS_RESIDUE || |raw| - 2 > cap {
      return None;
    }
    return Some(raw[..|raw| - 2]);
  }
}
