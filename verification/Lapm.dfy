/** LAPM frames, src/v42_lapm.c: I, S and U frames as octets of an HDLC frame. */
module Lapm {
  import opened Wrappers
  import opened Bits
  import Hdlc

  datatype Supervisory = RR | RNR | REJ | SREJ

  datatype Frame =
    | I(dlci: nat, cr: nat, ns: nat, nr: nat, pf: nat, info: seq<Byte>)
    | S(dlci: nat, cr: nat, kind: Supervisory, nr: nat, pf: nat)
    | U(dlci: nat, cr: nat, control: Byte, pf: nat, info: seq<Byte>)

  function Code(kind: Supervisory): (c: Byte) {
    match kind
    case RR => 1
    case RNR => 5
    case REJ => 9
    case SREJ => 13
  }

  function Address(cr: nat): (x: Byte) {
    1 + 2 * (cr % 2)
  }

  function IOctets(cr: nat, ns: nat, nr: nat, p: nat, info: seq<Byte>): (raw: seq<Byte>) {
    [Address(cr), 2 * (ns % 128), 2 * (nr % 128) + p % 2] + info
  }

  function SOctets(kind: Supervisory, cr: nat, nr: nat, pf: nat): (raw: seq<Byte>) {
    [Address(cr), Code(kind), 2 * (nr % 128) + if kind == SREJ then 0 else pf % 2]
  }

  /** The line bits of a frame, or nothing when the encoder refuses. */
  function Line(raw: seq<Byte>, capacity: nat): (bits: Option<seq<bool>>) {
    if |raw| <= Hdlc.MAX_INFO + 2 && |Hdlc.Encoded(raw)| <= capacity then Some(Hdlc.Encoded(raw)) else None
  }

  function EncodeI(cr: nat, ns: nat, nr: nat, p: nat, info: seq<Byte>, capacity: nat): (bits: Option<seq<bool>>) {
    if |info| > Hdlc.MAX_INFO then None else Line(IOctets(cr, ns, nr, p, info), capacity)
  }

  function EncodeS(kind: Supervisory, cr: nat, nr: nat, pf: nat, capacity: nat): (bits: Option<seq<bool>>) {
    Line(SOctets(kind, cr, nr, pf), capacity)
  }

  /** Control octets below are taken apart as the source does: bit 0 clear is an I frame, the
      two low bits 01 an S frame, 11 a U frame. */
  function Parse(raw: seq<Byte>): (f: Option<Frame>) {
    if |raw| < 2 || raw[0] % 2 == 0 then None
    else
      var cr, dlci := raw[0] / 2 % 2, raw[0] / 4;
      if raw[1] % 2 == 0 then
        if |raw| < 3 then None
        else Some(I(dlci, cr, raw[1] / 2, raw[2] / 2, raw[2] % 2, raw[3..]))
      else if raw[1] % 4 == 1 then
        if |raw| != 3 || raw[1] !in {1, 5, 9, 13} then None
        else
          var kind := if raw[1] == 1 then RR else if raw[1] == 5 then RNR else if raw[1] == 9 then REJ else SREJ;
          if kind == SREJ && raw[2] % 2 == 1 then None
          else Some(S(dlci, cr, kind, raw[2] / 2, raw[2] % 2))
      else
        var pf := raw[1] / 16 % 2;
        Some(U(dlci, cr, raw[1] - 16 * pf, pf, raw[2..]))
  }

  function Decode(bits: seq<bool>): (f: Option<Frame>) {
    match Hdlc.Decoded(bits) case None => None case Some(raw) => Parse(raw)
  }

  lemma DecodeLine(raw: seq<Byte>, capacity: nat)
    requires |raw| >= 1 && Line(raw, capacity).Some?
    ensures Decode(Line(raw, capacity).value) == Parse(raw)
  {
    Hdlc.RoundTrip(raw);
  }

  lemma ParseI(cr: nat, ns: nat, nr: nat, p: nat, info: seq<Byte>)
    requires cr < 2 && ns < 128 && nr < 128 && p < 2
    ensures Parse(IOctets(cr, ns, nr, p, info)) == Some(I(0, cr, ns, nr, p, info))
  {
    assert IOctets(cr, ns, nr, p, info)[3..] == info;
  }

  lemma ParseS(kind: Supervisory, cr: nat, nr: nat)
    requires cr < 2 && nr < 128
    ensures Parse(SOctets(kind, cr, nr, 0)) == Some(S(0, cr, kind, nr, 0))
  {
  }

  /** The receiver reads back the fields of every frame the encoders accept. */
  lemma IRoundTrip(cr: nat, ns: nat, nr: nat, p: nat, info: seq<Byte>, capacity: nat)
    requires cr < 2 && ns < 128 && nr < 128 && p < 2
    requires EncodeI(cr, ns, nr, p, info, capacity).Some?
    ensures Decode(EncodeI(cr, ns, nr, p, info, capacity).value) == Some(I(0, cr, ns, nr, p, info))
  {
    DecodeLine(IOctets(cr, ns, nr, p, info), capacity);
    ParseI(cr, ns, nr, p, info);
  }

  lemma SRoundTrip(kind: Supervisory, cr: nat, nr: nat, capacity: nat)
    requires cr < 2 && nr < 128
    requires EncodeS(kind, cr, nr, 0, capacity).Some?
    ensures Decode(EncodeS(kind, cr, nr, 0, capacity).value) == Some(S(0, cr, kind, nr, 0))
  {
    DecodeLine(SOctets(kind, cr, nr, 0), capacity);
    ParseS(kind, cr, nr);
  }

  /** A buffer of `MAX_BITS` bits takes every frame the link sends. */
  lemma AlwaysFits(cr: nat, ns: nat, nr: nat, info: seq<Byte>)
    ensures EncodeI(cr, ns, nr, 0, info, Hdlc.MAX_BITS).Some? <==> |info| <= 255
    ensures forall kind :: EncodeS(kind, cr, nr, 0, Hdlc.MAX_BITS).Some?
  {
    if |info| <= 255 {
      Hdlc.EncodedLength(IOctets(cr, ns, nr, 0, info));
    }
    forall kind
      ensures EncodeS(kind, cr, nr, 0, Hdlc.MAX_BITS).Some?
    {
      Hdlc.EncodedLength(SOctets(kind, cr, nr, 0));
    }
  }
  /** Some frames: I frame 127 that acknowledges up to 72 and polls, and supervisory frames. */
  lemma FramesKnown(info: seq<Byte>)
    ensures IOctets(1, 127, 73, 1, info) == [3, 254, 147] + info && IOctets(0, 128, 0, 0, info) == [1, 0, 0] + info
    ensures SOctets(RR, 1, 0, 0) == [3, 1, 0] && SOctets(RNR, 0, 126, 1) == [1, 5, 253]
    ensures SOctets(REJ, 0, 126, 1) == [1, 9, 253] && SOctets(SREJ, 0, 126, 1) == [1, 13, 252]
    ensures Parse([3, 254, 147] + info) == Some(I(0, 1, 127, 73, 1, info))
  {
    assert ([3, 254, 147] + info)[3..] == info;
  }
}
