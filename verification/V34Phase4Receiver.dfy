/** The receiving end of Phase 4 (src/v34_mp_receiver.c, src/v34_phase4_receiver.c). */
module V34Phase4Receiver {
  import opened Wrappers
  import opened Bits
  import opened Hdlc
  import opened Lockstep
  import opened Scrambler
  import opened V34Mp
  import opened V34Phase4

  /** What reading one phase does to the frame and the carrier. */
  ghost predicate Fed(read: Reader, frame0: seq<bool>, i: nat, c: Carrier, phase: nat, frame: seq<bool>, i': nat,
                      next: Carrier) {
    && |frame0| == |frame| == FRAME_BITS && i % 2 == 0 && i <= FRAME_BITS && c.rotation < 4
    && if Quarter(phase) && i < FRAME_BITS then
         i' == i + 2 && frame[..i] == frame0[..i] && read(c, phase) == Some((next, frame[i], frame[i + 1]))
       else i' == i && next == c && frame == frame0
  }

  /** Nothing but zeros from here on. */
  ghost predicate Blank(frame: seq<bool>, i: nat) {
    forall k {:trigger frame[k]} :: i <= k < |frame| ==> !frame[k]
  }

  class MpReceiver {
    var frame: seq<bool>
    var carrier: Carrier
    var bitIndex: nat

    ghost predicate Valid()
      reads this
    {
      && |frame| == FRAME_BITS && carrier.rotation < 4
      && bitIndex <= FRAME_BITS && bitIndex % 2 == 0 && Blank(frame, bitIndex)
    }

    constructor ()
      ensures Valid() && bitIndex == 0
    {
      carrier, bitIndex, frame := Carrier(5, Zeros(HISTORY), 0), 0, Zeros(FRAME_BITS);
    }

    /** v34_mp_receiver_next. */
    method NextFrame()
      requires carrier.rotation < 4
      modifies `bitIndex, `frame
      ensures Valid() && bitIndex == 0
    {
      bitIndex, frame := 0, Zeros(FRAME_BITS);
    }

    /** v34_mp_receiver_init. */
    method Init(c: Carrier)
      requires c.rotation < 4
      modifies this
      ensures Valid() && bitIndex == 0 && carrier == c
    {
      carrier := c;
      NextFrame();
    }

    /** The two bits of a phase. */
    method ReadPair(phase: nat, ghost read: Reader) returns (b1: bool, b2: bool)
      requires carrier.rotation < 4 && Quarter(phase) && Reads(read)
      modifies `carrier
      ensures read(old(carrier), phase) == Some((carrier, b1, b2)) && carrier.rotation < 4
    {
      assert ReadsAt(read, carrier, phase);
      var z := RotationOf(phase);
      var d := Minus(z, carrier.rotation);
      var (h1, bit1) := Descramble(carrier.tap, carrier.history, LowBit(d));
      var (h2, bit2) := Descramble(carrier.tap, h1, HighBit(d));
      carrier := carrier.(history := h2, rotation := z);
      b1, b2 := bit1, bit2;
    }

    /** Two bits into the frame, where there are still zeros. */
    method StorePair(b1: bool, b2: bool)
      requires Valid() && bitIndex < FRAME_BITS
      modifies `bitIndex, `frame
      ensures Valid() && bitIndex == old(bitIndex) + 2 && frame[..old(bitIndex)] == old(frame[..bitIndex])
      ensures frame[old(bitIndex)] == b1 && frame[old(bitIndex) + 1] == b2
    {
      if b1 {
        frame := frame[bitIndex := true];
      }
      if b2 {
        frame := frame[bitIndex + 1 := true];
      }
      bitIndex := bitIndex + 2;
    }

    /** v34_mp_receiver_feed. */
    method Feed(phase: nat, ghost read: Reader, ghost decode: FrameReader) returns (m: Option<Mp>)
      requires Valid() && Reads(read) && Decodes(decode)
      modifies this
      ensures Valid() && Fed(read, old(frame), old(bitIndex), old(carrier), phase, frame, bitIndex, carrier)
      ensures m == if old(bitIndex) != bitIndex && bitIndex == FRAME_BITS then decode(frame) else None
    {
      if phase >= 12 || phase % 3 != 0 || bitIndex >= FRAME_BITS {
        return None;
      }
      var b1, b2 := ReadPair(phase, read);
      StorePair(b1, b2);
      if bitIndex != FRAME_BITS {
        return None;
      }
      m := Decode(frame);
      assert DecodesAt(decode, frame);
    }
  }

  // ---- What a symbol says ------------------------------------------------------------------------

  /** A pair of bits read is the pair sent exactly when the phase is the one sent. */
  lemma PairRead(o: Opening, call: bool, f1: seq<bool>, f2: seq<bool>, k: nat, c: Carrier, heard: seq<nat>, phase: nat,
                 next: Carrier, b1: bool, b2: bool)
    requires Opens(o, call) && MP_AT <= k < E_AT && c.rotation < 4 && Heard(o, f1, f2, k, c, heard)
    requires o.read(c, phase) == Some((next, b1, b2))
    ensures phase == NextSymbol(o, c, f1, f2, k) <==> ItemOf(f1, f2, k) == Coded(b1, b2)
    ensures phase == NextSymbol(o, c, f1, f2, k) ==> Heard(o, f1, f2, k + 1, next, heard + [phase]) && next.rotation < 4
  {
    var item := ItemOf(f1, f2, k);
    ReadsBack(o, call, c, phase, item.b1, item.b2);
    ReadsBack(o, call, c, phase, b1, b2);
    HeardOn(o, f1, f2, k, c, heard);
  }

  /** A symbol that can be sent in a frame can be read. */
  lemma SentQuarter(o: Opening, call: bool, c: Carrier, f1: seq<bool>, f2: seq<bool>, k: nat)
    requires Opens(o, call) && MP_AT <= k < E_AT && c.rotation < 4
    ensures Quarter(NextSymbol(o, c, f1, f2, k))
  {
    var item := ItemOf(f1, f2, k);
    ReadsBack(o, call, c, NextSymbol(o, c, f1, f2, k), item.b1, item.b2);
  }

  /** A frame with two bits in place. */
  function Placed(f: seq<bool>, i: nat, b1: bool, b2: bool): (g: seq<bool>)
    requires i + 1 < |f|
    ensures |g| == |f|
  {
    f[i := b1][i + 1 := b2]
  }

  lemma PlacedItem(f: seq<bool>, g: seq<bool>, at: nat, b1: bool, b2: bool, i: nat)
    requires at + 1 < |f| && g == Placed(f, at, b1, b2)
    ensures i < at ==> BitOf(g, i) == BitOf(f, i)
    ensures BitOf(g, at) == b1 && BitOf(g, at + 1) == b2
  {
  }

  /** Putting the bits just read into the frame leaves everything before as it was. */
  lemma PlacedFirst(o: Opening, f1: seq<bool>, f2: seq<bool>, k: nat, c: Carrier, heard: seq<nat>, b1: bool, b2: bool)
    requires MP_AT <= k < MP_PRIME_AT && |f1| == FRAME_BITS && Heard(o, f1, f2, k, c, heard)
    ensures var g := Placed(f1, 2 * (k - MP_AT), b1, b2);
      Heard(o, g, f2, k, c, heard) && ItemOf(g, f2, k) == Coded(b1, b2)
  {
    var g, at := Placed(f1, 2 * (k - MP_AT), b1, b2), 2 * (k - MP_AT);
    forall i: nat | i < k
      ensures ItemOf(f1, f2, i) == ItemOf(g, f2, i)
    {
      if i >= MP_AT {
        PlacedItem(f1, g, at, b1, b2, 2 * (i - MP_AT));
        PlacedItem(f1, g, at, b1, b2, 2 * (i - MP_AT) + 1);
      }
    }
    HeardSame(o, f1, f2, g, f2, k, c, heard);
    PlacedItem(f1, g, at, b1, b2, at);
  }

  lemma PlacedSecond(o: Opening, f1: seq<bool>, f2: seq<bool>, k: nat, c: Carrier, heard: seq<nat>, b1: bool, b2: bool)
    requires MP_PRIME_AT <= k < E_AT && |f2| == FRAME_BITS && Heard(o, f1, f2, k, c, heard)
    ensures var g := Placed(f2, 2 * (k - MP_PRIME_AT), b1, b2);
      Heard(o, f1, g, k, c, heard) && ItemOf(f1, g, k) == Coded(b1, b2)
  {
    var g, at := Placed(f2, 2 * (k - MP_PRIME_AT), b1, b2), 2 * (k - MP_PRIME_AT);
    forall i: nat | i < k
      ensures ItemOf(f1, f2, i) == ItemOf(f1, g, i)
    {
      if i >= MP_PRIME_AT {
        PlacedItem(f2, g, at, b1, b2, 2 * (i - MP_PRIME_AT));
        PlacedItem(f2, g, at, b1, b2, 2 * (i - MP_PRIME_AT) + 1);
      }
    }
    HeardSame(o, f1, f2, f1, g, k, c, heard);
    PlacedItem(f2, g, at, b1, b2, at);
  }

  /** So far these two frames: what has been read of the present one, the carrier, and everything
      heard. */
  ghost predicate ReadTo(o: Opening, base: nat, k: nat, f1: seq<bool>, f2: seq<bool>, frame: seq<bool>, i: nat,
                         c: Carrier, heard: seq<nat>) {
    && |f1| == |f2| == |frame| == FRAME_BITS && base <= k <= base + 44 && i == 2 * (k - base) && c.rotation < 4
    && frame[..i] == (if base == MP_AT then f1 else f2)[..i] && Heard(o, f1, f2, k, c, heard)
  }

  lemma TwoMore(f: seq<bool>, frame: seq<bool>, i: nat)
    requires |f| == |frame| && i + 2 <= |f| && frame[..i] == f[..i] && frame[i] == f[i] && frame[i + 1] == f[i + 1]
    ensures frame[..i + 2] == f[..i + 2]
  {
  }

  /** Reading goes on with frames that were sent. */
  lemma ReadSent(o: Opening, call: bool, base: nat, k: nat, f1: seq<bool>, f2: seq<bool>, frame: seq<bool>, i: nat,
                 c: Carrier, heard: seq<nat>, phase: nat, next: Carrier)
    requires Opens(o, call) && (base == MP_AT || base == MP_PRIME_AT) && base <= k < base + 44
    requires ReadTo(o, base, k, f1, f2, frame, i, c, heard) && phase == NextSymbol(o, c, f1, f2, k)
    requires Quarter(phase) ==> o.read(c, phase) == Some((next, frame[i], frame[i + 1]))
    ensures Quarter(phase) && ReadTo(o, base, k + 1, f1, f2, frame, i + 2, next, heard + [phase])
  {
    SentQuarter(o, call, c, f1, f2, k);
    PairRead(o, call, f1, f2, k, c, heard, phase, next, frame[i], frame[i + 1]);
    TwoMore(if base == MP_AT then f1 else f2, frame, i);
  }

  /** Whatever is read, there are frames it belongs to. */
  lemma ReadNew(o: Opening, call: bool, base: nat, k: nat, f1: seq<bool>, f2: seq<bool>, frame: seq<bool>, i: nat,
                c: Carrier, heard: seq<nat>, phase: nat, next: Carrier) returns (g1: seq<bool>, g2: seq<bool>)
    requires Opens(o, call) && (base == MP_AT || base == MP_PRIME_AT) && base <= k < base + 44
    requires ReadTo(o, base, k, f1, f2, frame, i, c, heard) && o.read(c, phase) == Some((next, frame[i], frame[i + 1]))
    ensures ReadTo(o, base, k + 1, g1, g2, frame, i + 2, next, heard + [phase]) && (base == MP_PRIME_AT ==> g1 == f1)
  {
    var b1, b2 := frame[i], frame[i + 1];
    if base == MP_AT {
      PlacedFirst(o, f1, f2, k, c, heard, b1, b2);
      g1, g2 := Placed(f1, i, b1, b2), f2;
      TwoMore(g1, frame, i);
    } else {
      PlacedSecond(o, f1, f2, k, c, heard, b1, b2);
      g1, g2 := f1, Placed(f2, i, b1, b2);
      TwoMore(g2, frame, i);
    }
    PairRead(o, call, g1, g2, k, c, heard, phase, next, b1, b2);
  }

  lemma FedSent(o: Opening, call: bool, base: nat, k: nat, f1: seq<bool>, f2: seq<bool>, heard: seq<nat>, phase: nat,
                frame0: seq<bool>, i: nat, c: Carrier, frame: seq<bool>, i': nat, next: Carrier)
    requires Opens(o, call) && (base == MP_AT || base == MP_PRIME_AT) && base <= k < base + 44
    requires Fed(o.read, frame0, i, c, phase, frame, i', next)
    requires ReadTo(o, base, k, f1, f2, frame0, i, c, heard) && phase == NextSymbol(o, c, f1, f2, k)
    ensures ReadTo(o, base, k + 1, f1, f2, frame, i', next, heard + [phase])
  {
    SentQuarter(o, call, c, f1, f2, k);
    ReadSent(o, call, base, k, f1, f2, frame, i, c, heard, phase, next);
  }

  lemma FedNew(o: Opening, call: bool, base: nat, k: nat, f1: seq<bool>, f2: seq<bool>, heard: seq<nat>, phase: nat,
               frame0: seq<bool>, i: nat, c: Carrier, frame: seq<bool>, i': nat, next: Carrier)
    returns (g1: seq<bool>, g2: seq<bool>)
    requires Opens(o, call) && (base == MP_AT || base == MP_PRIME_AT) && base <= k < base + 44
    requires Fed(o.read, frame0, i, c, phase, frame, i', next) && i <= 2 * (k - base)
    requires |f1| == |f2| == FRAME_BITS && (i == 2 * (k - base) ==> ReadTo(o, base, k, f1, f2, frame0, i, c, heard))
    ensures |g1| == |g2| == FRAME_BITS && i' <= 2 * (k + 1 - base) && (base == MP_PRIME_AT ==> g1 == f1)
    ensures i' == 2 * (k + 1 - base) ==> ReadTo(o, base, k + 1, g1, g2, frame, i', next, heard + [phase])
  {
    g1, g2 := f1, f2;
    if i == 2 * (k - base) && Quarter(phase) {
      g1, g2 := ReadNew(o, call, base, k, f1, f2, frame, i, c, heard, phase, next);
    }
  }

  /** Both: the frames sent, if they were, and some frames in any case. */
  lemma FedBoth(o: Opening, call: bool, base: nat, k: nat, f1: seq<bool>, f2: seq<bool>, heard: seq<nat>, phase: nat,
                frame0: seq<bool>, i: nat, c: Carrier, frame: seq<bool>, i': nat, next: Carrier, sent: bool,
                h1: seq<bool>, h2: seq<bool>)
    returns (g1: seq<bool>, g2: seq<bool>)
    requires Opens(o, call) && (base == MP_AT || base == MP_PRIME_AT) && base <= k < base + 44
    requires Fed(o.read, frame0, i, c, phase, frame, i', next) && i <= 2 * (k - base)
    requires |f1| == |f2| == FRAME_BITS && (i == 2 * (k - base) ==> ReadTo(o, base, k, f1, f2, frame0, i, c, heard))
    requires sent ==> ReadTo(o, base, k, h1, h2, frame0, i, c, heard) && phase == NextSymbol(o, c, h1, h2, k)
    ensures |g1| == |g2| == FRAME_BITS && i' <= 2 * (k + 1 - base) && (base == MP_PRIME_AT ==> g1 == f1)
    ensures i' == 2 * (k + 1 - base) ==> ReadTo(o, base, k + 1, g1, g2, frame, i', next, heard + [phase])
    ensures sent ==> ReadTo(o, base, k + 1, h1, h2, frame, i', next, heard + [phase])
  {
    g1, g2 := FedNew(o, call, base, k, f1, f2, heard, phase, frame0, i, c, frame, i', next);
    if sent {
      FedSent(o, call, base, k, h1, h2, heard, phase, frame0, i, c, frame, i', next);
    }
  }

  // ---- The receiving end ----------------------------------------------------------------------------

  /** Frames the receiver is content with. */
  predicate Good(decode: FrameReader, f1: seq<bool>, f2: seq<bool>) {
    && |f1| == |f2| == FRAME_BITS && decode(f1).Some? && decode(f2).Some?
    && !decode(f1).value.acknowledge && decode(f2).value.acknowledge
  }

  /** What has been heard, the carrier after it, and the frames it fits. */
  datatype Notes = Notes(heard: seq<nat>, now: Carrier, g1: seq<bool>, g2: seq<bool>)

  predicate Says(decode: FrameReader, decoded: Option<Mp>, f: seq<bool>, acknowledge: bool) {
    |f| == FRAME_BITS && decoded.Some? && decoded == decode(f) && decoded.value.acknowledge == acknowledge
  }

  class Receiver {
    const call: bool
    ghost const o: Opening
    const mpReceiver: MpReceiver
    var j: Carrier
    var jIndex: nat
    var trn: Carrier
    var e: Carrier
    var eIndex: nat
    var mp: Option<Mp>
    var mpPrime: Option<Mp>
    var symbols: nat
    var haveMp: bool
    var haveMpPrime: bool
    var complete: bool
    var failed: bool
    ghost var notes: Notes

    constructor (call: bool, start: Carrier)
      requires start.rotation < 4
      ensures Valid() && !failed && !complete && symbols == 0 && notes.heard == [] && this.call == call
      ensures o == OpeningOf(call, start) && fresh(mpReceiver)
      ensures notes.now == start
      ensures forall f1, f2: seq<bool> :: |f1| == |f2| == FRAME_BITS ==> Starting(0, f1, f2)
    {
      this.call, o := call, OpeningOf(call, start);
      mpReceiver := new MpReceiver();
      j, jIndex, trn, e, eIndex := start, 0, Cleared(call), Cleared(call), 0;
      mp, mpPrime, symbols := None, None, 0;
      haveMp, haveMpPrime, complete, failed := false, false, false, false;
      notes := Notes([], start, Zeros(FRAME_BITS), Zeros(FRAME_BITS));
      new;
      Opened(call, start);
      forall f1: seq<bool>, f2: seq<bool>
        ensures Heard(o, f1, f2, 0, start, [])
      {
        HeardIs(o, f1, f2, 0, start, []);
      }
      assert Stands(0);
    }

    /** In the frame that began at `base`, `k` symbols in all have been read, and they are those of
        these two frames. */
    ghost predicate Reading(base: nat, k: nat, f1: seq<bool>, f2: seq<bool>)
      reads `notes, mpReceiver
    {
      ReadTo(o, base, k, f1, f2, mpReceiver.frame, mpReceiver.bitIndex, mpReceiver.carrier, notes.heard)
    }

    /** All symbols of the present frame were phases it can have. */
    ghost predicate InStep(base: nat, k: nat)
      reads mpReceiver`bitIndex
    {
      mpReceiver.bitIndex == 2 * (k - base)
    }

    /** What is noted of a symbol of a frame, once it has been read. */
    ghost method Note(phase: nat, base: nat, frame0: seq<bool>, i: nat, c: Carrier, sent: bool, f1: seq<bool>,
                      f2: seq<bool>)
      requires (base == MP_AT || base == MP_PRIME_AT) && Opens(o, call) && base <= symbols < base + 44
      requires Fed(o.read, frame0, i, c, phase, mpReceiver.frame, mpReceiver.bitIndex, mpReceiver.carrier)
      requires i <= 2 * (symbols - base) && |notes.g1| == |notes.g2| == FRAME_BITS
      requires i == 2 * (symbols - base) ==> ReadTo(o, base, symbols, notes.g1, notes.g2, frame0, i, c, notes.heard)
      requires sent ==>
        ReadTo(o, base, symbols, f1, f2, frame0, i, c, notes.heard) && phase == NextSymbol(o, c, f1, f2, symbols)
      modifies `notes
      ensures |notes.g1| == |notes.g2| == FRAME_BITS && mpReceiver.bitIndex <= 2 * (symbols + 1 - base)
      ensures notes.heard == old(notes.heard) + [phase] && (base == MP_PRIME_AT ==> notes.g1 == old(notes.g1))
      ensures InStep(base, symbols + 1) ==> Reading(base, symbols + 1, notes.g1, notes.g2)
      ensures sent ==> Reading(base, symbols + 1, f1, f2)
    {
      var g1, g2 := FedBoth(o, call, base, symbols, notes.g1, notes.g2, notes.heard, phase, frame0, i, c,
                            mpReceiver.frame, mpReceiver.bitIndex, mpReceiver.carrier, sent, f1, f2);
      notes := notes.(heard := notes.heard + [phase], g1 := g1, g2 := g2);
    }

    /** One symbol of a frame. */
    method FeedFrame(phase: nat, base: nat, ghost sent: bool, ghost f1: seq<bool>, ghost f2: seq<bool>)
      returns (m: Option<Mp>)
      requires (base == MP_AT || base == MP_PRIME_AT) && Opens(o, call) && base <= symbols < base + 44
      requires InFrame(base, symbols)
      requires sent ==> Reading(base, symbols, f1, f2) && phase == NextSymbol(o, mpReceiver.carrier, f1, f2, symbols)
      modifies mpReceiver, `notes
      ensures InFrame(base, symbols + 1) && notes.heard == old(notes.heard) + [phase]
      ensures base == MP_PRIME_AT ==> notes.g1 == old(notes.g1)
      ensures m == if InStep(base, base + 44) then o.decode(mpReceiver.frame) else None
      ensures sent ==> Reading(base, symbols + 1, f1, f2)
    {
      ghost var i, c, frame0 := mpReceiver.bitIndex, mpReceiver.carrier, mpReceiver.frame;
      m := mpReceiver.Feed(phase, o.read, o.decode);
      Note(phase, base, frame0, i, c, sent, f1, f2);
    }

    // ---- Symbol by symbol --------------------------------------------------------------------------

    /** Before the frames. */
    ghost predicate Starting(n: nat, f1: seq<bool>, f2: seq<bool>)
      reads `notes, `j, `trn
    {
      && Heard(o, f1, f2, n, notes.now, notes.heard) && notes.now.rotation < 4
      && (n < J_SYMBOLS ==> j == notes.now) && (n > J_SYMBOLS ==> trn == notes.now)
    }

    ghost predicate AtStart(n: nat)
      reads `notes, `j, `jIndex, `trn
    {
      Starting(n, notes.g1, notes.g2) && (n <= J_SYMBOLS ==> jIndex == 2 * n)
    }

    /** The first frame has been read, and does not acknowledge. */
    ghost predicate MpTold()
      reads `mp, `haveMp, `notes
    {
      haveMp && Says(o.decode, mp, notes.g1, false)
    }

    /** The second frame has been read, and acknowledges. */
    ghost predicate MpPrimeTold()
      reads `mpPrime, `haveMpPrime, `notes
    {
      haveMpPrime && Says(o.decode, mpPrime, notes.g2, true)
    }

    /** In a frame, `n` symbols in all having come. */
    ghost predicate InFrame(base: nat, n: nat)
      reads `notes, mpReceiver
    {
      && mpReceiver.Valid() && mpReceiver.bitIndex <= 2 * (n - base)
      && |notes.g1| == |notes.g2| == FRAME_BITS && (InStep(base, n) ==> Reading(base, n, notes.g1, notes.g2))
    }

    ghost predicate AtE(n: nat)
      reads `notes, `e, `eIndex
    {
      n >= E_AT && Heard(o, notes.g1, notes.g2, n, e, notes.heard) && e.rotation < 4 && eIndex == 2 * (n - E_AT)
    }

    /** What two bits would look like. */
    method Expect(c: Carrier, b1: bool, b2: bool) returns (next: Carrier, phase: nat)
      requires c.rotation < 4 && Opens(o, call)
      ensures (next, phase) == o.step(c, Coded(b1, b2)) && next.rotation < 4
    {
      assert StepsAt(o.step, call, c, Coded(b1, b2));
      var (h1, i1) := Scramble(c.tap, c.history, b1);
      var (h2, i2) := Scramble(c.tap, h1, b2);
      var rotation := Plus(Digit(i1, i2), c.rotation);
      next, phase := Carrier(c.tap, h2, rotation), PhaseOf(rotation);
    }

    /** What two ones in training would look like. */
    method ExpectTraining(c: Carrier, ghost before: Carrier, ghost item: Item) returns (next: Carrier, phase: nat)
      requires Opens(o, call) && before.rotation < 4
      requires if item == First then c == Cleared(call) else item == Further && c == before
      ensures (next, phase) == o.step(before, item) && next.rotation < 4
    {
      assert StepsAt(o.step, call, before, item);
      var (h1, i1) := Scramble(c.tap, c.history, true);
      var (h2, i2) := Scramble(c.tap, h1, true);
      next, phase := Carrier(c.tap, h2, Digit(i1, i2)), PhaseOf(Digit(i1, i2));
    }

    /** J'. */
    method FeedJPrime(phase: nat) returns (ok: bool)
      requires Opens(o, call) && j == notes.now && notes.now.rotation < 4
      modifies `j, `jIndex, `notes
      ensures var (next, expected) := o.step(old(notes.now), Coded(JPrimeBit(old(jIndex)), JPrimeBit(old(jIndex) + 1)));
        && (ok <==> phase == expected) && jIndex == old(jIndex) + 2 && next.rotation < 4
        && (ok ==> j == next && notes == old(notes).(heard := old(notes.heard) + [phase], now := next))
    {
      var next, expected := Expect(j, JPrimeBit(jIndex), JPrimeBit(jIndex + 1));
      j, jIndex := next, jIndex + 2;
      if phase != expected {
        return false;
      }
      notes := notes.(heard := notes.heard + [phase], now := next);
      return true;
    }

    /** Training. */
    method FeedTraining(phase: nat) returns (ok: bool)
      requires Opens(o, call) && notes.now.rotation < 4 && symbols >= J_SYMBOLS
      requires symbols > J_SYMBOLS ==> trn == notes.now
      modifies `trn, `notes
      ensures var (next, expected) := o.step(old(notes.now), if symbols == J_SYMBOLS then First else Further);
        && (ok <==> phase == expected) && next.rotation < 4
        && (ok ==> trn == next && notes == old(notes).(heard := old(notes.heard) + [phase], now := next))
    {
      if symbols == J_SYMBOLS {
        trn := Cleared(call);
      }
      var next, expected := ExpectTraining(trn, notes.now, if symbols == J_SYMBOLS then First else Further);
      if phase != expected {
        return false;
      }
      trn := next;
      notes := notes.(heard := notes.heard + [phase], now := next);
      return true;
    }

    /** A frame read to the end is the frame it was read as. */
    lemma Whole(base: nat, f1: seq<bool>, f2: seq<bool>)
      requires Reading(base, base + 44, f1, f2)
      ensures mpReceiver.frame == if base == MP_AT then f1 else f2
    {
      var f := if base == MP_AT then f1 else f2;
      assert mpReceiver.frame[..FRAME_BITS] == mpReceiver.frame && f[..FRAME_BITS] == f;
    }

    /** What a frame's symbol decides: nothing before the last, and then the acknowledgement. */
    method Judge(decoded: Option<Mp>, last: bool, acknowledge: bool) returns (ok: bool)
      ensures ok <==> if last then decoded.Some? && decoded.value.acknowledge == acknowledge else decoded.None?
    {
      if last {
        return decoded.Some? && decoded.value.acknowledge == acknowledge;
      }
      return decoded.None?;
    }

    /** One symbol of either frame, judged. */
    method FeedJudged(phase: nat, base: nat, acknowledge: bool, ghost f1: seq<bool>, ghost f2: seq<bool>)
      returns (ok: bool, decoded: Option<Mp>)
      requires (base == MP_AT || base == MP_PRIME_AT) && acknowledge == (base == MP_PRIME_AT)
      requires Opens(o, call) && base <= symbols < base + 44 && InFrame(base, symbols)
      modifies mpReceiver, `notes
      ensures ok ==>
        && InFrame(base, symbols + 1) && notes.heard == old(notes.heard) + [phase]
        && (base == MP_PRIME_AT ==> notes.g1 == old(notes.g1))
      ensures ok && symbols + 1 == base + 44 ==>
        InStep(base, symbols + 1) && Says(o.decode, decoded, if base == MP_AT then notes.g1 else notes.g2, acknowledge)
      ensures old(Reading(base, symbols, f1, f2) && Good(o.decode, f1, f2) &&
                  phase == NextSymbol(o, mpReceiver.carrier, f1, f2, symbols)) ==>
        ok && Reading(base, symbols + 1, f1, f2)
    {
      ghost var sent :=
        && Reading(base, symbols, f1, f2) && Good(o.decode, f1, f2)
        && phase == NextSymbol(o, mpReceiver.carrier, f1, f2, symbols);
      decoded := FeedFrame(phase, base, sent, f1, f2);
      ok := Judge(decoded, symbols + 1 == base + 44, acknowledge);
      if symbols + 1 == base + 44 {
        if sent {
          Whole(base, f1, f2);
        }
        if ok {
          Whole(base, notes.g1, notes.g2);
        }
      }
    }

    // ---- The stages one after another ----------------------------------------------------------------

    ghost predicate SameFit(before: Notes)
      reads `notes
    {
      notes.g1 == before.g1 && notes.g2 == before.g2
    }

    /** J' and training. */
    method CheckStart(phase: nat, ghost f1: seq<bool>, ghost f2: seq<bool>) returns (ok: bool)
      requires symbols < MP_AT && Opens(o, call) && AtStart(symbols)
      modifies `j, `jIndex, `trn, `notes
      ensures ok ==> AtStart(symbols + 1) && notes.heard == old(notes.heard) + [phase] && SameFit(old(notes))
      ensures old(Starting(symbols, f1, f2) && phase == NextSymbol(o, notes.now, f1, f2, symbols)) ==>
        ok && Starting(symbols + 1, f1, f2)
    {
      HeardOn(o, notes.g1, notes.g2, symbols, notes.now, notes.heard);
      if Starting(symbols, f1, f2) {
        HeardOn(o, f1, f2, symbols, notes.now, notes.heard);
      }
      if symbols < J_SYMBOLS {
        ok := FeedJPrime(phase);
      } else {
        ok := FeedTraining(phase);
      }
    }

    /** The two frames `f1` and `f2` have been sent so far, and `phase` comes next. */
    ghost predicate NextInFrame(base: nat, f1: seq<bool>, f2: seq<bool>, phase: nat)
      reads `symbols, `notes, mpReceiver
    {
      && Good(o.decode, f1, f2) && Reading(base, symbols, f1, f2)
      && phase == NextSymbol(o, mpReceiver.carrier, f1, f2, symbols)
    }

    /** The frame without acknowledgement. */
    method CheckFirst(phase: nat, ghost f1: seq<bool>, ghost f2: seq<bool>) returns (ok: bool)
      requires MP_AT <= symbols < MP_PRIME_AT && Opens(o, call) && InFrame(MP_AT, symbols)
      modifies mpReceiver, `notes, `mp, `haveMp
      ensures ok ==> InFrame(MP_AT, symbols + 1) && notes.heard == old(notes.heard) + [phase]
      ensures ok && symbols + 1 == MP_PRIME_AT ==> InStep(MP_AT, symbols + 1) && MpTold()
      ensures old(NextInFrame(MP_AT, f1, f2, phase)) ==> ok && Reading(MP_AT, symbols + 1, f1, f2)
    {
      var decoded;
      ok, decoded := FeedJudged(phase, MP_AT, false, f1, f2);
      if ok && symbols + 1 == MP_PRIME_AT {
        mp, haveMp := decoded, true;
      }
    }

    /** The frame with acknowledgement. */
    method CheckSecond(phase: nat, ghost f1: seq<bool>, ghost f2: seq<bool>) returns (ok: bool)
      requires MP_PRIME_AT <= symbols < E_AT && Opens(o, call) && InFrame(MP_PRIME_AT, symbols) && MpTold()
      modifies mpReceiver, `notes, `mpPrime, `haveMpPrime
      ensures ok ==> InFrame(MP_PRIME_AT, symbols + 1) && notes.heard == old(notes.heard) + [phase] && MpTold()
      ensures ok && symbols + 1 == E_AT ==> InStep(MP_PRIME_AT, symbols + 1) && MpPrimeTold()
      ensures old(NextInFrame(MP_PRIME_AT, f1, f2, phase)) ==> ok && Reading(MP_PRIME_AT, symbols + 1, f1, f2)
    {
      var decoded;
      ok, decoded := FeedJudged(phase, MP_PRIME_AT, true, f1, f2);
      if ok && symbols + 1 == E_AT {
        mpPrime, haveMpPrime := decoded, true;
      }
    }

    /** E. */
    method CheckE(phase: nat, ghost f1: seq<bool>, ghost f2: seq<bool>) returns (ok: bool)
      requires E_AT <= symbols < SYMBOLS && Opens(o, call) && AtE(symbols)
      modifies `e, `eIndex, `notes
      ensures ok ==> AtE(symbols + 1) && notes.heard == old(notes.heard) + [phase] && SameFit(old(notes))
      ensures old(Heard(o, f1, f2, symbols, e, notes.heard) && phase == NextSymbol(o, e, f1, f2, symbols)) ==>
        ok && Heard(o, f1, f2, symbols + 1, e, notes.heard)
    {
      HeardOn(o, notes.g1, notes.g2, symbols, e, notes.heard);
      if Heard(o, f1, f2, symbols, e, notes.heard) {
        HeardOn(o, f1, f2, symbols, e, notes.heard);
      }
      var next, expected := Expect(e, true, true);
      e, eIndex := next, eIndex + 2;
      if phase != expected {
        return false;
      }
      notes := notes.(heard := notes.heard + [phase]);
      return true;
    }

    /** From training to the first frame. */
    method BeginFirst(ghost f1: seq<bool>, ghost f2: seq<bool>)
      requires symbols == MP_AT && Starting(symbols, notes.g1, notes.g2)
      requires |notes.g1| == |notes.g2| == |mpReceiver.frame| == FRAME_BITS
      modifies mpReceiver
      ensures InFrame(MP_AT, symbols) && InStep(MP_AT, symbols) && mpReceiver.carrier == notes.now
      ensures |f1| == |f2| == FRAME_BITS && old(Starting(symbols, f1, f2)) ==> Reading(MP_AT, symbols, f1, f2)
    {
      mpReceiver.Init(trn);
    }

    /** From the first frame to the second. */
    method BeginSecond(ghost f1: seq<bool>, ghost f2: seq<bool>)
      requires symbols == MP_PRIME_AT && InFrame(MP_AT, symbols) && InStep(MP_AT, symbols)
      modifies mpReceiver`bitIndex, mpReceiver`frame
      ensures InFrame(MP_PRIME_AT, symbols) && InStep(MP_PRIME_AT, symbols)
      ensures old(Reading(MP_AT, symbols, f1, f2)) ==> Reading(MP_PRIME_AT, symbols, f1, f2)
    {
      mpReceiver.NextFrame();
    }

    /** From the second frame to E. */
    method BeginE()
      requires symbols == E_AT && InFrame(MP_PRIME_AT, symbols) && InStep(MP_PRIME_AT, symbols)
      modifies `e, `eIndex
      ensures AtE(symbols) && e == mpReceiver.carrier
    {
      e := mpReceiver.carrier;
      eIndex := 0;
    }

    // ---- The count of symbols --------------------------------------------------------------------------

    /** Where the receiver is after `n` symbols, looked into only where that is wanted. */
    ghost predicate At(n: nat)
      reads `notes, `j, `jIndex, `trn, `e, `eIndex, `mp, `mpPrime, `haveMp, `haveMpPrime
      reads mpReceiver
    {
      forall k: nat {:trigger Stands(k)} :: k == n ==> Stands(k)
    }

    ghost predicate Stands(n: nat)
      reads `notes, `j, `jIndex, `trn, `e, `eIndex, `mp, `mpPrime, `haveMp, `haveMpPrime
      reads mpReceiver
    {
      && |notes.g1| == |notes.g2| == |mpReceiver.frame| == FRAME_BITS
      && if n <= MP_AT then AtStart(n)
         else if n <= MP_PRIME_AT then InFrame(MP_AT, n) && (n == MP_PRIME_AT ==> InStep(MP_AT, n) && MpTold())
         else if n <= E_AT then
           InFrame(MP_PRIME_AT, n) && MpTold() && (n == E_AT ==> InStep(MP_PRIME_AT, n) && MpPrimeTold())
         else n <= SYMBOLS && AtE(n) && MpTold() && MpPrimeTold()
    }

    /** The first `n` symbols were those of these two frames; looked into only where that is wanted. */
    ghost predicate Tracks(n: nat, f1: seq<bool>, f2: seq<bool>)
      reads `notes, `j, `trn, `e, mpReceiver
    {
      forall k: nat {:trigger Tracking(k, f1, f2)} :: k == n ==> Tracking(k, f1, f2)
    }

    ghost predicate Tracking(n: nat, f1: seq<bool>, f2: seq<bool>)
      reads `notes, `j, `trn, `e, mpReceiver
    {
      if n <= MP_AT then Starting(n, f1, f2)
      else if n <= MP_PRIME_AT then Reading(MP_AT, n, f1, f2)
      else if n <= E_AT then Reading(MP_PRIME_AT, n, f1, f2)
      else Heard(o, f1, f2, n, e, notes.heard)
    }

    /** The carrier the next symbol starts from. */
    ghost function Present(n: nat): Carrier
      reads `notes, `e, mpReceiver`carrier
    {
      if n <= MP_AT then notes.now else if n <= E_AT then mpReceiver.carrier else e
    }

    /** `phase` is the next symbol of two good frames that have been sent so far. */
    ghost predicate Follows(f1: seq<bool>, f2: seq<bool>, phase: nat)
      reads `symbols, `notes, `j, `trn, `e, mpReceiver
    {
      Good(o.decode, f1, f2) && Tracks(symbols, f1, f2) && phase == NextSymbol(o, Present(symbols), f1, f2, symbols)
    }

    ghost predicate Valid()
      reads this, mpReceiver
    {
      && Opens(o, call)
      && (!failed ==> At(symbols) && symbols <= SYMBOLS && complete == (symbols == SYMBOLS))
    }

    /** feed_symbol in J' and training. */
    method CheckOpening(phase: nat, ghost f1: seq<bool>, ghost f2: seq<bool>) returns (ok: bool)
      requires symbols < MP_AT && Opens(o, call) && At(symbols)
      modifies `j, `jIndex, `trn, `notes
      ensures ok ==> At(symbols + 1) && notes.heard == old(notes.heard) + [phase]
      ensures old(Follows(f1, f2, phase)) ==> ok && Tracks(symbols + 1, f1, f2)
    {
      assert Stands(symbols);
      assert Follows(f1, f2, phase) ==> Tracking(symbols, f1, f2);
      ok := CheckStart(phase, f1, f2);
      assert ok ==> Stands(symbols + 1);
      assert Starting(symbols + 1, f1, f2) ==> Tracking(symbols + 1, f1, f2);
    }

    /** feed_symbol in the first frame. */
    method CheckEarly(phase: nat, ghost f1: seq<bool>, ghost f2: seq<bool>) returns (ok: bool)
      requires MP_AT <= symbols < MP_PRIME_AT && Opens(o, call) && At(symbols)
      modifies `mp, `haveMp, `notes, mpReceiver
      ensures ok ==> At(symbols + 1) && notes.heard == old(notes.heard) + [phase]
      ensures old(Follows(f1, f2, phase)) ==> ok && Tracks(symbols + 1, f1, f2)
    {
      assert Stands(symbols);
      assert Follows(f1, f2, phase) ==> Tracking(symbols, f1, f2);
      if symbols == MP_AT {
        BeginFirst(f1, f2);
      }
      ok := CheckFirst(phase, f1, f2);
      assert ok ==> Stands(symbols + 1);
      assert Reading(MP_AT, symbols + 1, f1, f2) ==> Tracking(symbols + 1, f1, f2);
    }

    /** feed_symbol in the second frame. */
    method CheckMiddle(phase: nat, ghost f1: seq<bool>, ghost f2: seq<bool>) returns (ok: bool)
      requires MP_PRIME_AT <= symbols < E_AT && Opens(o, call) && At(symbols)
      modifies `mpPrime, `haveMpPrime, `notes, mpReceiver
      ensures ok ==> At(symbols + 1) && notes.heard == old(notes.heard) + [phase]
      ensures old(Follows(f1, f2, phase)) ==> ok && Tracks(symbols + 1, f1, f2)
    {
      assert Stands(symbols);
      assert Follows(f1, f2, phase) ==> Tracking(symbols, f1, f2);
      if symbols == MP_PRIME_AT {
        BeginSecond(f1, f2);
      }
      ok := CheckSecond(phase, f1, f2);
      assert ok ==> Stands(symbols + 1);
      assert Reading(MP_PRIME_AT, symbols + 1, f1, f2) ==> Tracking(symbols + 1, f1, f2);
    }

    lemma InE(n: nat, f1: seq<bool>, f2: seq<bool>)
      requires E_AT < n <= SYMBOLS && |notes.g1| == |notes.g2| == |mpReceiver.frame| == FRAME_BITS
      requires AtE(n) && MpTold() && MpPrimeTold()
      ensures At(n) && (Heard(o, f1, f2, n, e, notes.heard) ==> Tracks(n, f1, f2))
    {
      assert Stands(n);
      assert Heard(o, f1, f2, n, e, notes.heard) ==> Tracking(n, f1, f2);
    }

    /** E begins, or goes on. */
    method EnterE(ghost f1: seq<bool>, ghost f2: seq<bool>)
      requires E_AT <= symbols < SYMBOLS && At(symbols)
      modifies `e, `eIndex
      ensures AtE(symbols) && MpTold() && MpPrimeTold() && |notes.g1| == |notes.g2| == |mpReceiver.frame| == FRAME_BITS
      ensures e == old(Present(symbols))
      ensures old(Tracks(symbols, f1, f2)) ==> Heard(o, f1, f2, symbols, e, notes.heard)
    {
      assert Stands(symbols);
      assert Tracks(symbols, f1, f2) ==> Tracking(symbols, f1, f2);
      if symbols == E_AT {
        BeginE();
      }
    }

    /** feed_symbol in E. */
    method CheckLate(phase: nat, ghost f1: seq<bool>, ghost f2: seq<bool>) returns (ok: bool)
      requires E_AT <= symbols < SYMBOLS && Opens(o, call) && At(symbols)
      modifies `e, `eIndex, `notes
      ensures ok ==> At(symbols + 1) && notes.heard == old(notes.heard) + [phase]
      ensures old(Follows(f1, f2, phase)) ==> ok && Tracks(symbols + 1, f1, f2)
    {
      EnterE(f1, f2);
      ok := CheckE(phase, f1, f2);
      if ok {
        InE(symbols + 1, f1, f2);
      }
    }

    /** feed_symbol. */
    method FeedSymbol(phase: nat, ghost f1: seq<bool>, ghost f2: seq<bool>) returns (ok: bool)
      requires Valid() && !failed
      modifies `j, `jIndex, `trn, `e, `eIndex, `mp, `mpPrime, `haveMp, `haveMpPrime, `notes
      modifies `symbols, `complete, mpReceiver
      ensures ok ==> Valid() && symbols == old(symbols) + 1 && notes.heard == old(notes.heard) + [phase]
      ensures !ok ==> Opens(o, call)
      ensures old(symbols) == SYMBOLS ==> !ok
      ensures old(symbols < SYMBOLS && Follows(f1, f2, phase)) ==> ok && Tracks(symbols, f1, f2)
    {
      if symbols < MP_AT {
        ok := CheckOpening(phase, f1, f2);
      } else if symbols < MP_PRIME_AT {
        ok := CheckEarly(phase, f1, f2);
      } else if symbols < E_AT {
        ok := CheckMiddle(phase, f1, f2);
      } else if symbols < SYMBOLS {
        ok := CheckLate(phase, f1, f2);
      } else {
        return false;
      }
      if ok {
        Count();
      }
    }

    method Count()
      requires symbols < SYMBOLS && At(symbols + 1) && Opens(o, call) && !failed && !complete
      modifies `symbols, `complete
      ensures Valid() && symbols == old(symbols) + 1
    {
      assert Stands(symbols + 1);
      symbols := symbols + 1;
      if symbols == SYMBOLS {
        complete := haveMp && haveMpPrime;
      }
    }

    /** v34_phase4_receiver_feed, when there is a symbol. */
    method Feed(phase: nat, ghost f1: seq<bool>, ghost f2: seq<bool>) returns (ok: bool)
      requires Valid()
      modifies this, mpReceiver
      ensures Valid() && (ok <==> !failed)
      ensures ok && old(complete) ==> complete && notes.heard == old(notes.heard) && symbols == old(symbols)
      ensures ok && !old(complete) ==> symbols == old(symbols) + 1 && notes.heard == old(notes.heard) + [phase]
      ensures old(!failed && !complete && Follows(f1, f2, phase)) ==> ok && Tracks(symbols, f1, f2)
    {
      if failed {
        return false;
      }
      if complete {
        return true;
      }
      ok := FeedSymbol(phase, f1, f2);
      if !ok {
        failed := true;
      }
    }

    /** The next symbol of the script, as the receiver expects it. */
    lemma NextIs(f1: seq<bool>, f2: seq<bool>)
      requires Tracks(symbols, f1, f2)
      ensures NextSymbol(o, Present(symbols), f1, f2, symbols) == Symbol(o, f1, f2, symbols)
    {
      assert Tracking(symbols, f1, f2);
      HeardIs(o, f1, f2, symbols, Present(symbols), notes.heard);
    }

    /** A receiver that has completed has heard exactly the 618 symbols of the two sequences it
        reports, the first not acknowledging and the second acknowledging. */
    lemma Completed()
      requires Valid() && !failed && complete
      ensures mp.Some? && mpPrime.Some? && ValidMp(mp.value) && ValidMp(mpPrime.value)
      ensures !mp.value.acknowledge && mpPrime.value.acknowledge
      ensures notes.heard == Run(o, FrameOf(mp.value), FrameOf(mpPrime.value), SYMBOLS).1
    {
      assert Stands(symbols);
      assert DecodesAt(o.decode, notes.g1) && DecodesAt(o.decode, notes.g2);
      EncodeDecode(notes.g1);
      EncodeDecode(notes.g2);
      HeardIs(o, notes.g1, notes.g2, SYMBOLS, e, notes.heard);
    }
  }

  // ---- Both ends ----------------------------------------------------------------------------------------

  lemma Extends(a: seq<nat>, x: nat, b: seq<nat>, y: nat)
    requires a + [x] == b + [y] && |a| == |b|
    ensures a == b && x == y
  {
    assert (a + [x])[..|a|] == a && (b + [y])[..|b|] == b;
    assert (a + [x])[|a|] == x && (b + [y])[|b|] == y;
  }

  lemma HeardBefore(o: Opening, f1: seq<bool>, f2: seq<bool>, n: nat, c: Carrier, heard: seq<nat>)
    returns (d: Carrier, before: seq<nat>)
    requires n > 0 && Heard(o, f1, f2, n, c, heard)
    ensures Heard(o, f1, f2, n - 1, d, before) && |before| == n - 1
    ensures c == o.step(d, ItemOf(f1, f2, n - 1)).0 && heard == before + [o.step(d, ItemOf(f1, f2, n - 1)).1]
  {
    HeardIs(o, f1, f2, n, c, heard);
    var r := Run(o, f1, f2, n - 1);
    d, before := r.0, r.1;
    HeardIs(o, f1, f2, n - 1, d, before);
    RunOn(o, f1, f2, n - 1);
  }

  /** Symbols that look alike were made of the same bits. */
  lemma {:induction false} SameSymbols(o: Opening, call: bool, f1: seq<bool>, f2: seq<bool>, h1: seq<bool>,
                                       h2: seq<bool>, n: nat, c: Carrier, c': Carrier, heard: seq<nat>)
    requires Opens(o, call) && o.start.rotation < 4 && Heard(o, f1, f2, n, c, heard) && Heard(o, h1, h2, n, c', heard)
    ensures c == c' && c.rotation < 4 && forall i: nat :: i < n ==> ItemOf(f1, f2, i) == ItemOf(h1, h2, i)
  {
    if n == 0 {
      HeardIs(o, f1, f2, 0, c, heard);
      HeardIs(o, h1, h2, 0, c', heard);
    } else {
      var d, before := HeardBefore(o, f1, f2, n, c, heard);
      var d', before' := HeardBefore(o, h1, h2, n, c', heard);
      Extends(before, o.step(d, ItemOf(f1, f2, n - 1)).1, before', o.step(d', ItemOf(h1, h2, n - 1)).1);
      SameSymbols(o, call, f1, f2, h1, h2, n - 1, d, d', before);
      SameItem(o, call, d, f1, f2, h1, h2, n - 1);
    }
  }

  lemma SameItem(o: Opening, call: bool, c: Carrier, f1: seq<bool>, f2: seq<bool>, h1: seq<bool>, h2: seq<bool>, k: nat)
    requires Opens(o, call) && c.rotation < 4 && o.step(c, ItemOf(f1, f2, k)).1 == o.step(c, ItemOf(h1, h2, k)).1
    ensures ItemOf(f1, f2, k) == ItemOf(h1, h2, k) && o.step(c, ItemOf(f1, f2, k)).0.rotation < 4
  {
    var x, y := ItemOf(f1, f2, k), ItemOf(h1, h2, k);
    if x.Coded? && y.Coded? {
      ReadsBack(o, call, c, o.step(c, x).1, x.b1, x.b2);
      ReadsBack(o, call, c, o.step(c, x).1, y.b1, y.b2);
    } else {
      assert StepsAt(o.step, call, c, x);
    }
  }

  lemma SameFrames(f1: seq<bool>, f2: seq<bool>, h1: seq<bool>, h2: seq<bool>)
    requires |f1| == |f2| == |h1| == |h2| == FRAME_BITS
    requires forall i: nat :: i < SYMBOLS ==> ItemOf(f1, f2, i) == ItemOf(h1, h2, i)
    ensures f1 == h1 && f2 == h2
  {
    forall i | 0 <= i < FRAME_BITS
      ensures f1[i] == h1[i] && f2[i] == h2[i]
    {
      assert ItemOf(f1, f2, MP_AT + i / 2) == ItemOf(h1, h2, MP_AT + i / 2);
      assert ItemOf(f1, f2, MP_PRIME_AT + i / 2) == ItemOf(h1, h2, MP_PRIME_AT + i / 2);
      assert i == 2 * (i / 2) || i == 2 * (i / 2) + 1;
    }
  }

  lemma FramesGood(o: Opening, call: bool, m: Mp, f1: seq<bool>, f2: seq<bool>)
    requires Opens(o, call) && ValidMp(m) && FramesOf(o, m, f1, f2)
    ensures Good(o.decode, f1, f2) && f1 == FrameOf(m.(acknowledge := false)) && f2 == FrameOf(m.(acknowledge := true))
  {
    assert EncodesAt(o.encode, m.(acknowledge := false)) && EncodesAt(o.encode, m.(acknowledge := true));
    DecodeEncode(m.(acknowledge := false));
    DecodeEncode(m.(acknowledge := true));
    assert DecodesAt(o.decode, f1) && DecodesAt(o.decode, f2);
  }

  lemma FramesAccepted(o: Opening, call: bool, m: Mp, f1: seq<bool>, f2: seq<bool>)
    requires Opens(o, call) && ValidMp(m) && FramesOf(o, m, f1, f2)
    ensures Good(o.decode, f1, f2)
  {
    FramesGood(o, call, m, f1, f2);
  }

  /** Two pairs of sequences with the same symbols are the same. */
  lemma SameSequences(o: Opening, call: bool, m1: Mp, m2: Mp, x1: Mp, x2: Mp)
    requires Opens(o, call) && o.start.rotation < 4 && ValidMp(m1) && ValidMp(m2) && ValidMp(x1) && ValidMp(x2)
    requires Run(o, FrameOf(m1), FrameOf(m2), SYMBOLS).1 == Run(o, FrameOf(x1), FrameOf(x2), SYMBOLS).1
    ensures m1 == x1 && m2 == x2
  {
    var (c, heard) := Run(o, FrameOf(m1), FrameOf(m2), SYMBOLS);
    var c' := Run(o, FrameOf(x1), FrameOf(x2), SYMBOLS).0;
    HeardIs(o, FrameOf(m1), FrameOf(m2), SYMBOLS, c, heard);
    HeardIs(o, FrameOf(x1), FrameOf(x2), SYMBOLS, c', heard);
    SameSymbols(o, call, FrameOf(m1), FrameOf(m2), FrameOf(x1), FrameOf(x2), SYMBOLS, c, c', heard);
    SameFrames(FrameOf(m1), FrameOf(m2), FrameOf(x1), FrameOf(x2));
    DecodeEncode(m1);
    DecodeEncode(m2);
    DecodeEncode(x1);
    DecodeEncode(x2);
  }

  /** The transmitter has just sent symbol `n`, or has nothing left. */
  ghost predicate SentAt(tx: Transmitter, n: nat, coming: Option<nat>)
    reads tx, tx.frame
  {
    && tx.Valid()
    && if coming.Some? then coming.value == Symbol(tx.o, tx.f1, tx.f2, n) && tx.Place() == n + 1 <= SYMBOLS
       else n == SYMBOLS && tx.stage == Complete
  }

  /** The receiver has heard the first `n` symbols of these frames. */
  ghost predicate GotAt(rx: Receiver, n: nat, f1: seq<bool>, f2: seq<bool>)
    reads rx, rx.mpReceiver
  {
    rx.Valid() && !rx.failed && rx.symbols == n && Good(rx.o.decode, f1, f2) && rx.Tracks(n, f1, f2)
  }

  /** The same two, looked into only where that is wanted. */
  ghost predicate Sent(tx: Transmitter, n: nat, coming: Option<nat>)
    reads tx, tx.frame
  {
    forall k: nat :: k == n ==> SentAt(tx, k, coming)
  }

  ghost predicate Got(rx: Receiver, n: nat, f1: seq<bool>, f2: seq<bool>)
    reads rx, rx.mpReceiver
  {
    forall k: nat :: k == n ==> GotAt(rx, k, f1, f2)
  }

  method SendNext(tx: Transmitter, ghost n: nat, ghost coming: nat) returns (next: Option<nat>)
    requires SentAt(tx, n, Some(coming))
    modifies tx, tx.frame
    ensures n < SYMBOLS && SentAt(tx, n + 1, next)
  {
    next := tx.Next();
  }

  method Send(tx: Transmitter, ghost n: nat, ghost coming: nat) returns (next: Option<nat>)
    requires Sent(tx, n, Some(coming))
    modifies tx, tx.frame
    ensures n < SYMBOLS && Sent(tx, n + 1, next)
  {
    assert SentAt(tx, n, Some(coming));
    next := SendNext(tx, n, coming);
  }

  method SendFirst(tx: Transmitter) returns (coming: Option<nat>)
    requires tx.Valid() && tx.Place() == 0
    modifies tx, tx.frame
    ensures Sent(tx, 0, coming)
  {
    coming := tx.Next();
  }

  method Hear(rx: Receiver, phase: nat, ghost n: nat, ghost f1: seq<bool>, ghost f2: seq<bool>)
    requires Got(rx, n, f1, f2) && n < SYMBOLS && phase == Symbol(rx.o, f1, f2, n)
    modifies rx, rx.mpReceiver
    ensures Got(rx, n + 1, f1, f2)
  {
    assert GotAt(rx, n, f1, f2);
    rx.NextIs(f1, f2);
    var ok := rx.Feed(phase, f1, f2);
  }

  /** A receiver that has heard the whole script of a sequence has that sequence. */
  lemma HasBoth(rx: Receiver, m: Mp, f1: seq<bool>, f2: seq<bool>)
    requires Opens(rx.o, rx.call) && rx.o.start.rotation < 4 && ValidMp(m) && FramesOf(rx.o, m, f1, f2)
    requires Got(rx, SYMBOLS, f1, f2)
    ensures rx.complete && !rx.failed && rx.mp == Some(m.(acknowledge := false))
    ensures rx.mpPrime == Some(m.(acknowledge := true))
  {
    assert GotAt(rx, SYMBOLS, f1, f2);
    assert rx.Tracking(SYMBOLS, f1, f2);
    FramesGood(rx.o, rx.call, m, f1, f2);
    rx.Completed();
    HeardIs(rx.o, f1, f2, SYMBOLS, rx.e, rx.notes.heard);
    SameSequences(rx.o, rx.call, m.(acknowledge := false), m.(acknowledge := true), rx.mp.value, rx.mpPrime.value);
  }

  /** Both ends, with symbol `n` on its way from one to the other. */
  ghost predicate Both(tx: Transmitter, rx: Receiver, n: nat, coming: Option<nat>)
    reads tx, tx.frame, rx, rx.mpReceiver
  {
    tx.o == rx.o && Sent(tx, n, coming) && Got(rx, n, tx.f1, tx.f2)
  }

  lemma Coming(tx: Transmitter, rx: Receiver, n: nat, coming: Option<nat>)
    requires Both(tx, rx, n, coming)
    ensures match coming
      case Some(phase) => n < SYMBOLS && phase == Symbol(rx.o, tx.f1, tx.f2, n)
      case None => n == SYMBOLS && tx.stage == Complete
  {
    assert SentAt(tx, n, coming);
  }

  /** One symbol goes across. */
  method PassOne(tx: Transmitter, rx: Receiver, coming: nat, ghost n: nat) returns (next: Option<nat>)
    requires Both(tx, rx, n, Some(coming))
    modifies tx, tx.frame, rx, rx.mpReceiver
    ensures n < SYMBOLS && Both(tx, rx, n + 1, next)
  {
    Coming(tx, rx, n, Some(coming));
    Hear(rx, coming, n, tx.f1, tx.f2);
    next := Send(tx, n, coming);
  }

  /** All symbols, one after another. */
  method PassAll(tx: Transmitter, rx: Receiver)
    requires tx.Valid() && tx.Place() == 0 && Got(rx, 0, tx.f1, tx.f2) && tx.o == rx.o
    modifies tx, tx.frame, rx, rx.mpReceiver
    ensures tx.stage == Complete && Got(rx, SYMBOLS, tx.f1, tx.f2)
  {
    ghost var n := 0;
    var coming := SendFirst(tx);
    while coming.Some?
      invariant n <= SYMBOLS && Both(tx, rx, n, coming)
      decreases SYMBOLS - n
    {
      coming := PassOne(tx, rx, coming.value, n);
      n := n + 1;
      Coming(tx, rx, n, coming);
    }
    Coming(tx, rx, n, coming);
  }

  /** For every valid sequence the receiver takes all 618 symbols of the transmitter, completes
      when the transmitter does, and has the sequence without and with acknowledgement. */
  method Exchange(tx: Transmitter, rx: Receiver, ghost m: Mp)
    requires tx.Valid() && tx.Place() == 0 && ValidMp(m) && FramesOf(rx.o, m, tx.f1, tx.f2)
    requires rx.Valid() && !rx.failed && rx.symbols == 0 && rx.Starting(0, tx.f1, tx.f2)
    requires tx.o == rx.o && rx.o.start.rotation < 4
    modifies tx, tx.frame, rx, rx.mpReceiver
    ensures tx.stage == Complete && rx.complete && !rx.failed
    ensures rx.mp == Some(m.(acknowledge := false)) && rx.mpPrime == Some(m.(acknowledge := true))
  {
    FramesAccepted(rx.o, rx.call, m, tx.f1, tx.f2);
    assert GotAt(rx, 0, tx.f1, tx.f2);
    PassAll(tx, rx);
    HasBoth(rx, m, tx.f1, tx.f2);
  }
}
