/** Phase 4 of start-up: the 618 symbols one end sends, and the other end's check of every one
    of them (src/v34_phase4.c, src/v34_phase4_receiver.c, src/v34_mp_receiver.c and the coded bits
    of src/v34_training_symbols.c). */
module V34Phase4 {
  import opened Wrappers
  import opened Bits
  import opened Hdlc
  import opened Lockstep
  import opened Scrambler
  import opened V34Mp

  const J_SYMBOLS: nat := 8
  const TRN_SYMBOLS: nat := 512
  const MP_AT: nat := 520
  const MP_PRIME_AT: nat := 564
  const E_AT: nat := 608
  const SYMBOLS: nat := 618

  // ---- Bits to phases and back -----------------------------------------------------------------

  /** A scrambler with its tap, and the rotation of the symbol before. */
  datatype Carrier = Carrier(tap: nat, history: History, rotation: nat)

  /** Phases are counted in twelfths of a turn: 12 - 3 * rotation modulo 12. */
  function PhaseOf(rotation: nat): (phase: nat)
    requires rotation < 4
    ensures phase == (12 - 3 * rotation) % 12
  {
    if rotation == 0 then 0 else 12 - 3 * rotation
  }

  /** A phase that is one of the four. */
  predicate Quarter(phase: nat) {
    phase == 0 || phase == 3 || phase == 6 || phase == 9
  }

  function RotationOf(phase: nat): (rotation: nat)
    requires Quarter(phase)
    ensures rotation < 4 && rotation == (12 - phase) % 12 / 3 && PhaseOf(rotation) == phase
  {
    if phase == 0 then 0 else if phase == 3 then 3 else if phase == 6 then 2 else 1
  }

  /** The source adds and subtracts rotations modulo 4. */
  function Plus(a: nat, b: nat): (r: nat)
    requires a < 4 && b < 4
    ensures r < 4 && r == (a + b) % 4
  {
    if a + b < 4 then a + b else a + b - 4
  }

  function Minus(a: nat, b: nat): (r: nat)
    requires a < 4 && b < 4
    ensures r < 4 && r == (a + 4 - b) % 4 && Plus(r, b) == a
  {
    if a < b then a + 4 - b else a - b
  }

  function Digit(i1: bool, i2: bool): (d: nat)
    ensures d < 4
  {
    (if i1 then 1 else 0) + if i2 then 2 else 0
  }

  predicate LowBit(d: nat) {
    d == 1 || d == 3
  }

  predicate HighBit(d: nat) {
    d >= 2
  }

  /** A scrambler or descrambler, one bit at a time. */
  type Shifter = (History, bool) -> (History, bool)

  function CodeWith(scramble: Shifter, c: Carrier, b1: bool, b2: bool): (r: (Carrier, nat))
    requires c.rotation < 4
    ensures r.0.rotation < 4
  {
    var (h1, i1) := scramble(c.history, b1);
    var (h2, i2) := scramble(h1, b2);
    var rotation := Plus(Digit(i1, i2), c.rotation);
    (Carrier(c.tap, h2, rotation), PhaseOf(rotation))
  }

  /** coded_bits4_phase, v34_packed_bits4_phase: two bits turn the carrier on. */
  function Code(c: Carrier, b1: bool, b2: bool): (r: (Carrier, nat))
    requires c.rotation < 4
    ensures r.0.rotation < 4
  {
    CodeWith(Scrambling(c.tap), c, b1, b2)
  }

  /** v34_trn4_phase: two scrambled ones are the rotation. */
  function Train(c: Carrier): (r: (Carrier, nat))
    ensures r.0.rotation < 4
  {
    var (h1, i1) := Scramble(c.tap, c.history, true);
    var (h2, i2) := Scramble(c.tap, h1, true);
    (Carrier(c.tap, h2, Digit(i1, i2)), PhaseOf(Digit(i1, i2)))
  }

  /** v34_scrambler_init. */
  function Cleared(call: bool): Carrier {
    Carrier(if call then 18 else 5, Zeros(HISTORY), 0)
  }

  function UncodeWith(descramble: Shifter, c: Carrier, phase: nat): (r: Option<(Carrier, bool, bool)>)
    requires c.rotation < 4
    ensures r.Some? ==> r.value.0.rotation < 4
  {
    if !Quarter(phase) then None
    else
      var z := RotationOf(phase);
      var d := Minus(z, c.rotation);
      var (h1, b1) := descramble(c.history, LowBit(d));
      var (h2, b2) := descramble(h1, HighBit(d));
      Some((Carrier(c.tap, h2, z), b1, b2))
  }

  /** What v34_mp_receiver_feed makes of a phase. */
  function Uncode(c: Carrier, phase: nat): (r: Option<(Carrier, bool, bool)>)
    requires c.rotation < 4
    ensures r.Some? ==> r.value.0.rotation < 4
  {
    UncodeWith(Descrambling(c.tap), c, phase)
  }

  /** Each undoes the other on this bit. */
  ghost predicate BackAt(scramble: Shifter, descramble: Shifter, h: History, bit: bool) {
    && (var (t, line) := scramble(h, bit); descramble(h, line) == (t, bit))
    && (var (t, b) := descramble(h, bit); scramble(h, b) == (t, bit))
  }

  ghost predicate Back(scramble: Shifter, descramble: Shifter) {
    forall h, bit :: BackAt(scramble, descramble, h, bit)
  }

  lemma ScramblersBack(tap: nat)
    ensures Back(Scrambling(tap), Descrambling(tap))
  {
    var s, d := Scrambling(tap), Descrambling(tap);
    forall h, bit
      ensures BackAt(s, d, h, bit)
    {
    }
  }

  lemma CodeUncodeWith(s: Shifter, d: Shifter, c: Carrier, b1: bool, b2: bool)
    requires Back(s, d) && c.rotation < 4
    ensures var (next, phase) := CodeWith(s, c, b1, b2); UncodeWith(d, c, phase) == Some((next, b1, b2))
  {
    var (h1, i1) := s(c.history, b1);
    assert BackAt(s, d, c.history, b1) && BackAt(s, d, h1, b2);
  }

  lemma UncodeCodeWith(s: Shifter, d: Shifter, c: Carrier, phase: nat)
    requires Back(s, d) && c.rotation < 4 && UncodeWith(d, c, phase).Some?
    ensures var (next, b1, b2) := UncodeWith(d, c, phase).value; CodeWith(s, c, b1, b2) == (next, phase)
  {
    var e := Minus(RotationOf(phase), c.rotation);
    var (h1, b1) := d(c.history, LowBit(e));
    assert BackAt(s, d, c.history, LowBit(e)) && BackAt(s, d, h1, HighBit(e));
  }

  // ---- The 618 symbols ----------------------------------------------------------------------------

  /** The pattern of J'. */
  predicate JPrimeBit(i: nat) {
    i < 5 || i == 7 || i == 8 || i == 11 || i == 15
  }

  /** 1111 1001 1001 0001. */
  lemma JPrimeIs(i: nat)
    requires i < 16
    ensures JPrimeBit(i) <==> i in [0, 1, 2, 3, 4, 7, 8, 11, 15]
  {
  }

  // ---- Training from a cleared scrambler ------------------------------------------------------

  /** The calling end's carrier after `n` training symbols. */
  function Trained(n: nat): (c: Carrier)
    ensures c.rotation < 4
  {
    if n == 0 then Cleared(true) else Train(Trained(n - 1)).0
  }

  ghost predicate OnesFirst(c: Carrier, n: nat) {
    c.tap == 18 && |c.history| == 23 && forall i :: 0 <= i < 23 ==> c.history[i] == (i < n)
  }

  lemma OneMore(h: History, n: nat)
    requires |h| == 23 && (forall i :: 0 <= i < 23 ==> h[i] == (i < n)) && n <= 17
    ensures var (t, line) := Scramble(18, h, true); line && |t| == 23 && forall i :: 0 <= i < 23 ==> t[i] == (i <= n)
  {
  }

  lemma TrainsOn(c: Carrier, n: nat)
    requires OnesFirst(c, n) && n <= 16
    ensures Train(c).1 == 3 && OnesFirst(Train(c).0, n + 2)
  {
    OneMore(c.history, n);
    OneMore(Scramble(18, c.history, true).0, n + 1);
  }

  lemma {:induction false} TrainedOnes(n: nat)
    requires n <= 9
    ensures OnesFirst(Trained(n), 2 * n)
  {
    if n > 0 {
      TrainedOnes(n - 1);
      TrainsOn(Trained(n - 1), 2 * (n - 1));
    }
  }

  lemma Eighteen(c: Carrier)
    requires OnesFirst(c, 18)
    ensures Train(c).1 == 0
  {
    var (h, i1) := Scramble(18, c.history, true);
    assert !i1 && h[17] && !h[22];
  }

  /** Nine symbols three twelfths of a turn on, and then one that is not turned. */
  lemma TrainingKnown(n: nat)
    ensures n < 9 ==> Train(Trained(n)).1 == 3
    ensures n == 9 ==> Train(Trained(n)).1 == 0
  {
    if n < 9 {
      TrainedOnes(n);
      TrainsOn(Trained(n), 2 * n);
    } else if n == 9 {
      TrainedOnes(9);
      Eighteen(Trained(9));
    }
  }

  datatype Item = Coded(b1: bool, b2: bool) | First | Further

  function Step(call: bool, c: Carrier, item: Item): (r: (Carrier, nat))
    requires c.rotation < 4
    ensures r.0.rotation < 4
  {
    match item
    case Coded(b1, b2) => Code(c, b1, b2)
    case First => Train(Cleared(call))
    case Further => Train(c)
  }

  function BitOf(f: seq<bool>, i: nat): bool {
    i < |f| && f[i]
  }

  /** Symbol `k`: J', training, the two frames, and the ones of E. */
  function ItemOf(f1: seq<bool>, f2: seq<bool>, k: nat): Item {
    if k < J_SYMBOLS then Coded(JPrimeBit(2 * k), JPrimeBit(2 * k + 1))
    else if k == J_SYMBOLS then First
    else if k < MP_AT then Further
    else if k < MP_PRIME_AT then Coded(BitOf(f1, 2 * (k - MP_AT)), BitOf(f1, 2 * (k - MP_AT) + 1))
    else if k < E_AT then Coded(BitOf(f2, 2 * (k - MP_PRIME_AT)), BitOf(f2, 2 * (k - MP_PRIME_AT) + 1))
    else Coded(true, true)
  }

  function Items(f1: seq<bool>, f2: seq<bool>, k: nat): (items: seq<Item>)
    ensures |items| == k
  {
    if k == 0 then [] else Items(f1, f2, k - 1) + [ItemOf(f1, f2, k - 1)]
  }

  /** How a phase is read. */
  type Reader = (Carrier, nat) -> Option<(Carrier, bool, bool)>

  /** How frames are read. */
  type FrameReader = seq<bool> -> Option<Mp>

  /** How frames are made. */
  type FrameWriter = Mp -> seq<bool>

  /** How symbols and frames are made and read, and how Phase 3 ended. */
  datatype Opening = Opening(step: (Carrier, Item) -> (Carrier, nat), read: Reader, decode: FrameReader,
                             encode: FrameWriter, start: Carrier)

  function Encoding(): FrameWriter {
    (m: Mp) => if |m.rates| == 16 then FrameOf(m) else []
  }

  ghost predicate EncodesAt(encode: FrameWriter, m: Mp) {
    |m.rates| == 16 ==> encode(m) == FrameOf(m)
  }

  ghost predicate Encodes(encode: FrameWriter) {
    forall m :: EncodesAt(encode, m)
  }

  function Decoding(): FrameReader {
    (f: seq<bool>) => if |f| == FRAME_BITS then DecodeOf(f) else None
  }

  ghost predicate DecodesAt(decode: FrameReader, f: seq<bool>) {
    |f| == FRAME_BITS ==> decode(f) == DecodeOf(f)
  }

  ghost predicate Decodes(decode: FrameReader) {
    forall f :: DecodesAt(decode, f)
  }

  /** What both ends know beforehand: which of them calls, and how Phase 3 ended. */
  function OpeningOf(call: bool, start: Carrier): Opening {
    Opening(Stepping(call), Uncoding(), Decoding(), Encoding(), start)
  }

  /** An opening made of the source's functions. */
  ghost predicate Opens(o: Opening, call: bool) {
    Steps(o.step, call) && Reads(o.read) && Decodes(o.decode) && Encodes(o.encode)
  }

  lemma Opened(call: bool, start: Carrier)
    ensures Opens(OpeningOf(call, start), call)
  {
    Stepped(call);
    Uncodes();
    var decode := Decoding();
    forall f
      ensures DecodesAt(decode, f)
    {
    }
    var encode := Encoding();
    forall m
      ensures EncodesAt(encode, m)
    {
    }
  }

  function Uncoding(): Reader {
    (c: Carrier, phase: nat) => if c.rotation < 4 then Uncode(c, phase) else None
  }

  ghost predicate ReadsAt(read: Reader, c: Carrier, phase: nat) {
    c.rotation < 4 ==> read(c, phase) == Uncode(c, phase)
  }

  ghost predicate Reads(read: Reader) {
    forall c, phase: nat :: ReadsAt(read, c, phase)
  }

  lemma Uncodes()
    ensures Reads(Uncoding())
  {
    var read := Uncoding();
    forall c, phase: nat
      ensures ReadsAt(read, c, phase)
    {
    }
  }

  function Stepping(call: bool): (Carrier, Item) -> (Carrier, nat) {
    (c: Carrier, item: Item) => if c.rotation < 4 then Step(call, c, item) else (c, 0)
  }

  /** The first `k` symbols, and the carrier after them. */
  function Run(o: Opening, f1: seq<bool>, f2: seq<bool>, k: nat): (r: (Carrier, seq<nat>))
    ensures |r.1| == k
  {
    SendAll(o.step, o.start, Items(f1, f2, k))
  }

  /** One more symbol. */
  lemma RunOn(o: Opening, f1: seq<bool>, f2: seq<bool>, k: nat)
    ensures var (c, sent) := Run(o, f1, f2, k);
      var (next, phase) := o.step(c, ItemOf(f1, f2, k));
      Run(o, f1, f2, k + 1) == (next, sent + [phase])
  {
    SendSnoc(o.step, o.start, Items(f1, f2, k), ItemOf(f1, f2, k));
  }

  ghost predicate HeardAs(o: Opening, f1: seq<bool>, f2: seq<bool>, n: nat, r: (Carrier, seq<nat>)) {
    r == Run(o, f1, f2, n)
  }

  /** The first `n` symbols of two frames and the carrier after them, as a fact that is looked into
      only where it is wanted. */
  ghost predicate Heard(o: Opening, f1: seq<bool>, f2: seq<bool>, n: nat, c: Carrier, heard: seq<nat>) {
    forall r :: r == (c, heard) ==> HeardAs(o, f1, f2, n, r)
  }

  lemma HeardIs(o: Opening, f1: seq<bool>, f2: seq<bool>, n: nat, c: Carrier, heard: seq<nat>)
    ensures Heard(o, f1, f2, n, c, heard) <==> (c, heard) == Run(o, f1, f2, n)
  {
    assert HeardAs(o, f1, f2, n, (c, heard)) <==> (c, heard) == Run(o, f1, f2, n);
  }

  /** The symbol after that. */
  function NextSymbol(o: Opening, c: Carrier, f1: seq<bool>, f2: seq<bool>, n: nat): nat {
    o.step(c, ItemOf(f1, f2, n)).1
  }

  lemma HeardOn(o: Opening, f1: seq<bool>, f2: seq<bool>, n: nat, c: Carrier, heard: seq<nat>)
    requires Heard(o, f1, f2, n, c, heard)
    ensures var (next, phase) := o.step(c, ItemOf(f1, f2, n)); Heard(o, f1, f2, n + 1, next, heard + [phase])
  {
    var (next, phase) := o.step(c, ItemOf(f1, f2, n));
    HeardIs(o, f1, f2, n, c, heard);
    HeardIs(o, f1, f2, n + 1, next, heard + [phase]);
    RunOn(o, f1, f2, n);
  }

  lemma HeardSame(o: Opening, f1: seq<bool>, f2: seq<bool>, g1: seq<bool>, g2: seq<bool>, n: nat, c: Carrier,
                  heard: seq<nat>)
    requires Heard(o, f1, f2, n, c, heard) && forall i: nat :: i < n ==> ItemOf(f1, f2, i) == ItemOf(g1, g2, i)
    ensures Heard(o, g1, g2, n, c, heard)
  {
    HeardIs(o, f1, f2, n, c, heard);
    HeardIs(o, g1, g2, n, c, heard);
    ItemsSame(f1, f2, g1, g2, n);
  }

  /** Symbols do not depend on bits that come later. */
  lemma {:induction false} ItemsSame(f1: seq<bool>, f2: seq<bool>, g1: seq<bool>, g2: seq<bool>, k: nat)
    requires forall i: nat :: i < k ==> ItemOf(f1, f2, i) == ItemOf(g1, g2, i)
    ensures Items(f1, f2, k) == Items(g1, g2, k)
  {
    if k > 0 {
      ItemsSame(f1, f2, g1, g2, k - 1);
    }
  }

  /** The step is the one of the end that calls, or of the other. */
  ghost predicate StepsAt(step: (Carrier, Item) -> (Carrier, nat), call: bool, c: Carrier, item: Item) {
    c.rotation < 4 ==> step(c, item) == Step(call, c, item)
  }

  ghost predicate Steps(step: (Carrier, Item) -> (Carrier, nat), call: bool) {
    forall c, item :: StepsAt(step, call, c, item)
  }

  lemma Stepped(call: bool)
    ensures Steps(Stepping(call), call)
  {
    var step := Stepping(call);
    forall c, item
      ensures StepsAt(step, call, c, item)
    {
    }
  }

  /** Reading a phase finds the bits that were coded, and no others. */
  lemma ReadsBack(o: Opening, call: bool, c: Carrier, phase: nat, b1: bool, b2: bool)
    requires Steps(o.step, call) && Reads(o.read) && c.rotation < 4
    ensures var r, s := o.read(c, phase), o.step(c, Coded(b1, b2));
      && (s.1 == phase <==> r.Some? && r.value.1 == b1 && r.value.2 == b2)
      && (s.1 == phase ==> r.value.0 == s.0 && s.0.rotation < 4 && Quarter(phase))
  {
    assert StepsAt(o.step, call, c, Coded(b1, b2)) && ReadsAt(o.read, c, phase);
    var s, d := Scrambling(c.tap), Descrambling(c.tap);
    ScramblersBack(c.tap);
    CodeUncodeWith(s, d, c, b1, b2);
    if UncodeWith(d, c, phase).Some? {
      UncodeCodeWith(s, d, c, phase);
    }
  }

  // ---- The sending end ------------------------------------------------------------------------------

  /** The two frames: without and with acknowledgement. */
  ghost predicate FramesOf(o: Opening, m: Mp, f1: seq<bool>, f2: seq<bool>) {
    f1 == o.encode(m.(acknowledge := false)) && f2 == o.encode(m.(acknowledge := true))
  }

  /** What symbol `k` is when both ends know the frames. */
  function Symbol(o: Opening, f1: seq<bool>, f2: seq<bool>, k: nat): nat {
    o.step(Run(o, f1, f2, k).0, ItemOf(f1, f2, k)).1
  }

  datatype Stage = JPrime | Trn | MpFrame | MpPrimeFrame | E | Complete
  {
    function Rank(): nat {
      match this
      case JPrime => 5
      case Trn => 4
      case MpFrame => 3
      case MpPrimeFrame => 2
      case E => 1
      case Complete => 0
    }

    /** The number of the next symbol. */
    function Place(index: nat): nat {
      match this
      case JPrime => index / 2
      case Trn => J_SYMBOLS + index
      case MpFrame => MP_AT + index / 2
      case MpPrimeFrame => MP_PRIME_AT + index / 2
      case E => E_AT + index / 2
      case Complete => SYMBOLS
    }

    /** How far the index runs. */
    function End(): nat {
      match this
      case JPrime => 16
      case Trn => TRN_SYMBOLS
      case MpFrame => FRAME_BITS
      case MpPrimeFrame => FRAME_BITS
      case E => 20
      case Complete => 0
    }

    predicate Fits(index: nat) {
      (this == Complete || index <= End()) && (this == Trn || index % 2 == 0)
    }
  }

  class Transmitter {
    const call: bool
    ghost const o: Opening
    ghost const f1: seq<bool>
    ghost const f2: seq<bool>
    const frame: array<bool>
    var stage: Stage
    var carrier: Carrier
    var index: nat
    var mp: Mp

    ghost function Place(): nat
      reads `stage, `index
    {
      stage.Place(index)
    }

    /** The carrier is that of the script; at the start of training the scrambler has been cleared. */
    ghost predicate OnScript()
      reads `stage, `index, `carrier
    {
      && Steps(o.step, call) && carrier.rotation < 4 && Run(o, f1, f2, Place()).0.rotation < 4
      && if stage == Trn && index == 0 then carrier.(rotation := 0) == Cleared(call)
         else carrier == Run(o, f1, f2, Place()).0
    }

    ghost predicate Framed()
      reads `stage, `mp, frame
    {
      && frame.Length == |f1| == |f2| == FRAME_BITS && ValidMp(mp) && Encodes(o.encode) && FramesOf(o, mp, f1, f2)
      && (stage == MpFrame ==> frame[..] == f1) && (stage == MpPrimeFrame ==> frame[..] == f2)
    }

    ghost predicate Valid()
      reads this, frame
    {
      stage.Fits(index) && OnScript() && Framed()
    }

    /** v34_phase4_init. */
    constructor (call: bool, start: Carrier, mp: Mp)
      requires start.rotation < 4 && ValidMp(mp)
      ensures Valid() && Place() == 0 && this.call == call && o == OpeningOf(call, start) && fresh(frame)
      ensures this.mp == mp
    {
      this.call, carrier, this.mp := call, start, mp;
      o := OpeningOf(call, start);
      f1 := OpeningOf(call, start).encode(mp.(acknowledge := false));
      f2 := OpeningOf(call, start).encode(mp.(acknowledge := true));
      stage, index := JPrime, 0;
      frame := new bool[FRAME_BITS];
      new;
      Opened(call, start);
      assert EncodesAt(o.encode, mp.(acknowledge := false)) && EncodesAt(o.encode, mp.(acknowledge := true));
    }

    /** Two bits onto the carrier. */
    method CodePair(b1: bool, b2: bool) returns (phase: nat)
      requires carrier.rotation < 4 && Steps(o.step, call)
      modifies `carrier
      ensures (carrier, phase) == o.step(old(carrier), Coded(b1, b2)) && carrier.rotation < 4
    {
      assert StepsAt(o.step, call, carrier, Coded(b1, b2));
      var (h1, i1) := Scramble(carrier.tap, carrier.history, b1);
      var (h2, i2) := Scramble(carrier.tap, h1, b2);
      var rotation := Plus(Digit(i1, i2), carrier.rotation);
      carrier := carrier.(history := h2, rotation := rotation);
      phase := PhaseOf(rotation);
    }

    /** Two scrambled ones. */
    method TrainPair(ghost c: Carrier, ghost item: Item) returns (phase: nat)
      requires Steps(o.step, call) && c.rotation < 4
      requires if item == First then carrier.(rotation := 0) == Cleared(call) else item == Further && carrier == c
      modifies `carrier
      ensures (carrier, phase) == o.step(c, item) && carrier.rotation < 4
    {
      assert StepsAt(o.step, call, c, item);
      var (h1, i1) := Scramble(carrier.tap, carrier.history, true);
      var (h2, i2) := Scramble(carrier.tap, h1, true);
      phase := PhaseOf(Digit(i1, i2));
      carrier := carrier.(history := h2, rotation := RotationOf(phase));
    }

    /** The next pair of bits of a pattern or frame. */
    method EmitPair(b1: bool, b2: bool) returns (phase: nat)
      requires index % 2 == 0 && OnScript() && stage != Trn && stage != Complete
      requires ItemOf(f1, f2, Place()) == Coded(b1, b2)
      modifies `carrier, `index
      ensures index == old(index) + 2 && OnScript() && Place() == old(Place()) + 1
      ensures phase == Symbol(o, f1, f2, old(Place()))
    {
      RunOn(o, f1, f2, Place());
      phase := CodePair(b1, b2);
      index := index + 2;
    }

    /** One symbol of training. */
    method EmitTraining() returns (phase: nat)
      requires stage == Trn && index < TRN_SYMBOLS && OnScript()
      modifies `carrier, `index
      ensures index == old(index) + 1 && OnScript() && phase == Symbol(o, f1, f2, old(Place()))
    {
      ghost var c := Run(o, f1, f2, Place()).0;
      RunOn(o, f1, f2, Place());
      phase := TrainPair(c, if index == 0 then First else Further);
      index := index + 1;
    }

    /** The bits the present stage sends next. */
    method PairDue() returns (b1: bool, b2: bool)
      requires stage.Fits(index) && Framed() && stage != Trn && stage != Complete && index < stage.End()
      ensures ItemOf(f1, f2, Place()) == Coded(b1, b2)
    {
      match stage
      case JPrime => b1, b2 := JPrimeBit(index), JPrimeBit(index + 1);
      case MpFrame => b1, b2 := frame[index], frame[index + 1];
      case MpPrimeFrame => b1, b2 := frame[index], frame[index + 1];
      case E => b1, b2 := true, true;
    }

    /** A symbol of the present stage. */
    method Emit() returns (phase: nat)
      requires Valid() && stage != Complete && index < stage.End()
      modifies `carrier, `index
      ensures Valid() && Place() == old(Place()) + 1 && phase == Symbol(o, f1, f2, old(Place()))
    {
      if stage == Trn {
        phase := EmitTraining();
      } else {
        var b1, b2 := PairDue();
        phase := EmitPair(b1, b2);
      }
    }

    /** prepare_mp: the frame with or without acknowledgement. */
    method PrepareMp(acknowledge: bool) returns (ok: bool)
      requires frame.Length == FRAME_BITS && ValidMp(mp) && Encodes(o.encode) && FramesOf(o, mp, f1, f2)
      modifies `mp, `index, frame
      ensures ok && index == 0 && ValidMp(mp) && FramesOf(o, mp, f1, f2)
      ensures frame[..] == if acknowledge then f2 else f1
    {
      mp := mp.(acknowledge := acknowledge);
      index := 0;
      assert EncodesAt(o.encode, mp);
      ok := Encode(mp, frame);
    }

    /** From J' to training: the scrambler is cleared. */
    method TurnToTraining()
      requires Valid() && stage == JPrime && index == 16
      modifies `stage, `carrier, `index
      ensures Valid() && stage == Trn && Place() == old(Place())
    {
      stage, index := Trn, 0;
      carrier := Cleared(call).(rotation := carrier.rotation);
    }

    /** On to one of the frames. */
    method TurnToFrame(acknowledge: bool) returns (ok: bool)
      requires Valid() && stage == (if acknowledge then MpFrame else Trn) && index == stage.End()
      modifies `stage, `index, `mp, frame
      ensures ok && Valid() && stage == (if acknowledge then MpPrimeFrame else MpFrame) && Place() == old(Place())
    {
      stage := if acknowledge then MpPrimeFrame else MpFrame;
      ok := PrepareMp(acknowledge);
    }

    /** On to the next stage. */
    method Turn() returns (ok: bool)
      requires Valid() && stage != Complete && index == stage.End()
      modifies `stage, `carrier, `index, `mp, frame
      ensures ok && Valid() && Place() == old(Place()) && stage.Rank() < old(stage.Rank())
    {
      ok := true;
      match stage
      case JPrime => TurnToTraining();
      case Trn => ok := TurnToFrame(false);
      case MpFrame => ok := TurnToFrame(true);
      case MpPrimeFrame => stage, index := E, 0;
      case E => stage := Complete;
    }

    /** v34_phase4_next. */
    method Next() returns (phase: Option<nat>)
      requires Valid()
      modifies `stage, `carrier, `index, `mp, frame
      ensures Valid()
      ensures old(Place()) < SYMBOLS ==>
        phase == Some(Symbol(o, f1, f2, old(Place()))) && Place() == old(Place()) + 1
      ensures old(Place()) >= SYMBOLS ==> phase.None? && stage == Complete
    {
      while stage != Complete
        invariant Valid() && Place() == old(Place())
        decreases stage.Rank()
      {
        if index < stage.End() {
          var p := Emit();
          return Some(p);
        }
        var ok := Turn();
        if !ok {
          return None;
        }
      }
      return None;
    }
  }
}
