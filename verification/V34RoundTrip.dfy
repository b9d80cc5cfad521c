/** Encoder and decoder of mapping frames against each other, over any number of frames. */
module V34RoundTrip {
  import opened Wrappers
  import opened Bits
  import opened Lockstep
  import opened ShellParams
  import opened V34Points
  import V34Trellis
  import opened V34Parse
  import opened V34Interval
  import opened V34Frame

  // ---- Bits to points to bits ---------------------------------------------------------------

  /** Interval by interval the encoder and the decoder are inverse to each other. */
  lemma IntervalsInverse(k: Coder, q: nat)
    requires Recognises(k)
    ensures Inverse(Sender(k), Receiver(k, q), (s: State) => s.rotation < 4, (c: Cell) => Faithful(q, c))
  {
    var shared := (s: State) => s.rotation < 4;
    var good := (c: Cell) => Faithful(q, c);
    var send, take := Sender(k), Receiver(k, q);
    forall s, c
      ensures Takes(send, take, shared, good, s, c)
    {
      if s.rotation < 4 && Faithful(q, c) {
        ReadBack(k, q, s, c);
      }
    }
    forall s, w
      ensures Resends(send, take, shared, good, s, w)
    {
      if s.rotation < 4 && Receive(k, q, s, w).Some? {
        SendBack(k, q, s, w);
      }
    }
  }

  lemma CellsSentTaken(k: Coder, q: nat, s: State, cells: seq<Cell>)
    requires Recognises(k) && s.rotation < 4 && forall i :: 0 <= i < |cells| ==> Faithful(q, cells[i])
    ensures var (t, w) := SendAll(Sender(k), s, cells);
      t.rotation < 4 && TakeAll(Receiver(k, q), s, w) == Progress(true, cells, t)
  {
    IntervalsInverse(k, q);
    SentTaken(Sender(k), Receiver(k, q), (u: State) => u.rotation < 4, (c: Cell) => Faithful(q, c), s, cells);
  }

  lemma CellsTakenSent(k: Coder, q: nat, s: State, w: seq<Slot>)
    requires Recognises(k) && s.rotation < 4
    ensures var r := TakeAll(Receiver(k, q), s, w);
      && r.state.rotation < 4
      && (r.ok ==>
            SendAll(Sender(k), s, r.got) == (r.state, w) && forall i :: 0 <= i < |r.got| ==> Faithful(q, r.got[i]))
  {
    IntervalsInverse(k, q);
    TakenSent(Sender(k), Receiver(k, q), (u: State) => u.rotation < 4, (c: Cell) => Faithful(q, c), s, w);
  }

  lemma Below(v: nat, r: nat, m: nat, p: nat, bound: nat)
    requires v < p && r < m && m * p <= bound
    ensures v + r * p < bound
  {
    ProductGrows(r + 1, m, p);
  }

  lemma IndexInRange(q: nat, m: nat, r: nat, bits: seq<bool>)
    requires m * Pow2(q) <= QUARTER_POINTS && r < m && |bits| == q
    ensures IndexOf(r, bits) < QUARTER_POINTS
  {
    IndexValue(r, bits);
    FromBitsBound(bits);
    Below(FromBits(bits), r, m, Pow2(q), QUARTER_POINTS);
  }

  lemma CellFaithful(l: Link, g: Group, ra: nat, rb: nat, v0: bool)
    requires Linked(l) && Holding(g, l.p.qBits) && ra < l.rings && rb < l.rings
    ensures Faithful(l.p.qBits, CellOf(g, ra, rb, v0))
  {
    IndexInRange(l.p.qBits, l.rings, ra, g.qa);
    IndexInRange(l.p.qBits, l.rings, rb, g.qb);
    IndexReads(ra, g.qa);
    IndexReads(rb, g.qb);
  }

  lemma CellsFaithful(l: Link, x: Parsed, rings: seq<nat>, v0: seq<bool>)
    requires Linked(l) && Shaped(l.p, x) && |rings| == 8 && |v0| == 4 && forall i :: 0 <= i < 8 ==> rings[i] < l.rings
    ensures forall j :: 0 <= j < 4 ==> Faithful(l.p.qBits, CellsOf(x.groups, rings, v0)[j])
    ensures InRange(CellsOf(x.groups, rings, v0))
  {
    assert forall j :: 0 <= j < 4 ==> Holding(x.groups[j], l.p.qBits);
    CellFaithful(l, x.groups[0], rings[0], rings[1], v0[0]);
    CellFaithful(l, x.groups[1], rings[2], rings[3], v0[1]);
    CellFaithful(l, x.groups[2], rings[4], rings[5], v0[2]);
    CellFaithful(l, x.groups[3], rings[6], rings[7], v0[3]);
  }

  /** The cells of a frame the parser accepts. */
  ghost function CellsFor(l: Link, bits: seq<bool>, v0: seq<bool>): (cells: seq<Cell>)
    requires Linked(l) && Parse(l.p, bits).Some? && |v0| == 4
    ensures |cells| == 4
  {
    var x := Parse(l.p, bits).value;
    assert Maps(l.shells, l.p.shellBits, l.rings, x.shell);
    CellsOf(x.groups, l.shells.toRings(x.shell).value, v0)
  }

  lemma ReadBackCells(groups: seq<Group>, rings: seq<nat>, v0: seq<bool>)
    requires |groups| == 4 && |rings| == 8 && |v0| == 4
    ensures RingsRead(CellsOf(groups, rings, v0)) == rings && GroupsRead(CellsOf(groups, rings, v0)) == groups
  {
  }

  lemma CellsForFaithful(l: Link, bits: seq<bool>, v0: seq<bool>)
    requires Linked(l) && Parse(l.p, bits).Some? && |v0| == 4
    ensures forall j :: 0 <= j < 4 ==> Faithful(l.p.qBits, CellsFor(l, bits, v0)[j])
    ensures InRange(CellsFor(l, bits, v0))
    ensures Assemble(l, CellsFor(l, bits, v0), |bits| == l.p.frameBits) == Some(bits)
  {
    var x := Parse(l.p, bits).value;
    assert Maps(l.shells, l.p.shellBits, l.rings, x.shell);
    var rings := l.shells.toRings(x.shell).value;
    CellsFaithful(l, x, rings, v0);
    ReadBackCells(x.groups, rings, v0);
    assert Parsed(x.shell, x.groups) == x;
    ParseEmit(l.p, bits);
  }

  lemma EncodeIs(l: Link, s: State, v0: seq<bool>, bits: seq<bool>, x: Parsed, rings: seq<nat>, cells: seq<Cell>)
    requires Parameterised(l.p) && |v0| == 4 && Parse(l.p, bits) == Some(x) && l.shells.toRings(x.shell) == Some(rings)
    requires |rings| == 8 && cells == CellsOf(x.groups, rings, v0) && InRange(cells)
    ensures Encode(l, s, v0, bits) == Some(SendAll(Sender(l.coder), s, cells))
  {
  }

  /** The encoder takes exactly the frames the parser accepts. */
  lemma EncodesParsed(l: Link, s: State, v0: seq<bool>, bits: seq<bool>)
    requires Linked(l) && |v0| == 4
    ensures Encode(l, s, v0, bits) ==
      if Parse(l.p, bits).Some? then Some(SendAll(Sender(l.coder), s, CellsFor(l, bits, v0))) else None
  {
    if Parse(l.p, bits).Some? {
      CellsForFaithful(l, bits, v0);
      var x := Parse(l.p, bits).value;
      assert Maps(l.shells, l.p.shellBits, l.rings, x.shell);
      EncodeIs(l, s, v0, bits, x, l.shells.toRings(x.shell).value, CellsFor(l, bits, v0));
    }
  }

  /** For every frame the parser accepts, the decoder gives the bits back from the points and
      ends in the encoder's state. */
  lemma FrameRoundTrip(l: Link, s: State, v0: seq<bool>, bits: seq<bool>)
    requires Linked(l) && |v0| == 4 && s.rotation < 4 && Parse(l.p, bits).Some?
    ensures Encode(l, s, v0, bits).Some?
    ensures var (next, w) := Encode(l, s, v0, bits).value;
      next.rotation < 4 && |w| == 4 && Decode(l, s, w, |bits| == l.p.frameBits) == (next, Some(bits))
  {
    EncodesParsed(l, s, v0, bits);
    CellsForFaithful(l, bits, v0);
    CellsSentTaken(l.coder, l.p.qBits, s, CellsFor(l, bits, v0));
  }

  // ---- Runs ------------------------------------------------------------------------------------

  /** A frame to send, with its inversion pattern. */
  datatype Frame = Frame(bits: seq<bool>, v0: seq<bool>)

  /** What the decoder is told about a frame: its points with their inversions, and its length. */
  datatype Arrival = Arrival(w: seq<Slot>, high: bool)

  ghost predicate Sendable(l: Link, f: Frame) {
    Linked(l) && |f.v0| == 4 && Accepts(l.p, |f.bits|)
  }

  ghost function SendFrame(l: Link, s: State, f: Frame): (State, Arrival) {
    if Sendable(l, f) && Encode(l, s, f.v0, f.bits).Some? then
      var (next, w) := Encode(l, s, f.v0, f.bits).value;
      (next, Arrival(w, |f.bits| == l.p.frameBits))
    else (s, Arrival([], false))
  }

  /** What is sent for a frame, cell by cell. */
  lemma FrameSent(l: Link, s: State, f: Frame)
    requires s.rotation < 4 && Sendable(l, f)
    ensures var sent := CellsFor(l, f.bits, f.v0); var (next, w) := SendAll(Sender(l.coder), s, sent);
      && |w| == |sent| == |f.v0| == 4 && (forall j :: 0 <= j < 4 ==> sent[j].v0 == f.v0[j])
      && SendFrame(l, s, f) == (next, Arrival(w, |f.bits| == l.p.frameBits))
  {
    EncodesParsed(l, s, f.v0, f.bits);
    var x := Parse(l.p, f.bits).value;
    assert Maps(l.shells, l.p.shellBits, l.rings, x.shell);
  }

  ghost function TakeFrame(l: Link, s: State, a: Arrival): (State, Option<seq<bool>>) {
    if Linked(l) && |a.w| == 4 then Decode(l, s, a.w, a.high) else (s, None)
  }

  lemma FrameInStep(l: Link, s: State, f: Frame)
    requires s.rotation < 4 && Sendable(l, f)
    ensures var (next, a) := SendFrame(l, s, f);
      next.rotation < 4 && TakeFrame(l, s, a) == (next, Some(f.bits))
  {
    FrameRoundTrip(l, s, f.v0, f.bits);
  }

  /** Any number of frames comes through bit for bit, and the decoder ends in the encoder's
      state. */
  lemma RunRoundTrip(l: Link, s: State, frames: seq<Frame>)
    requires s.rotation < 4 && forall i :: 0 <= i < |frames| ==> Sendable(l, frames[i])
    ensures var (t, arrivals) := SendAll((u: State, f: Frame) => SendFrame(l, u, f), s, frames);
      var (v, out) := SendAll((u: State, a: Arrival) => TakeFrame(l, u, a), s, arrivals);
      v == t && |out| == |frames| && forall i :: 0 <= i < |frames| ==> out[i] == Some(frames[i].bits)
  {
    var send := (u: State, f: Frame) => SendFrame(l, u, f);
    var take := (u: State, a: Arrival) => TakeFrame(l, u, a);
    var shared := (u: State) => u.rotation < 4;
    var good := (f: Frame) => Sendable(l, f);
    var want := (f: Frame) => Some(f.bits);
    forall u, f
      ensures Undoes(send, take, shared, good, want, u, f)
    {
      if u.rotation < 4 && Sendable(l, f) {
        FrameInStep(l, u, f);
      }
    }
    StayInStep(send, take, shared, good, want, s, frames);
  }

  // ---- Points to bits to points ----------------------------------------------------------------

  /** The ring survives the octet it is stored in. */
  ghost predicate Narrow(q: nat, c: Cell) {
    High(c.a, q) < 256 && High(c.b, q) < 256
  }

  /** What the decoder read in these points. */
  ghost function CellsIn(l: Link, s: State, w: seq<Slot>): seq<Cell>
    requires Linked(l)
  {
    TakeAll(Receiver(l.coder, l.p.qBits), s, w).got
  }

  lemma CellRebuilt(q: nat, c: Cell)
    requires Faithful(q, c)
    ensures CellOf(c.group, c.ra, c.rb, c.v0) == c <==> Narrow(q, c)
  {
    IndexWrites(c.a, q);
    IndexWrites(c.b, q);
    IndexReads(c.ra, c.group.qa);
    IndexReads(c.rb, c.group.qb);
  }

  lemma CellsRebuilt(q: nat, cells: seq<Cell>, v0: seq<bool>)
    requires |cells| == |v0| == 4 && forall j :: 0 <= j < 4 ==> Faithful(q, cells[j]) && cells[j].v0 == v0[j]
    ensures CellsOf(GroupsRead(cells), RingsRead(cells), v0) == cells <==>
      forall j :: 0 <= j < 4 ==> Narrow(q, cells[j])
  {
    CellRebuilt(q, cells[0]);
    CellRebuilt(q, cells[1]);
    CellRebuilt(q, cells[2]);
    CellRebuilt(q, cells[3]);
    var again := CellsOf(GroupsRead(cells), RingsRead(cells), v0);
    assert forall j :: 0 <= j < 4 ==> again[j] == CellOf(cells[j].group, cells[j].ra, cells[j].rb, cells[j].v0);
  }

  /** Only without q bits, and only past index 255, does the octet lose anything. */
  lemma NarrowIs(q: nat, c: Cell)
    requires c.a < QUARTER_POINTS && c.b < QUARTER_POINTS
    ensures Narrow(q, c) <==> q > 0 || (c.a < 256 && c.b < 256)
  {
    if q > 0 {
      HighShrinks(c.a, q);
      HighShrinks(c.b, q);
    }
  }

  lemma {:induction false} HighShrinks(x: nat, q: nat)
    requires q > 0
    ensures High(x, q) <= x / 2
  {
    if q > 1 {
      HighShrinks(x / 2, q - 1);
    }
  }

  function Inversions(w: seq<Slot>): (v0: seq<bool>)
    requires |w| == 4
  {
    [w[0].v0, w[1].v0, w[2].v0, w[3].v0]
  }

  lemma {:induction false} SlotsCarryInversions(k: Coder, s: State, cells: seq<Cell>)
    ensures forall i :: 0 <= i < |cells| ==> SendAll(Sender(k), s, cells).1[i].v0 == cells[i].v0
  {
    if cells != [] {
      SlotsCarryInversions(k, s, cells[..|cells| - 1]);
    }
  }

  lemma TakenParts(l: Link, s: State, w: seq<Slot>)
    requires Linked(l) && s.rotation < 4 && |w| == 4 && TakeAll(Receiver(l.coder, l.p.qBits), s, w).ok
    ensures var cells := CellsIn(l, s, w);
      && |cells| == 4 && SendAll(Sender(l.coder), s, cells) == (TakeAll(Receiver(l.coder, l.p.qBits), s, w).state, w)
      && (forall j :: 0 <= j < 4 ==> Faithful(l.p.qBits, cells[j]) && cells[j].v0 == Inversions(w)[j])
  {
    CellsTakenSent(l.coder, l.p.qBits, s, w);
    SlotsCarryInversions(l.coder, s, CellsIn(l, s, w));
  }

  /** What an accepted frame is made of. */
  lemma DecodedParts(l: Link, s: State, w: seq<Slot>, high: bool)
    requires Linked(l) && s.rotation < 4 && |w| == 4 && Decode(l, s, w, high).1.Some?
    ensures var (next, bits) := Decode(l, s, w, high); var cells := CellsIn(l, s, w);
      && |cells| == 4 && SendAll(Sender(l.coder), s, cells) == (next, w)
      && (forall j :: 0 <= j < 4 ==> Faithful(l.p.qBits, cells[j]) && cells[j].v0 == Inversions(w)[j])
      && Parse(l.p, bits.value).Some?
      && |bits.value| == (if high then l.p.frameBits else l.p.frameBits - 1)
      && CellsFor(l, bits.value, Inversions(w)) == CellsOf(GroupsRead(cells), RingsRead(cells), Inversions(w))
  {
    TakenParts(l, s, w);
    AssembledParts(l, CellsIn(l, s, w), high, Inversions(w));
  }

  lemma AssembledParts(l: Link, cells: seq<Cell>, high: bool, v0: seq<bool>)
    requires Linked(l) && |cells| == |v0| == 4 && Assemble(l, cells, high).Some?
    ensures var bits := Assemble(l, cells, high).value;
      && Parse(l.p, bits).Some? && |bits| == (if high then l.p.frameBits else l.p.frameBits - 1)
      && CellsFor(l, bits, v0) == CellsOf(GroupsRead(cells), RingsRead(cells), v0)
  {
    assert Unmaps(l.shells, l.p.shellBits, RingsRead(cells));
    var shell := l.shells.toBits(RingsRead(cells)).value;
    EmitParse(l.p, Parsed(shell, GroupsRead(cells)), high);
  }

  /** The point is one of the first 256 of its quarter of the constellation. */
  predicate InOctet(k: Coder, p: Point) {
    k.look(p).Some? && k.look(p).value.index < 256
  }

  /** The points sent for cells are where the cells say. */
  lemma {:induction false} CellsSeen(k: Coder, q: nat, s: State, cells: seq<Cell>)
    requires Recognises(k) && forall i :: 0 <= i < |cells| ==> Faithful(q, cells[i])
    ensures var w := SendAll(Sender(k), s, cells).1;
      forall i :: 0 <= i < |cells| ==>
        (InOctet(k, w[i].first) <==> cells[i].a < 256) && (InOctet(k, w[i].second) <==> cells[i].b < 256)
  {
    if cells != [] {
      var n := |cells| - 1;
      CellsSeen(k, q, s, cells[..n]);
      assert Faithful(q, cells[n]);
      SentSeen(k, SendAll(Sender(k), s, cells[..n]).0, cells[n]);
    }
  }

  /** A frame the decoder accepts is the one the encoder sends for its bits exactly when every
      ring number found fits the octet it is kept in: with no q bits, when every point is one
      of the first 256 of its quarter. */
  lemma DecodedFrame(l: Link, s: State, w: seq<Slot>, high: bool)
    requires Linked(l) && s.rotation < 4 && |w| == 4 && Decode(l, s, w, high).1.Some?
    ensures var (next, bits) := Decode(l, s, w, high);
      Encode(l, s, Inversions(w), bits.value) == Some((next, w)) <==>
        l.p.qBits > 0 || forall j :: 0 <= j < 4 ==> InOctet(l.coder, w[j].first) && InOctet(l.coder, w[j].second)
  {
    DecodedParts(l, s, w, high);
    CellsSeen(l.coder, l.p.qBits, s, CellsIn(l, s, w));
    var (next, bits) := Decode(l, s, w, high);
    var cells, again := CellsIn(l, s, w), CellsFor(l, bits.value, Inversions(w));
    EncodesParsed(l, s, Inversions(w), bits.value);
    CellsForFaithful(l, bits.value, Inversions(w));
    CellsRebuilt(l.p.qBits, cells, Inversions(w));
    SentCellsDiffer(l, s, cells, again);
    forall j | 0 <= j < 4
      ensures Narrow(l.p.qBits, cells[j]) <==> l.p.qBits > 0 || (cells[j].a < 256 && cells[j].b < 256)
    {
      assert Faithful(l.p.qBits, cells[j]);
      NarrowIs(l.p.qBits, cells[j]);
    }
  }

  lemma SentCellsDiffer(l: Link, s: State, x: seq<Cell>, y: seq<Cell>)
    requires Linked(l) && s.rotation < 4
    requires forall i :: 0 <= i < |x| ==> Faithful(l.p.qBits, x[i])
    requires forall i :: 0 <= i < |y| ==> Faithful(l.p.qBits, y[i])
    ensures SendAll(Sender(l.coder), s, x) == SendAll(Sender(l.coder), s, y) ==> x == y
  {
    CellsSentTaken(l.coder, l.p.qBits, s, x);
    CellsSentTaken(l.coder, l.p.qBits, s, y);
  }

  /** Without q bits every frame has an impostor: other points, decoded to the same bits. */
  lemma Impostor(l: Link, s: State, v0: seq<bool>, bits: seq<bool>) returns (w: seq<Slot>)
    requires Linked(l) && l.p.qBits == 0 && |v0| == 4 && s.rotation < 4 && Parse(l.p, bits).Some?
    ensures |w| == 4 && Encode(l, s, v0, bits).Some? && w != Encode(l, s, v0, bits).value.1
    ensures Decode(l, s, w, |bits| == l.p.frameBits).1 == Some(bits)
  {
    EncodesParsed(l, s, v0, bits);
    CellsForFaithful(l, bits, v0);
    var cells := CellsFor(l, bits, v0);
    var last := cells[3];
    LastRing(l, bits, v0);
    var other := last.(b := last.b + 256);
    OtherFaithful(last);
    var changed := cells[3 := other];
    w := SendAll(Sender(l.coder), s, changed).1;
    CellsSentTaken(l.coder, 0, s, cells);
    CellsSentTaken(l.coder, 0, s, changed);
    ReadAlike(cells, changed);
    assert changed[3] != cells[3];
  }

  /** Without q bits the ring is the index modulo 256. */
  lemma OtherFaithful(c: Cell)
    requires Faithful(0, c) && c.b < MAX_RINGS
    ensures Faithful(0, c.(b := c.b + 256))
  {
  }

  lemma ReadAlike(cells: seq<Cell>, changed: seq<Cell>)
    requires |cells| == |changed| == 4
    requires forall j :: 0 <= j < 4 ==> changed[j] == cells[j].(a := changed[j].a, b := changed[j].b)
    ensures RingsRead(changed) == RingsRead(cells) && GroupsRead(changed) == GroupsRead(cells)
  {
  }

  lemma LastRing(l: Link, bits: seq<bool>, v0: seq<bool>)
    requires Linked(l) && l.p.qBits == 0 && |v0| == 4 && Parse(l.p, bits).Some?
    ensures CellsFor(l, bits, v0)[3].b < MAX_RINGS
  {
    var x := Parse(l.p, bits).value;
    assert Maps(l.shells, l.p.shellBits, l.rings, x.shell);
    assert Holding(x.groups[3], 0);
  }

  // ---- Quarter turns --------------------------------------------------------------------------

  function TurnedSlots(w: seq<Slot>): (r: seq<Slot>)
    ensures |r| == |w| && forall i :: 0 <= i < |w| ==> r[i] == TurnedSlot(w[i])
  {
    if w == [] then [] else TurnedSlots(w[..|w| - 1]) + [TurnedSlot(w[|w| - 1])]
  }

  lemma {:induction false} CellsTurn(k: Coder, turn: V34Trellis.Cells -> V34Trellis.Cells, s: State, cells: seq<Cell>)
    requires Recognises(k) && Turnable(k, turn) && InRange(cells)
    ensures var (t, w) := SendAll(Sender(k), s, cells);
      SendAll(Sender(k), Turned(turn, s), cells) == (Turned(turn, t), TurnedSlots(w))
  {
    if cells != [] {
      var n := |cells| - 1;
      CellsTurn(k, turn, s, cells[..n]);
      var (t, w) := SendAll(Sender(k), s, cells[..n]);
      SendTurns(k, turn, t, cells[n]);
      var slot := Send(k, t, cells[n]).1;
      assert (w + [slot])[..n] == w;
    }
  }

  /** Turned by a quarter: the points, or the state. */
  function TurnedArrival(a: Arrival): Arrival {
    Arrival(TurnedSlots(a.w), a.high)
  }

  lemma FrameTurns(l: Link, turn: V34Trellis.Cells -> V34Trellis.Cells, s: State, f: Frame)
    requires Turnable(l.coder, turn) && Sendable(l, f)
    ensures var (next, a) := SendFrame(l, s, f);
      SendFrame(l, Turned(turn, s), f) == (Turned(turn, next), TurnedArrival(a))
  {
    EncodesParsed(l, s, f.v0, f.bits);
    EncodesParsed(l, Turned(turn, s), f.v0, f.bits);
    CellsForFaithful(l, f.bits, f.v0);
    CellsTurn(l.coder, turn, s, CellsFor(l, f.bits, f.v0));
  }

  /** Turning every point of a run of frames gives the run an encoder sends that started from
      the turned state. */
  lemma {:induction false} RunTurns(l: Link, turn: V34Trellis.Cells -> V34Trellis.Cells, s: State, frames: seq<Frame>)
    requires Turnable(l.coder, turn) && s.rotation < 4 && forall i :: 0 <= i < |frames| ==> Sendable(l, frames[i])
    ensures var send := (u: State, f: Frame) => SendFrame(l, u, f);
      var (t, sent) := SendAll(send, s, frames);
      var (t', sent') := SendAll(send, Turned(turn, s), frames);
      t' == Turned(turn, t) && |sent'| == |sent| && forall i :: 0 <= i < |sent| ==> sent'[i] == TurnedArrival(sent[i])
  {
    if frames != [] {
      var send := (u: State, f: Frame) => SendFrame(l, u, f);
      var n := |frames| - 1;
      RunTurns(l, turn, s, frames[..n]);
      FrameTurns(l, turn, SendAll(send, s, frames[..n]).0, frames[n]);
    }
  }

  /** A quarter turn of the carrier is invisible: a decoder in the turned state reads the same
      bits from the turned points. */
  lemma RunTurned(l: Link, turn: V34Trellis.Cells -> V34Trellis.Cells, s: State, frames: seq<Frame>,
                  turned: seq<Arrival>)
    requires Turnable(l.coder, turn) && s.rotation < 4 && forall i :: 0 <= i < |frames| ==> Sendable(l, frames[i])
    requires var sent := SendAll((u: State, f: Frame) => SendFrame(l, u, f), s, frames).1;
      |turned| == |sent| && forall i :: 0 <= i < |sent| ==> turned[i] == TurnedArrival(sent[i])
    ensures var out := SendAll((u: State, a: Arrival) => TakeFrame(l, u, a), Turned(turn, s), turned).1;
      |out| == |frames| && forall i :: 0 <= i < |frames| ==> out[i] == Some(frames[i].bits)
  {
    RunTurns(l, turn, s, frames);
    RunRoundTrip(l, Turned(turn, s), frames);
    assert turned == SendAll((u: State, f: Frame) => SendFrame(l, u, f), Turned(turn, s), frames).1;
  }

  /** That holds of the encoders and decoders of the source, with each of the three trellis codes. */
  lemma CarrierTurned(kind: V34Trellis.Kind, c: seq<Point>, p: Parameters, expanded: bool, s: State,
                      frames: seq<Frame>, turned: seq<Arrival>)
    requires Constellation(c) && Parameterised(p) && s.rotation < 4
    requires forall i :: 0 <= i < |frames| ==> Sendable(LinkOf(kind, c, p, expanded), frames[i])
    requires var l := LinkOf(kind, c, p, expanded);
      var sent := SendAll((u: State, f: Frame) => SendFrame(l, u, f), s, frames).1;
      |turned| == |sent| && forall i :: 0 <= i < |sent| ==> turned[i] == TurnedArrival(sent[i])
    ensures var l := LinkOf(kind, c, p, expanded);
      var out := SendAll((u: State, a: Arrival) => TakeFrame(l, u, a), Turned(Turning(kind), s), turned).1;
      |out| == |frames| && forall i :: 0 <= i < |frames| ==> out[i] == Some(frames[i].bits)
  {
    CodersTurnable(kind, c);
    LinkOfLinked(kind, c, p, expanded);
    RunTurned(LinkOf(kind, c, p, expanded), Turning(kind), s, frames, turned);
  }
}
