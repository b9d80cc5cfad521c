/** A whole mapping frame of four intervals: encoder and hard decoder (v34_map_parsed_frame
    with v34_encode_4d_zero_precoder, and v34_decode_mapping_frame). */
module V34Frame {
  import opened Wrappers
  import opened Bits
  import opened ShellParams
  import ShellMapper
  import opened Lockstep
  import opened V34Points
  import opened V34Trellis
  import opened V34Parse
  import opened V34Interval

  /** The shell mapper for one ring count, on words of the right length. */
  datatype Shells = Shells(toRings: seq<bool> -> Option<seq<nat>>, toBits: seq<nat> -> Option<seq<bool>>)

  /** What both ends agree on before data flows. */
  datatype Link = Link(coder: Coder, p: Parameters, shells: Shells, rings: nat)

  ghost predicate Maps(f: Shells, k: nat, m: nat, bits: seq<bool>) {
    |bits| == k ==>
      && f.toRings(bits).Some? && |f.toRings(bits).value| == 8
      && (forall i :: 0 <= i < 8 ==> f.toRings(bits).value[i] < m)
      && f.toBits(f.toRings(bits).value) == Some(bits)
  }

  ghost predicate Unmaps(f: Shells, k: nat, s: seq<nat>) {
    f.toBits(s).Some? ==> |s| == 8 && |f.toBits(s).value| == k && f.toRings(f.toBits(s).value) == Some(s)
  }

  ghost predicate Linked(l: Link) {
    && Recognises(l.coder) && Parameterised(l.p)
    && 1 <= l.rings <= MAX_RINGS && l.rings * Pow2(l.p.qBits) <= QUARTER_POINTS
    && (forall bits :: Maps(l.shells, l.p.shellBits, l.rings, bits))
    && (forall s :: Unmaps(l.shells, l.p.shellBits, s))
  }

  ghost function ShellsOf(p: Parameters, expanded: bool): Shells {
    Shells((bits: seq<bool>) => if |bits| == p.shellBits then ShellMapper.Map(p, bits, expanded) else None,
           (s: seq<nat>) => if |s| == 8 then ShellMapper.Unmap(p, s, expanded) else None)
  }

  ghost function LinkOf(kind: Kind, c: seq<Point>, p: Parameters, expanded: bool): Link {
    Link(CoderOf(kind, c), p, ShellsOf(p, expanded), p.Rings(expanded))
  }

  lemma ProductGrows(a: nat, b: nat, d: nat)
    requires a <= b
    ensures a * d <= b * d
  {
  }

  lemma ShellsOfMap(p: Parameters, expanded: bool)
    requires Parameterised(p)
    ensures forall bits :: Maps(ShellsOf(p, expanded), p.shellBits, p.Rings(expanded), bits)
    ensures forall s :: Unmaps(ShellsOf(p, expanded), p.shellBits, s)
  {
    var f := ShellsOf(p, expanded);
    forall bits
      ensures Maps(f, p.shellBits, p.Rings(expanded), bits)
    {
      if |bits| == p.shellBits {
        ShellMapper.EveryWordMaps(p.frameBits, p, bits, expanded);
        ShellMapper.MapUnmap(p, bits, expanded);
      }
    }
    forall s
      ensures Unmaps(f, p.shellBits, s)
    {
      if f.toBits(s).Some? {
        ShellMapper.UnmapMap(p, s, expanded);
      }
    }
  }

  /** Every choice of coder, frame length and shaping is such a link. */
  lemma LinkOfLinked(kind: Kind, c: seq<Point>, p: Parameters, expanded: bool)
    requires Constellation(c) && Parameterised(p)
    ensures Linked(LinkOf(kind, c, p, expanded))
  {
    CoderRecognises(kind, c);
    assert RingsFit(p, true);
    ShellsOfMap(p, expanded);
    ProductGrows(p.minimumRings, p.expandedRings, Pow2(p.qBits));
  }

  // ---- Encoding ----------------------------------------------------------------------------

  function CellOf(g: Group, ra: nat, rb: nat, v0: bool): Cell {
    Cell(g, ra, rb, IndexOf(ra, g.qa), IndexOf(rb, g.qb), v0)
  }

  function CellsOf(x: seq<Group>, rings: seq<nat>, v0: seq<bool>): (cells: seq<Cell>)
    requires |x| == 4 && |rings| == 8 && |v0| == 4
    ensures |cells| == 4
  {
    [CellOf(x[0], rings[0], rings[1], v0[0]), CellOf(x[1], rings[2], rings[3], v0[1]),
     CellOf(x[2], rings[4], rings[5], v0[2]), CellOf(x[3], rings[6], rings[7], v0[3])]
  }

  /** Interval `j` of a frame: its group and inversion bit, and two constellation indices, each a ring of
      the eight, in order, above the group's further bits. */
  lemma CellPlaces(x: seq<Group>, rings: seq<nat>, v0: seq<bool>, q: nat, j: nat)
    requires |x| == 4 && |rings| == 8 && |v0| == 4 && j < 4 && Holding(x[j], q)
    ensures var c := CellsOf(x, rings, v0)[j];
      && c.group == x[j] && c.v0 == v0[j] && c.ra == rings[2 * j] && c.rb == rings[2 * j + 1]
      && c.a == rings[2 * j] * Pow2(q) + FromBits(x[j].qa) && c.b == rings[2 * j + 1] * Pow2(q) + FromBits(x[j].qb)
  {
    IndexValue(rings[2 * j], x[j].qa);
    IndexValue(rings[2 * j + 1], x[j].qb);
  }

  predicate InRange(cells: seq<Cell>) {
    forall j :: 0 <= j < |cells| ==> cells[j].a < QUARTER_POINTS && cells[j].b < QUARTER_POINTS
  }

  function Sender(k: Coder): (State, Cell) -> (State, Slot) {
    (s: State, c: Cell) => Send(k, s, c)
  }

  /** The points of a frame and the encoder's new state. */
  ghost function Encode(l: Link, s: State, v0: seq<bool>, bits: seq<bool>): Option<(State, seq<Slot>)>
    requires |v0| == 4 && Parameterised(l.p)
  {
    match Parse(l.p, bits)
    case None => None
    case Some(x) =>
      match l.shells.toRings(x.shell)
      case None => None
      case Some(rings) =>
        if |rings| == 8 && InRange(CellsOf(x.groups, rings, v0)) then
          Some(SendAll(Sender(l.coder), s, CellsOf(x.groups, rings, v0)))
        else None
  }

  // ---- Decoding ----------------------------------------------------------------------------

  ghost function Receiver(k: Coder, q: nat): (State, Slot) -> Option<(State, Cell)>
    requires Recognises(k)
  {
    (s: State, w: Slot) => if s.rotation < 4 then Receive(k, q, s, w) else None
  }

  function GroupsRead(cells: seq<Cell>): (x: seq<Group>)
    requires |cells| == 4
  {
    [cells[0].group, cells[1].group, cells[2].group, cells[3].group]
  }

  function RingsRead(cells: seq<Cell>): (rings: seq<nat>)
    requires |cells| == 4
  {
    [cells[0].ra, cells[0].rb, cells[1].ra, cells[1].rb, cells[2].ra, cells[2].rb, cells[3].ra, cells[3].rb]
  }

  /** The bits four cells stand for: the shell bits of their rings, and their groups. */
  ghost function Assemble(l: Link, cells: seq<Cell>, high: bool): Option<seq<bool>>
    requires |cells| == 4 && Parameterised(l.p)
  {
    match l.shells.toBits(RingsRead(cells))
    case None => None
    case Some(shell) =>
      var x := Parsed(shell, GroupsRead(cells));
      if Shaped(l.p, x) then Emit(l.p, x, high) else None
  }

  /** The bits, if the points are those of some frame, and the decoder's new state. */
  ghost function Decode(l: Link, s: State, w: seq<Slot>, high: bool): (State, Option<seq<bool>>)
    requires |w| == 4 && Linked(l)
  {
    var r := TakeAll(Receiver(l.coder, l.p.qBits), s, w);
    (r.state, if r.ok then Assemble(l, r.got, high) else None)
  }
}
