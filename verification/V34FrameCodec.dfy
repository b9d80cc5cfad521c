/** The loops that parse, map and decode mapping frames, and the objects whose trellis and
    rotation they update (src/v34_mapper.c, src/v34_data_mapper.c, src/v34_trellis.c,
    src/v34_data_decoder.c), proved to compute `V34Frame.Encode` and `V34Frame.Decode`. */
module V34FrameCodec {
  import opened Wrappers
  import opened Bits
  import opened Lockstep
  import opened ShellParams
  import ShellCodec
  import ShellMapper
  import opened V34Points
  import opened V34Trellis
  import opened V34Parse
  import opened V34Interval
  import opened V34Frame
  import V34RoundTrip

  // ---- Parsing and emitting ---------------------------------------------------------------

  lemma LargeReads(bits: seq<bool>, q: nat, at: nat, j: nat)
    requires at == LargeSize(q, j) && at + Width(q) <= |bits|
    ensures LargeGroupsOf(bits[..at + Width(q)], q, j + 1)
         == LargeGroupsOf(bits[..at], q, j) + [LargeGroupOf(bits[at..at + Width(q)], q)]
  {
    assert bits[..at + Width(q)] == bits[..at] + bits[at..at + Width(q)];
    LargeNext(q, j, bits[..at], bits[at..at + Width(q)]);
  }

  lemma SmallReads(bits: seq<bool>, full: nat, at: nat, j: nat)
    requires at == SmallSize(full, j) && SmallSize(full, j + 1) <= |bits|
    ensures SmallGroupsOf(bits[..SmallSize(full, j + 1)], full, j + 1)
         == SmallGroupsOf(bits[..at], full, j) + [SmallGroupOf(bits[at..SmallSize(full, j + 1)], j < full)]
  {
    var to' := SmallSize(full, j + 1);
    assert bits[..to'] == bits[..at] + bits[at..to'];
    SmallNext(full, j, bits[..at], bits[at..to']);
  }

  lemma {:induction false} SmallSizeGrows(full: nat, j: nat, k: nat)
    requires j <= k
    ensures SmallSize(full, j) <= SmallSize(full, k)
  {
    if j < k {
      SmallSizeGrows(full, j, k - 1);
    }
  }

  lemma {:induction false} LargeSizeGrows(q: nat, j: nat, k: nat)
    requires j <= k
    ensures LargeSize(q, j) <= LargeSize(q, k)
  {
    if j < k {
      LargeSizeGrows(q, j, k - 1);
    }
  }

  lemma SmallRead(bits: seq<bool>, at: nat, full: bool)
    requires at + (if full then 3 else 2) <= |bits|
    ensures SmallGroupOf(bits[at..at + if full then 3 else 2], full)
         == Group(bits[at], bits[at + 1], full && bits[at + 2], [], [])
  {
  }

  method ParseSmallGroups(bits: seq<bool>, fullGroups: nat) returns (groups: seq<Group>)
    requires |bits| == SmallSize(fullGroups, 4)
    ensures groups == SmallGroupsOf(bits, fullGroups, 4)
  {
    var offset := 0;
    groups := [];
    for j := 0 to 4
      invariant offset == SmallSize(fullGroups, j) <= |bits|
      invariant groups == SmallGroupsOf(bits[..offset], fullGroups, j)
    {
      SmallSizeGrows(fullGroups, j + 1, 4);
      SmallReads(bits, fullGroups, offset, j);
      SmallRead(bits, offset, j < fullGroups);
      var g := Group(bits[offset], bits[offset + 1], false, [], []);
      offset := offset + 2;
      if j < fullGroups {
        g := g.(i3 := bits[offset]);
        offset := offset + 1;
      }
      groups := groups + [g];
    }
    assert bits[..offset] == bits;
  }

  method ParseSmall(bits: seq<bool>) returns (r: Option<seq<Group>>)
    ensures r.Some? <==> FullGroups(|bits|).Some?
    ensures r.Some? ==> var full := FullGroups(|bits|).value;
      |bits| == SmallSize(full, 4) && r.value == SmallGroupsOf(bits, full, 4)
  {
    FourSizes(0);
    var fullGroups := 0;
    if |bits| == 8 {
      fullGroups := 0;
    } else if |bits| == 9 {
      fullGroups := 1;
    } else if |bits| == 11 {
      fullGroups := 3;
    } else if |bits| == 12 {
      fullGroups := 4;
    } else {
      return None;
    }
    var groups := ParseSmallGroups(bits, fullGroups);
    return Some(groups);
  }

  /** v34_parse_mapping_frame. */
  method ParseFrame(p: Parameters, bits: seq<bool>) returns (r: Option<Parsed>)
    requires Parameterised(p)
    ensures r == Parse(p, bits)
  {
    if |bits| != p.frameBits && |bits| + 1 != p.frameBits {
      return None;
    }
    FourSizes(p.qBits);
    FourSizes(0);
    if p.frameBits <= 12 {
      var small := ParseSmall(bits);
      if small.None? {
        return None;
      }
      return Some(Parsed([], small.value));
    }
    var low := |bits| + 1 == p.frameBits;
    var s := if low then p.shellBits - 1 else p.shellBits;
    var shell := bits[..s];
    if low {
      shell := shell + [false];
    }
    var groups := ParseLargeGroups(bits[s..], p.qBits);
    assert shell == bits[..s] + if low then [false] else [];
    return Some(Parsed(shell, groups));
  }

  method ParseLargeGroups(bits: seq<bool>, q: nat) returns (groups: seq<Group>)
    requires |bits| == LargeSize(q, 4)
    ensures groups == LargeGroupsOf(bits, q, 4)
  {
    var offset := 0;
    groups := [];
    for j := 0 to 4
      invariant offset == LargeSize(q, j) <= |bits|
      invariant groups == LargeGroupsOf(bits[..offset], q, j)
    {
      LargeSizeGrows(q, j + 1, 4);
      LargeReads(bits, q, offset, j);
      var w := bits[offset..offset + Width(q)];
      groups := groups + [Group(w[0], w[1], w[2], w[3..3 + q], w[3 + q..])];
      offset := offset + Width(q);
    }
    assert bits[..offset] == bits;
  }

  /** emit_large. */
  method EmitLarge(p: Parameters, x: Parsed, high: bool) returns (r: Option<seq<bool>>)
    requires Parameterised(p) && p.frameBits > 12 && Shaped(p, x)
    ensures r == Emit(p, x, high)
  {
    if !high && x.shell[p.shellBits - 1] {
      return None;
    }
    var bits := x.shell[..if high then p.shellBits else p.shellBits - 1];
    ghost var shell := bits;
    for j := 0 to 4
      invariant bits == shell + LargeGroups(x.groups[..j])
    {
      var g := x.groups[j];
      assert x.groups[..j + 1] == x.groups[..j] + [g];
      LargeSnoc(x.groups[..j], g, LargeGroups(x.groups[..j]), LargeGroup(g));
      Regroup(shell, LargeGroups(x.groups[..j]), LargeGroup(g));
      bits := bits + ([g.i1, g.i2, g.i3] + (g.qa + g.qb));
    }
    assert x.groups[..4] == x.groups;
    return Some(bits);
  }

  /** A short group cannot carry a third bit. */
  ghost predicate NoThird(x: seq<Group>, fullGroups: nat) {
    forall j :: 0 <= j < |x| && j >= fullGroups ==> !x[j].i3
  }

  method EmitSmallGroups(x: seq<Group>, fullGroups: nat) returns (r: Option<seq<bool>>)
    ensures r == if NoThird(x, fullGroups) then Some(SmallGroups(x, fullGroups)) else None
  {
    var bits: seq<bool> := [];
    for j := 0 to |x|
      invariant bits == SmallGroups(x[..j], fullGroups) && NoThird(x[..j], fullGroups)
    {
      var g := x[j];
      ghost var head := x[..j];
      assert x[..j + 1] == head + [g];
      SmallSnoc(head, g, fullGroups, bits, SmallGroup(g, j < fullGroups));
      if j < fullGroups {
        bits := bits + [g.i1, g.i2, g.i3];
      } else if g.i3 {
        return None;
      } else {
        bits := bits + [g.i1, g.i2];
      }
    }
    assert x[..|x|] == x;
    return Some(bits);
  }

  /** emit_small. */
  method EmitSmall(p: Parameters, x: Parsed, high: bool) returns (r: Option<seq<bool>>)
    requires Parameterised(p) && p.frameBits <= 12 && Shaped(p, x)
    ensures r == Emit(p, x, high)
  {
    var transmitted := if high then p.frameBits else p.frameBits - 1;
    var full := FullGroups(transmitted);
    if full.None? {
      return None;
    }
    r := EmitSmallGroups(x.groups, full.value);
  }

  // ---- What the link's functions are ---------------------------------------------------------

  ghost predicate RingsAt(f: Shells, p: Parameters, expanded: bool, bits: seq<bool>) {
    |bits| == p.shellBits ==> f.toRings(bits) == ShellMapper.Map(p, bits, expanded)
  }

  ghost predicate BitsAt(f: Shells, p: Parameters, expanded: bool, rings: seq<nat>) {
    |rings| == 8 ==> f.toBits(rings) == ShellMapper.Unmap(p, rings, expanded)
  }

  /** What each end is set up with, and the link that stands for it. */
  ghost predicate Ends(l: Link, kind: Kind, c: seq<Point>, p: Parameters, expanded: bool) {
    && Linked(l) && l.p == p && Codes(l.coder, kind, c)
    && (forall bits :: RingsAt(l.shells, p, expanded, bits))
    && (forall rings :: BitsAt(l.shells, p, expanded, rings))
  }

  lemma LinkEnds(kind: Kind, c: seq<Point>, p: Parameters, expanded: bool)
    requires Constellation(c) && Parameterised(p)
    ensures Ends(LinkOf(kind, c, p, expanded), kind, c, p, expanded)
  {
    LinkOfLinked(kind, c, p, expanded);
    var l := LinkOf(kind, c, p, expanded);
    var k, f := l.coder, l.shells;
    assert forall s, first, second :: CodesAt(k, kind, s, first, second);
    assert forall index: nat, turns: nat :: PlacesAt(k, c, index, turns);
    assert forall q :: LooksAt(k, c, q);
    assert forall bits :: RingsAt(f, p, expanded, bits);
    assert forall rings :: BitsAt(f, p, expanded, rings);
  }

  lemma LookIs(c: seq<Point>, p: Point, r: Option<(nat, nat)>)
    requires Constellation(c)
    requires r.Some? ==> Located(c, p, r.value.0, r.value.1)
    requires r.None? ==> forall turn: nat, index: nat :: !Located(c, p, turn, index)
    ensures Look(c, p) == match r case None => None case Some((turn, index)) => Some(Seen(turn, index))
  {
    var found := Look(c, p);
    if r.Some? && found.Some? {
      LocatedUnique(c, p, r.value.0, r.value.1, found.value.turn, found.value.index);
    }
  }

  // ---- The encoder ----------------------------------------------------------------------------

  /** What v34_map_parsed_frame leaves for one interval. */
  datatype Mapped = Mapped(z: nat, i1: bool, first: Point, second: Point)

  /** The index a ring and its further bits make. */
  method IndexFor(ring: nat, bits: seq<bool>) returns (index: nat)
    ensures index == IndexOf(ring, bits)
  {
    index := 0;
    for bit := 0 to |bits|
      invariant index == FromBits(bits[..bit])
    {
      FromBitsSnoc(bits[..bit], bits[bit]);
      assert bits[..bit + 1] == bits[..bit] + [bits[bit]];
      if bits[bit] {
        index := index + Pow2(bit);
      }
    }
    assert bits[..|bits|] == bits;
    IndexValue(ring, bits);
    index := index + ring * Pow2(|bits|);
  }

  lemma MapsRings(l: Link, x: Parsed, bits: seq<bool>, v0: seq<bool>)
    requires Linked(l) && Parse(l.p, bits) == Some(x) && |v0| == 4
    ensures |x.shell| == l.p.shellBits && l.shells.toRings(x.shell).Some? && |l.shells.toRings(x.shell).value| == 8
    ensures var sent := V34RoundTrip.CellsFor(l, bits, v0);
      sent == CellsOf(x.groups, l.shells.toRings(x.shell).value, v0) && InRange(sent)
  {
    assert Maps(l.shells, l.p.shellBits, l.rings, x.shell);
    V34RoundTrip.CellsForFaithful(l, bits, v0);
  }

  lemma EachCell(x: seq<Group>, rings: seq<nat>, v0: seq<bool>)
    requires |x| == 4 && |rings| == 8 && |v0| == 4
    ensures var sent := CellsOf(x, rings, v0);
      forall j :: 0 <= j < 4 ==> sent[j] == CellOf(x[j], rings[2 * j], rings[2 * j + 1], v0[j])
  {
  }

  /** What mapping leaves for interval `j` of these cells, from state `s` on. */
  ghost predicate MappedFor(k: Coder, points: seq<Point>, s: State, sent: seq<Cell>, j: nat, m: Mapped)
    requires j < |sent|
  {
    && sent[j].a < |points| && sent[j].b < |points|
    && m == Mapped(TurnOf(SendAll(Sender(k), s, sent[..j]).0, sent[j].group), sent[j].group.i1, points[sent[j].a],
                   points[sent[j].b])
  }

  ghost predicate AllMapped(k: Coder, points: seq<Point>, s: State, sent: seq<Cell>, mapped: seq<Mapped>) {
    && |mapped| <= |sent|
    && forall j {:trigger MappedFor(k, points, s, sent, j, mapped[j])} :: 0 <= j < |mapped| ==>
         MappedFor(k, points, s, sent, j, mapped[j])
  }

  lemma AllMappedOn(k: Coder, points: seq<Point>, s: State, sent: seq<Cell>, mapped: seq<Mapped>, m: Mapped)
    requires AllMapped(k, points, s, sent, mapped) && |mapped| < |sent| && MappedFor(k, points, s, sent, |mapped|, m)
    ensures AllMapped(k, points, s, sent, mapped + [m])
  {
    forall j | 0 <= j <= |mapped|
      ensures MappedFor(k, points, s, sent, j, (mapped + [m])[j])
    {
      if j < |mapped| {
        assert MappedFor(k, points, s, sent, j, mapped[j]);
      }
    }
  }

  lemma RotationOn(k: Coder, s: State, sent: seq<Cell>, j: nat)
    requires j < |sent|
    ensures SendAll(Sender(k), s, sent[..j + 1]).0.rotation == TurnOf(SendAll(Sender(k), s, sent[..j]).0, sent[j].group)
  {
    SendAt(Sender(k), s, sent, j);
  }

  /** An interval of a frame: the state it starts from, what it carries, and what that gives. */
  datatype Passage = Passage(from: State, c: Cell, next: State, w: Slot)

  /** `m` is what mapping leaves of this interval. */
  ghost predicate StepOf(k: Coder, points: seq<Point>, x: Passage, m: Mapped) {
    && x.c.a < |points| && x.c.b < |points| && Send(k, x.from, x.c) == (x.next, x.w)
    && m == Mapped(TurnOf(x.from, x.c.group), x.c.group.i1, points[x.c.a], points[x.c.b])
  }

  ghost predicate StepsOf(k: Coder, points: seq<Point>, steps: seq<Passage>, mapped: seq<Mapped>) {
    && |steps| == |mapped|
    && (forall j {:trigger StepOf(k, points, steps[j], mapped[j])} ::
          0 <= j < |steps| ==> StepOf(k, points, steps[j], mapped[j]))
    && (forall j :: 0 < j < |steps| ==> steps[j].from == steps[j - 1].next)
  }

  /** The slots of four intervals. */
  ghost function SlotsOf(steps: seq<Passage>): (w: seq<Slot>)
    requires |steps| == 4
    ensures |w| == 4 && forall j :: 0 <= j < 4 ==> w[j] == steps[j].w
  {
    [steps[0].w, steps[1].w, steps[2].w, steps[3].w]
  }

  /** The link's way of sending frames. */
  ghost predicate SendsFrame(send: (State, V34RoundTrip.Frame) -> (State, V34RoundTrip.Arrival), l: Link, s: State,
                             f: V34RoundTrip.Frame) {
    send(s, f) == V34RoundTrip.SendFrame(l, s, f)
  }

  ghost predicate Sends(send: (State, V34RoundTrip.Frame) -> (State, V34RoundTrip.Arrival), l: Link) {
    forall s, f :: SendsFrame(send, l, s, f)
  }

  lemma StepFits(k: Coder, points: seq<Point>, base: State, sent: seq<Cell>, j: nat, m: Mapped) returns (x: Passage)
    requires j < |sent| && MappedFor(k, points, base, sent, j, m)
    ensures StepOf(k, points, x, m) && x.c == sent[j] && x.from == SendAll(Sender(k), base, sent[..j]).0
    ensures x.next == SendAll(Sender(k), base, sent[..j + 1]).0 && x.w == SendAll(Sender(k), base, sent).1[j]
  {
    SendAt(Sender(k), base, sent, j);
    var t := SendAll(Sender(k), base, sent[..j]).0;
    var (next, w) := Send(k, t, sent[j]);
    x := Passage(t, sent[j], next, w);
  }

  lemma StepsSnoc(k: Coder, points: seq<Point>, steps: seq<Passage>, mapped: seq<Mapped>, x: Passage, m: Mapped)
    requires StepsOf(k, points, steps, mapped) && StepOf(k, points, x, m)
    requires steps != [] ==> x.from == steps[|steps| - 1].next
    ensures StepsOf(k, points, steps + [x], mapped + [m])
  {
    forall j | 0 <= j <= |steps|
      ensures StepOf(k, points, (steps + [x])[j], (mapped + [m])[j])
    {
      if j < |steps| {
        assert StepOf(k, points, steps[j], mapped[j]);
      }
    }
  }

  /** These steps are the sender's, cell by cell. */
  ghost predicate Covers(k: Coder, base: State, sent: seq<Cell>, steps: seq<Passage>) {
    && |steps| <= |sent| && (steps != [] ==> steps[0].from == base)
    && SendAll(Sender(k), base, sent[..|steps|]).0 == (if steps == [] then base else steps[|steps| - 1].next)
    && forall j :: 0 <= j < |steps| ==> steps[j].w == SendAll(Sender(k), base, sent).1[j] && steps[j].c == sent[j]
  }

  lemma CoversOn(k: Coder, base: State, sent: seq<Cell>, steps: seq<Passage>, x: Passage)
    requires Covers(k, base, sent, steps) && |steps| < |sent| && x.c == sent[|steps|]
    requires x.from == SendAll(Sender(k), base, sent[..|steps|]).0
    requires x.next == SendAll(Sender(k), base, sent[..|steps| + 1]).0
    requires x.w == SendAll(Sender(k), base, sent).1[|steps|]
    ensures Covers(k, base, sent, steps + [x])
  {
    var more := steps + [x];
    assert |more| == |steps| + 1 && more[|steps|] == x;
    assert forall j :: 0 <= j < |steps| ==> more[j] == steps[j];
  }

  lemma {:induction false} StepsFor(k: Coder, points: seq<Point>, base: State, sent: seq<Cell>, mapped: seq<Mapped>)
    returns (steps: seq<Passage>)
    requires AllMapped(k, points, base, sent, mapped)
    ensures StepsOf(k, points, steps, mapped) && Covers(k, base, sent, steps)
  {
    if mapped == [] {
      steps := [];
    } else {
      var n := |mapped| - 1;
      var rest := mapped[..n];
      assert rest + [mapped[n]] == mapped;
      forall j | 0 <= j < n
        ensures MappedFor(k, points, base, sent, j, rest[j])
      {
        assert MappedFor(k, points, base, sent, j, mapped[j]);
      }
      assert MappedFor(k, points, base, sent, n, mapped[n]);
      var before := StepsFor(k, points, base, sent, rest);
      var x := StepFits(k, points, base, sent, n, mapped[n]);
      StepsSnoc(k, points, before, rest, x, mapped[n]);
      CoversOn(k, base, sent, before, x);
      steps := before + [x];
    }
  }

  lemma FrameSteps(send: (State, V34RoundTrip.Frame) -> (State, V34RoundTrip.Arrival), l: Link, s: State,
                   f: V34RoundTrip.Frame, sent: seq<Cell>, steps: seq<Passage>)
    requires Sends(send, l) && s.rotation < 4 && V34RoundTrip.Sendable(l, f) && |steps| == 4
    requires sent == V34RoundTrip.CellsFor(l, f.bits, f.v0) && SendAll(Sender(l.coder), s, sent).0 == steps[3].next
    requires forall j :: 0 <= j < 4 ==> steps[j].w == SendAll(Sender(l.coder), s, sent).1[j] && steps[j].c == sent[j]
    ensures send(s, f).0 == steps[3].next && send(s, f).1.w == SlotsOf(steps)
    ensures |f.v0| == 4 && forall j :: 0 <= j < 4 ==> steps[j].c.v0 == f.v0[j]
  {
    assert SendsFrame(send, l, s, f);
    V34RoundTrip.FrameSent(l, s, f);
  }

  class FrameEncoder {
    const kind: Kind
    const points: seq<Point>
    const p: Parameters
    const expanded: bool
    ghost const link: Link
    var cells: Cells
    var rotation: nat

    ghost predicate Valid()
      reads `rotation
    {
      Ends(link, kind, points, p, expanded) && rotation < 4
    }

    ghost function Now(): State
      reads this
    {
      State(cells, rotation)
    }

    constructor (kind: Kind, points: seq<Point>, p: Parameters, expanded: bool)
      requires Constellation(points) && Parameterised(p)
      ensures Valid() && Now() == State(ZERO_STATE, 0) && link == LinkOf(kind, points, p, expanded)
    {
      this.kind, this.points, this.p, this.expanded := kind, points, p, expanded;
      link := LinkOf(kind, points, p, expanded);
      cells, rotation := ZERO_STATE, 0;
      LinkEnds(kind, points, p, expanded);
    }

    /** v34_differential_put. */
    method DifferentialPut(i2: bool, i3: bool) returns (z: nat)
      modifies `rotation
      ensures z == rotation == (old(rotation) + Bit(i2) + 2 * Bit(i3)) % 4
    {
      rotation := (rotation + Bit(i2) + 2 * Bit(i3)) % 4;
      z := rotation;
    }

    /** v34_encode_4d_zero_precoder. */
    method Encode4d(firstQuarter: Point, secondQuarter: Point, z: nat, i1: bool, v0: bool)
      returns (first: Point, second: Point)
      modifies `cells
      ensures first == RotateClockwise(firstQuarter, z)
      ensures second == RotateClockwise(secondQuarter, z + 2 * Bit(i1) + Bit(Xor(Output(kind, old(cells)), v0)))
      ensures cells == Advance(kind, old(cells), first, second)
    {
      first := RotateClockwise(firstQuarter, z);
      var u0 := Xor(Output(kind, cells), v0);
      second := RotateClockwise(secondQuarter, z + 2 * Bit(i1) + Bit(u0));
      var y := PairBits(SubsetLabel(first), SubsetLabel(second));
      cells := Step(kind, cells, y);
    }

    /** One interval of v34_map_parsed_frame. */
    method MapInterval(g: Group, ra: nat, rb: nat, ghost t: State, ghost c: Cell) returns (m: Mapped)
      requires c == CellOf(g, ra, rb, c.v0) && c.a < |points| && c.b < |points| && rotation == t.rotation
      modifies `rotation
      ensures m == Mapped(TurnOf(t, g), g.i1, points[c.a], points[c.b]) && rotation == TurnOf(t, g)
    {
      var z := DifferentialPut(g.i2, g.i3);
      var a := IndexFor(ra, g.qa);
      var b := IndexFor(rb, g.qb);
      m := Mapped(z, g.i1, points[a], points[b]);
    }

    /** Its loop over the four intervals. */
    method MapIntervals(x: seq<Group>, rings: seq<nat>, ghost k: Coder, ghost sent: seq<Cell>)
      returns (mapped: seq<Mapped>)
      requires |x| == 4 && |rings| == 8 && |sent| == 4 && |points| == QUARTER_POINTS && InRange(sent)
      requires forall j :: 0 <= j < 4 ==> sent[j] == CellOf(x[j], rings[2 * j], rings[2 * j + 1], sent[j].v0)
      modifies `rotation
      ensures |mapped| == 4 && rotation == SendAll(Sender(k), old(Now()), sent).0.rotation
      ensures AllMapped(k, points, old(Now()), sent, mapped)
    {
      mapped := [];
      ghost var s := Now();
      for j := 0 to 4
        invariant |mapped| == j && rotation == SendAll(Sender(k), s, sent[..j]).0.rotation
        invariant AllMapped(k, points, s, sent, mapped)
      {
        ghost var t := SendAll(Sender(k), s, sent[..j]).0;
        RotationOn(k, s, sent, j);
        var m := MapInterval(x[j], rings[2 * j], rings[2 * j + 1], t, sent[j]);
        AllMappedOn(k, points, s, sent, mapped, m);
        mapped := mapped + [m];
      }
      assert sent[..4] == sent;
    }

    /** v34_map_parsed_frame, for a frame the parser has accepted: it does not fail. */
    method MapParsedFrame(x: Parsed, ghost bits: seq<bool>, ghost v0: seq<bool>) returns (mapped: seq<Mapped>)
      requires Valid() && Parse(p, bits) == Some(x) && |v0| == 4
      modifies `rotation
      ensures Valid() && |mapped| == 4
      ensures rotation == SendAll(Sender(link.coder), old(Now()), V34RoundTrip.CellsFor(link, bits, v0)).0.rotation
      ensures AllMapped(link.coder, points, old(Now()), V34RoundTrip.CellsFor(link, bits, v0), mapped)
    {
      ghost var sent := V34RoundTrip.CellsFor(link, bits, v0);
      MapsRings(link, x, bits, v0);
      var shelled := ShellCodec.ShellMap(p, x.shell, expanded);
      assert RingsAt(link.shells, p, expanded, x.shell);
      EachCell(x.groups, shelled.value, v0);
      mapped := MapIntervals(x.groups, shelled.value, link.coder, sent);
      V34RoundTrip.CellsForFaithful(link, bits, v0);
      V34RoundTrip.CellsSentTaken(link.coder, p.qBits, old(Now()), sent);
    }

    /** Parsing and mapping a frame the parser accepts. */
    method MapFrame(bits: seq<bool>, ghost f: V34RoundTrip.Frame,
                    ghost send: (State, V34RoundTrip.Frame) -> (State, V34RoundTrip.Arrival))
      returns (ok: bool, mapped: seq<Mapped>, ghost steps: seq<Passage>)
      requires Valid() && Sends(send, link) && bits == f.bits && V34RoundTrip.Sendable(link, f)
      modifies `rotation
      ensures ok && Valid() && StepsOf(link.coder, points, steps, mapped) && |steps| == 4
      ensures steps[0].from == old(Now()) && rotation == steps[3].next.rotation
      ensures send(old(Now()), f).0 == steps[3].next && send(old(Now()), f).1.w == SlotsOf(steps)
      ensures |f.v0| == 4 && forall j :: 0 <= j < 4 ==> steps[j].c.v0 == f.v0[j]
    {
      var parsed := ParseFrame(p, bits);
      if parsed.None? {
        return false, [], [];
      }
      ghost var s := Now();
      mapped := MapParsedFrame(parsed.value, bits, f.v0);
      ghost var sent := V34RoundTrip.CellsFor(link, bits, f.v0);
      steps := StepsFor(link.coder, points, s, sent, mapped);
      assert sent[..4] == sent;
      FrameSteps(send, link, s, f, sent, steps);
      ok := true;
    }

    /** One interval of the stream: mapped points through the 4D encoder. */
    method EncodeInterval(m: Mapped, v0: bool, ghost k: Coder, ghost x: Passage) returns (w: Slot)
      requires Codes(k, kind, points) && StepOf(k, points, x, m) && cells == x.from.cells && x.c.v0 == v0
      modifies `cells
      ensures cells == x.next.cells && w == x.w
    {
      var first, second := Encode4d(m.first, m.second, m.z, m.i1, v0);
      w := Slot(first, second, v0);
      assert CodesAt(k, kind, x.from.cells, first, second);
      assert PlacesAt(k, points, x.c.a, TurnOf(x.from, x.c.group));
      assert PlacesAt(k, points, x.c.b, SecondTurn(k, x.from, x.c.group, v0));
    }
  }

  // ---- The decoder ----------------------------------------------------------------------------

  /** `index` shifted right. */
  method ShiftRight(index: nat, q: nat) returns (r: nat)
    ensures r == High(index, q)
  {
    r := index;
    for bit := 0 to q
      invariant High(r, q - bit) == High(index, q)
    {
      r := r / 2;
    }
  }

  class FrameDecoder {
    const kind: Kind
    const points: seq<Point>
    const p: Parameters
    const expanded: bool
    ghost const link: Link
    var cells: Cells
    var rotation: nat

    ghost predicate Valid()
      reads `rotation
    {
      Ends(link, kind, points, p, expanded) && Constellation(points) && rotation < 4
    }

    ghost function Now(): State
      reads this
    {
      State(cells, rotation)
    }

    /** v34_data_decoder_init. */
    constructor (kind: Kind, points: seq<Point>, p: Parameters, expanded: bool)
      requires Constellation(points) && Parameterised(p)
      ensures Valid() && Now() == State(ZERO_STATE, 0) && link == LinkOf(kind, points, p, expanded)
    {
      this.kind, this.points, this.p, this.expanded := kind, points, p, expanded;
      link := LinkOf(kind, points, p, expanded);
      cells, rotation := ZERO_STATE, 0;
      LinkEnds(kind, points, p, expanded);
    }

    method TrellisOutput(ghost k: Coder) returns (output: bool)
      requires Codes(k, kind, points)
      ensures output == k.output(cells)
    {
      output := Output(kind, cells);
      assert CodesAt(k, kind, cells, Point(0, 0), Point(0, 0));
    }

    method TrellisPut(w: Slot, ghost k: Coder)
      requires Codes(k, kind, points)
      modifies `cells
      ensures cells == k.advance(old(cells), w.first, w.second)
    {
      assert CodesAt(k, kind, cells, w.first, w.second);
      cells := Step(kind, cells, PairBits(SubsetLabel(w.first), SubsetLabel(w.second)));
    }

    method Recognise(point: Point, ghost k: Coder) returns (r: Option<Seen>)
      requires Constellation(points) && Codes(k, kind, points)
      ensures r == k.look(point)
    {
      var x := QuarterDecode(points, point);
      LookIs(points, point, x);
      assert LooksAt(k, points, point);
      if x.None? {
        return None;
      }
      return Some(Seen(x.value.0, x.value.1));
    }

    /** The group and rings two recognised points stand for. */
    method ReadCell(v0: bool, delta: nat, x: Seen, y: Seen, ghost k: Coder) returns (c: Cell)
      requires rotation < 4 && x.turn < 4 && delta == Delta(k, Now(), v0, x.turn, y.turn)
      ensures c == CellRead(k, Now(), v0, x, y, p.qBits)
    {
      var differential := (x.turn + 4 - rotation) % 4;
      var ra := ShiftRight(x.index, p.qBits);
      var rb := ShiftRight(y.index, p.qBits);
      var qa := ShellCodec.LowBits(x.index, p.qBits);
      var qb := ShellCodec.LowBits(y.index, p.qBits);
      var g := Group(delta / 2 == 1, differential % 2 == 1, differential / 2 % 2 == 1, qa, qb);
      c := Cell(g, ra % 256, rb % 256, x.index, y.index, v0);
    }

    /** One interval of decode_intervals; on failure nothing has changed. */
    method DecodeInterval(w: Slot) returns (r: Option<Cell>)
      requires Valid()
      modifies this
      ensures Valid()
      ensures match Receive(link.coder, p.qBits, old(Now()), w)
        case None => r.None? && Now() == old(Now())
        case Some((next, c)) => r == Some(c) && Now() == next
    {
      ghost var k := link.coder;
      var output := TrellisOutput(k);
      var u0 := Xor(output, w.v0);
      var x := Recognise(w.first, k);
      var y := Recognise(w.second, k);
      if x.None? || y.None? {
        return None;
      }
      assert Placed(k, w.first) && Placed(k, w.second);
      ReceiveSeen(k, p.qBits, Now(), w, x.value, y.value);
      var delta := (y.value.turn + 4 - x.value.turn - Bit(u0)) % 4;
      if delta != 0 && delta != 2 {
        return None;
      }
      var c := ReadCell(w.v0, delta, x.value, y.value, k);
      rotation := x.value.turn;
      TrellisPut(w, k);
      return Some(c);
    }

    /** decode_intervals, up to the shell mapper. */
    method DecodeIntervals(w: seq<Slot>) returns (ok: bool, read: seq<Cell>)
      requires Valid() && |w| == 4
      modifies this
      ensures Valid()
      ensures TakeAll(Receiver(link.coder, p.qBits), old(Now()), w) == Progress(ok, read, Now())
    {
      ok, read := true, [];
      ghost var take, s := Receiver(link.coder, p.qBits), Now();
      for j := 0 to 4
        invariant Valid() && TakeAll(take, s, w[..j]) == Progress(true, read, Now())
      {
        TakeNextItem(take, s, w, j, read, Now());
        var c := DecodeInterval(w[j]);
        if c.None? {
          ok := false;
          StaysRefused(take, s, w, j + 1);
          return;
        }
        read := read + [c.value];
      }
      assert w[..4] == w;
    }

    /** v34_decode_mapping_frame. */
    method DecodeMappingFrame(w: seq<Slot>, high: bool) returns (bits: Option<seq<bool>>)
      requires Valid() && |w| == 4
      modifies this
      ensures Valid() && (Now(), bits) == Decode(link, old(Now()), w, high)
    {
      var ok, read := DecodeIntervals(w);
      if !ok {
        return None;
      }
      var shell := ShellCodec.ShellUnmap(p, RingsRead(read), expanded);
      assert BitsAt(link.shells, p, expanded, RingsRead(read));
      if shell.None? {
        return None;
      }
      V34RoundTrip.CellsTakenSent(link.coder, p.qBits, old(Now()), w);
      assert Unmaps(link.shells, p.shellBits, RingsRead(read));
      ReadShaped(p, shell.value, read);
      var x := Parsed(shell.value, GroupsRead(read));
      if p.frameBits <= 12 {
        bits := EmitSmall(p, x, high);
      } else {
        bits := EmitLarge(p, x, high);
      }
    }
  }

  lemma ReadShaped(p: Parameters, shell: seq<bool>, read: seq<Cell>)
    requires |shell| == p.shellBits && |read| == 4 && forall j :: 0 <= j < 4 ==> Faithful(p.qBits, read[j])
    ensures Shaped(p, Parsed(shell, GroupsRead(read)))
  {
    var x := GroupsRead(read);
    forall j | 0 <= j < 4
      ensures Holding(x[j], p.qBits)
    {
      assert Faithful(p.qBits, read[j]);
    }
  }

  /** A receiver that has refused an item has refused any run going on from there. */
  lemma {:induction false} StaysRefused<S, B, C>(take: (S, B) -> Option<(S, C)>, s: S, w: seq<B>, n: nat)
    requires n <= |w| && !TakeAll(take, s, w[..n]).ok
    ensures TakeAll(take, s, w) == TakeAll(take, s, w[..n])
  {
    if n == |w| {
      assert w[..n] == w;
    } else {
      var v := w[..|w| - 1];
      assert v[..n] == w[..n];
      StaysRefused(take, s, v, n);
    }
  }
}
