/** Splitting a mapping frame's bits into shell bits and four groups, and putting them back
    together (v34_parse_mapping_frame in src/v34_mapper.c; emit_large and emit_small in
    src/v34_data_decoder.c). */
module V34Parse {
  import opened Wrappers
  import opened Bits
  import opened ShellParams

  /** What one four-dimensional interval carries beside its rings. */
  datatype Group = Group(i1: bool, i2: bool, i3: bool, qa: seq<bool>, qb: seq<bool>)

  datatype Parsed = Parsed(shell: seq<bool>, groups: seq<Group>)

  predicate Holding(g: Group, q: nat) {
    |g.qa| == q && |g.qb| == q
  }

  predicate Short(g: Group, full: bool) {
    g.qa == [] && g.qb == [] && (!full ==> !g.i3)
  }

  /** A parsed frame of the shape `p` asks for. */
  predicate Shaped(p: Parameters, x: Parsed) {
    |x.shell| == p.shellBits && |x.groups| == 4
    && forall j :: 0 <= j < 4 ==> Holding(x.groups[j], p.qBits)
  }

  /** The parameters come from the initialiser. */
  ghost predicate Parameterised(p: Parameters) {
    8 <= p.frameBits <= 79 && Sized(p.frameBits, p)
  }

  /** How many of the four groups have a third bit in a short frame. */
  function FullGroups(count: nat): Option<nat> {
    if count == 8 then Some(0) else if count == 9 then Some(1)
    else if count == 11 then Some(3) else if count == 12 then Some(4) else None
  }

  // ---- Emitting ----------------------------------------------------------------------------

  function LargeGroup(g: Group): seq<bool> {
    [g.i1, g.i2, g.i3] + (g.qa + g.qb)
  }

  function SmallGroup(g: Group, full: bool): seq<bool> {
    if full then [g.i1, g.i2, g.i3] else [g.i1, g.i2]
  }

  /** Groups one after another. */
  function LargeGroups(x: seq<Group>): seq<bool> {
    if x == [] then [] else LargeGroups(x[..|x| - 1]) + LargeGroup(x[|x| - 1])
  }

  function SmallGroups(x: seq<Group>, full: nat): seq<bool> {
    if x == [] then [] else SmallGroups(x[..|x| - 1], full) + SmallGroup(x[|x| - 1], |x| - 1 < full)
  }

  function Emit(p: Parameters, x: Parsed, high: bool): Option<seq<bool>>
    requires Shaped(p, x) && p.frameBits > 0 && (p.frameBits > 12 ==> p.shellBits > 0)
  {
    var transmitted := if high then p.frameBits else p.frameBits - 1;
    if p.frameBits <= 12 then
      match FullGroups(transmitted)
      case None => None
      case Some(full) =>
        if forall j :: 0 <= j < 4 && j >= full ==> !x.groups[j].i3 then Some(SmallGroups(x.groups, full)) else None
    else if !high && x.shell[p.shellBits - 1] then None
    else Some(x.shell[..if high then p.shellBits else p.shellBits - 1] + LargeGroups(x.groups))
  }

  // ---- Parsing -----------------------------------------------------------------------------

  function Width(q: nat): nat {
    3 + 2 * q
  }

  function LargeGroupOf(w: seq<bool>, q: nat): (g: Group)
    requires |w| == Width(q)
    ensures |g.qa| == q && |g.qb| == q
  {
    Group(w[0], w[1], w[2], w[3..3 + q], w[3 + q..])
  }

  function SmallGroupOf(w: seq<bool>, full: bool): Group
    requires |w| == if full then 3 else 2
  {
    Group(w[0], w[1], full && w[2], [], [])
  }

  /** Bits in `n` groups. */
  function SmallSize(full: nat, n: nat): nat {
    if n == 0 then 0 else SmallSize(full, n - 1) + if n - 1 < full then 3 else 2
  }

  function LargeSize(q: nat, n: nat): nat {
    if n == 0 then 0 else LargeSize(q, n - 1) + Width(q)
  }

  lemma FourSizes(q: nat)
    ensures LargeSize(q, 4) == 12 + 8 * q
    ensures SmallSize(0, 4) == 8 && SmallSize(1, 4) == 9 && SmallSize(3, 4) == 11 && SmallSize(4, 4) == 12
  {
    assert LargeSize(q, 1) == Width(q);
    assert LargeSize(q, 3) == LargeSize(q, 2) + Width(q);
    assert SmallSize(0, 2) == 4 && SmallSize(1, 2) == 5 && SmallSize(3, 2) == 6 && SmallSize(4, 2) == 6;
  }

  function LargeGroupsOf(bits: seq<bool>, q: nat, n: nat): (x: seq<Group>)
    requires |bits| == LargeSize(q, n)
    ensures |x| == n && forall j :: 0 <= j < n ==> Holding(x[j], q)
  {
    if n == 0 then []
    else
      var k := LargeSize(q, n - 1);
      LargeGroupsOf(bits[..k], q, n - 1) + [LargeGroupOf(bits[k..], q)]
  }

  function SmallGroupsOf(bits: seq<bool>, full: nat, n: nat): (x: seq<Group>)
    requires |bits| == SmallSize(full, n)
    ensures |x| == n && forall j :: 0 <= j < n ==> Short(x[j], j < full)
  {
    if n == 0 then []
    else
      var k := SmallSize(full, n - 1);
      SmallGroupsOf(bits[..k], full, n - 1) + [SmallGroupOf(bits[k..], n - 1 < full)]
  }

  /** Shell bits in the frame: a low frame leaves out the top one, which is zero. */
  function ShellSent(p: Parameters, high: bool): nat
    requires p.shellBits > 0
  {
    if high then p.shellBits else p.shellBits - 1
  }

  function ParseLarge(p: Parameters, bits: seq<bool>, high: bool): (x: Parsed)
    requires p.shellBits > 0 && |bits| == ShellSent(p, high) + LargeSize(p.qBits, 4)
    ensures Shaped(p, x) && (!high ==> !x.shell[p.shellBits - 1])
  {
    var s := ShellSent(p, high);
    Parsed(bits[..s] + if high then [] else [false], LargeGroupsOf(bits[s..], p.qBits, 4))
  }

  /** The lengths the parser takes. */
  predicate Accepts(p: Parameters, n: nat) {
    (n == p.frameBits || n + 1 == p.frameBits) && (p.frameBits <= 12 ==> FullGroups(n).Some?)
  }

  function Parse(p: Parameters, bits: seq<bool>): (r: Option<Parsed>)
    requires Parameterised(p)
    ensures r.Some? <==> Accepts(p, |bits|)
    ensures r.Some? ==> Shaped(p, r.value)
  {
    if |bits| != p.frameBits && |bits| + 1 != p.frameBits then None
    else if p.frameBits <= 12 then
      match FullGroups(|bits|)
      case None => None
      case Some(full) =>
        FourSizes(p.qBits);
        Some(Parsed([], SmallGroupsOf(bits, full, 4)))
    else
      FourSizes(p.qBits);
      Some(ParseLarge(p, bits, |bits| == p.frameBits))
  }

  // ---- Round trips -------------------------------------------------------------------------

  lemma LargeGroupEmits(w: seq<bool>, q: nat)
    requires |w| == Width(q)
    ensures LargeGroup(LargeGroupOf(w, q)) == w
  {
  }

  lemma SmallGroupEmits(w: seq<bool>, full: bool)
    requires |w| == if full then 3 else 2
    ensures SmallGroup(SmallGroupOf(w, full), full) == w
  {
  }

  lemma {:induction false} LargeGroupsEmit(bits: seq<bool>, q: nat, n: nat)
    requires |bits| == LargeSize(q, n)
    ensures LargeGroups(LargeGroupsOf(bits, q, n)) == bits
  {
    if n > 0 {
      var k := LargeSize(q, n - 1);
      var head, tail := bits[..k], bits[k..];
      assert head + tail == bits;
      LargeGroupsEmit(head, q, n - 1);
      LargeGroupEmits(tail, q);
      LargeSnoc(LargeGroupsOf(head, q, n - 1), LargeGroupOf(tail, q), head, tail);
    }
  }

  lemma LargeSnoc(y: seq<Group>, g: Group, head: seq<bool>, tail: seq<bool>)
    requires LargeGroups(y) == head && LargeGroup(g) == tail
    ensures LargeGroups(y + [g]) == head + tail
  {
    assert (y + [g])[..|y|] == y;
  }

  lemma SmallSnoc(y: seq<Group>, g: Group, full: nat, head: seq<bool>, tail: seq<bool>)
    requires SmallGroups(y, full) == head && SmallGroup(g, |y| < full) == tail
    ensures SmallGroups(y + [g], full) == head + tail
  {
    assert (y + [g])[..|y|] == y;
  }

  lemma {:induction false} SmallGroupsEmit(bits: seq<bool>, full: nat, n: nat)
    requires |bits| == SmallSize(full, n)
    ensures SmallGroups(SmallGroupsOf(bits, full, n), full) == bits
  {
    if n > 0 {
      var k := SmallSize(full, n - 1);
      var head, tail := bits[..k], bits[k..];
      assert head + tail == bits;
      SmallGroupsEmit(head, full, n - 1);
      SmallGroupEmits(tail, n - 1 < full);
      SmallSnoc(SmallGroupsOf(head, full, n - 1), SmallGroupOf(tail, n - 1 < full), full, head, tail);
    }
  }

  lemma ParseEmitLarge(p: Parameters, bits: seq<bool>, high: bool)
    requires p.shellBits > 0 && |bits| == ShellSent(p, high) + LargeSize(p.qBits, 4)
    ensures var x := ParseLarge(p, bits, high);
      x.shell[..ShellSent(p, high)] + LargeGroups(x.groups) == bits
  {
    var x, s := ParseLarge(p, bits, high), ShellSent(p, high);
    var head, tail := bits[..s], bits[s..];
    assert head + tail == bits;
    LargeGroupsEmit(tail, p.qBits, 4);
    assert x.shell[..s] == head;
  }

  lemma ParseEmitSmall(p: Parameters, bits: seq<bool>)
    requires Parameterised(p) && p.frameBits <= 12 && Parse(p, bits).Some?
    ensures Emit(p, Parse(p, bits).value, |bits| == p.frameBits) == Some(bits)
  {
    FourSizes(p.qBits);
    SmallGroupsEmit(bits, FullGroups(|bits|).value, 4);
  }

  /** Every frame the parser accepts is put back together bit for bit. */
  lemma ParseEmit(p: Parameters, bits: seq<bool>)
    requires Parameterised(p) && Parse(p, bits).Some?
    ensures Emit(p, Parse(p, bits).value, |bits| == p.frameBits) == Some(bits)
  {
    if p.frameBits <= 12 {
      ParseEmitSmall(p, bits);
    } else {
      FourSizes(p.qBits);
      ParseEmitLarge(p, bits, |bits| == p.frameBits);
    }
  }

  lemma LargeNext(q: nat, n: nat, head: seq<bool>, tail: seq<bool>)
    requires |head| == LargeSize(q, n) && |tail| == Width(q)
    ensures LargeGroupsOf(head + tail, q, n + 1) == LargeGroupsOf(head, q, n) + [LargeGroupOf(tail, q)]
  {
    Cut(head, tail);
  }

  lemma SmallNext(full: nat, n: nat, head: seq<bool>, tail: seq<bool>)
    requires |head| == SmallSize(full, n) && |tail| == if n < full then 3 else 2
    ensures SmallGroupsOf(head + tail, full, n + 1) == SmallGroupsOf(head, full, n) + [SmallGroupOf(tail, n < full)]
  {
    Cut(head, tail);
  }

  lemma LargeGroupParses(g: Group, q: nat)
    requires Holding(g, q)
    ensures |LargeGroup(g)| == Width(q) && LargeGroupOf(LargeGroup(g), q) == g
  {
    assert (g.qa + g.qb)[..q] == g.qa && (g.qa + g.qb)[q..] == g.qb;
    assert LargeGroup(g)[3..3 + q] == g.qa && LargeGroup(g)[3 + q..] == g.qb;
  }

  lemma LargeGrow(y: seq<Group>, g: Group, q: nat, head: seq<bool>, tail: seq<bool>)
    requires head == LargeGroups(y) && |head| == LargeSize(q, |y|) && LargeGroupsOf(head, q, |y|) == y
    requires tail == LargeGroup(g) && Holding(g, q)
    ensures LargeGroups(y + [g]) == head + tail && |head + tail| == LargeSize(q, |y| + 1)
    ensures LargeGroupsOf(head + tail, q, |y| + 1) == y + [g]
  {
    LargeGroupParses(g, q);
    LargeSnoc(y, g, head, tail);
    LargeNext(q, |y|, head, tail);
  }

  lemma {:induction false} LargeGroupsParse(x: seq<Group>, q: nat)
    requires forall j :: 0 <= j < |x| ==> Holding(x[j], q)
    ensures |LargeGroups(x)| == LargeSize(q, |x|) && LargeGroupsOf(LargeGroups(x), q, |x|) == x
  {
    if x != [] {
      var y, g := x[..|x| - 1], x[|x| - 1];
      assert y + [g] == x && |y| == |x| - 1;
      assert forall j :: 0 <= j < |y| ==> y[j] == x[j];
      LargeGroupsParse(y, q);
      var head, tail := LargeGroups(y), LargeGroup(g);
      LargeGrow(y, g, q, head, tail);
    }
  }

  lemma Cut<T>(a: seq<T>, b: seq<T>)
    ensures (a + b)[..|a|] == a && (a + b)[|a|..] == b
  {
  }

  lemma SmallGroupParses(g: Group, full: bool)
    requires Short(g, full)
    ensures SmallGroupOf(SmallGroup(g, full), full) == g
  {
  }

  lemma SmallGrow(y: seq<Group>, g: Group, full: nat, head: seq<bool>, tail: seq<bool>)
    requires head == SmallGroups(y, full) && |head| == SmallSize(full, |y|) && SmallGroupsOf(head, full, |y|) == y
    requires tail == SmallGroup(g, |y| < full) && Short(g, |y| < full)
    ensures SmallGroups(y + [g], full) == head + tail && |head + tail| == SmallSize(full, |y| + 1)
    ensures SmallGroupsOf(head + tail, full, |y| + 1) == y + [g]
  {
    SmallGroupParses(g, |y| < full);
    SmallSnoc(y, g, full, head, tail);
    SmallNext(full, |y|, head, tail);
  }

  lemma {:induction false} SmallGroupsParse(x: seq<Group>, full: nat)
    requires forall j :: 0 <= j < |x| ==> Short(x[j], j < full)
    ensures |SmallGroups(x, full)| == SmallSize(full, |x|) && SmallGroupsOf(SmallGroups(x, full), full, |x|) == x
  {
    if x != [] {
      var y, g := x[..|x| - 1], x[|x| - 1];
      assert y + [g] == x && |y| == |x| - 1;
      assert forall j :: 0 <= j < |y| ==> y[j] == x[j];
      SmallGroupsParse(y, full);
      var head, tail := SmallGroups(y, full), SmallGroup(g, |y| < full);
      SmallGrow(y, g, full, head, tail);
    }
  }

  lemma EmitParseLarge(p: Parameters, x: Parsed, high: bool)
    requires p.shellBits > 0 && Shaped(p, x) && (!high ==> !x.shell[p.shellBits - 1])
    ensures var bits := x.shell[..ShellSent(p, high)] + LargeGroups(x.groups);
      |bits| == ShellSent(p, high) + LargeSize(p.qBits, 4) && ParseLarge(p, bits, high) == x
  {
    var s := ShellSent(p, high);
    LargeGroupsParse(x.groups, p.qBits);
    Cut(x.shell[..s], LargeGroups(x.groups));
    assert x.shell == x.shell[..s] + if high then [] else [false];
  }

  lemma EmitParseSmall(p: Parameters, x: Parsed, high: bool)
    requires Parameterised(p) && p.frameBits <= 12 && Shaped(p, x) && Emit(p, x, high).Some?
    ensures var bits := Emit(p, x, high).value;
      |bits| == (if high then p.frameBits else p.frameBits - 1) && Parse(p, bits) == Some(x)
  {
    FourSizes(p.qBits);
    var full := FullGroups(if high then p.frameBits else p.frameBits - 1).value;
    assert forall j :: 0 <= j < 4 ==> Holding(x.groups[j], 0) && Short(x.groups[j], j < full);
    SmallGroupsParse(x.groups, full);
  }

  /** Whatever is emitted parses to what it was emitted from. */
  lemma EmitParse(p: Parameters, x: Parsed, high: bool)
    requires Parameterised(p) && Shaped(p, x) && Emit(p, x, high).Some?
    ensures var bits := Emit(p, x, high).value;
      |bits| == (if high then p.frameBits else p.frameBits - 1) && Parse(p, bits) == Some(x)
  {
    if p.frameBits <= 12 {
      EmitParseSmall(p, x, high);
    } else {
      FourSizes(p.qBits);
      EmitParseLarge(p, x, high);
    }
  }
  // ---- Where the bits are --------------------------------------------------------------------

  lemma SubSlice(bits: seq<bool>, o: nat, e: nat, a: nat, b: nat)
    requires a <= b && o + b <= e <= |bits|
    ensures bits[o..e][a..b] == bits[o + a..o + b]
  {
    var u, v := bits[o..e][a..b], bits[o + a..o + b];
    forall i | 0 <= i < b - a
      ensures u[i] == v[i]
    {
      assert bits[o..e][a + i] == bits[o + (a + i)];
    }
  }

  lemma {:induction false} LargeSizes(q: nat, n: nat, w: nat)
    requires w == Width(q)
    ensures LargeSize(q, n) == n * w
  {
    if n > 0 {
      LargeSizes(q, n - 1, w);
      assert n * w == (n - 1) * w + w;
    }
  }

  lemma {:induction false} LargeSizeGrows(q: nat, j: nat, n: nat)
    requires j <= n
    ensures LargeSize(q, j) <= LargeSize(q, n)
  {
    if j < n {
      LargeSizeGrows(q, j, n - 1);
    }
  }

  function Piece(bits: seq<bool>, o: nat, w: nat): seq<bool>
    requires o + w <= |bits|
  {
    bits[o..o + w]
  }

  lemma PieceKept(bits: seq<bool>, k: nat, o: nat, w: nat)
    requires o + w <= k <= |bits|
    ensures Piece(bits[..k], o, w) == Piece(bits, o, w)
  {
    SubSlice(bits, 0, k, o, o + w);
    assert bits[0..k] == bits[..k];
  }

  lemma PieceDropped(bits: seq<bool>, s: nat, o: nat, w: nat)
    requires s + o + w <= |bits|
    ensures Piece(bits[s..], o, w) == Piece(bits, s + o, w)
  {
    SubSlice(bits, s, |bits|, o, o + w);
    assert bits[s..|bits|] == bits[s..];
  }

  lemma LargeLast(bits: seq<bool>, q: nat, n: nat, k: nat, x: seq<Group>)
    requires n > 0 && |bits| == LargeSize(q, n) && k == LargeSize(q, n - 1) && x == LargeGroupsOf(bits, q, n)
    ensures k + Width(q) == |bits| && x[n - 1] == LargeGroupOf(Piece(bits, k, Width(q)), q)
    ensures x[..n - 1] == LargeGroupsOf(bits[..k], q, n - 1)
  {
    assert bits[k..] == Piece(bits, k, Width(q));
  }

  lemma {:induction false} LargeGroupAt(bits: seq<bool>, q: nat, n: nat, j: nat, o: nat, x: seq<Group>)
    requires |bits| == LargeSize(q, n) && j < n && o == LargeSize(q, j) && x == LargeGroupsOf(bits, q, n)
    ensures o + Width(q) <= |bits| && x[j] == LargeGroupOf(Piece(bits, o, Width(q)), q)
  {
    var k := LargeSize(q, n - 1);
    LargeLast(bits, q, n, k, x);
    if j < n - 1 {
      LargeSizeGrows(q, j + 1, n - 1);
      PieceKept(bits, k, o, Width(q));
      LargeGroupAt(bits[..k], q, n - 1, j, o, x[..n - 1]);
    }
  }

  lemma GroupPlaces(bits: seq<bool>, o: nat, q: nat)
    requires o + Width(q) <= |bits|
    ensures GroupFrom(bits, o, q, LargeGroupOf(Piece(bits, o, Width(q)), q))
  {
    var u := Piece(bits, o, Width(q));
    SubSlice(bits, o, o + Width(q), 3, 3 + q);
    SubSlice(bits, o, o + Width(q), 3 + q, Width(q));
    assert |u| == Width(q) && u[0] == bits[o] && u[1] == bits[o + 1] && u[2] == bits[o + 2];
    assert u[3 + q..] == u[3 + q..Width(q)];
  }

  /** The group that starts at `o`: three bits and twice `q` bits. */
  ghost predicate GroupFrom(bits: seq<bool>, o: nat, q: nat, g: Group) {
    && o + 3 + 2 * q <= |bits| && g.i1 == bits[o] && g.i2 == bits[o + 1] && g.i3 == bits[o + 2]
    && g.qa == bits[o + 3..o + 3 + q] && g.qb == bits[o + 3 + q..o + 3 + 2 * q]
  }

  lemma LargeFrom(bits: seq<bool>, s: nat, q: nat, j: nat, o: nat, x: seq<Group>)
    requires s <= |bits| && |bits[s..]| == LargeSize(q, 4) && j < 4 && o == LargeSize(q, j)
    requires x == LargeGroupsOf(bits[s..], q, 4)
    ensures GroupFrom(bits, s + o, q, x[j])
  {
    LargeGroupAt(bits[s..], q, 4, j, o, x);
    PieceDropped(bits, s, o, Width(q));
    GroupPlaces(bits, s + o, q);
  }

  lemma ParseIs(p: Parameters, bits: seq<bool>, x: Parsed)
    requires Parameterised(p) && p.frameBits > 12 && Parse(p, bits) == Some(x)
    ensures p.shellBits > 0 && |bits| == ShellSent(p, |bits| == p.frameBits) + LargeSize(p.qBits, 4)
    ensures x == ParseLarge(p, bits, |bits| == p.frameBits)
  {
    FourSizes(p.qBits);
  }

  lemma LargeParts(p: Parameters, bits: seq<bool>, high: bool, s: nat, j: nat, o: nat)
    requires p.shellBits > 0 && |bits| == ShellSent(p, high) + LargeSize(p.qBits, 4) && j < 4
    requires s == ShellSent(p, high) && o == LargeSize(p.qBits, j)
    ensures ParseLarge(p, bits, high).shell == bits[..s] + if high then [] else [false]
    ensures GroupFrom(bits, s + o, p.qBits, ParseLarge(p, bits, high).groups[j])
  {
    var x := LargeGroupsOf(bits[s..], p.qBits, 4);
    LargeFrom(bits, s, p.qBits, j, o, x);
  }

  /** A long frame: the shell bits, the last of them a zero that a low frame does not send, and then the
      four groups. */
  lemma LargePlaces(p: Parameters, bits: seq<bool>, x: Parsed, high: bool, s: nat, j: nat, o: nat)
    requires Parameterised(p) && p.frameBits > 12 && Parse(p, bits) == Some(x) && j < 4
    requires high == (|bits| == p.frameBits) && s == p.shellBits - (if high then 0 else 1)
    requires o == j * (3 + 2 * p.qBits)
    ensures x.shell == bits[..s] + if high then [] else [false]
    ensures |x.groups| == 4 && GroupFrom(bits, s + o, p.qBits, x.groups[j])
  {
    ParseIs(p, bits, x);
    LargeSizes(p.qBits, j, Width(p.qBits));
    LargeParts(p, bits, high, s, j, o);
  }

  lemma SmallSizes(full: nat, n: nat)
    requires full <= 4
    ensures SmallSize(full, n) == 2 * n + if n <= full then n else full
  {
    if n > 0 {
      SmallSizes(full, n - 1);
    }
  }

  ghost predicate ShortFrom(bits: seq<bool>, o: nat, full: bool, g: Group) {
    && o + 1 < |bits| && g.i1 == bits[o] && g.i2 == bits[o + 1] && (full ==> o + 2 < |bits|)
    && g.i3 == (full && bits[o + 2]) && g.qa == [] && g.qb == []
  }

  lemma {:induction false} SmallGroupAt(bits: seq<bool>, full: nat, n: nat, j: nat)
    requires |bits| == SmallSize(full, n) && j < n && full <= 4
    ensures ShortFrom(bits, 2 * j + if j <= full then j else full, j < full, SmallGroupsOf(bits, full, n)[j])
  {
    var k := SmallSize(full, n - 1);
    SmallSizes(full, n - 1);
    if j < n - 1 {
      SmallGroupAt(bits[..k], full, n - 1, j);
    }
  }

  /** A short frame: no shell bits, and three bits for the groups of which the length leaves three. */
  lemma SmallPlaces(p: Parameters, bits: seq<bool>, x: Parsed, full: nat, j: nat)
    requires Parameterised(p) && p.frameBits <= 12 && Parse(p, bits) == Some(x) && j < 4
    requires FullGroups(|bits|) == Some(full)
    ensures x.shell == [] && |bits| == 8 + full
    ensures ShortFrom(bits, 2 * j + if j <= full then j else full, j < full, x.groups[j])
  {
    FourSizes(p.qBits);
    SmallGroupAt(bits, full, 4, j);
  }
}
