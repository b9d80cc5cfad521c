/** The error-corrected link of src/v42_arq.c as functions on its state.  Sequence numbers
    are the seven-bit ones of the source. */
module ArqSpec {
  import opened Wrappers
  import opened Bits
  import opened Lapm

  const MODULUS := 128
  const CHUNK := 128
  /** One octet of the 8192-octet receive ring always stays empty. */
  const RX_ROOM := 8191

  datatype Slot = Slot(data: seq<Byte>, valid: bool)

  datatype State = State(
    cr: nat, va: nat, vs: nat, cursor: nat, vr: nat, window: nat, maxInfo: nat,
    tx: seq<Slot>, rx: seq<Byte>, pending: Option<Supervisory>,
    now: nat, deadline: nat, t401: nat, retries: nat, maxRetries: nat, failed: bool)

  predicate Valid(a: State) {
    && a.cr < 2 && a.va < MODULUS && a.vs < MODULUS && a.cursor < MODULUS && a.vr < MODULUS
    && 1 <= a.window < MODULUS && 1 <= a.maxInfo <= CHUNK
    && |a.tx| == MODULUS && |a.rx| <= RX_ROOM
  }

  function Init(cr: nat): (a: State)
    ensures Valid(a)
  {
    State(cr % 2, 0, 0, 0, 0, 8, CHUNK, seq(MODULUS, i => Slot([], false)), [], None, 0, 0, 1000, 0, 3, false)
  }

  function Configure(a: State, window: nat, maxInfo: nat): (a': State)
    requires Valid(a)
    ensures Valid(a')
  {
    a.(window := if 0 < window < MODULUS then window else a.window,
       maxInfo := if 0 < maxInfo <= CHUNK then maxInfo else a.maxInfo)
  }

  /** `(to - from) & 127`. */
  function Distance(from: nat, to: nat): (d: nat)
    requires from < MODULUS && to < MODULUS
    ensures d < MODULUS
  {
    (to + MODULUS - from) % MODULUS
  }

  function Succ(n: nat): (m: nat)
    ensures m < MODULUS
  {
    (n + 1) % MODULUS
  }

  function Unacked(a: State): (n: nat)
    requires Valid(a)
  {
    Distance(a.va, a.vs)
  }

  /** One chunk enters the transmit window. */
  function Enqueue(a: State, chunk: seq<Byte>): (a': State)
    requires Valid(a)
    ensures Valid(a')
  {
    a.(tx := a.tx[a.vs := Slot(chunk, true)], vs := Succ(a.vs))
  }

  /** The state after a write, and the number of octets accepted. */
  function Write(a: State, data: seq<Byte>): (r: (State, nat))
    requires Valid(a)
    ensures Valid(r.0) && r.1 <= |data|
    decreases |data|
  {
    if data == [] || Unacked(a) >= a.window then (a, 0)
    else
      var z := if |data| > a.maxInfo then a.maxInfo else |data|;
      var (a', n) := Write(Enqueue(a, data[..z]), data[z..]);
      (a', z + n)
  }

  function Read(a: State, n: nat): (r: (State, seq<Byte>))
    requires Valid(a)
    ensures Valid(r.0)
  {
    var k := if n < |a.rx| then n else |a.rx|;
    (a.(rx := a.rx[k..]), a.rx[..k])
  }

  /** Slots from `va` up to, not including, `nr` are given back. */
  function Release(tx: seq<Slot>, va: nat, nr: nat): (tx': seq<Slot>)
    requires |tx| == MODULUS && va < MODULUS && nr < MODULUS
    ensures |tx'| == MODULUS
    decreases Distance(va, nr)
  {
    if va == nr then tx else Release(tx[va := tx[va].(valid := false)], Succ(va), nr)
  }

  function Acknowledge(a: State, nr: nat): (a': State)
    requires Valid(a) && nr < MODULUS
    ensures Valid(a')
  {
    if Distance(a.va, nr) > Distance(a.va, a.vs) then a
    else
      a.(tx := Release(a.tx, a.va, nr), va := nr,
         cursor := if Distance(nr, a.cursor) > Distance(nr, a.vs) then nr else a.cursor,
         deadline := if nr == a.vs then 0 else a.now + a.t401,
         retries := if nr == a.vs then 0 else a.retries)
  }

  /** The state after the next frame has been sent, and that frame. */
  function NextFrame(a: State): (r: (State, Option<Frame>))
    requires Valid(a)
    ensures Valid(r.0)
  {
    if a.pending.Some? then (a.(pending := None), Some(S(0, a.cr, a.pending.value, a.vr, 0)))
    else if a.cursor == a.vs || !a.tx[a.cursor].valid then (a, None)
    else
      (a.(cursor := Succ(a.cursor), deadline := if a.deadline == 0 then a.now + a.t401 else a.deadline),
       Some(I(0, a.cr, a.cursor, a.vr, 0, a.tx[a.cursor].data)))
  }

  function Encode(f: Frame, capacity: nat): (bits: Option<seq<bool>>)
    requires !f.U?
  {
    if f.I? then EncodeI(f.cr, f.ns, f.nr, f.pf, f.info, capacity) else EncodeS(f.kind, f.cr, f.nr, f.pf, capacity)
  }

  /** The same into a bit buffer: an S frame that does not fit is dropped, an I frame waits. */
  function Next(a: State, capacity: nat): (r: (State, Option<seq<bool>>))
    requires Valid(a)
    ensures Valid(r.0)
  {
    var (a', f) := NextFrame(a);
    if f == None then (a', None)
    else
      var bits := Encode(f.value, capacity);
      if bits == None && f.value.I? then (a, None) else (a', bits)
  }

  function TakeI(a: State, ns: nat, info: seq<Byte>): (r: (State, int))
    requires Valid(a) && ns < MODULUS
    ensures Valid(r.0)
  {
    if ns != a.vr then (a.(pending := Some(if Succ(ns) == a.vr then RR else REJ)), 0)
    else if |info| > RX_ROOM - |a.rx| then (a.(pending := Some(RNR)), 0)
    else (a.(rx := a.rx + info, vr := Succ(a.vr), pending := Some(RR)), 1)
  }

  function TakeFrame(a: State, f: Frame): (r: (State, int))
    requires Valid(a) && (f.I? ==> f.ns < MODULUS) && (!f.U? ==> f.nr < MODULUS)
    ensures Valid(r.0)
  {
    match f
    case I(_, _, ns, nr, _, info) => TakeI(Acknowledge(a, nr), ns, info)
    case S(_, _, RR, nr, _) => (Acknowledge(a, nr), 0)
    case S(_, _, RNR, nr, _) => (Acknowledge(a, nr), 0)
    case S(_, _, REJ, nr, _) => (Acknowledge(a, nr).(cursor := nr), 0)
    case S(_, _, SREJ, nr, _) => (if a.tx[nr].valid then a.(cursor := nr) else a, 0)
    case U(_, _, _, _, _) => (a, 0)
  }

  lemma DecodeRange(bits: seq<bool>)
    ensures match Decode(bits)
            case Some(I(_, _, ns, nr, _, _)) => ns < MODULUS && nr < MODULUS
            case Some(S(_, _, _, nr, _)) => nr < MODULUS
            case _ => true
  {
  }

  /** The state after receiving a frame's bits, and the result code of the source. */
  function Receive(a: State, bits: seq<bool>): (r: (State, int))
    requires Valid(a)
    ensures Valid(r.0)
  {
    DecodeRange(bits);
    match Decode(bits) case None => (a, -1) case Some(f) => TakeFrame(a, f)
  }

  /** Time passes; T401 may run out. */
  function Advance(a: State, ms: nat): (a': State)
    requires Valid(a)
    ensures Valid(a')
  {
    var now := a.now + ms;
    if a.deadline == 0 || now < a.deadline || a.va == a.vs then a.(now := now)
    else if a.retries >= a.maxRetries then a.(now := now, retries := a.retries + 1, failed := true, deadline := 0)
    else a.(now := now, retries := a.retries + 1, cursor := a.va, deadline := now + a.t401)
  }

  // ---- Answers -----------------------------------------------------------------------------

  /** What an I frame is answered with: RR if it was the next and there was room for it, or if it is the
      one taken last; RNR if there was no room; and REJ in all other cases. */
  lemma AnswerIs(a: State, f: Frame)
    requires Valid(a) && f.I? && f.ns < 128 && f.nr < 128
    ensures var (a', code) := TakeFrame(a, f);
      && (code == 1 <==> f.ns == a.vr && |a.rx| + |f.info| < 8192)
      && (code == 1 ==> a'.vr == (a.vr + 1) % 128 && a'.rx == a.rx + f.info)
      && (code != 1 ==> code == 0 && a'.vr == a.vr && a'.rx == a.rx)
      && a'.pending == Some(if code == 1 || (f.ns + 1) % 128 == a.vr then RR else if f.ns == a.vr then RNR else REJ)
  {
  }

  /** And where sending goes on after a supervisory frame: with REJ at the frame it asks for, else where it
      was, unless that has been acknowledged. */
  lemma CursorIs(a: State, f: Frame)
    requires Valid(a) && f.S? && f.nr < 128
    ensures var a' := TakeFrame(a, f).0;
      && a'.pending == a.pending && a'.rx == a.rx && a'.vr == a.vr && a'.vs == a.vs
      && (f.kind == REJ ==> a'.cursor == f.nr)
      && (f.kind == SREJ ==> a'.va == a.va && a'.cursor == if a.tx[f.nr].valid then f.nr else a.cursor)
      && (f.kind == RR || f.kind == RNR ==> a'.cursor == a.cursor || (a'.va == f.nr && a'.cursor == f.nr))
  {
  }

  // ---- Renewal ---------------------------------------------------------------------------

  /** A frame that acknowledges everything outstanding stops T401 and renews the retries. */
  lemma FullAckRenews(a: State, f: Frame)
    requires Valid(a) && (f.I? ==> f.ns < MODULUS) && !f.U? && f.nr == a.vs && (f.S? ==> f.kind != SREJ)
    ensures var a' := TakeFrame(a, f).0; a'.va == a'.vs && a'.retries == 0 && a'.deadline == 0
  {
  }

  lemma EmptiedByFrame(a: State, f: Frame)
    requires Valid(a) && (f.I? ==> f.ns < MODULUS) && (!f.U? ==> f.nr < MODULUS)
    requires a.va != a.vs && TakeFrame(a, f).0.va == TakeFrame(a, f).0.vs
    ensures TakeFrame(a, f).0.retries == 0 && TakeFrame(a, f).0.deadline == 0
  {
  }

  /** Whatever was received: if the window has become empty, the retries are renewed. */
  lemma EmptiedRenews(a: State, bits: seq<bool>)
    requires Valid(a) && a.va != a.vs && Receive(a, bits).0.va == Receive(a, bits).0.vs
    ensures Receive(a, bits).0.retries == 0 && Receive(a, bits).0.deadline == 0
  {
    DecodeRange(bits);
    if Decode(bits).Some? {
      EmptiedByFrame(a, Decode(bits).value);
    }
  }

  // ---- How much a write takes -----------------------------------------------------------

  function Room(a: State): (n: nat)
    requires Valid(a)
  {
    if Unacked(a) < a.window then a.window - Unacked(a) else 0
  }

  function Least(m: nat, n: nat): nat {
    if m < n then m else n
  }

  /** Pieces of `z` octets each, the last one of what is left. */
  function Pieces(data: seq<Byte>, z: nat): (pieces: seq<seq<Byte>>)
    requires z > 0
    decreases |data|
  {
    if data == [] then [] else [data[..Least(z, |data|)]] + Pieces(data[Least(z, |data|)..], z)
  }

  /** All pieces but the last are whole. */
  lemma {:induction false} PiecesWhole(data: seq<Byte>, z: nat, i: nat)
    requires z > 0 && i < |Pieces(data, z)|
    ensures 0 < |Pieces(data, z)[i]| <= z && (i + 1 < |Pieces(data, z)| ==> |Pieces(data, z)[i]| == z)
    decreases |data|
  {
    var rest := data[Least(z, |data|)..];
    if i > 0 {
      PiecesWhole(rest, z, i - 1);
      assert Pieces(data, z)[i] == Pieces(rest, z)[i - 1];
    }
  }

  /** One chunk more is outstanding. */
  lemma EnqueueCounts(a: State, chunk: seq<Byte>)
    requires Valid(a) && Room(a) > 0
    ensures var a' := Enqueue(a, chunk);
      && Unacked(a') == Unacked(a) + 1 && Room(a') == Room(a) - 1 && a'.maxInfo == a.maxInfo
      && a'.vs == Succ(a.vs) && a'.tx == a.tx[a.vs := Slot(chunk, true)]
  {
  }

  lemma WholeRoom(length: nat, r: nat, z: nat)
    requires r > 0 && z > 0
    ensures var k := Least(length, z);
      Least(length, r * z) == k + Least(length - k, (r - 1) * z)
  {
    assert r * z == (r - 1) * z + z;
  }

  /** A write takes as many octets as the room in the window holds in whole chunks, or all there
      are. */
  lemma {:induction false} WriteTakes(a: State, data: seq<Byte>)
    requires Valid(a)
    ensures Write(a, data).1 == Least(|data|, Room(a) * a.maxInfo)
    decreases |data|
  {
    if data != [] && Room(a) > 0 {
      var z := Least(|data|, a.maxInfo);
      EnqueueCounts(a, data[..z]);
      WriteTakes(Enqueue(a, data[..z]), data[z..]);
      WholeRoom(|data|, Room(a), a.maxInfo);
    }
  }

  lemma PiecesOn(data: seq<Byte>, n: nat, z: nat, k: nat)
    requires z > 0 && 0 < |data| && k == Least(|data|, z) && n <= |data| - k && (n > 0 ==> k == z)
    ensures Pieces(data[..k + n], z) == [data[..k]] + Pieces(data[k..][..n], z)
  {
    var taken := data[..k + n];
    assert taken[..k] == data[..k] && taken[k..] == data[k..][..n];
    assert Least(z, |taken|) == k;
  }

  /** An end that has just been set up takes 1024 octets, and sends them in chunks of 128. */
  lemma FreshTakes(cr: nat, a: State, data: seq<Byte>)
    requires a == Init(cr)
    ensures Write(a, data).1 == Least(|data|, 1024) && a.maxInfo == 128
  {
    WriteTakes(a, data);
    assert Room(a) == 8;
  }
}
