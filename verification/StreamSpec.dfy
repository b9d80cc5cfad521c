/** The octet stream between HDLC frames and the line, src/v42_stream.c: queued frame bits
    with idle flags in between, and a receiver that cuts the stream at flags. */
module StreamSpec {
  import opened Wrappers
  import opened Bits
  import opened Hdlc
  import opened Transducer

  /** One place of each ring stays unused. */
  const TX_ROOM := 16383
  const FRAMES := 7

  // ---- Sender ---------------------------------------------------------------------

  /** The next octet on the line when `queue` is waiting: what the queue cannot fill is taken
      from an idle flag, bit for bit. */
  function EmitOctet(queue: seq<bool>): (s: seq<bool>)
    ensures |s| == 8
  {
    if |queue| >= 8 then queue[..8] else queue + FLAG[|queue|..]
  }

  function AfterOctet(queue: seq<bool>): (rest: seq<bool>) {
    if |queue| >= 8 then queue[8..] else []
  }

  function Emitted(queue: seq<bool>, octets: nat): (s: seq<bool>)
    ensures |s| == 8 * octets
  {
    if octets == 0 then [] else Emitted(queue, octets - 1) + EmitOctet(Remaining(queue, octets - 1))
  }

  function Remaining(queue: seq<bool>, octets: nat): (s: seq<bool>) {
    if octets == 0 then queue else AfterOctet(Remaining(queue, octets - 1))
  }

  /** Queueing is all or nothing. */
  predicate Fits(queue: seq<bool>, bits: seq<bool>) {
    |queue| + |bits| <= TX_ROOM
  }

  // ---- Receiver -------------------------------------------------------------------

  /** Bits since the last flag, that flag included, and whether there has been one. */
  datatype Cutter = Cutter(bits: seq<bool>, inFrame: bool)

  predicate EndsIn(s: seq<bool>, f: seq<bool>) {
    f == [] || (s != [] && s[|s| - 1] == f[|f| - 1] && EndsIn(s[..|s| - 1], f[..|f| - 1]))
  }

  lemma {:induction false} EndsInIndex(s: seq<bool>, f: seq<bool>)
    ensures EndsIn(s, f) <==> |f| <= |s| && forall k :: 0 <= k < |f| ==> s[|s| - |f| + k] == f[k]
    decreases |f|
  {
    if f != [] && s != [] {
      EndsInIndex(s[..|s| - 1], f[..|f| - 1]);
    }
  }

  lemma EndsInFlag(s: seq<bool>)
    ensures EndsIn(s, FLAG) <==> |s| >= 8 && FlagAt(s, |s| - 8)
  {
    EndsInIndex(s, FLAG);
    if EndsIn(s, FLAG) {
      forall k | 0 <= k < 8
        ensures s[|s| - 8 + k] == FLAG[k]
      {
        assert s[|s| - |FLAG| + k] == FLAG[k];
      }
    }
  }

  /** One bit arrives; the pieces (none or one) that it completes. */
  function Cut(c: Cutter, bit: bool): (r: (Cutter, seq<seq<bool>>)) {
    var c0 := if |c.bits| >= MAX_BITS then Cutter([], false) else c;
    var s := c0.bits + [bit];
    if EndsIn(s, FLAG) then (Cutter(FLAG, true), if c0.inFrame && |s| > 16 then [s] else [])
    else (Cutter(s, c0.inFrame), [])
  }

  function CutAll(c: Cutter, w: seq<bool>): (r: (Cutter, seq<seq<bool>>)) {
    Run(Cut, c, w)
  }

  /** A full frame ring drops what does not fit. */
  function Queued(queue: seq<seq<bool>>, pieces: seq<seq<bool>>): (q: seq<seq<bool>>)
    requires |queue| <= FRAMES
    ensures |q| <= FRAMES
  {
    if |queue| + |pieces| <= FRAMES then queue + pieces else queue + pieces[..FRAMES - |queue|]
  }

  lemma QueuedMore(queue: seq<seq<bool>>, a: seq<seq<bool>>, b: seq<seq<bool>>)
    requires |queue| <= FRAMES
    ensures Queued(Queued(queue, a), b) == Queued(queue, a + b)
  {
  }
}
