/** Start-stop characters in a bit stream, and the two receivers for them: the one of
    src/v34_uart.c, which wants every stop bit, and the one of src/v32bis_data.c, which accepts
    the stop bits that ITU-T V.14 allows to be deleted. */
module Async {
  import opened Bits
  import opened Transducer

  /** A character, whether its stop bit is sent, and the idle marks after it. */
  datatype Char = Char(byte: Byte, stop: bool, marks: nat)

  function Marks(n: nat): (s: seq<bool>)
    ensures |s| == n && forall i :: 0 <= i < n ==> s[i]
  {
    if n == 0 then [] else Marks(n - 1) + [true]
  }

  /** Stop bit and idle marks. */
  function Ending(c: Char): seq<bool> {
    if c.stop then Marks(1 + c.marks) else []
  }

  function CharBits(c: Char): seq<bool> {
    [false] + ByteBits(c.byte) + Ending(c)
  }

  function Stream(cs: seq<Char>): seq<bool> {
    if cs == [] then [] else Stream(cs[..|cs| - 1]) + CharBits(cs[|cs| - 1])
  }

  function BytesOf(cs: seq<Char>): (bytes: seq<Byte>)
    ensures |bytes| == |cs|
  {
    if cs == [] then [] else BytesOf(cs[..|cs| - 1]) + [cs[|cs| - 1].byte]
  }

  /** A stop bit may be missing only where the next character follows at once. */
  predicate Continuous(cs: seq<Char>) {
    forall i :: 0 <= i < |cs| && !cs[i].stop ==> i + 1 < |cs|
  }

  predicate Stopped(cs: seq<Char>) {
    forall i :: 0 <= i < |cs| ==> cs[i].stop
  }

  // ---- Receivers ----------------------------------------------------------------------------

  /** Waiting for a start bit, or with so many data bits collected. */
  datatype State = Idle | Receiving(got: seq<bool>)

  /** uart in src/v32bis_data.c: a zero in the stop position is the next start bit. */
  function Tolerant(s: State, bit: bool): (State, seq<Byte>) {
    match s
    case Idle => (if bit then Idle else Receiving([]), [])
    case Receiving(got) =>
      if |got| < OCTET then (Receiving(got + [bit]), [])
      else (if bit then Idle else Receiving([]), if |got| == 8 then [BitsByte(got)] else [])
  }

  /** put_rx_bit in src/v34_uart.c: a zero in the stop position loses the character. */
  function Strict(s: State, bit: bool): (State, seq<Byte>) {
    match s
    case Idle => (if bit then Idle else Receiving([]), [])
    case Receiving(got) =>
      if |got| < OCTET then (Receiving(got + [bit]), [])
      else (Idle, if bit && |got| == 8 then [BitsByte(got)] else [])
  }

  /** What the two have in common: how a start bit, data bits and marks are taken. */
  ghost predicate Receives(step: (State, bool) -> (State, seq<Byte>)) {
    && (forall s, bit :: StepsAt(step, s, bit))
  }

  ghost predicate StepsAt(step: (State, bool) -> (State, seq<Byte>), s: State, bit: bool) {
    && (s.Idle? ==> step(s, bit) == (if bit then Idle else Receiving([]), []))
    && (s.Receiving? && |s.got| < 8 ==> step(s, bit) == (Receiving(s.got + [bit]), []))
    && (s.Receiving? && |s.got| == 8 && bit ==> step(s, bit) == (Idle, [BitsByte(s.got)]))
  }

  lemma {:induction false} MarksTaken(step: (State, bool) -> (State, seq<Byte>), n: nat)
    requires Receives(step)
    ensures Run(step, Idle, Marks(n)) == (Idle, [])
  {
    if n > 0 {
      MarksTaken(step, n - 1);
      RunAppend(step, Idle, Marks(n - 1), [true]);
      One(step, Idle, true);
      assert StepsAt(step, Idle, true);
    }
  }

  lemma One<S, I, O>(step: (S, I) -> (S, seq<O>), s: S, x: I)
    ensures Run(step, s, [x]) == step(s, x)
  {
    assert RunTo(step, s, [x], 0) == (s, []);
    var (t, out) := step(s, x);
    assert [] + out == out;
  }

  lemma {:induction false} DataTaken(step: (State, bool) -> (State, seq<Byte>), data: seq<bool>)
    requires Receives(step) && |data| <= 8
    ensures Run(step, Receiving([]), data) == (Receiving(data), [])
  {
    if data != [] {
      var head, last := data[..|data| - 1], data[|data| - 1];
      assert data == head + [last];
      DataTaken(step, head);
      RunAppend(step, Receiving([]), head, [last]);
      One(step, Receiving(head), last);
      assert StepsAt(step, Receiving(head), last);
    }
  }

  /** The stop bit ends the character and further marks change nothing. */
  lemma EndingTaken(step: (State, bool) -> (State, seq<Byte>), data: seq<bool>, n: nat)
    requires Receives(step) && |data| == 8
    ensures Run(step, Receiving(data), Marks(1 + n)) == (Idle, [BitsByte(data)])
  {
    MarksFront(n);
    RunAppend(step, Receiving(data), [true], Marks(n));
    One(step, Receiving(data), true);
    assert StepsAt(step, Receiving(data), true);
    MarksTaken(step, n);
    NothingMore([BitsByte(data)]);
  }

  lemma NothingMore<T>(s: seq<T>)
    ensures s + [] == s && [] + s == s
  {
  }

  lemma MarksFront(n: nat)
    ensures Marks(1 + n) == [true] + Marks(n)
  {
  }

  /** A character with its stop bit, taken from where its start bit leads. */
  lemma BodyTaken(step: (State, bool) -> (State, seq<Byte>), c: Char)
    requires Receives(step)
    ensures Run(step, Receiving([]), ByteBits(c.byte) + Ending(c))
         == if c.stop then (Idle, [c.byte]) else (Receiving(ByteBits(c.byte)), [])
  {
    var data := ByteBits(c.byte);
    DataTaken(step, data);
    RunAppend(step, Receiving([]), data, Ending(c));
    if c.stop {
      EndingTaken(step, data, c.marks);
      ByteRoundTrip(c.byte);
      NothingMore([c.byte]);
    } else {
      assert data + [] == data;
    }
  }

  /** Where a receiver stands after some characters, and what it has put out. */
  function Taken(cs: seq<Char>): (State, seq<Byte>) {
    if cs == [] || cs[|cs| - 1].stop then (Idle, BytesOf(cs))
    else (Receiving(ByteBits(cs[|cs| - 1].byte)), BytesOf(cs[..|cs| - 1]))
  }

  lemma {:induction false} CharactersTaken(step: (State, bool) -> (State, seq<Byte>), cs: seq<Char>)
    requires Receives(step)
    requires Stopped(cs) || forall got :: |got| == 8 ==> StartsOver(step, got)
    ensures Run(step, Idle, Stream(cs)) == Taken(cs)
  {
    if cs == [] {
      assert Run(step, Idle, []) == (Idle, []);
    } else {
      var n := |cs| - 1;
      var before, c := cs[..n], cs[n];
      CharactersTaken(step, before);
      var (s, out) := Taken(before);
      StartTaken(step, before);
      BodyTaken(step, c);
      var body := ByteBits(c.byte) + Ending(c);
      Regroup([false], ByteBits(c.byte), Ending(c));
      RunAppend(step, s, [false], body);
      RunAppend(step, Idle, Stream(before), CharBits(c));
      var (t, more) := Run(step, s, [false]);
      var (u, last) := Run(step, t, body);
      Regroup(out, more, last);
      NothingMore(BytesOf(before));
    }
  }

  /** A zero in the stop position is taken as a start bit. */
  ghost predicate StartsOver(step: (State, bool) -> (State, seq<Byte>), got: seq<bool>)
    requires |got| == 8
  {
    step(Receiving(got), false) == (Receiving([]), [BitsByte(got)])
  }

  /** The start bit of the next character completes one without a stop bit. */
  lemma StartTaken(step: (State, bool) -> (State, seq<Byte>), cs: seq<Char>)
    requires Receives(step) && (Stopped(cs) || forall got :: |got| == 8 ==> StartsOver(step, got))
    ensures var (s, out) := Taken(cs); var (t, more) := Run(step, s, [false]);
      t == Receiving([]) && out + more == BytesOf(cs)
  {
    var (s, out) := Taken(cs);
    One(step, s, false);
    if s.Idle? {
      assert StepsAt(step, Idle, false);
      assert out + [] == out;
    } else {
      assert StartsOver(step, s.got);
      ByteRoundTrip(cs[|cs| - 1].byte);
    }
  }

  /** After any idle marks, characters with deleted stop bits wherever V.14 allows it, and any
      idle marks between them, the tolerant receiver puts out exactly their bytes. */
  lemma TolerantReads(lead: nat, cs: seq<Char>)
    requires Continuous(cs)
    ensures Run(Tolerant, Idle, Marks(lead) + Stream(cs)) == (Idle, BytesOf(cs))
  {
    TolerantReceives();
    MarksTaken(Tolerant, lead);
    CharactersTaken(Tolerant, cs);
    RunAppend(Tolerant, Idle, Marks(lead), Stream(cs));
    assert cs != [] ==> cs[|cs| - 1].stop;
    assert [] + BytesOf(cs) == BytesOf(cs);
  }

  /** With every stop bit sent, so does the strict one. */
  lemma StrictReads(lead: nat, cs: seq<Char>)
    requires Stopped(cs)
    ensures Run(Strict, Idle, Marks(lead) + Stream(cs)) == (Idle, BytesOf(cs))
  {
    StrictReceives();
    MarksTaken(Strict, lead);
    CharactersTaken(Strict, cs);
    RunAppend(Strict, Idle, Marks(lead), Stream(cs));
    assert [] + BytesOf(cs) == BytesOf(cs);
  }

  lemma TolerantReceives()
    ensures Receives(Tolerant) && forall got :: |got| == 8 ==> StartsOver(Tolerant, got)
  {
    forall s, bit
      ensures StepsAt(Tolerant, s, bit)
    {
    }
  }

  lemma StrictReceives()
    ensures Receives(Strict)
  {
    forall s, bit
      ensures StepsAt(Strict, s, bit)
    {
    }
  }

  /** What has been put out after part of a stream is the beginning of what the whole puts out. */
  lemma PartReads<S>(step: (S, bool) -> (S, seq<Byte>), s: S, part: seq<bool>, rest: seq<bool>)
    ensures Run(step, s, part).1 <= Run(step, s, part + rest).1
  {
    RunAppend(step, s, part, rest);
  }
  lemma DataThen(step: (State, bool) -> (State, seq<Byte>), b: Byte)
    requires Receives(step)
    ensures Run(step, Idle, [false] + ByteBits(b) + [false]) == step(Receiving(ByteBits(b)), false)
  {
    var data := ByteBits(b);
    One(step, Idle, false);
    assert StepsAt(step, Idle, false);
    DataTaken(step, data);
    RunAppend(step, Idle, [false], data);
    One(step, Receiving(data), false);
    RunAppend(step, Idle, [false] + data, [false]);
    var out := step(Receiving(data), false).1;
    assert [] + out == out;
  }

  /** A zero where the stop bit should be: the one receiver loses the character and waits, the other
      keeps it and is in the next one. */
  lemma ZeroStop(b: Byte)
    ensures Run(Strict, Idle, [false] + ByteBits(b) + [false]) == (Idle, [])
    ensures Run(Tolerant, Idle, [false] + ByteBits(b) + [false]) == (Receiving([]), [b])
  {
    StrictReceives();
    TolerantReceives();
    DataThen(Strict, b);
    DataThen(Tolerant, b);
    ByteRoundTrip(b);
  }
}
