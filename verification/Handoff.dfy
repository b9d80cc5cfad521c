/** How bytes written during start-up reach the data mode of a V.34 modem: three pending rings,
    each emptied into the next when the next part starts (src/v34_modem_session.c,
    src/v34_session.c, src/v34_b1_data_link.c), and then the converter's queue. */
module Handoff {
  import opened Bits
  import opened Async
  import opened Queues
  import opened Uart

  const QUEUE_SIZE: nat := 8192

  /** As many bytes as there is room for in a ring of `QUEUE_SIZE` places. */
  function Fitting(bytes: seq<Byte>, s: Tx): (n: nat)
    requires |s.queue| < QUEUE_SIZE
    ensures n <= |bytes|
  {
    var room := QUEUE_SIZE - 1 - |s.queue|;
    if |bytes| <= room then |bytes| else room
  }

  /** Bytes accepted, and nothing sent yet. */
  function Waiting(bytes: seq<Byte>): TxLog {
    TxLog(bytes, 0, [], [])
  }

  /** A data link's ring and converter. */
  method LinkParts() returns (queue: ByteQueue, converter: Converter)
    ensures fresh(queue) && fresh(queue.buf) && queue.Valid() && queue.Items() == [] && queue.buf.Length == QUEUE_SIZE
    ensures fresh(converter) && fresh(converter.tx) && fresh(converter.tx.buf)
    ensures fresh(converter.rx) && fresh(converter.rx.buf)
    ensures queue !in {converter.tx, converter.rx} && queue.buf !in {converter.tx.buf, converter.rx.buf}
    ensures converter.Valid() && !converter.tolerant && converter.tx.buf.Length == QUEUE_SIZE
    ensures converter.log == NO_LOG && converter.Sender() == EMPTY
  {
    queue := new ByteQueue(QUEUE_SIZE);
    converter := new Converter(QUEUE_SIZE, false);
  }

  /** The data link after Phase 4: it waits for B1 to be sent and received. */
  class DataLink {
    const pending: ByteQueue
    const uart: Converter
    var dataReady: bool

    ghost function Repr(): set<object>
      reads this
    {
      {this, pending, pending.buf, uart, uart.tx, uart.tx.buf, uart.rx, uart.rx.buf}
    }

    ghost predicate Apart()
      reads this, Repr()
    {
      && pending !in {uart.tx, uart.rx} && pending.buf !in {uart.tx.buf, uart.rx.buf}
      && pending.Valid() && uart.Valid() && pending.buf.Length == QUEUE_SIZE && uart.tx.buf.Length == QUEUE_SIZE
      && !uart.tolerant
    }

    ghost predicate Valid()
      reads this, Repr()
    {
      && Apart()
      && (if dataReady then pending.Items() == []
          else uart.log == NO_LOG && uart.Sender() == EMPTY)
    }

    /** What is still to be sent, and what has been taken and sent so far. */
    ghost function Sender(): Tx
      requires Valid()
      reads this, Repr()
    {
      if dataReady then uart.Sender() else Tx(pending.Items(), [])
    }

    ghost function Log(): TxLog
      requires Valid()
      reads this, Repr()
    {
      if dataReady then uart.log else Waiting(pending.Items())
    }

    constructor ()
      ensures Valid() && fresh(Repr()) && !dataReady && Sender() == EMPTY
    {
      var queue, converter := LinkParts();
      pending, uart, dataReady := queue, converter, false;
    }

    /** The chunk at the front of the pending ring goes into the converter's queue. */
    method OfferChunk() returns (written: nat, ghost chunk: seq<Byte>)
      requires Apart() && pending.Items() != [] && |uart.tx.Items() + pending.Items()| < QUEUE_SIZE
      modifies uart`log, uart.tx`tail, uart.tx.buf
      ensures Apart() && pending.Items() == old(pending.Items()) && chunk <= pending.Items()
      ensures written == |chunk| > 0 && uart.log == Note(old(uart.log), chunk)
      ensures uart.Sender() == Enqueue(old(uart.Sender()), chunk)
    {
      var bytes := pending.Chunk();
      chunk := bytes;
      written := uart.Write(bytes);
    }

    /** One turn of the loop that empties the pending ring into the converter's queue. */
    method MoveChunk() returns (written: nat, ghost chunk: seq<Byte>)
      requires Apart() && pending.Items() != [] && |uart.tx.Items() + pending.Items()| < QUEUE_SIZE
      modifies pending`head, uart`log, uart.tx`tail, uart.tx.buf
      ensures Apart() && old(pending.Items()) == chunk + pending.Items()
      ensures written == |chunk| > 0 && uart.log == Note(old(uart.log), chunk)
      ensures uart.Sender() == Enqueue(old(uart.Sender()), chunk)
    {
      written, chunk := OfferChunk();
      FrontOf(chunk, pending.Items());
      pending.Skip(written);
    }

    /** start_data once B1 is complete both ways: it succeeds, and nothing is lost or moved. */
    method StartData() returns (ok: bool)
      requires Valid()
      modifies this`dataReady, pending`head, uart`log, uart.tx`tail, uart.tx.buf
      ensures Valid() && ok && dataReady && Sender() == old(Sender()) && Log() == old(Log())
    {
      if dataReady {
        return true;
      }
      ghost var all, moved: seq<Byte> := pending.Items(), [];
      var empty := pending.Empty();
      while !empty
        invariant Apart() && (empty <==> pending.Items() == []) && all == moved + pending.Items()
        invariant uart.log == Waiting(moved) && uart.Sender() == Tx(moved, [])
        decreases |pending.Items()|
      {
        ghost var rest := pending.Items();
        var written;
        ghost var chunk;
        written, chunk := MoveChunk();
        if written == 0 {
          return false;
        }
        Regroup(moved, chunk, pending.Items());
        moved := moved + chunk;
        empty := pending.Empty();
      }
      NothingMore(moved);
      dataReady := true;
      return true;
    }

    /** v34_b1_data_link_write. */
    method Write(bytes: seq<Byte>) returns (written: nat)
      requires Valid()
      modifies Repr() - {this}
      ensures written == Fitting(bytes, old(Sender()))
      ensures Valid() && Sender() == Enqueue(old(Sender()), bytes[..written])
      ensures Log() == Note(old(Log()), bytes[..written])
    {
      if dataReady {
        written := uart.Write(bytes);
      } else {
        written := pending.Write(bytes);
      }
    }
  }

  method OfferLink(pending: ByteQueue, link: DataLink) returns (written: nat, ghost chunk: seq<Byte>)
    requires {pending, pending.buf} !! link.Repr() && pending.Valid() && link.Valid() && !link.dataReady
    requires pending.Items() != [] && |link.Sender().queue + pending.Items()| < QUEUE_SIZE
    modifies link.Repr() - {link}
    ensures link.Valid() && pending.Valid() && pending.Items() == old(pending.Items()) && chunk <= pending.Items()
    ensures written == |chunk| > 0 && link.Sender() == Enqueue(old(link.Sender()), chunk)
  {
    var bytes := pending.Chunk();
    chunk := bytes;
    written := link.Write(bytes);
    assert bytes[..written] == bytes;
  }

  /** One turn of the loop that empties a pending ring into the link's. */
  method MoveIntoLink(pending: ByteQueue, link: DataLink) returns (written: nat, ghost chunk: seq<Byte>)
    requires {pending, pending.buf} !! link.Repr() && pending.Valid() && link.Valid() && !link.dataReady
    requires pending.Items() != [] && |link.Sender().queue + pending.Items()| < QUEUE_SIZE
    modifies pending`head, link.Repr() - {link}
    ensures pending.Valid() && link.Valid() && written == |chunk| > 0
    ensures old(pending.Items()) == chunk + pending.Items() && link.Sender() == Enqueue(old(link.Sender()), chunk)
  {
    written, chunk := OfferLink(pending, link);
    FrontOf(chunk, pending.Items());
    pending.Skip(written);
  }

  method DrainIntoLink(pending: ByteQueue, link: DataLink) returns (ok: bool)
    requires {pending, pending.buf} !! link.Repr() && pending.Valid() && link.Valid() && !link.dataReady
    requires link.Sender() == EMPTY && |pending.Items()| < QUEUE_SIZE
    modifies pending`head, link.Repr() - {link}
    ensures pending.Valid() && link.Valid() && ok
    ensures pending.Items() == [] && link.Sender() == Tx(old(pending.Items()), [])
  {
    ghost var all, moved: seq<Byte> := pending.Items(), [];
    var empty := pending.Empty();
    while !empty
      invariant {pending, pending.buf} !! link.Repr() && pending.Valid() && link.Valid()
      invariant (empty <==> pending.Items() == []) && all == moved + pending.Items() && link.Sender() == Tx(moved, [])
      decreases |pending.Items()|
    {
      var written;
      ghost var chunk;
      written, chunk := MoveIntoLink(pending, link);
      if written == 0 {
        return false;
      }
      Regroup(moved, chunk, pending.Items());
      moved := moved + chunk;
      empty := pending.Empty();
    }
    NothingMore(moved);
    return true;
  }

  /** A new data link with everything a pending ring held. */
  method LinkFrom(pending: ByteQueue) returns (ok: bool, link: DataLink)
    requires pending.Valid() && pending.buf.Length == QUEUE_SIZE
    modifies pending`head
    ensures pending.Valid() && pending.Items() == [] && ok
    ensures fresh(link.Repr()) && link.Valid() && !link.dataReady && link.Sender() == Tx(old(pending.Items()), [])
  {
    link := new DataLink();
    ok := DrainIntoLink(pending, link);
  }

  /** The session from Phase 3 on: until both directions of Phase 4 are complete, bytes wait in
      its own ring. */
  class Session {
    const pending: ByteQueue
    var link: DataLink?

    ghost function Repr(): set<object>
      reads this, link
    {
      {this, pending, pending.buf} + if link == null then {} else link.Repr()
    }

    ghost predicate Apart()
      reads this, link, Repr()
    {
      && pending.Valid() && pending.buf.Length == QUEUE_SIZE
      && (link != null ==> {this, pending, pending.buf} !! link.Repr() && link.Valid())
    }

    ghost predicate Valid()
      reads this, link, Repr()
    {
      Apart() && (link != null ==> pending.Items() == [])
    }

    ghost function Sender(): Tx
      requires Valid()
      reads this, link, Repr()
    {
      if link != null then link.Sender() else Tx(pending.Items(), [])
    }

    ghost function Log(): TxLog
      requires Valid()
      reads this, link, Repr()
    {
      if link != null then link.Log() else Waiting(pending.Items())
    }

    constructor ()
      ensures Valid() && fresh(Repr()) && link == null && Sender() == EMPTY
    {
      pending := new ByteQueue(QUEUE_SIZE);
      link := null;
    }

    /** start_data_link once Phase 4 is complete both ways: it succeeds, and nothing is lost or
        moved. */
    method StartDataLink() returns (ok: bool)
      requires Valid()
      modifies this`link, pending`head
      ensures Valid() && ok && link != null && Sender() == old(Sender()) && Log() == old(Log())
      ensures if old(link) != null then link == old(link) else fresh(link.Repr()) && !link.dataReady
    {
      if link != null {
        return true;
      }
      var next;
      ok, next := LinkFrom(pending);
      link := next;
    }

    /** v34_session_write. */
    method Write(bytes: seq<Byte>) returns (written: nat)
      requires Valid()
      modifies Repr() - {this, link}
      ensures written == Fitting(bytes, old(Sender()))
      ensures Valid() && Sender() == Enqueue(old(Sender()), bytes[..written])
      ensures Log() == Note(old(Log()), bytes[..written])
    {
      if link != null {
        written := link.Write(bytes);
      } else {
        written := pending.Write(bytes);
      }
    }
  }

  method OfferSession(pending: ByteQueue, s: Session) returns (written: nat, ghost chunk: seq<Byte>)
    requires {pending, pending.buf} !! s.Repr() && pending.Valid() && s.Valid() && s.link == null
    requires pending.Items() != [] && |s.Sender().queue + pending.Items()| < QUEUE_SIZE
    modifies s.Repr() - {s}
    ensures s.Valid() && pending.Valid() && pending.Items() == old(pending.Items()) && chunk <= pending.Items()
    ensures written == |chunk| > 0 && s.Sender() == Enqueue(old(s.Sender()), chunk)
  {
    var bytes := pending.Chunk();
    chunk := bytes;
    written := s.Write(bytes);
    assert bytes[..written] == bytes;
  }

  /** One turn of the loop that empties a pending ring into the session's. */
  method MoveIntoSession(pending: ByteQueue, s: Session) returns (written: nat, ghost chunk: seq<Byte>)
    requires {pending, pending.buf} !! s.Repr() && pending.Valid() && s.Valid() && s.link == null
    requires pending.Items() != [] && |s.Sender().queue + pending.Items()| < QUEUE_SIZE
    modifies pending`head, s.Repr() - {s}
    ensures pending.Valid() && s.Valid() && written == |chunk| > 0
    ensures old(pending.Items()) == chunk + pending.Items() && s.Sender() == Enqueue(old(s.Sender()), chunk)
  {
    written, chunk := OfferSession(pending, s);
    FrontOf(chunk, pending.Items());
    pending.Skip(written);
  }

  method DrainIntoSession(pending: ByteQueue, s: Session) returns (ok: bool)
    requires {pending, pending.buf} !! s.Repr() && pending.Valid() && s.Valid() && s.link == null
    requires s.Sender() == EMPTY && |pending.Items()| < QUEUE_SIZE
    modifies pending`head, s.Repr() - {s}
    ensures pending.Valid() && s.Valid() && ok
    ensures pending.Items() == [] && s.Sender() == Tx(old(pending.Items()), [])
  {
    ghost var all, moved: seq<Byte> := pending.Items(), [];
    var empty := pending.Empty();
    while !empty
      invariant {pending, pending.buf} !! s.Repr() && pending.Valid() && s.Valid()
      invariant (empty <==> pending.Items() == []) && all == moved + pending.Items() && s.Sender() == Tx(moved, [])
      decreases |pending.Items()|
    {
      var written;
      ghost var chunk;
      written, chunk := MoveIntoSession(pending, s);
      if written == 0 {
        return false;
      }
      Regroup(moved, chunk, pending.Items());
      moved := moved + chunk;
      empty := pending.Empty();
    }
    NothingMore(moved);
    return true;
  }

  /** The whole modem: until Phase 2 is complete bytes wait in the first ring. */
  class ModemSession {
    const pending: ByteQueue
    var training: Session?

    ghost function Repr(): set<object>
      reads this, training, if training == null then {} else {training.link}
    {
      {this, pending, pending.buf} + if training == null then {} else training.Repr()
    }

    ghost predicate Valid()
      reads this, training, if training == null then {} else {training.link}, Repr()
    {
      && pending.Valid() && pending.buf.Length == QUEUE_SIZE
      && (training != null ==>
            {this, pending, pending.buf} !! training.Repr() && training.Valid() && pending.Items() == [])
    }

    /** The bytes still to be sent, wherever they are, and the bits of the one under way. */
    ghost function Sender(): Tx
      requires Valid()
      reads this, training, if training == null then {} else {training.link}, Repr()
    {
      if training != null then training.Sender() else Tx(pending.Items(), [])
    }

    /** Every byte accepted and every bit sent so far. */
    ghost function Log(): TxLog
      requires Valid()
      reads this, training, if training == null then {} else {training.link}, Repr()
    {
      if training != null then training.Log() else Waiting(pending.Items())
    }

    /** How many of the three parts of start-up have been begun. */
    ghost function Stage(): (stage: nat)
      reads this, training, if training == null then {} else {training.link}
      ensures stage <= 3
    {
      if training == null then 0 else if training.link == null then 1 else if !training.link.dataReady then 2 else 3
    }

    constructor ()
      ensures Valid() && fresh(Repr()) && training == null && Sender() == EMPTY
    {
      pending := new ByteQueue(QUEUE_SIZE);
      training := null;
    }

    /** start_training once Phase 2 is complete: it succeeds, and nothing is lost or moved. */
    method StartTraining() returns (ok: bool)
      requires Valid()
      modifies this`training, pending`head
      ensures Valid() && ok && training != null && Sender() == old(Sender()) && Log() == old(Log())
      ensures if old(training) != null then training == old(training) else fresh(training.Repr())
      ensures Stage() == if old(Stage()) == 0 then 1 else old(Stage())
    {
      if training != null {
        return true;
      }
      var next := new Session();
      ok := DrainIntoSession(pending, next);
      training := next;
    }

    /** The session's own steps, once it exists. */
    method StartDataLink() returns (ok: bool)
      requires Valid() && training != null
      modifies training`link, training.pending`head
      ensures Valid() && ok && training == old(training) && training.link != null
      ensures if old(training.link) != null then training.link == old(training.link) else fresh(training.link.Repr())
      ensures Stage() == if old(Stage()) == 1 then 2 else old(Stage())
      ensures Sender() == old(Sender()) && Log() == old(Log())
    {
      ok := training.StartDataLink();
    }

    method StartData() returns (ok: bool)
      requires Valid() && training != null && training.link != null
      modifies training.Repr() - {training}
      ensures Valid() && ok && training == old(training) && training.link == old(training.link)
      ensures training.link.dataReady && Sender() == old(Sender()) && Log() == old(Log())
    {
      ok := training.link.StartData();
    }

    /** v34_modem_session_write, at any moment of start-up or data mode. */
    method Write(bytes: seq<Byte>) returns (written: nat)
      requires Valid()
      modifies Repr() - {this, training}
      ensures training == old(training) && (training != null ==> training.link == old(training.link))
      ensures Stage() == old(Stage())
      ensures written == if |bytes| + |old(Sender().queue)| < 8192 then |bytes| else 8191 - |old(Sender().queue)|
      ensures written == Fitting(bytes, old(Sender()))
      ensures Valid() && Sender() == Enqueue(old(Sender()), bytes[..written])
      ensures Log() == Note(old(Log()), bytes[..written])
    {
      if training != null {
        written := training.Write(bytes);
      } else {
        written := pending.Write(bytes);
      }
    }

    /** Bits taken for a superframe: the next that the bytes accepted make. */
    method FillBits(count: nat) returns (bits: seq<bool>)
      requires Valid() && training != null && training.link != null && training.link.dataReady
      modifies training.link.Repr() - {training.link}
      ensures Valid() && training == old(training) && training.link == old(training.link) && training.link.dataReady
      ensures (Sender(), bits) == SendBits(old(Sender()), count)
      ensures Log().accepted == old(Log().accepted) && Log().sent == old(Log().sent) + bits
    {
      bits := training.link.uart.FillBits(count);
    }
  }

  lemma FrontOf(chunk: seq<Byte>, queue: seq<Byte>)
    requires chunk <= queue
    ensures queue == chunk + queue[|chunk|..]
  {
  }
}
