/** The ring buffers used throughout the modem: a fixed buffer, a head that readers move and
    a tail that writers move; head equal to tail means empty, so one place stays unused. */
module Ring {
  /** `(i + 1) & (size - 1)`. */
  function Wrap(i: nat, size: nat): (k: nat)
    requires i < size
    ensures k < size
  {
    if i + 1 == size then 0 else i + 1
  }

  /** The queued items, oldest first. */
  function Items<T>(buf: seq<T>, head: nat, tail: nat): (s: seq<T>)
    requires head < |buf| && tail < |buf|
    ensures |s| == if head <= tail then tail - head else tail + |buf| - head
  {
    if head <= tail then buf[head..tail] else buf[head..] + buf[..tail]
  }

  lemma Push<T>(buf: seq<T>, head: nat, tail: nat, x: T)
    requires head < |buf| && tail < |buf| && Wrap(tail, |buf|) != head
    ensures Items(buf[tail := x], head, Wrap(tail, |buf|)) == Items(buf, head, tail) + [x]
  {
    var buf' := buf[tail := x];
    if head <= tail {
      assert buf'[head..tail] == buf[head..tail];
      if tail + 1 == |buf| {
        assert buf'[head..] == buf[head..tail] + [x];
      }
    } else {
      assert buf'[..tail + 1] == buf[..tail] + [x];
      assert buf'[head..] == buf[head..];
    }
  }

  lemma Pop<T>(buf: seq<T>, head: nat, tail: nat)
    requires head < |buf| && tail < |buf| && head != tail
    ensures Items(buf, head, tail) == [buf[head]] + Items(buf, Wrap(head, |buf|), tail)
  {
    if head > tail && head + 1 < |buf| {
      assert buf[head..] == [buf[head]] + buf[head + 1..];
    } else if head > tail {
      assert buf[head..] == [buf[head]];
    }
  }

  /** One item moves from the ring to what has been taken out. */
  lemma TakeOne<T>(done: seq<T>, buf: seq<T>, head: nat, tail: nat)
    requires head < |buf| && tail < |buf| && head != tail
    ensures done + Items(buf, head, tail) == (done + [buf[head]]) + Items(buf, Wrap(head, |buf|), tail)
  {
    Pop(buf, head, tail);
  }

  /** One more item of `data` moves into the ring. */
  lemma StoreOne<T>(start: seq<T>, data: seq<T>, i: nat, buf: seq<T>, head: nat, tail: nat)
    requires head < |buf| && tail < |buf| && i < |data|
    requires Items(buf, head, tail) == start + data[..i] && |start| + |data| < |buf|
    ensures Items(buf[tail := data[i]], head, Wrap(tail, |buf|)) == start + data[..i + 1]
  {
    Full(buf, head, tail);
    Push(buf, head, tail, data[i]);
    assert data[..i + 1] == data[..i] + [data[i]];
  }

  lemma Full<T>(buf: seq<T>, head: nat, tail: nat)
    requires head < |buf| && tail < |buf|
    ensures Wrap(tail, |buf|) == head <==> |Items(buf, head, tail)| == |buf| - 1
    ensures head == tail <==> Items(buf, head, tail) == []
  {
  }
}
