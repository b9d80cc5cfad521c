/** One end of the link with the arrays, cursors and loops of src/v42_arq.c.  Every method
    is tied to the function of the same name in ArqSpec. */
module Arq {
  import opened Wrappers
  import opened Bits
  import Lapm
  import opened ArqSpec
  import Ring

  const RX_SIZE := 8192

  class Endpoint {
    var cr: nat
    var va: nat
    var vs: nat
    var sendCursor: nat
    var vr: nat
    var txWindow: nat
    var maxInfo: nat
    const tx: array<Slot>
    const rx: array<Byte>
    var rh: nat
    var rt: nat
    var pendingS: Option<Lapm.Supervisory>
    var nowMs: nat
    var deadlineMs: nat
    var t401Ms: nat
    var retries: nat
    var maxRetries: nat
    var failed: bool

    ghost predicate Ok()
      reads this, tx, rx
    {
      tx.Length == MODULUS && rx.Length == RX_SIZE && rh < RX_SIZE && rt < RX_SIZE && Valid(Abs())
    }

    ghost function Abs(): (a: State)
      requires rx.Length == RX_SIZE && rh < RX_SIZE && rt < RX_SIZE
      reads this, tx, rx
    {
      State(cr, va, vs, sendCursor, vr, txWindow, maxInfo, tx[..], Ring.Items(rx[..], rh, rt), pendingS,
            nowMs, deadlineMs, t401Ms, retries, maxRetries, failed)
    }

    constructor (cr: nat)
      ensures Ok() && fresh(tx) && fresh(rx)
      ensures Abs() == Init(cr)
    {
      this.cr := cr % 2;
      va, vs, sendCursor, vr := 0, 0, 0, 0;
      txWindow, maxInfo := 8, CHUNK;
      var slots := new Slot[MODULUS](i => Slot([], false));
      var ring := new Byte[RX_SIZE](i => 0);
      tx, rx := slots, ring;
      rh, rt := 0, 0;
      pendingS := None;
      nowMs, deadlineMs, t401Ms, retries, maxRetries, failed := 0, 0, 1000, 0, 3, false;
      new;
      assert tx[..] == Init(cr).tx;
    }

    method Configure(window: nat, info: nat)
      requires Ok()
      modifies this
      ensures Ok() && Abs() == ArqSpec.Configure(old(Abs()), window, info)
    {
      if window != 0 && window < 128 {
        txWindow := window;
      }
      if info != 0 && info <= CHUNK {
        maxInfo := info;
      }
    }

    method EnqueueChunk(chunk: seq<Byte>)
      requires Ok()
      modifies this`vs, tx
      ensures Ok() && Abs() == Enqueue(old(Abs()), chunk)
    {
      ghost var before := tx[..];
      tx[vs] := Slot(chunk, true);
      assert tx[..] == before[vs := Slot(chunk, true)];
      vs := Succ(vs);
    }

    method WriteChunk(data: seq<Byte>) returns (z: nat)
      requires Ok() && data != [] && Unacked(Abs()) < txWindow
      modifies this`vs, tx
      ensures Ok() && 0 < z <= |data|
      ensures ArqSpec.Write(old(Abs()), data).0 == ArqSpec.Write(Abs(), data[z..]).0
      ensures ArqSpec.Write(old(Abs()), data).1 == z + ArqSpec.Write(Abs(), data[z..]).1
    {
      z := |data|;
      if z > maxInfo {
        z := maxInfo;
      }
      EnqueueChunk(data[..z]);
    }

    method Write(data: seq<Byte>) returns (used: nat)
      requires Ok()
      modifies this`vs, tx
      ensures Ok() && Abs() == ArqSpec.Write(old(Abs()), data).0 && used == ArqSpec.Write(old(Abs()), data).1
    {
      used := 0;
      ghost var result := ArqSpec.Write(Abs(), data);
      assert data[0..] == data;
      while used < |data| && Distance(va, vs) < txWindow
        invariant Ok() && used <= |data|
        invariant ArqSpec.Write(Abs(), data[used..]).0 == result.0
        invariant used + ArqSpec.Write(Abs(), data[used..]).1 == result.1
        decreases |data| - used
      {
        var z := WriteChunk(data[used..]);
        assert data[used..][z..] == data[used + z..];
        used := used + z;
      }
    }

    method TakeOut(n: nat) returns (d: seq<Byte>)
      requires rx.Length == RX_SIZE && rh < RX_SIZE && rt < RX_SIZE
      modifies this`rh
      ensures rh < RX_SIZE && d + Ring.Items(rx[..], rh, rt) == old(Ring.Items(rx[..], rh, rt))
      ensures |d| <= n && (|d| < n ==> Ring.Items(rx[..], rh, rt) == [])
    {
      d := [];
      ghost var buf := rx[..];
      while |d| < n && rh != rt
        invariant |d| <= n && rh < RX_SIZE
        invariant d + Ring.Items(buf, rh, rt) == old(Ring.Items(rx[..], rh, rt))
        decreases n - |d|
      {
        Ring.TakeOne(d, buf, rh, rt);
        d := d + [rx[rh]];
        rh := Ring.Wrap(rh, RX_SIZE);
      }
    }

    method Read(n: nat) returns (d: seq<Byte>)
      requires Ok()
      modifies this`rh
      ensures Ok() && (Abs(), d) == ArqSpec.Read(old(Abs()), n)
    {
      ghost var all := Ring.Items(rx[..], rh, rt);
      d := TakeOut(n);
      assert d == all[..|d|] && Ring.Items(rx[..], rh, rt) == all[|d|..];
    }

    method ReleaseTo(nr: nat)
      requires tx.Length == MODULUS && va < MODULUS && nr < MODULUS
      modifies this`va, tx
      ensures va == nr && tx[..] == Release(old(tx[..]), old(va), nr)
    {
      ghost var slots, released := tx[..], Release(tx[..], va, nr);
      while va != nr
        invariant va < MODULUS && |slots| == MODULUS && tx[..] == slots
        invariant Release(slots, va, nr) == released
        decreases Distance(va, nr)
      {
        slots := slots[va := slots[va].(valid := false)];
        tx[va] := tx[va].(valid := false);
        va := Succ(va);
      }
    }

    method AcknowledgeTo(nr: nat)
      requires Ok() && nr < MODULUS
      modifies this`va, this`sendCursor, this`deadlineMs, this`retries, tx
      ensures Ok() && Abs() == Acknowledge(old(Abs()), nr)
    {
      if Distance(va, nr) > Distance(va, vs) {
        return;
      }
      ReleaseTo(nr);
      if Distance(va, sendCursor) > Distance(va, vs) {
        sendCursor := va;
      }
      if va == vs {
        deadlineMs, retries := 0, 0;
      } else {
        deadlineMs := nowMs + t401Ms;
      }
    }

    method NextI(capacity: nat) returns (bits: Option<seq<bool>>)
      requires Ok() && pendingS == None
      modifies this`sendCursor, this`deadlineMs
      ensures Ok() && Abs() == ArqSpec.Next(old(Abs()), capacity).0 && bits == ArqSpec.Next(old(Abs()), capacity).1
    {
      if sendCursor == vs || !tx[sendCursor].valid {
        return None;
      }
      bits := Lapm.EncodeI(cr, sendCursor, vr, 0, tx[sendCursor].data, capacity);
      if bits.Some? {
        sendCursor := Succ(sendCursor);
        if deadlineMs == 0 {
          deadlineMs := nowMs + t401Ms;
        }
      }
    }

    method Next(capacity: nat) returns (bits: Option<seq<bool>>)
      requires Ok()
      modifies this`pendingS, this`sendCursor, this`deadlineMs
      ensures Ok() && Abs() == ArqSpec.Next(old(Abs()), capacity).0 && bits == ArqSpec.Next(old(Abs()), capacity).1
    {
      if pendingS.Some? {
        var t := pendingS.value;
        pendingS := None;
        return Lapm.EncodeS(t, cr, vr, 0, capacity);
      }
      bits := NextI(capacity);
    }

    method Store(info: seq<Byte>)
      requires rx.Length == RX_SIZE && rh < RX_SIZE && rt < RX_SIZE
      requires |Ring.Items(rx[..], rh, rt)| + |info| <= RX_ROOM
      modifies this`rt, rx
      ensures rt < RX_SIZE && Ring.Items(rx[..], rh, rt) == old(Ring.Items(rx[..], rh, rt)) + info
    {
      var i := 0;
      ghost var start, buf := Ring.Items(rx[..], rh, rt), rx[..];
      while i < |info|
        invariant i <= |info| && rt < RX_SIZE && rx[..] == buf
        invariant Ring.Items(buf, rh, rt) == start + info[..i]
      {
        Ring.StoreOne(start, info, i, buf, rh, rt);
        buf := buf[rt := info[i]];
        rx[rt] := info[i];
        rt := Ring.Wrap(rt, RX_SIZE);
        i := i + 1;
      }
      assert info[..i] == info;
    }

    method ReceiveI(ns: nat, info: seq<Byte>) returns (code: int)
      requires Ok() && ns < MODULUS
      modifies this`vr, this`rt, this`pendingS, rx
      ensures Ok() && (Abs(), code) == TakeI(old(Abs()), ns, info)
    {
      if ns != vr {
        pendingS := Some(if ns == (vr + 127) % 128 then Lapm.RR else Lapm.REJ);
        return 0;
      }
      var free := (rh + 2 * RX_SIZE - rt - 1) % RX_SIZE;
      if |info| > free {
        pendingS := Some(Lapm.RNR);
        return 0;
      }
      Store(info);
      vr := Succ(vr);
      pendingS := Some(Lapm.RR);
      return 1;
    }

    method ReceiveFrame(f: Lapm.Frame) returns (code: int)
      requires Ok() && (f.I? ==> f.ns < MODULUS) && (!f.U? ==> f.nr < MODULUS)
      modifies this, tx, rx
      ensures Ok() && (Abs(), code) == TakeFrame(old(Abs()), f)
    {
      if f.I? {
        AcknowledgeTo(f.nr);
        code := ReceiveI(f.ns, f.info);
        return;
      }
      if f.S? {
        if f.kind == Lapm.SREJ {
          if tx[f.nr].valid {
            sendCursor := f.nr;
          }
          return 0;
        }
        AcknowledgeTo(f.nr);
        if f.kind == Lapm.REJ {
          sendCursor := f.nr;
        }
      }
      return 0;
    }

    method Receive(bits: seq<bool>) returns (code: int)
      requires Ok()
      modifies this, tx, rx
      ensures Ok() && (Abs(), code) == ArqSpec.Receive(old(Abs()), bits)
      ensures old(va) != old(vs) && va == vs ==> retries == 0 && deadlineMs == 0
    {
      ghost var before := Abs();
      if before.va != before.vs && ArqSpec.Receive(before, bits).0.va == ArqSpec.Receive(before, bits).0.vs {
        EmptiedRenews(before, bits);
      }
      DecodeRange(bits);
      var decoded := Lapm.Decode(bits);
      if decoded == None {
        return -1;
      }
      code := ReceiveFrame(decoded.value);
    }

    method Advance(ms: nat)
      requires Ok()
      modifies this
      ensures Ok() && Abs() == ArqSpec.Advance(old(Abs()), ms)
    {
      nowMs := nowMs + ms;
      if deadlineMs == 0 || nowMs < deadlineMs || va == vs {
        return;
      }
      retries := retries + 1;
      if retries - 1 >= maxRetries {
        failed, deadlineMs := true, 0;
        return;
      }
      sendCursor := va;
      deadlineMs := nowMs + t401Ms;
    }
  }
}
