/** A sender and a receiver that carry the same state: if one step of the receiver undoes one
    step of the sender and both go on from the same state, so does any number of steps. */
module Lockstep {
  import opened Wrappers

  function SendAll<S, A, B>(send: (S, A) -> (S, B), s: S, items: seq<A>): (r: (S, seq<B>))
    ensures |r.1| == |items|
  {
    if items == [] then (s, [])
    else
      var (t, out) := SendAll(send, s, items[..|items| - 1]);
      var (next, b) := send(t, items[|items| - 1]);
      (next, out + [b])
  }

  /** How far a receiver gets that may refuse an item; it stops at the first it refuses. */
  datatype Progress<S, C> = Progress(ok: bool, got: seq<C>, state: S)

  function TakeAll<S, B, C>(take: (S, B) -> Option<(S, C)>, s: S, items: seq<B>): (r: Progress<S, C>)
    ensures r.ok ==> |r.got| == |items|
  {
    if items == [] then Progress(true, [], s)
    else
      var r := TakeAll(take, s, items[..|items| - 1]);
      if !r.ok then r
      else
        match take(r.state, items[|items| - 1])
        case None => Progress(false, r.got, r.state)
        case Some((next, c)) => Progress(true, r.got + [c], next)
  }

  /** One more item is taken, or refused for good. */
  lemma TakeNextItem<S, B, C>(take: (S, B) -> Option<(S, C)>, s: S, items: seq<B>, n: nat, got: seq<C>, t: S)
    requires n < |items| && TakeAll(take, s, items[..n]) == Progress(true, got, t)
    ensures TakeAll(take, s, items[..n + 1]) ==
      match take(t, items[n])
      case None => Progress(false, got, t)
      case Some((next, c)) => Progress(true, got + [c], next)
  {
    assert items[..n + 1][..n] == items[..n];
  }

  lemma SendSnoc<S, A, B>(send: (S, A) -> (S, B), s: S, items: seq<A>, a: A)
    ensures var (t, out) := SendAll(send, s, items); var (next, b) := send(t, a);
      SendAll(send, s, items + [a]) == (next, out + [b])
  {
    assert (items + [a])[..|items|] == items;
  }

  lemma TakeSnoc<S, B, C>(take: (S, B) -> Option<(S, C)>, s: S, items: seq<B>, b: B, next: S, c: C)
    requires TakeAll(take, s, items).ok && take(TakeAll(take, s, items).state, b) == Some((next, c))
    ensures TakeAll(take, s, items + [b]) == Progress(true, TakeAll(take, s, items).got + [c], next)
  {
    assert (items + [b])[..|items|] == items;
  }

  /** Sending one run after another. */
  lemma {:induction false} SendAppend<S, A, B>(send: (S, A) -> (S, B), s: S, x: seq<A>, y: seq<A>)
    ensures var (t, p) := SendAll(send, s, x); var (u, q) := SendAll(send, t, y);
      SendAll(send, s, x + y) == (u, p + q)
  {
    if y == [] {
      assert x + y == x;
      assert SendAll(send, s, x).1 + [] == SendAll(send, s, x).1;
    } else {
      var n := |y| - 1;
      SendAppend(send, s, x, y[..n]);
      SendSnoc(send, s, x + y[..n], y[n]);
      Snoc(y);
      assert x + y == (x + y[..n]) + [y[n]];
      var (t, p) := SendAll(send, s, x);
      var (u, q) := SendAll(send, t, y[..n]);
      assert p + (q + [send(u, y[n]).1]) == (p + q) + [send(u, y[n]).1];
    }
  }

  /** What is sent first does not depend on what follows. */
  lemma {:induction false} SendPrefix<S, A, B>(send: (S, A) -> (S, B), s: S, items: seq<A>, n: nat)
    requires n <= |items|
    ensures SendAll(send, s, items[..n]).1 == SendAll(send, s, items).1[..n]
  {
    SendAppend(send, s, items[..n], items[n..]);
    assert items[..n] + items[n..] == items;
  }

  /** The item at place `n`, and the state after it. */
  lemma {:induction false} SendAt<S, A, B>(send: (S, A) -> (S, B), s: S, items: seq<A>, n: nat)
    requires n < |items|
    ensures var (t, b) := send(SendAll(send, s, items[..n]).0, items[n]);
      SendAll(send, s, items[..n + 1]).0 == t && SendAll(send, s, items).1[n] == b
  {
    assert items[..n + 1][..n] == items[..n];
    SendPrefix(send, s, items, n + 1);
    assert SendAll(send, s, items[..n + 1]).1[n] == SendAll(send, s, items).1[n];
  }

  ghost predicate Alike<S, A, B>(send: (S, A) -> (S, B), other: (S, A) -> (S, B), s: S, a: A) {
    send(s, a) == other(s, a)
  }

  lemma {:induction false} SendAlike<S(!new), A(!new), B>(
      send: (S, A) -> (S, B), other: (S, A) -> (S, B), s: S, items: seq<A>)
    requires forall u, a :: Alike(send, other, u, a)
    ensures SendAll(send, s, items) == SendAll(other, s, items)
  {
    if items != [] {
      var n := |items| - 1;
      SendAlike(send, other, s, items[..n]);
      assert Alike(send, other, SendAll(send, s, items[..n]).0, items[n]);
    }
  }

  lemma Snoc<T>(w: seq<T>)
    requires w != []
    ensures w == w[..|w| - 1] + [w[|w| - 1]]
  {
  }

  // ---- A receiver that never refuses ----------------------------------------------------------

  /** One step, from any state both may share. */
  ghost predicate Undoes<S, A, B, C>(send: (S, A) -> (S, B), take: (S, B) -> (S, C), shared: S -> bool,
                                     good: A -> bool, want: A -> C, s: S, a: A) {
    shared(s) && good(a) ==>
      var (t, b) := send(s, a); shared(t) && take(s, b) == (t, want(a))
  }

  ghost predicate InStep<S(!new), A(!new), B, C>(send: (S, A) -> (S, B), take: (S, B) -> (S, C), shared: S -> bool,
                                                 good: A -> bool, want: A -> C) {
    forall s, a :: Undoes(send, take, shared, good, want, s, a)
  }

  lemma {:induction false} StayInStep<S(!new), A(!new), B, C>(
      send: (S, A) -> (S, B), take: (S, B) -> (S, C), shared: S -> bool, good: A -> bool, want: A -> C,
      s: S, items: seq<A>)
    requires InStep(send, take, shared, good, want) && shared(s)
    requires forall i :: 0 <= i < |items| ==> good(items[i])
    ensures var (t, sent) := SendAll(send, s, items);
      var (u, got) := SendAll(take, s, sent);
      shared(t) && u == t && |got| == |items| && forall i :: 0 <= i < |items| ==> got[i] == want(items[i])
  {
    if items != [] {
      var n := |items| - 1;
      var (t, sent) := SendAll(send, s, items[..n]);
      StayInStep(send, take, shared, good, want, s, items[..n]);
      assert Undoes(send, take, shared, good, want, t, items[n]);
      SendSnoc(take, s, sent, send(t, items[n]).1);
    }
  }

  /** When what is wanted is what was sent. */
  lemma ComeBack<S(!new), A(!new), B>(
      send: (S, A) -> (S, B), take: (S, B) -> (S, A), shared: S -> bool, good: A -> bool, want: A -> A,
      s: S, items: seq<A>)
    requires InStep(send, take, shared, good, want) && shared(s) && forall a :: want(a) == a
    requires forall i :: 0 <= i < |items| ==> good(items[i])
    ensures var (t, sent) := SendAll(send, s, items); shared(t) && SendAll(take, s, sent) == (t, items)
  {
    StayInStep(send, take, shared, good, want, s, items);
    var sent := SendAll(send, s, items).1;
    var got := SendAll(take, s, sent).1;
    assert forall i :: 0 <= i < |items| ==> got[i] == want(items[i]) == items[i];
    assert got == items;
  }

  // ---- A receiver that may refuse ---------------------------------------------------------------

  /** What is sent is taken as it was, and nothing else is taken. */
  ghost predicate Takes<S, A, B>(send: (S, A) -> (S, B), take: (S, B) -> Option<(S, A)>, shared: S -> bool,
                                 good: A -> bool, s: S, a: A) {
    shared(s) && good(a) ==>
      var (t, b) := send(s, a); shared(t) && take(s, b) == Some((t, a))
  }

  ghost predicate Resends<S, A, B>(send: (S, A) -> (S, B), take: (S, B) -> Option<(S, A)>, shared: S -> bool,
                                   good: A -> bool, s: S, b: B) {
    shared(s) && take(s, b).Some? ==>
      var (t, a) := take(s, b).value; shared(t) && good(a) && send(s, a) == (t, b)
  }

  ghost predicate Inverse<S(!new), A(!new), B(!new)>(
      send: (S, A) -> (S, B), take: (S, B) -> Option<(S, A)>, shared: S -> bool, good: A -> bool)
  {
    (forall s, a :: Takes(send, take, shared, good, s, a)) && (forall s, b :: Resends(send, take, shared, good, s, b))
  }

  lemma {:induction false} SentTaken<S(!new), A(!new), B(!new)>(send: (S, A) -> (S, B), take: (S, B) -> Option<(S, A)>,
                                                                shared: S -> bool, good: A -> bool, s: S, items: seq<A>)
    requires Inverse(send, take, shared, good) && shared(s)
    requires forall i :: 0 <= i < |items| ==> good(items[i])
    ensures var (t, sent) := SendAll(send, s, items);
      shared(t) && TakeAll(take, s, sent) == Progress(true, items, t)
  {
    if items != [] {
      var n := |items| - 1;
      var (t, sent) := SendAll(send, s, items[..n]);
      SentTaken(send, take, shared, good, s, items[..n]);
      assert Takes(send, take, shared, good, t, items[n]);
      var (next, b) := send(t, items[n]);
      TakeSnoc(take, s, sent, b, next, items[n]);
      Snoc(items);
    }
  }

  lemma {:induction false} TakenSent<S(!new), A(!new), B(!new)>(send: (S, A) -> (S, B), take: (S, B) -> Option<(S, A)>,
                                                                shared: S -> bool, good: A -> bool, s: S, items: seq<B>)
    requires Inverse(send, take, shared, good) && shared(s)
    ensures var r := TakeAll(take, s, items);
      && shared(r.state)
      && (r.ok ==> SendAll(send, s, r.got) == (r.state, items) && forall i :: 0 <= i < |r.got| ==> good(r.got[i]))
  {
    if items != [] {
      var n := |items| - 1;
      var r := TakeAll(take, s, items[..n]);
      TakenSent(send, take, shared, good, s, items[..n]);
      if r.ok {
        assert Resends(send, take, shared, good, r.state, items[n]);
        if take(r.state, items[n]).Some? {
          var (next, a) := take(r.state, items[n]).value;
          SendSnoc(send, s, r.got, a);
          Snoc(items);
        }
      }
    }
  }
}
