/** State machines that eat a sequence item by item and may emit output on each. */
module Transducer {
  import opened Bits

  /** The state after the first `n` items of `w`, and everything emitted. */
  function RunTo<S, I, O>(step: (S, I) -> (S, seq<O>), s: S, w: seq<I>, n: nat): (r: (S, seq<O>))
    requires n <= |w|
  {
    if n == 0 then (s, [])
    else
      var (s1, head) := RunTo(step, s, w, n - 1);
      var (s2, tail) := step(s1, w[n - 1]);
      (s2, head + tail)
  }

  function Run<S, I, O>(step: (S, I) -> (S, seq<O>), s: S, w: seq<I>): (r: (S, seq<O>)) {
    RunTo(step, s, w, |w|)
  }

  lemma {:induction false} RunToPrefix<S, I, O>(step: (S, I) -> (S, seq<O>), s: S, a: seq<I>, b: seq<I>, n: nat)
    requires n <= |a|
    ensures RunTo(step, s, a + b, n) == RunTo(step, s, a, n)
  {
    if n > 0 {
      RunToPrefix(step, s, a, b, n - 1);
    }
  }

  lemma {:induction false} RunToAppend<S, I, O>(step: (S, I) -> (S, seq<O>), s: S, a: seq<I>, b: seq<I>, k: nat)
    requires k <= |b|
    ensures var (s1, p) := Run(step, s, a); var (s2, q) := RunTo(step, s1, b, k);
      RunTo(step, s, a + b, |a| + k) == (s2, p + q)
  {
    var (s1, p) := Run(step, s, a);
    if k == 0 {
      RunToPrefix(step, s, a, b, |a|);
      assert p + [] == p;
    } else {
      RunToAppend(step, s, a, b, k - 1);
      var (s2, q) := RunTo(step, s1, b, k - 1);
      Regroup(p, q, step(s2, b[k - 1]).1);
    }
  }

  /** Running over a concatenation is running over the parts in turn. */
  lemma RunAppend<S, I, O>(step: (S, I) -> (S, seq<O>), s: S, a: seq<I>, b: seq<I>)
    ensures var (s1, p) := Run(step, s, a); var (s2, q) := Run(step, s1, b);
      Run(step, s, a + b) == (s2, p + q)
  {
    RunToAppend(step, s, a, b, |b|);
  }
}
