/** The Viterbi decoder of src/v32bis_viterbi.c: add, compare and select, and a circular
    traceback of 32 symbols.  Metrics are reals; a state no path has reached has none. */
module V32Viterbi {
  import opened Wrappers
  import opened Reals
  import opened V32Map
  import opened V32Trellis

  const TRACEBACK: nat := 32

  // ---- Best paths ------------------------------------------------------------------------------

  predicate LeadsTo(rate: Rate, n: nat, s: nat, path: Path) {
    |path| == n && Feasible(rate, path) && End(path) == s
  }

  /** A path to `s` none is closer than, or none if there is no path at all. */
  ghost predicate Optimal(rate: Rate, m: Metric, rs: seq<Received>, s: nat, best: Option<Path>) {
    match best
    case None => forall path :: !LeadsTo(rate, |rs|, s, path)
    case Some(path) =>
      LeadsTo(rate, |rs|, s, path) &&
      forall other :: LeadsTo(rate, |rs|, s, other) ==> Cost(m, rs, path) <= Cost(m, rs, other)
  }

  /** A path for each state, and their metrics. */
  ghost predicate AllOptimal(rate: Rate, m: Metric, rs: seq<Received>, best: seq<Option<Path>>) {
    |best| == STATES && forall s :: 0 <= s < STATES ==> Optimal(rate, m, rs, s, best[s])
  }

  ghost predicate MetricsOf(m: Metric, rs: seq<Received>, best: seq<Option<Path>>, metrics: seq<Option<real>>) {
    && |best| == |metrics| == STATES
    && forall s :: 0 <= s < STATES ==>
      (best[s].Some? ==> |best[s].value| == |rs|)
      && metrics[s] == match best[s] case None => None case Some(path) => Some(Cost(m, rs, path))
  }

  // ---- One symbol ----------------------------------------------------------------------------------

  /** A way into a state: where from, by which branch, and the metric that gives. */
  datatype Arc = Arc(state: nat, b: Branch, metric: real)

  ghost predicate ArcInto(rate: Rate, m: Metric, r: Received, metrics: seq<Option<real>>, s: nat, a: Arc)
    requires |metrics| == STATES
  {
    && a.state < STATES && metrics[a.state].Some? && Possible(rate, a.b) && NextState(a.state, a.b.y12) == s
    && a.metric == metrics[a.state].value + m(r, a.state, a.b)
  }

  ghost predicate Beats(best: Option<Arc>, metric: real) {
    best.Some? && best.value.metric <= metric
  }

  function Extensions(best: seq<Option<Path>>, arcs: seq<Option<Arc>>): (next: seq<Option<Path>>)
    requires |arcs| == STATES
    ensures |next| == STATES && forall s :: 0 <= s < STATES ==> next[s] == Extend(best, arcs[s])
  {
    seq(STATES, s requires 0 <= s < STATES => Extend(best, arcs[s]))
  }

  /** The least way into `s`. */
  ghost predicate LeastArc(rate: Rate, m: Metric, r: Received, metrics: seq<Option<real>>, s: nat, best: Option<Arc>)
    requires |metrics| == STATES
  {
    && (best.Some? ==> ArcInto(rate, m, r, metrics, s, best.value))
    && (forall a :: ArcInto(rate, m, r, metrics, s, a) ==> Beats(best, a.metric))
  }

  function Extend(best: seq<Option<Path>>, a: Option<Arc>): Option<Path> {
    match a
    case None => None
    case Some(arc) =>
      if arc.state < |best| && best[arc.state].Some? then Some(best[arc.state].value + [arc.b]) else None
  }

  lemma LastBranch(rate: Rate, n: nat, s: nat, path: Path)
    requires LeadsTo(rate, n + 1, s, path)
    ensures LeadsTo(rate, n, End(path[..n]), path[..n]) && Possible(rate, path[n])
    ensures NextState(End(path[..n]), path[n].y12) == s
    ensures path == path[..n] + [path[n]]
  {
  }

  /** A path one symbol longer is no closer than the best way on from the best paths. */
  lemma ExtensionLeast(rate: Rate, m: Metric, rs: seq<Received>, r: Received, best: seq<Option<Path>>,
                       metrics: seq<Option<real>>, s: nat, a: Option<Arc>, other: Path)
    requires AllOptimal(rate, m, rs, best) && MetricsOf(m, rs, best, metrics) && LeastArc(rate, m, r, metrics, s, a)
    requires LeadsTo(rate, |rs| + 1, s, other)
    ensures a.Some? && a.value.metric <= Cost(m, rs + [r], other)
  {
    var n := |rs|;
    LastBranch(rate, n, s, other);
    var head, b := other[..n], other[n];
    var from := End(head);
    assert Optimal(rate, m, rs, from, best[from]);
    CostLater(m, rs, r, head);
    CostOn(m, rs + [r], head, b);
    assert ArcInto(rate, m, r, metrics, s, Arc(from, b, metrics[from].value + m(r, from, b)));
  }

  lemma ExtensionOptimal(rate: Rate, m: Metric, rs: seq<Received>, r: Received, best: seq<Option<Path>>,
                         metrics: seq<Option<real>>, s: nat, a: Option<Arc>)
    requires AllOptimal(rate, m, rs, best) && MetricsOf(m, rs, best, metrics) && LeastArc(rate, m, r, metrics, s, a)
    ensures Optimal(rate, m, rs + [r], s, Extend(best, a))
    ensures a.Some? ==> Extend(best, a).Some? && Cost(m, rs + [r], Extend(best, a).value) == a.value.metric
    ensures a.Some? <==> Extend(best, a).Some?
  {
    var next := Extend(best, a);
    if a.Some? {
      var arc := a.value;
      assert Optimal(rate, m, rs, arc.state, best[arc.state]);
      var head := best[arc.state].value;
      EndOn(head, arc.b);
      CostLater(m, rs, r, head);
      CostOn(m, rs + [r], head, arc.b);
      assert LeadsTo(rate, |rs| + 1, s, head + [arc.b]);
    }
    assert |rs + [r]| == |rs| + 1;
    forall other | LeadsTo(rate, |rs + [r]|, s, other)
      ensures a.Some? && a.value.metric <= Cost(m, rs + [r], other)
    {
      ExtensionLeast(rate, m, rs, r, best, metrics, s, a, other);
    }
  }

  // ---- Add, compare, select ------------------------------------------------------------------------

  /** The squared distance from the point a branch sends. */
  function Distance(rate: Rate, r: Received, state: nat, b: Branch): (d: real)
    requires state < STATES && Possible(rate, b)
    ensures d >= 0.0
  {
    var p := PointOf(rate, state, b);
    Square(r.i - p.0 as real) + Square(r.q - p.1 as real)
  }

  ghost predicate MeasuresAt(m: Metric, rate: Rate, r: Received, state: nat, b: Branch) {
    state < STATES && Possible(rate, b) ==> m(r, state, b) == Distance(rate, r, state, b)
  }

  ghost predicate Measures(m: Metric, rate: Rate) {
    forall r, state: nat, b :: MeasuresAt(m, rate, r, state, b)
  }

  ghost function MetricOf(rate: Rate): Metric {
    (r: Received, state: nat, b: Branch) =>
      if state < STATES && Possible(rate, b) then Distance(rate, r, state, b) else 0.0
  }

  lemma MetricMeasures(rate: Rate)
    ensures Measures(MetricOf(rate), rate)
  {
    var m := MetricOf(rate);
    forall r, state: nat, b
      ensures MeasuresAt(m, rate, r, state, b)
    {
    }
  }

  method Measure(rate: Rate, r: Received, state: nat, b: Branch, ghost m: Metric) returns (d: real)
    requires state < STATES && Possible(rate, b) && Measures(m, rate)
    ensures d == m(r, state, b)
  {
    assert MeasuresAt(m, rate, r, state, b);
    d := Distance(rate, r, state, b);
  }

  /** The nearest point of a subset: the loop over x. */
  method BestBranch(rate: Rate, r: Received, state: nat, y12: nat, ghost m: Metric) returns (x: nat, d: real)
    requires state < STATES && y12 < 4 && Measures(m, rate)
    ensures x < PerSubset(rate) && d == m(r, state, Branch(y12, x))
    ensures forall k: nat :: k < PerSubset(rate) ==> d <= m(r, state, Branch(y12, k))
  {
    x := 0;
    d := Measure(rate, r, state, Branch(y12, 0), m);
    var k := 1;
    while k < PerSubset(rate)
      invariant 1 <= k <= PerSubset(rate) && x < PerSubset(rate) && d == m(r, state, Branch(y12, x))
      invariant forall j: nat :: j < k ==> d <= m(r, state, Branch(y12, j))
    {
      var e := Measure(rate, r, state, Branch(y12, k), m);
      if e < d {
        x, d := k, e;
      }
      k := k + 1;
    }
  }

  /** The arcs looked at so far: from states below `state`, and from it with y12 below `y12`. */
  ghost predicate Before(a: Arc, state: nat, y12: nat) {
    a.state < state || (a.state == state && a.b.y12 < y12)
  }

  /** The least of the arcs looked at so far. */
  ghost predicate LeastSoFar(rate: Rate, m: Metric, r: Received, metrics: seq<Option<real>>, s: nat, best: Option<Arc>,
                             state: nat, y12: nat)
    requires |metrics| == STATES
  {
    && (best.Some? ==> ArcInto(rate, m, r, metrics, s, best.value))
    && (forall a :: ArcInto(rate, m, r, metrics, s, a) && Before(a, state, y12) ==> Beats(best, a.metric))
  }

  ghost predicate AllLeastSoFar(rate: Rate, m: Metric, r: Received, metrics: seq<Option<real>>, arcs: seq<Option<Arc>>,
                                state: nat, y12: nat)
  {
    |metrics| == |arcs| == STATES &&
    forall s :: 0 <= s < STATES ==> LeastSoFar(rate, m, r, metrics, s, arcs[s], state, y12)
  }

  /** One candidate compared with what has been selected for the state it leads to. */
  method Compare(rate: Rate, ghost m: Metric, r: Received, metrics: seq<Option<real>>, arcs: seq<Option<Arc>>,
                 state: nat, y12: nat)
    returns (next: seq<Option<Arc>>)
    requires state < STATES && y12 < 4 && Measures(m, rate) && |metrics| == STATES && metrics[state].Some?
    requires AllLeastSoFar(rate, m, r, metrics, arcs, state, y12)
    ensures AllLeastSoFar(rate, m, r, metrics, next, state, y12 + 1)
  {
    var x, branch := BestBranch(rate, r, state, y12, m);
    var ns := NextState(state, y12);
    var candidate := metrics[state].value + branch;
    var arc := Arc(state, Branch(y12, x), candidate);
    next := if arcs[ns].None? || candidate < arcs[ns].value.metric then arcs[ns := Some(arc)] else arcs;
    forall s | 0 <= s < STATES
      ensures LeastSoFar(rate, m, r, metrics, s, next[s], state, y12 + 1)
    {
      assert LeastSoFar(rate, m, r, metrics, s, arcs[s], state, y12);
      forall a | ArcInto(rate, m, r, metrics, s, a) && Before(a, state, y12 + 1)
        ensures Beats(next[s], a.metric)
      {
        if !Before(a, state, y12) {
          assert a.b == Branch(y12, a.b.x);
        }
      }
    }
  }

  /** The loops over states and coded bits. */
  method Select(rate: Rate, ghost m: Metric, r: Received, metrics: seq<Option<real>>) returns (arcs: seq<Option<Arc>>)
    requires Measures(m, rate) && |metrics| == STATES
    ensures |arcs| == STATES && forall s :: 0 <= s < STATES ==> LeastArc(rate, m, r, metrics, s, arcs[s])
  {
    arcs := seq(STATES, s => None);
    for state := 0 to STATES
      invariant AllLeastSoFar(rate, m, r, metrics, arcs, state, 0)
    {
      if metrics[state].Some? {
        for y12 := 0 to 4
          invariant AllLeastSoFar(rate, m, r, metrics, arcs, state, y12)
        {
          arcs := Compare(rate, m, r, metrics, arcs, state, y12);
        }
      }
      NextRow(rate, m, r, metrics, arcs, state);
    }
    forall s | 0 <= s < STATES
      ensures LeastArc(rate, m, r, metrics, s, arcs[s])
    {
      assert LeastSoFar(rate, m, r, metrics, s, arcs[s], STATES, 0);
    }
  }

  lemma NextRow(rate: Rate, m: Metric, r: Received, metrics: seq<Option<real>>, arcs: seq<Option<Arc>>, state: nat)
    requires state < STATES && |metrics| == STATES
    requires AllLeastSoFar(rate, m, r, metrics, arcs, state, if metrics[state].Some? then 4 else 0)
    ensures AllLeastSoFar(rate, m, r, metrics, arcs, state + 1, 0)
  {
    forall s | 0 <= s < STATES
      ensures LeastSoFar(rate, m, r, metrics, s, arcs[s], state + 1, 0)
    {
      assert LeastSoFar(rate, m, r, metrics, s, arcs[s], state, if metrics[state].Some? then 4 else 0);
    }
  }

  // ---- The decoder -------------------------------------------------------------------------------------

  /** What is stored for a branch: the coded bits above the others. */
  function Payload(rate: Rate, b: Branch): nat {
    b.y12 * PerSubset(rate) + b.x
  }

  /** The best paths after each number of symbols; each is the one before it and a branch. */
  ghost predicate Chain(rate: Rate, m: Metric, rs: seq<Received>, history: seq<seq<Option<Path>>>) {
    && |history| == |rs| + 1
    && (forall n :: 0 <= n <= |rs| ==> AllOptimal(rate, m, rs[..n], history[n]))
    && (forall n, s :: 0 <= n < |rs| && 0 <= s < STATES ==> Linked(history, n, s))
  }

  ghost predicate Linked(history: seq<seq<Option<Path>>>, n: nat, s: nat)
    requires n + 1 < |history| && s < STATES
  {
    |history[n]| == |history[n + 1]| == STATES &&
    (history[n + 1][s].Some? ==>
      var path := history[n + 1][s].value;
      |path| == n + 1 && history[n][End(path[..n])] == Some(path[..n]))
  }

  /** The stored predecessor and payload for the symbol after `n` others. */
  ghost predicate Stored(rate: Rate, history: seq<seq<Option<Path>>>, n: nat, predecessor: seq<nat>, payload: seq<nat>)
    requires n + 1 < |history|
  {
    && |predecessor| == |payload| == |history[n + 1]| == STATES
    && forall s :: 0 <= s < STATES && history[n + 1][s].Some? && |history[n + 1][s].value| == n + 1 ==>
      predecessor[s] == End(history[n + 1][s].value[..n]) && payload[s] == Payload(rate, history[n + 1][s].value[n])
  }

  /** The closest state; the first of several. */
  method Closest(metrics: seq<Option<real>>) returns (state: nat)
    requires |metrics| == STATES
    ensures state < STATES && (metrics[state].None? ==> forall s :: 0 <= s < STATES ==> metrics[s].None?)
    ensures metrics[state].Some? ==>
      forall s :: 0 <= s < STATES && metrics[s].Some? ==> metrics[state].value <= metrics[s].value
  {
    state := 0;
    for s := 1 to STATES
      invariant state < STATES && (metrics[state].None? ==> forall k :: 0 <= k < s ==> metrics[k].None?)
      invariant metrics[state].Some? ==>
        forall k :: 0 <= k < s && metrics[k].Some? ==> metrics[state].value <= metrics[k].value
    {
      if metrics[s].Some? && (metrics[state].None? || metrics[s].value < metrics[state].value) {
        state := s;
      }
    }
  }

  class Viterbi {
    const rate: Rate
    var metrics: seq<Option<real>>
    const predecessor: array<seq<nat>>
    const payload: array<seq<nat>>
    var time: nat
    ghost var m: Metric
    ghost var received: seq<Received>
    ghost var history: seq<seq<Option<Path>>>

    ghost predicate Valid()
      reads this, predecessor, payload
    {
      && predecessor != payload && predecessor.Length == TRACEBACK && payload.Length == TRACEBACK
      && Measures(m, rate) && time == |received| && Chain(rate, m, received, history)
      && MetricsOf(m, received, history[time], metrics)
      && AllStored(rate, history, predecessor[..], payload[..])
    }

    /** v32bis_viterbi_init: only state 0 has been reached, at no cost. */
    constructor (rate: Rate)
      ensures Valid() && fresh(predecessor) && fresh(payload) && this.rate == rate && received == []
      ensures m == MetricOf(rate)
    {
      this.rate := rate;
      metrics := seq(STATES, s => if s == 0 then Some(0.0) else None);
      predecessor := new seq<nat>[TRACEBACK](i => []);
      payload := new seq<nat>[TRACEBACK](i => []);
      time := 0;
      m, received := MetricOf(rate), [];
      var none: Path := [];
      history := [seq(STATES, s => if s == 0 then Some(none) else None)];
      new;
      MetricMeasures(rate);
      StartOptimal(rate, m, history[0]);
    }

    /** Back along the predecessors to the oldest symbol still stored. */
    method Traceback(start: nat, ghost path: Path) returns (state: nat)
      requires Valid() && time >= TRACEBACK && start < STATES && history[time][start] == Some(path) && |path| == time
      ensures state == End(path[..time - (TRACEBACK - 1)])
      ensures history[time - (TRACEBACK - 1)][state] == Some(path[..time - (TRACEBACK - 1)])
    {
      state := start;
      assert path[..time] == path;
      assert Optimal(rate, m, received[..time], start, history[time][start]);
      assert received[..time] == received;
      for back := 0 to TRACEBACK - 1
        invariant state == End(path[..time - back]) && history[time - back][state] == Some(path[..time - back])
      {
        var n := time - 1 - back;
        assert Linked(history, n, state);
        assert Stored(rate, history, n, predecessor[..][n % TRACEBACK], payload[..][n % TRACEBACK]);
        assert path[..n + 1][..n] == path[..n];
        state := predecessor[n % TRACEBACK][state];
      }
    }

    /** v32bis_viterbi_put: nothing for the first 31 symbols; from then on the payload of the
        symbol 31 before, on a path none is closer than. */
    method Put(r: Received) returns (out: Option<nat>)
      requires Valid()
      modifies this`metrics, this`time, this`received, this`history, predecessor, payload
      ensures Valid() && received == old(received) + [r]
      ensures out.Some? <==> time >= TRACEBACK
      ensures out.Some? ==>
        exists path :: Nearest(rate, m, received, path) && out.value == Payload(rate, path[time - TRACEBACK])
    {
      Update(r);
      if time < TRACEBACK {
        return None;
      }
      var payload := Decide();
      return Some(payload);
    }

    lemma OldestStored(state: nat, path: Path, n: nat)
      requires Valid() && time == n + TRACEBACK && |path| == time && state < STATES
      requires history[n + 1][state] == Some(path[..n + 1])
      ensures payload[n % TRACEBACK][state] == Payload(rate, path[n])
    {
      assert Stored(rate, history, n, predecessor[..][n % TRACEBACK], payload[..][n % TRACEBACK]);
      assert path[..n + 1][n] == path[n];
    }

    /** The part of it after the new symbol is stored. */
    method Decide() returns (out: nat)
      requires Valid() && time >= TRACEBACK
      ensures exists path :: Nearest(rate, m, received, path) && out == Payload(rate, path[time - TRACEBACK])
    {
      var state := Closest(metrics);
      assert received[..time] == received && AllOptimal(rate, m, received[..time], history[time]);
      ghost var path := ClosestIsNearest(rate, m, received, history[time], metrics, state);
      var oldest := Traceback(state, path);
      var n := time - TRACEBACK;
      OldestStored(oldest, path, n);
      return payload[n % TRACEBACK][oldest];
    }

    /** The part of it before the traceback. */
    method Update(r: Received)
      requires Valid()
      modifies this`metrics, this`time, this`received, this`history, predecessor, payload
      ensures Valid() && received == old(received) + [r]
    {
      var arcs := Select(rate, m, r, metrics);
      var slot := time % TRACEBACK;
      ghost var before, last := history, history[time];
      ghost var ps, qs := predecessor[..], payload[..];
      ghost var best := Extensions(last, arcs);
      assert received[..time] == received;
      StepChain(rate, m, received, r, history, metrics, arcs, best);
      metrics := seq(STATES, s requires 0 <= s < STATES => if arcs[s].Some? then Some(arcs[s].value.metric) else None);
      predecessor[slot] := seq(STATES, s requires 0 <= s < STATES => if arcs[s].Some? then arcs[s].value.state else 0);
      payload[slot] :=
        seq(STATES, s requires 0 <= s < STATES => if arcs[s].Some? then Payload(rate, arcs[s].value.b) else 0);
      history := history + [best];
      received := received + [r];
      time := time + 1;
      StepStored(rate, m, old(received), r, before, old(metrics), arcs, best, predecessor[slot], payload[slot]);
      RingStored(rate, before, best, ps, qs, predecessor[slot], payload[slot]);
      assert predecessor[..] == ps[slot := predecessor[slot]] && payload[..] == qs[slot := payload[slot]];
    }
  }

  ghost predicate AllStored(rate: Rate, history: seq<seq<Option<Path>>>, ps: seq<seq<nat>>, qs: seq<seq<nat>>) {
    && |ps| == |qs| == TRACEBACK
    && forall n :: 0 <= n < |history| - 1 && |history| - 1 <= n + TRACEBACK ==>
      Stored(rate, history, n, ps[n % TRACEBACK], qs[n % TRACEBACK])
  }

  /** The new entries take the place of ones too old to be looked at. */
  lemma RingStored(rate: Rate, before: seq<seq<Option<Path>>>, best: seq<Option<Path>>, ps: seq<seq<nat>>,
                   qs: seq<seq<nat>>, p: seq<nat>, q: seq<nat>)
    requires |before| > 0 && AllStored(rate, before, ps, qs) && Stored(rate, before + [best], |before| - 1, p, q)
    ensures var slot := (|before| - 1) % TRACEBACK;
      AllStored(rate, before + [best], ps[slot := p], qs[slot := q])
  {
    var time := |before| - 1;
    var slot := time % TRACEBACK;
    var history := before + [best];
    forall n | 0 <= n < |history| - 1 && |history| - 1 <= n + TRACEBACK
      ensures Stored(rate, history, n, ps[slot := p][n % TRACEBACK], qs[slot := q][n % TRACEBACK])
    {
      if n < time {
        OtherSlot(n, time);
        assert Stored(rate, before, n, ps[n % TRACEBACK], qs[n % TRACEBACK]);
      }
    }
  }

  lemma OtherSlot(n: nat, k: nat)
    requires n < k < n + TRACEBACK
    ensures n % TRACEBACK != k % TRACEBACK
  {
  }

  /** No path of this length is closer. */
  ghost predicate Nearest(rate: Rate, m: Metric, rs: seq<Received>, path: Path) {
    && |path| == |rs| && Feasible(rate, path)
    && forall other :: Feasible(rate, other) && |other| == |rs| ==> Cost(m, rs, path) <= Cost(m, rs, other)
  }

  lemma ClosestIsNearest(rate: Rate, m: Metric, rs: seq<Received>, best: seq<Option<Path>>, metrics: seq<Option<real>>,
                         state: nat)
    returns (path: Path)
    requires AllOptimal(rate, m, rs, best) && MetricsOf(m, rs, best, metrics) && state < STATES
    requires metrics[state].None? ==> forall s :: 0 <= s < STATES ==> metrics[s].None?
    requires metrics[state].Some? ==>
      forall s :: 0 <= s < STATES && metrics[s].Some? ==> metrics[state].value <= metrics[s].value
    ensures best[state] == Some(path) && Nearest(rate, m, rs, path)
  {
    var some: Path := seq(|rs|, i => Branch(0, 0));
    assert Optimal(rate, m, rs, End(some), best[End(some)]);
    assert LeadsTo(rate, |rs|, End(some), some);
    assert Optimal(rate, m, rs, state, best[state]);
    path := best[state].value;
    forall other | Feasible(rate, other) && |other| == |rs|
      ensures Cost(m, rs, path) <= Cost(m, rs, other)
    {
      assert LeadsTo(rate, |rs|, End(other), other);
      assert Optimal(rate, m, rs, End(other), best[End(other)]);
    }
  }

  /** One more symbol makes the chain one longer. */
  lemma StepChain(rate: Rate, m: Metric, rs: seq<Received>, r: Received, history: seq<seq<Option<Path>>>,
                  metrics: seq<Option<real>>, arcs: seq<Option<Arc>>, best: seq<Option<Path>>)
    requires Chain(rate, m, rs, history) && MetricsOf(m, rs, history[|rs|], metrics) && |arcs| == |best| == STATES
    requires forall s :: 0 <= s < STATES ==>
      LeastArc(rate, m, r, metrics, s, arcs[s]) && best[s] == Extend(history[|rs|], arcs[s])
    ensures Chain(rate, m, rs + [r], history + [best])
    ensures MetricsOf(m, rs + [r], best,
                      seq(STATES, s requires 0 <= s < STATES =>
                        if arcs[s].Some? then Some(arcs[s].value.metric) else None))
  {
    var n := |rs|;
    var longer := history + [best];
    assert rs[..n] == rs;
    assert AllOptimal(rate, m, rs, history[n]);
    forall s | 0 <= s < STATES
      ensures Optimal(rate, m, rs + [r], s, best[s]) && Linked(longer, n, s)
      ensures arcs[s].Some? <==> best[s].Some?
      ensures best[s].Some? ==> Cost(m, rs + [r], best[s].value) == arcs[s].value.metric && |best[s].value| == n + 1
    {
      ExtensionOptimal(rate, m, rs, r, history[n], metrics, s, arcs[s]);
      ExtensionLinked(rate, m, rs, r, history[n], metrics, s, arcs[s]);
      assert longer[n] == history[n] && longer[n + 1] == best;
    }
    assert (rs + [r])[..n + 1] == rs + [r];
    forall k | 0 <= k <= n
      ensures AllOptimal(rate, m, (rs + [r])[..k], longer[k])
    {
      assert (rs + [r])[..k] == rs[..k];
    }
    forall k, s | 0 <= k < n && 0 <= s < STATES
      ensures Linked(longer, k, s)
    {
      assert Linked(history, k, s);
    }
  }

  lemma ExtensionLinked(rate: Rate, m: Metric, rs: seq<Received>, r: Received, best: seq<Option<Path>>,
                        metrics: seq<Option<real>>, s: nat, a: Option<Arc>)
    requires AllOptimal(rate, m, rs, best) && MetricsOf(m, rs, best, metrics) && LeastArc(rate, m, r, metrics, s, a)
    ensures a.Some? ==>
      var path := Extend(best, a);
      && path.Some? && |path.value| == |rs| + 1 && path.value[..|rs|] == best[a.value.state].value
      && path.value[|rs|] == a.value.b && End(path.value[..|rs|]) == a.value.state && best[a.value.state].Some?
  {
    if a.Some? {
      assert Optimal(rate, m, rs, a.value.state, best[a.value.state]);
    }
  }

  lemma StepStored(rate: Rate, m: Metric, rs: seq<Received>, r: Received, history: seq<seq<Option<Path>>>,
                   metrics: seq<Option<real>>, arcs: seq<Option<Arc>>, best: seq<Option<Path>>,
                   predecessor: seq<nat>, payload: seq<nat>)
    requires Chain(rate, m, rs, history) && MetricsOf(m, rs, history[|rs|], metrics) && |arcs| == |best| == STATES
    requires forall s :: 0 <= s < STATES ==>
      LeastArc(rate, m, r, metrics, s, arcs[s]) && best[s] == Extend(history[|rs|], arcs[s])
    requires |predecessor| == |payload| == STATES
    requires forall s :: 0 <= s < STATES && arcs[s].Some? ==>
      predecessor[s] == arcs[s].value.state && payload[s] == Payload(rate, arcs[s].value.b)
    ensures Stored(rate, history + [best], |rs|, predecessor, payload)
  {
    assert rs[..|rs|] == rs;
    forall s | 0 <= s < STATES && best[s].Some?
      ensures predecessor[s] == End(best[s].value[..|rs|]) && payload[s] == Payload(rate, best[s].value[|rs|])
    {
      ExtensionLinked(rate, m, rs, r, history[|rs|], metrics, s, arcs[s]);
    }
  }

  lemma StartOptimal(rate: Rate, m: Metric, best: seq<Option<Path>>)
    requires |best| == STATES && best[0] == Some([]) && forall s :: 1 <= s < STATES ==> best[s] == None
    ensures AllOptimal(rate, m, [], best)
  {
    forall s | 0 <= s < STATES
      ensures Optimal(rate, m, [], s, best[s])
    {
      var none: Path := [];
      assert LeadsTo(rate, 0, 0, none);
    }
  }
}
