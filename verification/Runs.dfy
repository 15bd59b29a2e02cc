/** Runs of a system of threads: any interleaving is a sequence of actions, each enabled when it is taken. */
module Runs {
  import opened Arithmetic

  datatype Option<+T> = None | Some(value: T)

  /** The state after a run; None if some action was not enabled when it was its turn. */
  function After<S, A>(step: (S, A) -> Option<S>, init: S, actions: seq<A>): Option<S> {
    if actions == [] then Some(init)
    else
      var before := After(step, init, actions[..|actions| - 1]);
      if before.None? then None else step(before.value, actions[|actions| - 1])
  }

  /** What holds at the start and is kept by every step holds after every run. */
  lemma {:induction false} InvariantHolds<S(!new), A(!new)>(
      step: (S, A) -> Option<S>, init: S, inv: S -> bool, actions: seq<A>)
    requires inv(init)
    requires forall s, a :: inv(s) && step(s, a).Some? ==> inv(step(s, a).value)
    ensures After(step, init, actions).Some? ==> inv(After(step, init, actions).value)
  {
    if actions != [] {
      InvariantHolds(step, init, inv, actions[..|actions| - 1]);
    }
  }

  /** One more action. */
  lemma AfterNext<S, A>(step: (S, A) -> Option<S>, init: S, actions: seq<A>, a: A)
    ensures var before := After(step, init, actions);
            After(step, init, actions + [a]) == if before.None? then None else step(before.value, a)
  {
    assert (actions + [a])[..|actions|] == actions;
  }

  /** A run may stop and go on. */
  lemma {:induction false} AfterAppend<S, A>(step: (S, A) -> Option<S>, init: S, a: seq<A>, b: seq<A>)
    ensures After(step, init, a).None? ==> After(step, init, a + b).None?
    ensures After(step, init, a).Some? ==> After(step, init, a + b) == After(step, After(step, init, a).value, b)
    decreases |b|
  {
    if b == [] {
      assert a + b == a;
    } else {
      assert (a + b)[..|a + b| - 1] == a + b[..|b| - 1];
      AfterAppend(step, init, a, b[..|b| - 1]);
    }
  }

  /** Every step is progress, or uses up some of a bounded allowance. */
  ghost predicate Advances<S(!new), A(!new)>(
      step: (S, A) -> Option<S>, inv: S -> bool, progress: S -> nat, rest: S -> nat, bound: nat)
  {
    forall s, a :: inv(s) && step(s, a).Some? ==>
      var s' := step(s, a).value;
      && inv(s') && rest(s') <= bound
      && (progress(s') == progress(s) + 1 || (progress(s') == progress(s) && rest(s') < rest(s)))
  }

  /** So progress is made at least once in every bound + 1 steps, whichever threads are scheduled. */
  lemma {:induction false} ProgressIsMade<S(!new), A(!new)>(
      step: (S, A) -> Option<S>, inv: S -> bool, progress: S -> nat, rest: S -> nat, bound: nat, s: S, actions: seq<A>)
    requires inv(s) && rest(s) <= bound && Advances(step, inv, progress, rest, bound)
    requires After(step, s, actions).Some?
    ensures var s' := After(step, s, actions).value;
            && inv(s') && rest(s') <= bound && progress(s') >= progress(s)
            && |actions| + rest(s') <= (bound + 1) * (progress(s') - progress(s)) + rest(s)
  {
    if actions != [] {
      var a := actions[..|actions| - 1];
      ProgressIsMade(step, inv, progress, rest, bound, s, a);
      var t, s' := After(step, s, a).value, After(step, s, actions).value;
      assert step(t, actions[|actions| - 1]) == Some(s');
      var p := progress(t) - progress(s);
      assert (bound + 1) * (p + 1) == (bound + 1) * p + (bound + 1);
    }
  }

  /** Enough steps make any amount of progress. */
  lemma EnoughSteps<S(!new), A(!new)>(
      step: (S, A) -> Option<S>, inv: S -> bool, progress: S -> nat, rest: S -> nat, bound: nat, s: S, actions: seq<A>,
      target: nat)
    requires inv(s) && rest(s) <= bound && Advances(step, inv, progress, rest, bound)
    requires After(step, s, actions).Some? && |actions| >= (bound + 1) * target
    ensures progress(After(step, s, actions).value) >= progress(s) + target
  {
    hide Advances;
    ProgressIsMade(step, inv, progress, rest, bound, s, actions);
    var made := progress(After(step, s, actions).value) - progress(s);
    assert (bound + 1) * (made + 1) == (bound + 1) * made + (bound + 1);
    if made < target {
      MulMonotone(bound + 1, made + 1, target);
    }
  }

  ghost predicate Distinct<T>(xs: seq<T>) {
    forall i, j :: 0 <= i < j < |xs| ==> xs[i] != xs[j]
  }

  function Sum(xs: seq<nat>): nat {
    if xs == [] then 0 else Sum(xs[..|xs| - 1]) + xs[|xs| - 1]
  }

  lemma {:induction false} SumUpdate(xs: seq<nat>, i: nat, x: nat)
    requires i < |xs|
    ensures Sum(xs[i := x]) + xs[i] == Sum(xs) + x
  {
    var n, ys := |xs| - 1, xs[i := x];
    if i < n {
      assert ys[..n] == xs[..n][i := x];
      SumUpdate(xs[..n], i, x);
    } else {
      assert ys[..n] == xs[..n];
    }
  }

  lemma {:induction false} SumLess(xs: seq<nat>, ys: seq<nat>, i: nat)
    requires |xs| == |ys| && i < |xs| && ys[i] < xs[i]
    requires forall j :: 0 <= j < |xs| ==> ys[j] <= xs[j]
    ensures Sum(ys) < Sum(xs)
    decreases |xs|
  {
    var n := |xs| - 1;
    if i < n {
      SumLess(xs[..n], ys[..n], i);
    } else {
      SumLessEqual(xs[..n], ys[..n]);
    }
  }

  lemma {:induction false} SumLessEqual(xs: seq<nat>, ys: seq<nat>)
    requires |xs| == |ys| && forall j :: 0 <= j < |xs| ==> ys[j] <= xs[j]
    ensures Sum(ys) <= Sum(xs)
    decreases |xs|
  {
    if xs != [] {
      SumLessEqual(xs[..|xs| - 1], ys[..|xs| - 1]);
    }
  }

  lemma {:induction false} SumBound(xs: seq<nat>, b: nat)
    requires forall j :: 0 <= j < |xs| ==> xs[j] <= b
    ensures Sum(xs) <= b * |xs|
  {
    if xs != [] {
      SumBound(xs[..|xs| - 1], b);
      assert b * |xs| == b * (|xs| - 1) + b;
    }
  }

  // How far threads in the places ps are from what they do next, each place having a weight.

  function Weights<P>(weight: P -> nat, ps: seq<P>): (ws: seq<nat>)
    ensures |ws| == |ps|
  {
    seq(|ps|, i requires 0 <= i < |ps| => weight(ps[i]))
  }

  function Distance<P>(weight: P -> nat, ps: seq<P>): nat { Sum(Weights(weight, ps)) }

  lemma DistanceBound<P>(weight: P -> nat, ps: seq<P>, b: nat)
    requires forall j :: 0 <= j < |ps| ==> weight(ps[j]) <= b
    ensures Distance(weight, ps) <= b * |ps|
  {
    SumBound(Weights(weight, ps), b);
  }

  /** If no thread is farther and one is nearer the distance is less. */
  lemma DistanceLess<P>(weight: P -> nat, ps: seq<P>, qs: seq<P>, i: nat)
    requires |ps| == |qs| && i < |ps| && weight(qs[i]) < weight(ps[i])
    requires forall j :: 0 <= j < |ps| ==> weight(qs[j]) <= weight(ps[j])
    ensures Distance(weight, qs) < Distance(weight, ps)
  {
    SumLess(Weights(weight, ps), Weights(weight, qs), i);
  }
}
