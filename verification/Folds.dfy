/** Left folds. A hash value is a fold of the compression function over the blocks of a
    message, and the rounds inside a compression are a fold of one step over the round inputs. */
module Folds {

  /** Feeds ms to step from left to right, starting in state s. */
  function Fold<S, M>(step: (S, M) -> S, s: S, ms: seq<M>): S {
    if ms == [] then s else step(Fold(step, s, ms[..|ms| - 1]), ms[|ms| - 1])
  }

  /** Feeds ms to unstep from right to left. */
  function Unfold<S, M>(unstep: (S, M) -> S, s: S, ms: seq<M>): S {
    if ms == [] then s else Unfold(unstep, unstep(s, ms[|ms| - 1]), ms[..|ms| - 1])
  }

  /** True when unstep undoes step for every input, and step undoes unstep. */
  ghost predicate Inverse<S(!new), M(!new)>(step: (S, M) -> S, unstep: (S, M) -> S) {
    forall s, m :: unstep(step(s, m), m) == s && step(unstep(s, m), m) == s
  }

  lemma {:induction false} FoldAppend<S, M>(step: (S, M) -> S, s: S, ms: seq<M>, ns: seq<M>)
    ensures Fold(step, s, ms + ns) == Fold(step, Fold(step, s, ms), ns)
  {
    if ns == [] {
      assert ms + ns == ms;
    } else {
      var init := ns[..|ns| - 1];
      assert (ms + ns)[..|ms + ns| - 1] == ms + init;
      FoldAppend(step, s, ms, init);
    }
  }

  /** One more input is one more step. */
  lemma FoldNext<S, M>(step: (S, M) -> S, s: S, ms: seq<M>, i: nat)
    requires i < |ms|
    ensures Fold(step, s, ms[..i + 1]) == step(Fold(step, s, ms[..i]), ms[i])
  {
    assert ms[..i + 1][..i] == ms[..i];
  }

  /** A fold of an invertible step is a bijection on states, undone from the last input back. */
  lemma {:induction false} FoldBijection<S(!new), M(!new)>(
      step: (S, M) -> S, unstep: (S, M) -> S, s: S, ms: seq<M>)
    requires Inverse(step, unstep)
    ensures Unfold(unstep, Fold(step, s, ms), ms) == s
    ensures Fold(step, Unfold(unstep, s, ms), ms) == s
    decreases |ms|
  {
    if ms != [] {
      var init, last := ms[..|ms| - 1], ms[|ms| - 1];
      FoldBijection(step, unstep, s, init);
      FoldBijection(step, unstep, unstep(s, last), init);
      assert Unfold(unstep, Fold(step, s, ms), ms)
          == Unfold(unstep, unstep(step(Fold(step, s, init), last), last), init);
    }
  }

  function Concat<T>(xs: seq<seq<T>>): seq<T> {
    if xs == [] then [] else Concat(xs[..|xs| - 1]) + xs[|xs| - 1]
  }

  lemma ConcatLast<T>(xs: seq<seq<T>>, x: seq<T>)
    ensures Concat(xs + [x]) == Concat(xs) + x
  {
    assert (xs + [x])[..|xs|] == xs;
  }

  lemma ConcatNone<T>()
    ensures Concat<T>([]) == []
  {}

  lemma {:induction false} ConcatFront<T>(x: seq<T>, xs: seq<seq<T>>)
    ensures Concat([x] + xs) == x + Concat(xs)
  {
    if xs == [] {
      assert [x] + xs == [x] && [x][..0] == [];
      assert Concat([x]) == Concat([]) + x;
    } else {
      var init := xs[..|xs| - 1];
      assert ([x] + xs)[..|xs|] == [x] + init;
      ConcatFront(x, init);
    }
  }
}
