/** Runs of a state machine as folds, for any state and event type. */
module Folding {
  function Front<E>(es: seq<E>): seq<E>
    requires es != []
  {
    es[..|es| - 1]
  }

  function Last<E>(es: seq<E>): E
    requires es != []
  {
    es[|es| - 1]
  }

  function Fold<S, E>(step: (S, E) -> S, init: S, es: seq<E>): S {
    if es == [] then init else step(Fold(step, init, Front(es)), Last(es))
  }

  lemma {:induction false} FoldConcat<S, E>(step: (S, E) -> S, init: S, a: seq<E>, b: seq<E>)
    ensures Fold(step, init, a + b) == Fold(step, Fold(step, init, a), b)
  {
    if b == [] {
      assert a + b == a;
    } else {
      assert Front(a + b) == a + Front(b);
      FoldConcat(step, init, a, Front(b));
    }
  }
}
