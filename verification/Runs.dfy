/** Runs of a transition system. */
module Runs {
  /** The state after the actions, one step each. */
  function StateAfter<S, A>(step: (S, A) -> S, st: S, actions: seq<A>): S {
    if actions == [] then st else step(StateAfter(step, st, actions[..|actions| - 1]), actions[|actions| - 1])
  }

  /** A run is a run of its first part, then a run of the rest from there. */
  lemma {:induction false} StateAfterSplits<S, A>(step: (S, A) -> S, st: S, before: seq<A>, after: seq<A>)
    ensures StateAfter(step, st, before + after) == StateAfter(step, StateAfter(step, st, before), after)
  {
    if after == [] {
      assert before + after == before;
    } else {
      var n := |after| - 1;
      assert (before + after)[..|before| + n] == before + after[..n];
      StateAfterSplits(step, st, before, after[..n]);
    }
  }
}
