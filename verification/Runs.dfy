/** Induction over runs of a step system. */
module Runs {

  /** The step at i keeps p. */
  ghost predicate Keeps<S(!new)>(states: seq<S>, p: S -> bool, i: nat) {
    i + 1 < |states| && (p(states[i]) ==> p(states[i + 1]))
  }

  /** What holds at first and is kept by every step holds throughout. */
  lemma {:induction false} Throughout<S(!new)>(states: seq<S>, p: S -> bool, n: nat)
    requires n < |states| && p(states[0])
    requires forall i: nat :: i < n ==> Keeps(states, p, i)
    ensures p(states[n])
  {
    if n > 0 {
      Throughout(states, p, n - 1);
      assert Keeps(states, p, n - 1);
    }
  }
}
