/** Induction along a run of a state machine. */
module Runs {

  /** What holds at the start and is kept by every step holds throughout. */
  lemma {:induction false} Along<S(!new)>(states: seq<S>, inv: S -> bool, i: nat)
    requires i < |states| && inv(states[0])
    requires forall k :: 0 <= k < |states| - 1 && inv(states[k]) ==> inv(states[k + 1])
    ensures inv(states[i])
    decreases i
  {
    if i > 0 {
      Along(states, inv, i - 1);
    }
  }
}
