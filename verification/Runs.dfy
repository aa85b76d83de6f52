/** Finite runs of a labelled transition system, and the two induction
    principles every protocol of this project uses. */
module Runs {

  /** `states` is a run that takes the steps `steps` one after the other. */
  ghost predicate IsRun<S(!new), L(!new)>(next: (S, L, S) -> bool, states: seq<S>, steps: seq<L>) {
    && |states| == |steps| + 1
    && forall i :: 0 <= i < |steps| ==> next(states[i], steps[i], states[i + 1])
  }

  /** What holds at the start and is kept by every step holds throughout. */
  lemma {:induction false} InvariantHolds<S(!new), L(!new)>(
      next: (S, L, S) -> bool, inv: S -> bool, states: seq<S>, steps: seq<L>)
    requires IsRun(next, states, steps)
    requires inv(states[0])
    requires forall s, l, s' :: inv(s) && next(s, l, s') ==> inv(s')
    ensures forall i :: 0 <= i < |states| ==> inv(states[i])
  {
    for k := 0 to |steps|
      invariant forall i :: 0 <= i <= k ==> inv(states[i])
    {
      assert next(states[k], steps[k], states[k + 1]);
    }
  }

  /** A reflexive and transitive order that every step from a good state moves
      along relates any two states of the run, earlier to later. */
  lemma {:induction false} OrderHolds<S(!new), L(!new)>(
      next: (S, L, S) -> bool, inv: S -> bool, order: (S, S) -> bool, states: seq<S>, steps: seq<L>, i: nat, j: nat)
    requires IsRun(next, states, steps)
    requires i <= j < |states|
    requires forall k :: 0 <= k < |states| ==> inv(states[k])
    requires forall s :: order(s, s)
    requires forall s, t, u :: order(s, t) && order(t, u) ==> order(s, u)
    requires forall s, l, s' :: inv(s) && next(s, l, s') ==> order(s, s')
    ensures order(states[i], states[j])
  {
    for k := i to j
      invariant order(states[i], states[k])
    {
      assert next(states[k], steps[k], states[k + 1]);
      assert order(states[k], states[k + 1]);
    }
  }

  /** Two runs, the second from where the first ends. */
  lemma {:induction false} Join<S(!new), L(!new)>(
      next: (S, L, S) -> bool, states: seq<S>, steps: seq<L>, states': seq<S>, steps': seq<L>)
    requires IsRun(next, states, steps) && IsRun(next, states', steps') && states[|steps|] == states'[0]
    ensures IsRun(next, states + states'[1..], steps + steps')
    ensures forall k :: 0 <= k < |states'| ==> (states + states'[1..])[|steps| + k] == states'[k]
  {
    var all, both := states + states'[1..], steps + steps';
    forall k | 0 <= k < |states'| ensures all[|steps| + k] == states'[k] {
    }
    forall i | 0 <= i < |both| ensures next(all[i], both[i], all[i + 1]) {
      if i < |steps| {
        assert next(states[i], steps[i], states[i + 1]);
      } else {
        assert next(states'[i - |steps|], steps'[i - |steps|], states'[i - |steps| + 1]);
      }
    }
  }
}
