/** Runs: a step function folded over a sequence of actions. */
module Runs {

  function Fold<S, A>(step: (S, A) -> S, s: S, actions: seq<A>): S
    decreases |actions|
  {
    if actions == [] then s
    else step(Fold(step, s, actions[..|actions| - 1]), actions[|actions| - 1])
  }

  lemma FoldNext<S, A>(step: (S, A) -> S, s: S, actions: seq<A>, k: nat)
    requires k < |actions|
    ensures Fold(step, s, actions[..k + 1]) == step(Fold(step, s, actions[..k]), actions[k])
  {
    assert actions[..k + 1][..k] == actions[..k];
  }

  /** A run that goes on is a run from where it had got to. */
  lemma {:induction false} FoldAppend<S, A>(step: (S, A) -> S, s: S, actions: seq<A>, more: seq<A>)
    ensures Fold(step, s, actions + more) == Fold(step, Fold(step, s, actions), more)
    decreases |more|
  {
    if more == [] {
      assert actions + more == actions;
    } else {
      var front := more[..|more| - 1];
      FoldAppend(step, s, actions, front);
      assert (actions + more)[..|actions + more| - 1] == actions + front;
    }
  }

  /** All states of a run, with the one after k steps identified. */
  lemma {:induction false} Trace<S, A>(step: (S, A) -> S, s: S, actions: seq<A>, k: nat) returns (t: seq<S>)
    requires k <= |actions|
    ensures |t| == |actions| + 1 && t[0] == s
    ensures forall i | 0 <= i < |actions| :: t[i + 1] == step(t[i], actions[i])
    ensures t[k] == Fold(step, s, actions[..k]) && t[|actions|] == Fold(step, s, actions)
    decreases |actions|
  {
    if actions == [] {
      t := [s];
    } else {
      var before := actions[..|actions| - 1];
      var m := if k < |actions| then k else k - 1;
      t := Trace(step, s, before, m);
      assert before[..m] == actions[..m];
      t := t + [step(t[|before|], actions[|before|])];
      assert actions[..|actions|] == actions;
    }
  }
}
