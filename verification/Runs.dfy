/** Runs of a state machine: the states it goes through, and the steps between them. */
module Runs {

  datatype Run<S, T> = Run(states: seq<S>, steps: seq<T>)

  ghost predicate StepAt<S, T>(r: Run<S, T>, next: (S, T, S) -> bool, i: nat)
    requires i < |r.steps| < |r.states|
  {
    next(r.states[i], r.steps[i], r.states[i + 1])
  }

  ghost predicate Follows<S, T>(r: Run<S, T>, next: (S, T, S) -> bool) {
    && |r.states| == |r.steps| + 1
    && forall i :: 0 <= i < |r.steps| ==> StepAt(r, next, i)
  }

  function Extended<S, T>(r: Run<S, T>, step: T, s': S): Run<S, T> {
    Run(r.states + [s'], r.steps + [step])
  }

  lemma ExtendedFollows<S, T>(r: Run<S, T>, next: (S, T, S) -> bool, step: T, s': S)
    requires Follows(r, next) && next(r.states[|r.steps|], step, s')
    ensures Follows(Extended(r, step, s'), next)
  {
    var r' := Extended(r, step, s');
    forall i | 0 <= i < |r'.steps| ensures StepAt(r', next, i) {
      assert i < |r.steps| ==> StepAt(r, next, i);
    }
  }

  function Prepended<S, T>(s: S, step: T, r: Run<S, T>): Run<S, T> {
    Run([s] + r.states, [step] + r.steps)
  }

  lemma PrependedFollows<S, T>(s: S, step: T, r: Run<S, T>, next: (S, T, S) -> bool)
    requires Follows(r, next) && next(s, step, r.states[0])
    ensures Follows(Prepended(s, step, r), next)
  {
    var r' := Prepended(s, step, r);
    forall i | 0 <= i < |r'.steps| ensures StepAt(r', next, i) {
      assert i > 0 ==> StepAt(r, next, i - 1);
    }
  }

  function Rest<S, T>(r: Run<S, T>): Run<S, T>
    requires r.states != [] && r.steps != []
  {
    Run(r.states[1..], r.steps[1..])
  }

  lemma RestFollows<S, T>(r: Run<S, T>, next: (S, T, S) -> bool)
    requires Follows(r, next) && r.steps != []
    ensures Follows(Rest(r), next)
  {
    forall i | 0 <= i < |Rest(r).steps| ensures StepAt(Rest(r), next, i) {
      assert StepAt(r, next, i + 1);
    }
  }
}
