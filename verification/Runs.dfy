/** What the state machines of this project have in common: a run grows by one step at a time. */
module Runs {

  /** Step i leads from state i to state i + 1. */
  ghost predicate Linked<S(!new), A(!new)>(next: (S, S, A) -> bool, ss: seq<S>, steps: seq<A>) {
    && |ss| == |steps| + 1
    && forall i {:trigger steps[i]} :: 0 <= i < |steps| ==> next(ss[i], ss[i + 1], steps[i])
  }

  lemma LinkedExtends<S(!new), A(!new)>(next: (S, S, A) -> bool, ss: seq<S>, steps: seq<A>, s': S, step: A)
    requires Linked(next, ss, steps) && next(ss[|ss| - 1], s', step)
    ensures Linked(next, ss + [s'], steps + [step])
  {
    var ss', steps' := ss + [s'], steps + [step];
    forall i | 0 <= i < |steps'|
      ensures next(ss'[i], ss'[i + 1], steps'[i])
    {
      if i < |steps| {
        assert next(ss[i], ss[i + 1], steps[i]);
      }
    }
  }

  /** The sum of `f` over the first `n` steps; with values 0 and 1, how many there were of a kind. */
  function Sum(f: nat -> nat, n: nat): nat {
    if n == 0 then 0 else Sum(f, n - 1) + f(n - 1)
  }
}
