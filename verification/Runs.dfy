/** Whole runs of a step function. */
module Runs {
  function Iterate<S, I>(step: (S, I) -> S, s: S, inputs: seq<I>): S {
    if inputs == [] then s
    else step(Iterate(step, s, inputs[..|inputs| - 1]), inputs[|inputs| - 1])
  }

  /** Some step of the run, from the k-th on, was such an event. */
  ghost predicate SometimeSince<S, I>(step: (S, I) -> S, event: (S, I) -> bool, s: S, inputs: seq<I>, k: nat) {
    k < |inputs| &&
    (SometimeSince(step, event, s, inputs[..|inputs| - 1], k)
     || event(Iterate(step, s, inputs[..|inputs| - 1]), inputs[|inputs| - 1]))
  }

  lemma {:induction false} InvariantOverRun<S(!new), I(!new)>(step: (S, I) -> S, inv: S -> bool, s: S, inputs: seq<I>)
    requires inv(s) && forall t, i :: inv(t) ==> inv(step(t, i))
    ensures inv(Iterate(step, s, inputs))
  {
    if inputs != [] { InvariantOverRun(step, inv, s, inputs[..|inputs| - 1]); }
  }

  /** A flag that each step raises exactly on an event tells whether the run had one. */
  lemma {:induction false} FlagRecordsEvents<S(!new), I(!new)>(
    step: (S, I) -> S, event: (S, I) -> bool, flag: S -> bool, s: S, inputs: seq<I>)
    requires !flag(s) && forall t, i :: flag(step(t, i)) <==> flag(t) || event(t, i)
    ensures flag(Iterate(step, s, inputs)) <==> SometimeSince(step, event, s, inputs, 0)
  {
    if inputs != [] { FlagRecordsEvents(step, event, flag, s, inputs[..|inputs| - 1]); }
  }

  /** What only an event can undo holds at the end of a run without events. */
  lemma {:induction false} HoldsThroughout<S(!new), I(!new)>(
    step: (S, I) -> S, event: (S, I) -> bool, holds: S -> bool, s: S, inputs: seq<I>)
    requires holds(s) && forall t, i :: holds(t) && !event(t, i) ==> holds(step(t, i))
    requires !SometimeSince(step, event, s, inputs, 0)
    ensures holds(Iterate(step, s, inputs))
  {
    if inputs != [] { HoldsThroughout(step, event, holds, s, inputs[..|inputs| - 1]); }
  }

  /** What a step establishes and only an event can undo still holds at the end of a run without later events. */
  lemma {:induction false} HoldsUntilEvent<S(!new), I(!new)>(
    step: (S, I) -> S, event: (S, I) -> bool, holds: S -> bool, s: S, inputs: seq<I>, k: nat)
    requires forall t, i :: holds(t) && !event(t, i) ==> holds(step(t, i))
    requires k < |inputs| && holds(step(Iterate(step, s, inputs[..k]), inputs[k]))
    requires !SometimeSince(step, event, s, inputs, k + 1)
    ensures holds(Iterate(step, s, inputs))
  {
    var n := |inputs| - 1;
    if k < n {
      assert inputs[..n][..k] == inputs[..k];
      HoldsUntilEvent(step, event, holds, s, inputs[..n], k);
    }
  }

  lemma {:induction false} NoEarlierEvent<S, I>(step: (S, I) -> S, event: (S, I) -> bool, s: S, inputs: seq<I>, k: nat)
    requires k < |inputs| && !SometimeSince(step, event, s, inputs, k)
    ensures !SometimeSince(step, event, s, inputs, k + 1)
    ensures !event(Iterate(step, s, inputs[..k]), inputs[k])
  {
    var n := |inputs| - 1;
    if k < n {
      assert inputs[..n][..k] == inputs[..k];
      NoEarlierEvent(step, event, s, inputs[..n], k);
    }
  }
}
