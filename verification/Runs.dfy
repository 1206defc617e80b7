/** Positions in a run, and what the history records about the steps that wrote it. */
module Runs {
  import opened Store
  import opened Flows
  import opened Invariants
  import opened Machine

  /** The state in which event number `n` happens. */
  ghost function At(s: State, events: seq<Event>, n: nat): State
    requires n <= |events|
  {
    After(s, events[..n])
  }

  lemma {:induction false} StepAt(s: State, events: seq<Event>, n: nat)
    requires IsRun(s, events) && n < |events|
    ensures Enabled(At(s, events, n), events[n]) && At(s, events, n + 1) == Step(At(s, events, n), events[n])
    decreases n
  {
    if n == 0 {
      assert events[..0] == [] && events[..1] == [events[0]];
      assert [events[0]][1..] == [] && After(Step(s, events[0]), []) == Step(s, events[0]);
    } else {
      StepAt(Step(s, events[0]), events[1..], n - 1);
      assert events[..n][1..] == events[1..][..n - 1] && events[..n + 1][1..] == events[1..][..n];
    }
  }

  lemma {:induction false} AtKeeps(s: State, events: seq<Event>, n: nat)
    requires Inv(s) && IsRun(s, events) && n <= |events|
    ensures Inv(At(s, events, n))
  {
    if n > 0 {
      AtKeeps(s, events, n - 1);
      StepAt(s, events, n - 1);
      StepKeeps(At(s, events, n - 1), events[n - 1]);
    } else {
      assert events[..0] == [];
    }
  }

  lemma AtEnd(s: State, events: seq<Event>)
    ensures At(s, events, |events|) == After(s, events)
  {
    assert events[..|events|] == events;
  }

  /** All states of a run, one more than events. */
  ghost function States(s: State, events: seq<Event>): (states: seq<State>)
    ensures |states| == |events| + 1 && forall i | 0 <= i <= |events| :: states[i] == At(s, events, i)
  {
    seq(|events| + 1, i requires 0 <= i <= |events| => At(s, events, i))
  }
}
