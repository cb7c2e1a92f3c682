/** Finite runs of a state machine that is given by a step relation. */
module Runs {

  ghost predicate StepAt<S(!new), E(!new)>(step: (S, E, S) -> bool, states: seq<S>, events: seq<E>, i: int) {
    0 <= i < |events| && i + 1 < |states| && step(states[i], events[i], states[i + 1])
  }

  ghost predicate IsRun<S(!new), E(!new)>(step: (S, E, S) -> bool, states: seq<S>, events: seq<E>) {
    |states| == |events| + 1 && forall i | 0 <= i < |events| :: StepAt(step, states, events, i)
  }

  ghost predicate Reachable<S(!new), E(!new)>(step: (S, E, S) -> bool, start: S, s: S) {
    exists states: seq<S>, events: seq<E> ::
      IsRun(step, states, events) && states[0] == start && states[|events|] == s
  }

  lemma StartIsReachable<S(!new), E(!new)>(step: (S, E, S) -> bool, start: S)
    ensures Reachable(step, start, start)
  {
    var events: seq<E> := [];
    assert IsRun(step, [start], events);
  }

  lemma StepIsReachable<S(!new), E(!new)>(step: (S, E, S) -> bool, start: S, s: S, e: E, t: S)
    requires Reachable(step, start, s) && step(s, e, t)
    ensures Reachable(step, start, t)
  {
    var states: seq<S>, events: seq<E> :|
      IsRun(step, states, events) && states[0] == start && states[|events|] == s;
    var states', events' := states + [t], events + [e];
    forall i | 0 <= i < |events'| ensures StepAt(step, states', events', i) {
      if i < |events| { assert StepAt(step, states, events, i); }
    }
    assert IsRun(step, states', events');
  }
}
