/** Runs of a state machine, for every machine of the project. */
module Runs {
  import opened Base

  /** The state after a sequence of events; None when some event was not possible. */
  function Run<S, E>(next: (S, E) -> Option<S>, s: S, events: seq<E>): Option<S>
    decreases |events|
  {
    if events == [] then Some(s)
    else
      var t := next(s, events[0]);
      if t.None? then None else Run(next, t.value, events[1..])
  }

  /** What every step keeps holds after every run. */
  lemma {:induction false} InvariantHolds<S, E>(next: (S, E) -> Option<S>, inv: S -> bool, s: S, events: seq<E>)
    requires inv(s) && Run(next, s, events).Some?
    requires forall s, e :: inv(s) && next(s, e).Some? ==> inv(next(s, e).value)
    ensures inv(Run(next, s, events).value)
    decreases |events|
  {
    if events != [] { InvariantHolds(next, inv, next(s, events[0]).value, events[1..]); }
  }

  lemma {:induction false} RunAppend<S, E>(next: (S, E) -> Option<S>, s: S, first: seq<E>, second: seq<E>)
    requires Run(next, s, first).Some?
    ensures Run(next, s, first + second) == Run(next, Run(next, s, first).value, second)
    decreases |first|
  {
    if first == [] {
      assert first + second == second;
    } else {
      assert (first + second)[1..] == first[1..] + second;
      RunAppend(next, next(s, first[0]).value, first[1..], second);
    }
  }

  /** The states of a run, before and after each event. */
  ghost predicate Traces<S, E>(next: (S, E) -> Option<S>, states: seq<S>, events: seq<E>) {
    |states| == |events| + 1 && forall i :: 0 <= i < |events| ==> next(states[i], events[i]) == Some(states[i + 1])
  }

  lemma {:induction false} TraceRuns<S, E>(next: (S, E) -> Option<S>, states: seq<S>, events: seq<E>)
    requires Traces(next, states, events)
    ensures Run(next, states[0], events) == Some(states[|events|])
    decreases |events|
  {
    if events != [] {
      forall i | 0 <= i < |events[1..]| ensures next(states[1..][i], events[1..][i]) == Some(states[1..][i + 1]) {
        assert next(states[i + 1], events[i + 1]) == Some(states[i + 2]);
      }
      TraceRuns(next, states[1..], events[1..]);
      assert next(states[0], events[0]) == Some(states[1]);
    }
  }

  /** A run of two events. */
  lemma TwoSteps<S, E>(next: (S, E) -> Option<S>, s: S, e: seq<E>)
    requires |e| == 2 && next(s, e[0]).Some? && next(next(s, e[0]).value, e[1]).Some?
    ensures Run(next, s, e) == next(next(s, e[0]).value, e[1])
  {
    var s1 := next(s, e[0]).value;
    assert Run(next, s1, e[1..]) == Run(next, next(s1, e[1]).value, []) by { assert e[1..][1..] == []; }
  }

  /** A run of four events. */
  lemma FourSteps<S, E>(next: (S, E) -> Option<S>, s: S, e: seq<E>)
    requires |e| == 4 && next(s, e[0]).Some?
    requires var s1 := next(s, e[0]).value; next(s1, e[1]).Some?
    requires var s2 := next(next(s, e[0]).value, e[1]).value; next(s2, e[2]).Some?
    requires var s3 := next(next(next(s, e[0]).value, e[1]).value, e[2]).value; next(s3, e[3]).Some?
    ensures Run(next, s, e) == next(next(next(next(s, e[0]).value, e[1]).value, e[2]).value, e[3])
  {
    var s2 := next(next(s, e[0]).value, e[1]).value;
    TwoSteps(next, s, e[..2]);
    TwoSteps(next, s2, e[2..]);
    assert e == e[..2] + e[2..];
    RunAppend(next, s, e[..2], e[2..]);
  }
}
