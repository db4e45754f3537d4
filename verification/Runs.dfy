/** Runs of a transition system whose events may be impossible, and the states they reach. */
module Runs {
  import opened Prelude

  ghost predicate IsRunOf<S, E>(start: S, next: (S, E) -> Option<S>, states: seq<S>, events: seq<E>) {
    && |states| == |events| + 1 && states[0] == start
    && forall i :: 0 <= i < |events| ==> next(states[i], events[i]) == Some(states[i + 1])
  }

  ghost predicate Reaches<S(!new), E(!new)>(start: S, next: (S, E) -> Option<S>, s: S) {
    exists states: seq<S>, events: seq<E> :: IsRunOf(start, next, states, events) && states[|states| - 1] == s
  }

  lemma StartIsReached<S(!new), E(!new)>(start: S, next: (S, E) -> Option<S>)
    ensures Reaches(start, next, start)
  {
    var events: seq<E> := [];
    assert IsRunOf(start, next, [start], events);
    assert [start][|[start]| - 1] == start;
  }

  /** One more event. */
  lemma Go<S(!new), E(!new)>(start: S, next: (S, E) -> Option<S>, s: S, e: E) returns (t: S)
    requires Reaches(start, next, s) && next(s, e).Some?
    ensures t == next(s, e).value && Reaches(start, next, t)
  {
    t := next(s, e).value;
    var states: seq<S>, events: seq<E> :| IsRunOf(start, next, states, events) && states[|states| - 1] == s;
    var longer, more := states + [t], events + [e];
    forall i | 0 <= i < |more|
      ensures next(longer[i], more[i]) == Some(longer[i + 1])
    {
      if i < |events| {
        assert next(states[i], events[i]) == Some(states[i + 1]);
      }
    }
    assert IsRunOf(start, next, longer, more) && longer[|longer| - 1] == t;
  }
}
