/** Runs of a step machine, whatever the machine: all its states are those reached
    from the first one, and a walk from a reached state continues a run. */
module Runs {
  import opened Wrappers

  /** The state a sequence of steps leads to, if each of them is possible. */
  function Run<S, T>(next: (S, T) -> Option<S>, init: S, steps: seq<T>): Option<S> {
    if steps == [] then Some(init) else
    var before := Run(next, init, steps[..|steps| - 1]);
    if before.None? then None else next(before.value, steps[|steps| - 1])
  }

  /** A walk from a state that some run reaches is the rest of a longer run. */
  lemma {:induction false} RunInTwo<S, T>(next: (S, T) -> Option<S>, init: S, history: seq<T>, steps: seq<T>)
    ensures Run(next, init, history + steps)
         == match Run(next, init, history)
            case None => None
            case Some(s) => Run(next, s, steps)
  {
    if steps == [] {
      assert history + steps == history;
    } else {
      RunInTwo(next, init, history, steps[..|steps| - 1]);
      assert (history + steps)[..|history + steps| - 1] == history + steps[..|steps| - 1];
    }
  }

  /** What holds at first and is kept by every step holds in every reached state. */
  lemma {:induction false} KeptByRuns<S(!new), T(!new)>(next: (S, T) -> Option<S>, keeps: S -> bool, init: S,
                                                        steps: seq<T>)
    requires keeps(init) && Run(next, init, steps).Some?
    requires forall s, t :: keeps(s) && next(s, t).Some? ==> keeps(next(s, t).value)
    ensures keeps(Run(next, init, steps).value)
  {
    if steps != [] {
      KeptByRuns(next, keeps, init, steps[..|steps| - 1]);
    }
  }
}
