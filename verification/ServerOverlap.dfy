/** Stopping a server while a manual poll is under way. Without a network thread
    there is nothing to join, and a poll inside the connecting branch may add its
    connection after the stop has gone past it: exactly when it is still on its way
    there, or is left with an open connection the stop does not know of. */
module ServerOverlap {
  import opened Wrappers
  import opened NetworkTypes
  import Runs
  import opened ServerProtocol

  /** How the stop that has just joined may come to its end: whatever else happens in
      between, up to the statement that finishes it. */
  ghost predicate Finishes(s: State, more: seq<Step>) {
    && more != [] && more[|more| - 1] == StopDestroyGroup
    && (forall k :: 0 <= k < |more| ==> more[k] != StopJoin)
    && Walk(s, more).Some?
  }

  /** Without another join, nothing newly overlaps. */
  lemma {:induction false} WalkKeepsOverlapped(s: State, more: seq<Step>)
    requires Walk(s, more).Some? && forall k :: 0 <= k < |more| ==> more[k] != StopJoin
    ensures Walk(s, more).value.overlapped == s.overlapped
  {
    if more != [] {
      var less, last := more[..|more| - 1], more[|more| - 1];
      assert more[|less|] == last && last != StopJoin;
      WalkKeepsOverlapped(s, less);
    }
  }

  /** A stop that is not endangered when it goes past its join releases everything,
      whatever happens until it is done. */
  lemma SafeStopReleases(steps: seq<Step>, more: seq<Step>)
    requires Run(steps).Some? && Enabled(Run(steps).value, StopJoin)
    requires !Run(steps).value.overlapped && !Endangered(Run(steps).value)
    requires Finishes(Apply(Run(steps).value, StopJoin), more)
    ensures AllReleased(Walk(Apply(Run(steps).value, StopJoin), more).value)
  {
    var s := Apply(Run(steps).value, StopJoin);
    WalkAppend(INITIAL, steps, StopJoin);
    var less := more[..|more| - 1];
    assert forall k :: 0 <= k < |less| ==> less[k] == more[k];
    WalkKeepsOverlapped(s, less);
    Runs.RunInTwo(Next, INITIAL, steps + [StopJoin], less);
    StopReleasesEverything(steps + [StopJoin] + less);
  }

  // ---- An endangered stop can end badly ----

  /** The loop over the registry's keys, with nothing in between. */
  lemma {:induction false} CloseAll(s: State) returns (more: seq<Step>)
    requires s.stopper.Closing?
    ensures Walk(s, more) == Some(s.(open := s.open - s.stopper.remaining, stopper := Closing({})))
    ensures forall k :: 0 <= k < |more| ==> more[k] != StopJoin
    decreases |s.stopper.remaining|
  {
    var remaining := s.stopper.remaining;
    if remaining == {} {
      more := [];
      assert s.open - {} == s.open;
    } else {
      var c :| c in remaining;
      var s1 := Apply(s, StopCloseOne(c));
      var rest := CloseAll(s1);
      more := [StopCloseOne(c)] + rest;
      NextStep(s, [], s, StopCloseOne(c));
      assert [] + [StopCloseOne(c)] == [StopCloseOne(c)];
      Runs.RunInTwo(Next, s, [StopCloseOne(c)], rest);
      assert s.open - {c} - (remaining - {c}) == s.open - remaining;
    }
  }

  /** The stop closes what it knows of and clears the registry. */
  lemma ClearAll(s: State) returns (more: seq<Step>)
    requires s.stopper.Closing?
    ensures Walk(s, more) == Some(s.(open := s.open - s.stopper.remaining, clients := map[], stopper := Cleared))
    ensures forall k :: 0 <= k < |more| ==> more[k] != StopJoin
  {
    var closes := CloseAll(s);
    NextStep(s, closes, s.(open := s.open - s.stopper.remaining, stopper := Closing({})), StopClearMap);
    more := closes + [StopClearMap];
  }

  lemma EndStop(s: State, more: seq<Step>, s1: State)
    requires Walk(s, more) == Some(s1) && s1.stopper.Cleared?
    requires forall k :: 0 <= k < |more| ==> more[k] != StopJoin
    ensures Finishes(s, more + [StopCloseListen] + [StopDestroyGroup])
    ensures Walk(s, more + [StopCloseListen] + [StopDestroyGroup])
         == Some(s1.(listenSocket := 0, pollGroup := 0, stopper := Outside))
  {
    NextStep(s, more, s1, StopCloseListen);
    NextStep(s, more + [StopCloseListen], Apply(s1, StopCloseListen), StopDestroyGroup);
  }

  lemma FirstStep(s: State, step: Step, rest: seq<Step>)
    requires Enabled(s, step)
    ensures Walk(s, [step] + rest) == Walk(Apply(s, step), rest)
  {
    NextStep(s, [], s, step);
    assert [] + [step] == [step];
    Runs.RunInTwo(Next, s, [step], rest);
  }

  /** What is left of the connecting branch once a connection is to be added. */
  function AddingSteps(network: NetworkThread): seq<Step>
    decreases if network.Accepting? then 2 else if network.Grouping? then 1 else 0
  {
    match network
    case Accepting(c) => [Accept(true)] + AddingSteps(Grouping(c))
    case Grouping(c) => [SetGroup(true)] + AddingSteps(Registering(c))
    case _ => [Register(0)] + []
  }

  lemma {:induction false} LateRegister(s: State)
    requires Adding(s)
    ensures Walk(s, AddingSteps(s.network)).Some?
    ensures var s' := Walk(s, AddingSteps(s.network)).value;
            s.network.conn in s'.clients && s'.stopper == s.stopper
    ensures forall k :: 0 <= k < |AddingSteps(s.network)| ==> AddingSteps(s.network)[k] != StopJoin
    decreases if s.network.Accepting? then 2 else if s.network.Grouping? then 1 else 0
  {
    var c := s.network.conn;
    if s.network.Accepting? {
      FirstStep(s, Accept(true), AddingSteps(Grouping(c)));
      LateRegister(Apply(s, Accept(true)));
    } else if s.network.Grouping? {
      FirstStep(s, SetGroup(true), AddingSteps(Registering(c)));
      LateRegister(Apply(s, SetGroup(true)));
    } else {
      FirstStep(s, Register(0), []);
    }
  }

  /** The run in which it ends badly. */
  lemma EndangeredStopFails(s: State) returns (more: seq<Step>)
    requires s.stopper.Closing? && s.stopper.remaining == s.clients.Keys && Endangered(s)
    requires forall c :: InHand(s, c) ==> c in s.handled
    ensures Finishes(s, more) && !AllReleased(Walk(s, more).value)
  {
    var cleared := ClearAll(s);
    var s1 := Walk(s, cleared).value;
    if Adding(s) {
      var late := AddingSteps(s.network);
      LateRegister(s1);
      Runs.RunInTwo(Next, s, cleared, late);
      var s2 := Walk(s1, late).value;
      EndStop(s, cleared + late, s2);
      more := cleared + late + [StopCloseListen] + [StopDestroyGroup];
      assert s.network.conn in s2.clients;
    } else {
      EndStop(s, cleared, s1);
      more := cleared + [StopCloseListen] + [StopDestroyGroup];
      assert InHand(s, s.network.conn);
      assert s.network.conn in s.handled && s.network.conn in s1.open;
    }
  }

  /** The exact condition. When the stop that won the exchange goes past its join,
      every way of finishing it releases everything if and only if no poll is on its
      way to adding a connection or left with one the stop does not know of. */
  lemma StopSafeIff(steps: seq<Step>)
    requires Run(steps).Some? && Enabled(Run(steps).value, StopJoin) && !Run(steps).value.overlapped
    ensures var s := Apply(Run(steps).value, StopJoin);
            (forall more :: Finishes(s, more) ==> AllReleased(Walk(s, more).value))
            <==> !Endangered(Run(steps).value)
  {
    var before := Run(steps).value;
    var s := Apply(before, StopJoin);
    RunsAreSound(steps);
    if Endangered(before) {
      assert forall c :: InHand(s, c) ==> InHand(before, c);
      var more := EndangeredStopFails(s);
    } else {
      forall more | Finishes(s, more)
        ensures AllReleased(Walk(s, more).value)
      {
        SafeStopReleases(steps, more);
      }
    }
  }

  /** A manual poll has a new connection in hand when the stop begins. */
  lemma EndangeredStopReached(steps: seq<Step>)
    requires Run(steps) == Some(ACCEPTING)
    ensures Run(steps + [StopEnter] + [StopExchange]).Some?
    ensures var s := Run(steps + [StopEnter] + [StopExchange]).value;
            Enabled(s, StopJoin) && Endangered(s) && !s.overlapped
  {
    NextStep(INITIAL, steps, ACCEPTING, StopEnter);
    NextStep(INITIAL, steps + [StopEnter], Apply(ACCEPTING, StopEnter), StopExchange);
  }

  /** So the exception is a real one. */
  lemma EndangeredStopHappens() returns (steps: seq<Step>)
    ensures Run(steps).Some? && Enabled(Run(steps).value, StopJoin)
    ensures Endangered(Run(steps).value) && !Run(steps).value.overlapped
  {
    AcceptingReached([]);
    var accepting := [] + [Start(false, 1, 1)] + [Incoming(5)] + [ManualPoll] + [ConnectingEvent(5)];
    EndangeredStopReached(accepting);
    steps := accepting + [StopEnter] + [StopExchange];
  }
}
