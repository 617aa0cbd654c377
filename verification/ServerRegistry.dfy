/** What the server's registry and its sockets are, read off a run: which entries
    are left over from closed connections, and when a listen socket is. */
module ServerRegistry {
  import opened Wrappers
  import opened NetworkTypes
  import Runs
  import opened ServerProtocol

  /** A step that closes a connection, whatever for. */
  predicate Closes(s: State, step: Step, c: Connection) {
    match step
    case StopCloseOne(conn) => conn == c
    case DisconnectClose(conn) => conn == c
    case CloseRejected => s.network == Rejecting(c)
    case ClosePeer => s.network == PeerClosing(c)
    case _ => false
  }

  /** A step that enters a connection into the registry, or takes it out. */
  predicate Registers(s: State, step: Step, c: Connection) {
    step.Register? && s.network == Registering(c)
  }

  predicate Erases(step: Step, c: Connection) {
    step.StopClearMap? || step == DisconnectErase(c)
  }

  ghost function Before(steps: seq<Step>, k: nat): State
    requires Run(steps).Some? && k <= |steps|
    ensures Run(steps[..k]) == Some(Before(steps, k))
    decreases |steps|
  {
    if k == |steps| then
      assert steps[..k] == steps;
      Run(steps).value
    else
      assert steps[..|steps| - 1][..k] == steps[..k];
      Before(steps[..|steps| - 1], k)
  }

  ghost predicate ClosedAt(steps: seq<Step>, k: nat, c: Connection)
    requires Run(steps).Some? && k < |steps|
  {
    Closes(Before(steps, k), steps[k], c)
  }

  ghost predicate RegisteredAt(steps: seq<Step>, k: nat, c: Connection)
    requires Run(steps).Some? && k < |steps|
  {
    Registers(Before(steps, k), steps[k], c)
  }

  predicate NotErasedAfter(steps: seq<Step>, k: nat, c: Connection) {
    forall j :: k < j < |steps| ==> !Erases(steps[j], c)
  }

  /** The connection has been closed by some step of the run. */
  ghost predicate WasClosed(steps: seq<Step>, c: Connection)
    requires Run(steps).Some?
  {
    exists k :: 0 <= k < |steps| && ClosedAt(steps, k, c)
  }

  /** It has been registered, and not been taken out since. */
  ghost predicate StaysRegistered(steps: seq<Step>, c: Connection)
    requires Run(steps).Some?
  {
    exists k :: 0 <= k < |steps| && RegisteredAt(steps, k, c) && NotErasedAfter(steps, k, c)
  }

  lemma BeforeLast(steps: seq<Step>, k: nat, c: Connection)
    requires steps != [] && Run(steps).Some? && k < |steps| - 1
    ensures Run(steps[..|steps| - 1]).Some?
    ensures ClosedAt(steps[..|steps| - 1], k, c) <==> ClosedAt(steps, k, c)
    ensures RegisteredAt(steps[..|steps| - 1], k, c) <==> RegisteredAt(steps, k, c)
    ensures NotErasedAfter(steps, k, c)
       <==> NotErasedAfter(steps[..|steps| - 1], k, c) && !Erases(steps[|steps| - 1], c)
  {
    var less := steps[..|steps| - 1];
    assert Before(less, k) == Before(steps, k) && less[k] == steps[k];
    assert forall j :: 0 <= j < |less| ==> less[j] == steps[j];
  }

  lemma AtLast(steps: seq<Step>, c: Connection)
    requires steps != [] && Run(steps).Some?
    ensures var n := |steps| - 1;
            && Run(steps[..n]).Some?
            && (ClosedAt(steps, n, c) <==> Closes(Run(steps[..n]).value, steps[n], c))
            && (RegisteredAt(steps, n, c) <==> Registers(Run(steps[..n]).value, steps[n], c))
            && NotErasedAfter(steps, n, c)
  {}

  lemma WasClosedStep(steps: seq<Step>, c: Connection)
    requires steps != [] && Run(steps).Some?
    ensures var n := |steps| - 1;
            && Run(steps[..n]).Some?
            && (WasClosed(steps, c) <==> WasClosed(steps[..n], c) || Closes(Run(steps[..n]).value, steps[n], c))
  {
    var n := |steps| - 1;
    AtLast(steps, c);
    forall k | 0 <= k < n
      ensures ClosedAt(steps[..n], k, c) <==> ClosedAt(steps, k, c)
    {
      BeforeLast(steps, k, c);
    }
  }

  lemma StaysRegisteredStep(steps: seq<Step>, c: Connection)
    requires steps != [] && Run(steps).Some?
    ensures var n := |steps| - 1;
            && Run(steps[..n]).Some?
            && (StaysRegistered(steps, c)
                <==> Registers(Run(steps[..n]).value, steps[n], c)
                     || (StaysRegistered(steps[..n], c) && !Erases(steps[n], c)))
  {
    var n := |steps| - 1;
    AtLast(steps, c);
    forall k | 0 <= k < n
      ensures RegisteredAt(steps, k, c) && NotErasedAfter(steps, k, c)
         <==> RegisteredAt(steps[..n], k, c) && NotErasedAfter(steps[..n], k, c) && !Erases(steps[n], c)
    {
      BeforeLast(steps, k, c);
    }
    assert !Registers(Run(steps[..n]).value, steps[n], c) || !Erases(steps[n], c);
  }

  lemma ClientsStep(s: State, step: Step, c: Connection)
    requires Enabled(s, step)
    ensures c in Apply(s, step).clients <==> Registers(s, step, c) || (c in s.clients && !Erases(step, c))
  {
    match step
    case Register(_) =>
    case DisconnectErase(_) =>
    case StopClearMap =>
    case _ => assert Apply(s, step).clients == s.clients;
  }

  /** The registry is what the run's registrations and erasures make it. */
  lemma {:induction false} RegisteredIff(steps: seq<Step>, c: Connection)
    requires Run(steps).Some?
    ensures c in Run(steps).value.clients <==> StaysRegistered(steps, c)
  {
    if steps != [] {
      var n := |steps| - 1;
      StaysRegisteredStep(steps, c);
      RegisteredIff(steps[..n], c);
      ClientsStep(Run(steps[..n]).value, steps[n], c);
    }
  }

  /** A handle that is neither open nor closed yet: the first that was heard of it is
      an event that is about to close it. */
  ghost predicate OpenOrUnheard(s: State, c: Connection) {
    c in s.named && c !in s.open ==> s.network == PeerClosing(c) && c !in s.handled
  }

  lemma ClosedStays(s: State, step: Step, c: Connection)
    requires Sound(s) && Enabled(s, step)
    ensures Closes(s, step, c) || (c in s.named && c !in s.open) ==>
              c in Apply(s, step).named && c !in Apply(s, step).open
  {}

  lemma OpenStays(s: State, step: Step, c: Connection)
    requires Sound(s) && Enabled(s, step) && OpenOrUnheard(s, c) && !Closes(s, step, c)
    ensures OpenOrUnheard(Apply(s, step), c)
  {}

  /** A handle is open from its arrival until some step closes it, and never again. */
  lemma {:induction false} ClosedIff(steps: seq<Step>, c: Connection)
    requires Run(steps).Some?
    ensures WasClosed(steps, c) ==> c in Run(steps).value.named && c !in Run(steps).value.open
    ensures !WasClosed(steps, c) ==> OpenOrUnheard(Run(steps).value, c)
  {
    if steps != [] {
      var n := |steps| - 1;
      WasClosedStep(steps, c);
      RunsAreSound(steps[..n]);
      ClosedIff(steps[..n], c);
      ClosedStays(Run(steps[..n]).value, steps[n], c);
      if !WasClosed(steps, c) {
        OpenStays(Run(steps[..n]).value, steps[n], c);
      }
    }
  }

  /** A connection registered, not taken out since, and closed at some time: by its
      peer while it was registered, or by a disconnect before it was. */
  ghost predicate Orphan(steps: seq<Step>, c: Connection)
    requires Run(steps).Some?
  {
    StaysRegistered(steps, c) && WasClosed(steps, c)
  }

  /** In every run the entries of connections that are not open are its orphans. */
  lemma OrphansAreLeftOver(steps: seq<Step>, c: Connection)
    requires Run(steps).Some?
    ensures c in Run(steps).value.clients.Keys - Run(steps).value.open <==> Orphan(steps, c)
  {
    RunsAreSound(steps);
    RegisteredIff(steps, c);
    if c in Run(steps).value.clients {
      ClosedIff(steps, c);
    }
  }

  /** The exact condition. Between calls, unless a stop has overlapped a poll, the
      registry is the set of open connections the handler has taken on if and only if
      the run has no orphan. */
  lemma RegistryExactIff(steps: seq<Step>)
    requires Run(steps).Some? && AtRest(Run(steps).value) && !Run(steps).value.overlapped
    ensures var s := Run(steps).value;
            s.clients.Keys == s.handled * s.open <==> forall c :: !Orphan(steps, c)
  {
    var s := Run(steps).value;
    RunsAreSound(steps);
    forall c
      ensures c in s.clients.Keys - s.open <==> Orphan(steps, c)
    {
      OrphansAreLeftOver(steps, c);
    }
    assert s.handled * s.open <= s.clients.Keys <= s.handled;
    forall c
      ensures c in s.clients.Keys - s.open <==> c in s.clients.Keys && c !in s.handled * s.open
    {}
  }

  /** One way to an orphan: its peer closes a registered connection. */
  lemma PeerCloseOrphans(steps: seq<Step>)
    requires Run(steps) == Some(ACCEPTING)
    ensures var late := steps + [Accept(true)] + [SetGroup(true)] + [Register(0)] + [PeerClosedEvent(5)] + [ClosePeer];
            && Run(late).Some? && AtRest(Run(late).value) && !Run(late).value.overlapped
            && Orphan(late, 5)
  {
    RegisteredRun(steps);
    var steps3 := steps + [Accept(true)] + [SetGroup(true)] + [Register(0)];
    var s3 := Run(steps3).value;
    NextStep(INITIAL, steps3, s3, PeerClosedEvent(5));
    var s4 := Apply(s3, PeerClosedEvent(5));
    NextStep(INITIAL, steps3 + [PeerClosedEvent(5)], s4, ClosePeer);
    OrphansAreLeftOver(steps3 + [PeerClosedEvent(5)] + [ClosePeer], 5);
  }

  lemma GroupedRun(steps: seq<Step>)
    requires Run(steps) == Some(ACCEPTING)
    ensures Run(steps + [Accept(true)] + [SetGroup(true)])
         == Some(ACCEPTING.(network := Registering(5), accepted := {5}))
  {
    NextStep(INITIAL, steps, ACCEPTING, Accept(true));
    assert Apply(ACCEPTING, Accept(true)) == ACCEPTING.(network := Grouping(5), accepted := {5});
    NextStep(INITIAL, steps + [Accept(true)], ACCEPTING.(network := Grouping(5), accepted := {5}), SetGroup(true));
  }

  lemma RegisteredRun(steps: seq<Step>)
    requires Run(steps) == Some(ACCEPTING)
    ensures Run(steps + [Accept(true)] + [SetGroup(true)] + [Register(0)])
         == Some(ACCEPTING.(network := Polling, accepted := {5}, clients := map[5 := ClientInfo(5, 0)]))
  {
    GroupedRun(steps);
    var s := ACCEPTING.(network := Registering(5), accepted := {5});
    NextStep(INITIAL, steps + [Accept(true)] + [SetGroup(true)], s, Register(0));
    assert s.clients[5 := ClientInfo(5, 0)] == map[5 := ClientInfo(5, 0)];
  }

  /** The other: a disconnect overtakes the connecting branch, and the connection is
      registered after it has been closed and its entry erased. */
  lemma DisconnectOrphans(steps: seq<Step>)
    requires Run(steps) == Some(ACCEPTING)
    ensures var late := steps + [Accept(true)] + [SetGroup(true)] + [DisconnectClose(5)] + [DisconnectErase(5)]
                        + [Register(0)];
            && Run(late).Some? && AtRest(Run(late).value) && !Run(late).value.overlapped
            && Run(late).value.erasing == multiset{}
            && Orphan(late, 5)
  {
    GroupedRun(steps);
    var s2 := ACCEPTING.(network := Registering(5), accepted := {5});
    var steps2 := steps + [Accept(true)] + [SetGroup(true)];
    NextStep(INITIAL, steps2, s2, DisconnectClose(5));
    var s3 := Apply(s2, DisconnectClose(5));
    NextStep(INITIAL, steps2 + [DisconnectClose(5)], s3, DisconnectErase(5));
    var s4 := Apply(s3, DisconnectErase(5));
    NextStep(INITIAL, steps2 + [DisconnectClose(5)] + [DisconnectErase(5)], s4, Register(0));
    OrphansAreLeftOver(steps2 + [DisconnectClose(5)] + [DisconnectErase(5)] + [Register(0)], 5);
  }

  // ---- Who was taken on, and who was accepted ----

  ghost predicate TakenOnAt(steps: seq<Step>, k: nat, c: Connection)
    requires Run(steps).Some? && k < |steps|
  {
    steps[k] == ConnectingEvent(c) && Before(steps, k).instance
  }

  ghost predicate AcceptedAt(steps: seq<Step>, k: nat, c: Connection)
    requires Run(steps).Some? && k < |steps|
  {
    steps[k] == Accept(true) && Before(steps, k).network == Accepting(c)
  }

  lemma TakenOnStep(s: State, step: Step, c: Connection)
    requires Enabled(s, step)
    ensures c in Apply(s, step).handled <==> c in s.handled || (step == ConnectingEvent(c) && s.instance)
  {
    match step
    case ConnectingEvent(_) =>
    case _ => assert Apply(s, step).handled == s.handled;
  }

  lemma AcceptedStep(s: State, step: Step, c: Connection)
    requires Enabled(s, step)
    ensures c in Apply(s, step).accepted <==> c in s.accepted || (step == Accept(true) && s.network == Accepting(c))
  {
    match step
    case Accept(_) =>
    case _ => assert Apply(s, step).accepted == s.accepted;
  }

  /** Its connecting event found the instance. */
  ghost predicate WasTakenOn(steps: seq<Step>, c: Connection)
    requires Run(steps).Some?
  {
    exists k :: 0 <= k < |steps| && TakenOnAt(steps, k, c)
  }

  /** AcceptConnection succeeded for it. */
  ghost predicate WasAccepted(steps: seq<Step>, c: Connection)
    requires Run(steps).Some?
  {
    exists k :: 0 <= k < |steps| && AcceptedAt(steps, k, c)
  }

  lemma AtSame(steps: seq<Step>, k: nat, c: Connection)
    requires steps != [] && Run(steps).Some? && k < |steps| - 1
    ensures Run(steps[..|steps| - 1]).Some?
    ensures TakenOnAt(steps[..|steps| - 1], k, c) <==> TakenOnAt(steps, k, c)
    ensures AcceptedAt(steps[..|steps| - 1], k, c) <==> AcceptedAt(steps, k, c)
  {
    var less := steps[..|steps| - 1];
    assert Before(less, k) == Before(steps, k) && less[k] == steps[k];
  }

  lemma WasTakenOnStep(steps: seq<Step>, c: Connection)
    requires steps != [] && Run(steps).Some?
    ensures var n := |steps| - 1;
            && Run(steps[..n]).Some?
            && (WasTakenOn(steps, c) <==> WasTakenOn(steps[..n], c) || TakenOnAt(steps, n, c))
  {
    var less := steps[..|steps| - 1];
    if WasTakenOn(steps, c) && !TakenOnAt(steps, |less|, c) {
      var k :| 0 <= k < |steps| && TakenOnAt(steps, k, c);
      AtSame(steps, k, c);
      assert TakenOnAt(less, k, c);
    }
    if k :| 0 <= k < |less| && TakenOnAt(less, k, c) {
      AtSame(steps, k, c);
      assert TakenOnAt(steps, k, c);
    }
  }

  lemma WasAcceptedStep(steps: seq<Step>, c: Connection)
    requires steps != [] && Run(steps).Some?
    ensures var n := |steps| - 1;
            && Run(steps[..n]).Some?
            && (WasAccepted(steps, c) <==> WasAccepted(steps[..n], c) || AcceptedAt(steps, n, c))
  {
    var less := steps[..|steps| - 1];
    if WasAccepted(steps, c) && !AcceptedAt(steps, |less|, c) {
      var k :| 0 <= k < |steps| && AcceptedAt(steps, k, c);
      AtSame(steps, k, c);
      assert AcceptedAt(less, k, c);
    }
    if k :| 0 <= k < |less| && AcceptedAt(less, k, c) {
      AtSame(steps, k, c);
      assert AcceptedAt(steps, k, c);
    }
  }

  /** The connections taken on, and the accepted ones, are those. */
  lemma {:induction false} TakenOnIff(steps: seq<Step>, c: Connection)
    requires Run(steps).Some?
    ensures c in Run(steps).value.handled <==> WasTakenOn(steps, c)
    ensures c in Run(steps).value.accepted <==> WasAccepted(steps, c)
  {
    if steps != [] {
      var n := |steps| - 1;
      WasTakenOnStep(steps, c);
      WasAcceptedStep(steps, c);
      TakenOnIff(steps[..n], c);
      TakenOnStep(Run(steps[..n]).value, steps[n], c);
      AcceptedStep(Run(steps[..n]).value, steps[n], c);
    }
  }

  // ---- Sockets ----

  predicate Idle(s: State) {
    s.stopper.Outside? && !s.running
  }

  /** A start of a stopped server that gets a listen socket but no poll group. */
  predicate HalfStarts(s: State, step: Step) {
    step.Start? && step.socket != 0 && step.group == 0 && !s.running
  }

  ghost predicate HalfStartedAt(steps: seq<Step>, k: nat)
    requires Run(steps).Some? && k < |steps|
  {
    HalfStarts(Before(steps, k), steps[k])
  }

  predicate NoStartAfter(steps: seq<Step>, k: nat) {
    forall j :: k < j < |steps| ==> !steps[j].Start?
  }

  /** The last thing anyone tried to start was left half done. */
  ghost predicate HalfStarted(steps: seq<Step>)
    requires Run(steps).Some?
  {
    exists k :: 0 <= k < |steps| && HalfStartedAt(steps, k) && NoStartAfter(steps, k)
  }

  lemma HalfStartedStep(steps: seq<Step>)
    requires steps != [] && Run(steps).Some?
    ensures var n := |steps| - 1;
            && Run(steps[..n]).Some?
            && (HalfStarted(steps)
                <==> (HalfStarts(Run(steps[..n]).value, steps[n])
                      || (HalfStarted(steps[..n]) && !steps[n].Start?)))
  {
    var n := |steps| - 1;
    forall k | 0 <= k < n
      ensures HalfStartedAt(steps, k) && NoStartAfter(steps, k)
         <==> HalfStartedAt(steps[..n], k) && NoStartAfter(steps[..n], k) && !steps[n].Start?
    {
      assert Before(steps[..n], k) == Before(steps, k) && steps[..n][k] == steps[k];
      assert forall j :: 0 <= j < n ==> steps[..n][j] == steps[j];
    }
    assert NoStartAfter(steps, n);
  }

  lemma SocketStep(s: State, step: Step)
    requires Sound(s) && Enabled(s, step)
    requires Idle(s) ==> s.pollGroup == 0
    ensures var s' := Apply(s, step);
            && (Idle(s') ==> s'.pollGroup == 0)
            && (Idle(s') ==> (s'.listenSocket != 0 <==>
                                HalfStarts(s, step) || (Idle(s) && s.listenSocket != 0 && !step.Start?)))
            && ((Idle(s) && !step.Start?) || HalfStarts(s, step) ==> Idle(s'))
  {}

  /** In every run, a server that is neither running nor being stopped holds a listen
      socket if and only if its last start was such a half start; it never holds a
      poll group. */
  lemma {:induction false} ListenSocketIff(steps: seq<Step>)
    requires Run(steps).Some?
    ensures var s := Run(steps).value;
            && (Idle(s) ==> s.pollGroup == 0 && (s.listenSocket != 0 <==> HalfStarted(steps)))
            && (HalfStarted(steps) ==> Idle(s))
  {
    if steps != [] {
      var n := |steps| - 1;
      HalfStartedStep(steps);
      RunsAreSound(steps[..n]);
      ListenSocketIff(steps[..n]);
      SocketStep(Run(steps[..n]).value, steps[n]);
    }
  }

  lemma HalfStartKeepsSocket(threaded: bool)
    ensures Run([Start(threaded, 1, 0)]).Some? && HalfStarted([Start(threaded, 1, 0)])
    ensures Run([Start(threaded, 1, 0)]).value.listenSocket == 1
  {
    NextStep(INITIAL, [], INITIAL, Start(threaded, 1, 0));
    assert [] + [Start(threaded, 1, 0)] == [Start(threaded, 1, 0)];
    ListenSocketIff([Start(threaded, 1, 0)]);
  }
}
