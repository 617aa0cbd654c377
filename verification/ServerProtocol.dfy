/** The connection registry of `UdpServer` and its shutdown, one statement at a
    time: the network thread, or a manual poll on any thread, inside its status
    handler, any number of threads in `disconnect`, any number of `stop` callers, and
    the one that wins the exchange.

    Assumed of the surroundings: only this server's network loop (or, without one,
    one manual poll at a time) dispatches its callbacks; the instance pointer is read
    once per callback; start is not called while a stop or a poll is under way, nor
    stop while a start is; stop is not called from a callback, on the network thread
    it would have to join; and an incoming connection gets a handle nobody has named
    before. */
module ServerProtocol {
  import opened Wrappers
  import opened NetworkTypes
  import Runs

  type Address = nat

  /** `client_info_t`. */
  datatype ClientInfo = ClientInfo(conn: Connection, address: Address)

  /** Where the dispatching thread stands. */
  datatype NetworkThread =
    | Ended
    | Polling
    | Accepting(conn: Connection)       // connecting branch, before AcceptConnection
    | Grouping(conn: Connection)        // accepted, before SetConnectionPollGroup
    | Registering(conn: Connection)     // in the poll group, before `m_clients[conn]`
    | Rejecting(conn: Connection)       // refused, before CloseConnection
    | PeerClosing(conn: Connection)     // closed-by-peer branch, before CloseConnection

  /** Where the `stop` that won the exchange stands. It holds the client mutex
      from `Closing` on. */
  datatype Stopper =
    | Outside
    | Joining
    | Closing(remaining: set<Connection>)
    | Cleared
    | ListenClosed

  datatype State = State(
    instance: bool,                          // `s_instance` points at this server
    running: bool,
    clients: map<Connection, ClientInfo>,
    listenSocket: nat,
    pollGroup: nat,
    threaded: bool,                          // the network thread is joinable
    network: NetworkThread,
    stopper: Stopper,
    entered: nat,                            // `stop` callers about to exchange
    erasing: multiset<Connection>,           // `disconnect` callers between close and erase
    open: set<Connection>,                   // the transport's open handles
    named: set<Connection>,                  // handles that have ever been used
    handled: set<Connection>,                // whose connecting event reached the handler
    accepted: set<Connection>,               // for which AcceptConnection succeeded
    overlapped: bool)                        // a stop has gone on although it was endangered

  const INITIAL := State(false, false, map[], 0, 0, false, Ended, Outside, 0, multiset{}, {}, {}, {}, {}, false)

  datatype Step =
    | Start(threaded: bool, socket: nat, group: nat)
    | StopEnter
    | StopExchange
    | StopJoin
    | StopCloseOne(conn: Connection)
    | StopClearMap
    | StopCloseListen
    | StopDestroyGroup
    | DisconnectClose(conn: Connection)
    | DisconnectErase(conn: Connection)
    | Incoming(conn: Connection)
    | ManualPoll
    | PollEnds
    | ConnectingEvent(conn: Connection)
    | PeerClosedEvent(conn: Connection)
    | Accept(ok: bool)
    | SetGroup(ok: bool)
    | Register(address: Address)
    | CloseRejected
    | ClosePeer

  /** The client mutex is held by the stopping thread. */
  predicate Locked(s: State) {
    s.stopper.Closing? || s.stopper.Cleared? || s.stopper.ListenClosed?
  }

  /** The handler is on its way to registering a connection. */
  predicate Adding(s: State) {
    s.network.Accepting? || s.network.Grouping? || s.network.Registering?
  }

  /** The handler may still add a connection, or has one in hand that is open and
      that no stop will find in the registry. */
  predicate Endangered(s: State) {
    Adding(s) || (s.network.Rejecting? && s.network.conn in s.open && s.network.conn !in s.clients)
  }

  predicate Enabled(s: State, step: Step) {
    match step
    case Start(_, _, _) => s.stopper.Outside? && s.entered == 0 && (s.running || s.network.Ended?)
    case StopEnter => true
    case StopExchange => s.entered > 0
    case StopJoin => s.stopper.Joining? && (s.threaded ==> s.network.Ended?)
    case StopCloseOne(conn) => s.stopper.Closing? && conn in s.stopper.remaining
    case StopClearMap => s.stopper.Closing? && s.stopper.remaining == {}
    case StopCloseListen => s.stopper.Cleared?
    case StopDestroyGroup => s.stopper.ListenClosed?
    case DisconnectClose(_) => true
    case DisconnectErase(conn) => conn in s.erasing && !Locked(s)
    case Incoming(conn) => conn !in s.named
    case ManualPoll => !s.threaded && s.network.Ended?
    case PollEnds => s.network.Polling? && (s.threaded ==> !s.running)
    case ConnectingEvent(conn) => s.network.Polling? && conn in s.named
    case PeerClosedEvent(_) => s.network.Polling?
    case Accept(_) => s.network.Accepting?
    case SetGroup(_) => s.network.Grouping?
    case Register(_) => s.network.Registering?
    case CloseRejected => s.network.Rejecting?
    case ClosePeer => s.network.PeerClosing?
  }

  /** `start_manual`, followed by spawning the thread in `start_async`. */
  function AfterStart(s: State, threaded: bool, socket: nat, group: nat): State {
    if s.running then s
    else if socket == 0 then s.(listenSocket := 0)
    else if group == 0 then s.(listenSocket := socket, pollGroup := 0)
    else s.(instance := true, running := true, listenSocket := socket, pollGroup := group,
            threaded := threaded, network := if threaded then Polling else Ended)
  }

  function Apply(s: State, step: Step): State
    requires Enabled(s, step)
  {
    match step
    case Start(threaded, socket, group) => AfterStart(s, threaded, socket, group)
    case StopEnter => s.(instance := false, entered := s.entered + 1)
    case StopExchange => s.(running := false, entered := s.entered - 1,
                            stopper := if s.running then Joining else s.stopper)
    case StopJoin => s.(threaded := false, stopper := Closing(s.clients.Keys),
                        overlapped := s.overlapped || Endangered(s))
    case StopCloseOne(conn) => s.(open := s.open - {conn}, stopper := Closing(s.stopper.remaining - {conn}))
    case StopClearMap => s.(clients := map[], stopper := Cleared)
    case StopCloseListen => s.(listenSocket := 0, stopper := ListenClosed)
    case StopDestroyGroup => s.(pollGroup := 0, stopper := Outside)
    case DisconnectClose(conn) => s.(open := s.open - {conn}, erasing := s.erasing + multiset{conn},
                                     named := s.named + {conn})
    case DisconnectErase(conn) => s.(clients := s.clients - {conn}, erasing := s.erasing - multiset{conn})
    case Incoming(conn) => s.(open := s.open + {conn}, named := s.named + {conn})
    case ManualPoll => s.(network := Polling)
    case PollEnds => s.(network := Ended)
    case ConnectingEvent(conn) =>
      if s.instance then s.(network := Accepting(conn), handled := s.handled + {conn}) else s
    case PeerClosedEvent(conn) =>
      if s.instance then s.(network := PeerClosing(conn), named := s.named + {conn}) else s
    case Accept(ok) =>
      if ok then s.(network := Grouping(s.network.conn), accepted := s.accepted + {s.network.conn})
      else s.(network := Rejecting(s.network.conn))
    case SetGroup(ok) =>
      s.(network := if ok then Registering(s.network.conn) else Rejecting(s.network.conn))
    case Register(address) =>
      s.(clients := s.clients[s.network.conn := ClientInfo(s.network.conn, address)], network := Polling)
    case CloseRejected => s.(open := s.open - {s.network.conn}, network := Polling)
    case ClosePeer => s.(open := s.open - {s.network.conn}, network := Polling)
  }

  function Next(s: State, step: Step): Option<State> {
    if Enabled(s, step) then Some(Apply(s, step)) else None
  }

  /** Where some steps lead from a state, if each of them is possible. */
  function Walk(s: State, steps: seq<Step>): Option<State> {
    Runs.Run(Next, s, steps)
  }

  function Run(steps: seq<Step>): Option<State> {
    Walk(INITIAL, steps)
  }

  lemma WalkAppend(s: State, steps: seq<Step>, step: Step)
    ensures Walk(s, steps + [step])
         == match Walk(s, steps)
            case None => None
            case Some(s1) => Next(s1, step)
  {
    assert (steps + [step])[..|steps|] == steps;
  }

  lemma NextStep(s: State, steps: seq<Step>, s1: State, step: Step)
    requires Walk(s, steps) == Some(s1) && Enabled(s1, step)
    ensures Walk(s, steps + [step]) == Some(Apply(s1, step))
  {
    WalkAppend(s, steps, step);
  }

  /** The handler has this connection in hand. */
  predicate InHand(s: State, conn: Connection) {
    (s.network.Accepting? || s.network.Grouping? || s.network.Registering? || s.network.Rejecting?)
    && s.network.conn == conn
  }

  /** Sets of handles, and entries under their own handles. */
  ghost predicate HandlesAgree(s: State) {
    && (forall c :: c in s.clients ==> s.clients[c].conn == c && c in s.handled)
    && (forall c :: InHand(s, c) ==> c in s.handled)
    && (s.network.PeerClosing? ==> s.network.conn in s.named)
    && (s.stopper.Closing? ==> s.stopper.remaining <= s.named)
    && s.accepted <= s.handled <= s.named && s.open <= s.named
    && (forall c :: c in s.erasing ==> c in s.named && c !in s.open)
  }

  /** The flags go together. */
  ghost predicate FlagsAgree(s: State) {
    && (s.instance ==> s.running)
    && (s.running && s.entered == 0 ==> s.instance)
    && (s.entered > 0 ==> !s.instance)
    && (s.running ==> s.stopper.Outside? && s.listenSocket != 0 && s.pollGroup != 0)
    && (s.threaded ==> s.running || s.stopper.Joining?)
    && (s.stopper.ListenClosed? ==> s.listenSocket == 0)
  }

  /** Every connection the handler took on and that is still open is registered, or
      in the handler's hand. */
  ghost predicate RegistryCovers(s: State) {
    forall c :: c in s.handled && c in s.open ==> c in s.clients || InHand(s, c)
  }

  predicate Stopped(s: State) {
    s.stopper.Cleared? || s.stopper.ListenClosed? || (s.stopper.Outside? && !s.running)
  }

  /** How far a stop has got. */
  ghost predicate StopProgress(s: State) {
    && (s.stopper.Closing? ==>
          && s.stopper.remaining <= s.clients.Keys
          && forall c :: c in s.handled && c in s.open ==> c in s.stopper.remaining)
    && (Stopped(s) ==> s.clients == map[] && s.handled !! s.open)
    && (Locked(s) || Stopped(s) ==> !Adding(s))
  }

  /** What every run keeps; the registry is relied on for as long as no stop has
      gone on while a manual poll was about to add to it. */
  ghost predicate Sound(s: State) {
    HandlesAgree(s) && FlagsAgree(s) && (!s.overlapped ==> RegistryCovers(s) && StopProgress(s))
  }

  predicate HandlerStep(step: Step) {
    step.ConnectingEvent? || step.Accept? || step.SetGroup? || step.Register? || step.CloseRejected?
  }

  predicate StopStep(step: Step) {
    step.StopJoin? || step.StopCloseOne? || step.StopClearMap? || step.StopCloseListen? || step.StopDestroyGroup?
  }

  /** Steps that touch the transport's handles only. */
  predicate HandleStep(step: Step) {
    step.DisconnectClose? || step.DisconnectErase? || step.Incoming? || step.ClosePeer? || step.PeerClosedEvent?
  }

  lemma RegisterKeepsHandles(s: State, step: Step)
    requires HandlesAgree(s) && Enabled(s, step) && step.Register?
    ensures HandlesAgree(Apply(s, step))
  {
    assert InHand(s, s.network.conn);
  }

  lemma HandlerKeepsHandles(s: State, step: Step)
    requires HandlesAgree(s) && Enabled(s, step) && HandlerStep(step)
    ensures HandlesAgree(Apply(s, step))
  {
    if step.Register? {
      RegisterKeepsHandles(s, step);
    } else if step.Accept? {
      assert InHand(s, s.network.conn);
    }
  }

  lemma HandleStepKeepsHandles(s: State, step: Step)
    requires HandlesAgree(s) && Enabled(s, step) && HandleStep(step)
    ensures HandlesAgree(Apply(s, step))
  {
    var s' := Apply(s, step);
    assert s'.handled == s.handled && s.named <= s'.named;
    assert forall c :: c in s'.erasing ==> c in s.erasing || step == DisconnectClose(c);
  }

  lemma OtherKeepsHandles(s: State, step: Step)
    requires HandlesAgree(s) && FlagsAgree(s) && Enabled(s, step) && !HandlerStep(step) && !HandleStep(step)
    ensures HandlesAgree(Apply(s, step))
  {
    var s' := Apply(s, step);
    assert s'.handled == s.handled && s'.named == s.named && s'.erasing == s.erasing && s'.open <= s.open;
    assert s'.clients == s.clients || s'.clients == map[];
  }

  lemma StepKeepsFlags(s: State, step: Step)
    requires FlagsAgree(s) && Enabled(s, step)
    ensures FlagsAgree(Apply(s, step))
  {}

  lemma HandlerKeepsRegistry(s: State, step: Step)
    requires Sound(s) && Enabled(s, step) && HandlerStep(step) && !s.overlapped
    ensures RegistryCovers(Apply(s, step)) && StopProgress(Apply(s, step))
  {}

  lemma StopKeepsRegistry(s: State, step: Step)
    requires Sound(s) && Enabled(s, step) && StopStep(step) && !Apply(s, step).overlapped
    ensures RegistryCovers(Apply(s, step)) && StopProgress(Apply(s, step))
  {}

  lemma HandleStepKeepsRegistry(s: State, step: Step)
    requires Sound(s) && Enabled(s, step) && HandleStep(step) && !s.overlapped
    ensures RegistryCovers(Apply(s, step)) && StopProgress(Apply(s, step))
  {}

  lemma OtherKeepsRegistry(s: State, step: Step)
    requires Sound(s) && Enabled(s, step) && !s.overlapped
    requires !HandlerStep(step) && !StopStep(step) && !HandleStep(step)
    ensures RegistryCovers(Apply(s, step)) && StopProgress(Apply(s, step))
  {}

  lemma StepKeepsHandles(s: State, step: Step)
    requires Sound(s) && Enabled(s, step)
    ensures HandlesAgree(Apply(s, step))
  {
    if HandlerStep(step) {
      HandlerKeepsHandles(s, step);
    } else if HandleStep(step) {
      HandleStepKeepsHandles(s, step);
    } else {
      OtherKeepsHandles(s, step);
    }
  }

  lemma StepKeepsRegistry(s: State, step: Step)
    requires Sound(s) && Enabled(s, step) && !Apply(s, step).overlapped
    ensures RegistryCovers(Apply(s, step)) && StopProgress(Apply(s, step))
  {
    if HandlerStep(step) {
      HandlerKeepsRegistry(s, step);
    } else if StopStep(step) {
      StopKeepsRegistry(s, step);
    } else if HandleStep(step) {
      HandleStepKeepsRegistry(s, step);
    } else {
      OtherKeepsRegistry(s, step);
    }
  }

  lemma StepKeepsSound(s: State, step: Step)
    requires Sound(s) && Enabled(s, step)
    ensures Sound(Apply(s, step))
  {
    StepKeepsHandles(s, step);
    StepKeepsFlags(s, step);
    if !Apply(s, step).overlapped {
      StepKeepsRegistry(s, step);
    }
  }

  lemma RunsAreSound(steps: seq<Step>)
    requires Run(steps).Some?
    ensures Sound(Run(steps).value)
    ensures var s := Run(steps).value;
            !s.overlapped ==> forall c :: c in s.handled && c in s.open ==> c in s.clients || InHand(s, c)
  {
    forall s, step | Sound(s) && Next(s, step).Some?
      ensures Sound(Next(s, step).value)
    {
      StepKeepsSound(s, step);
    }
    Runs.KeptByRuns(Next, s => Sound(s), INITIAL, steps);
  }

  // ---- Shutdown ----

  /** What a stop is for. */
  ghost predicate AllReleased(s: State) {
    s.clients == map[] && s.handled !! s.open
  }

  /** However `stop` races with the network thread, with disconnects and with
      other stops: when the call that won the exchange is done, the registry is
      empty, every connection the server took on has been closed, the listen
      socket and poll group are gone, and the network thread has been joined. With a
      network thread this is so without exception; with manual polls, unless one of
      them was about to add a connection when a stop went past its join. */
  lemma StopReleasesEverything(steps: seq<Step>)
    requires Run(steps).Some? && Enabled(Run(steps).value, StopDestroyGroup)
    ensures var s := Apply(Run(steps).value, StopDestroyGroup);
            && s.listenSocket == 0 && s.pollGroup == 0
            && !s.threaded && !s.running && !s.instance
            && (!s.overlapped ==> AllReleased(s) && s.accepted !! s.open)
  {
    RunsAreSound(steps);
    StepKeepsSound(Run(steps).value, StopDestroyGroup);
  }

  /** A server that is only ever started with its own network thread is never
      stopped past a connection being added: joining the thread waits for it. */
  lemma {:induction false} ThreadedStopsNeverOverlap(steps: seq<Step>)
    requires Run(steps).Some? && forall k :: 0 <= k < |steps| && steps[k].Start? ==> steps[k].threaded
    ensures var s := Run(steps).value;
            !s.overlapped && (s.running || s.stopper.Joining? ==> s.threaded)
  {
    if steps != [] {
      var prefix, last := steps[..|steps| - 1], steps[|steps| - 1];
      assert last == steps[|prefix|] && (last.Start? ==> last.threaded);
      ThreadedStopsNeverOverlap(prefix);
      RunsAreSound(prefix);
    }
  }

  /** A start for which the transport provides both sockets. */
  predicate Starts(step: Step) {
    step.Start? && step.socket != 0 && step.group != 0
  }

  lemma QuietStep(s: State, step: Step)
    requires Sound(s) && Enabled(s, step) && !Starts(step) && s.stopper.Outside? && !s.running && !s.overlapped
    ensures var s' := Apply(s, step);
            && s'.stopper.Outside? && !s'.running && !s'.overlapped
            && s'.handled == s.handled && s'.accepted == s.accepted
  {}

  /** After that, until the server is started again, no step of any thread
      registers, accepts or even takes on a connection. */
  lemma {:induction false} NothingAddedAfterStop(steps: seq<Step>, more: seq<Step>)
    requires Run(steps).Some? && Run(steps).value.stopper.Outside? && !Run(steps).value.running
    requires !Run(steps).value.overlapped
    requires Run(steps + more).Some? && forall k :: 0 <= k < |more| ==> !Starts(more[k])
    ensures var s, s' := Run(steps).value, Run(steps + more).value;
            && AllReleased(s') && s'.handled == s.handled && s'.accepted == s.accepted
            && s'.accepted !! s'.open
            && s'.stopper.Outside? && !s'.running && !s'.overlapped
  {
    if more == [] {
      assert steps + more == steps;
      RunsAreSound(steps);
    } else {
      var less, last := more[..|more| - 1], more[|more| - 1];
      assert steps + more == (steps + less) + [last];
      WalkAppend(INITIAL, steps + less, last);
      NothingAddedAfterStop(steps, less);
      RunsAreSound(steps + less);
      QuietStep(Run(steps + less).value, last);
      StepKeepsSound(Run(steps + less).value, last);
    }
  }

  /** The step the network thread takes next while a stop waits to join it. */
  function NextNetworkStep(s: State): Step
    requires !s.network.Ended?
  {
    match s.network
    case Polling => PollEnds
    case Accepting(_) => Accept(true)
    case Grouping(_) => SetGroup(true)
    case Registering(_) => Register(0)
    case Rejecting(_) => CloseRejected
    case PeerClosing(_) => ClosePeer
  }

  function StepsToEnd(network: NetworkThread): nat {
    match network
    case Ended => 0
    case Polling => 1
    case Accepting(_) => 4
    case Grouping(_) => 3
    case _ => 2
  }

  /** Joining cannot deadlock: a stop that has won can go on, or the client mutex is
      free and the network thread has a step it can take, which brings its end nearer.
      (A stop called from a callback would wait for its own thread, and is assumed
      away.) */
  lemma JoinCannotDeadlock(steps: seq<Step>)
    requires Run(steps).Some? && Run(steps).value.stopper.Joining?
    ensures var s := Run(steps).value;
            || Enabled(s, StopJoin)
            || (&& !s.network.Ended? && !Locked(s)
                && Enabled(s, NextNetworkStep(s))
                && StepsToEnd(Apply(s, NextNetworkStep(s)).network) < StepsToEnd(s.network))
  {
    RunsAreSound(steps);
  }

  // ---- Between calls ----

  predicate AtRest(s: State) {
    s.stopper.Outside? && s.entered == 0 && (s.network.Ended? || s.network.Polling?)
  }

  /** In every reachable state between calls, as long as no stop has overlapped: each
      connection whose connecting event was handled is registered under its own
      handle or closed; a stopped server has no clients. Without exception: a running
      one has its sockets. */
  lemma RegistryBetweenCalls(steps: seq<Step>, conn: Connection)
    requires Run(steps).Some? && AtRest(Run(steps).value)
    ensures var s := Run(steps).value;
            && (!s.overlapped ==>
                  && (conn in s.handled ==> conn !in s.open || (conn in s.clients && s.clients[conn].conn == conn))
                  && (!s.running ==> AllReleased(s) && s.accepted !! s.open))
            && s.accepted <= s.handled
            && (s.running ==> s.listenSocket != 0 && s.pollGroup != 0 && s.instance)
            && (s.threaded ==> s.running)
  {
    RunsAreSound(steps);
  }

  // ---- A state some runs below start from ----

  /** A manual poll has its first connection in hand. */
  const ACCEPTING: State :=
    State(true, true, map[], 1, 1, false, Accepting(5), Outside, 0, multiset{}, {5}, {5}, {5}, {}, false)

  lemma AcceptingReached(steps: seq<Step>)
    requires Walk(INITIAL, steps) == Some(INITIAL)
    ensures Run(steps + [Start(false, 1, 1)] + [Incoming(5)] + [ManualPoll] + [ConnectingEvent(5)]) == Some(ACCEPTING)
  {
    NextStep(INITIAL, steps, INITIAL, Start(false, 1, 1));
    var s1 := AfterStart(INITIAL, false, 1, 1);
    NextStep(INITIAL, steps + [Start(false, 1, 1)], s1, Incoming(5));
    var s2 := s1.(open := {5}, named := {5});
    assert Apply(s1, Incoming(5)) == s2;
    NextStep(INITIAL, steps + [Start(false, 1, 1)] + [Incoming(5)], s2, ManualPoll);
    var s3 := s2.(network := Polling);
    NextStep(INITIAL, steps + [Start(false, 1, 1)] + [Incoming(5)] + [ManualPoll], s3, ConnectingEvent(5));
    assert Apply(s3, ConnectingEvent(5)) == ACCEPTING;
  }
}
