/** The connection state of `UdpClient` as the owner thread (connect, stop) and the
    network thread (status events) move it, one statement at a time. The
    transport's status events are assumed to carry the client's current handle and
    to be dispatched by its own network thread, the instance pointer to be read once
    per event, new handles to be new, and connect and stop to be called by one owner,
    not from within a callback. A connect may come at any time; assigning a new
    thread over one that was never joined ends the program (`std::terminate`), and
    where there is none, nothing runs beside it, so it is one step. */
module ClientProtocol {
  import opened Wrappers
  import opened NetworkTypes
  import Runs

  /** `connection_status_t`. */
  datatype Status = Disconnected | Connecting | Connected | FailedToConnect

  /** The transport states a status event can report. */
  datatype EventKind = NoneState | ClosedByPeer | ProblemDetectedLocally | ConnectingState | ConnectedState

  /** Where the network thread stands. */
  datatype NetworkThread =
    | Ended
    | Polling
    | Handling(kind: EventKind)   // has found the instance, before the first store of the event's branch
    | BeforeFailed                // closing branch, before it stores the status
    | BeforeClose                 // ... before CloseConnection
    | BeforeClear                 // ... before it clears the handle
    | BeforeStatus                // ... before its last store

  /** Where the owner stands inside `stop`. */
  datatype Owner = Outside | Entered | WonExchange | Joined | ClosedHandle

  datatype State = State(
    instance: bool,               // `s_instance` points at this client
    running: bool,
    status: Status,
    conn: Connection,
    network: NetworkThread,
    joinable: bool,               // `m_network_thread` holds a thread that has not been joined
    terminated: bool,             // the program has been ended by `std::terminate`
    owner: Owner,
    obtained: seq<Connection>,      // handles obtained from the transport
    closed: seq<Connection>)      // handles closed, one entry per close

  datatype Step =
    | Connect(addressValid: bool, handle: Connection)
    | StopEnter
    | StopExchange
    | StopJoin
    | StopClose
    | StopClear
    | LoopExit
    | Event(kind: EventKind)      // the callback reads the instance pointer
    | Handle                      // the first store of the branch
    | StoreFailed
    | CloseHandle
    | ClearHandle
    | StoreStatus

  const INITIAL := State(false, false, Disconnected, INVALID_CONNECTION, Ended, false, false, Outside, [], [])

  predicate Enabled(s: State, step: Step) {
    !s.terminated &&
    match step
    case Connect(_, handle) => s.owner.Outside? && (handle != INVALID_CONNECTION ==> handle !in s.obtained)
    case StopEnter => s.owner.Outside?
    case StopExchange => s.owner.Entered?
    case StopJoin => s.owner.WonExchange? && (s.joinable ==> s.network.Ended?)
    case StopClose => s.owner.Joined? && s.conn != INVALID_CONNECTION
    case StopClear => s.owner.ClosedHandle? || (s.owner.Joined? && s.conn == INVALID_CONNECTION)
    case LoopExit => s.network.Polling? && !s.running
    case Event(_) => s.network.Polling? && s.conn != INVALID_CONNECTION
    case Handle => s.network.Handling?
    case StoreFailed => s.network.BeforeFailed?
    case CloseHandle => s.network.BeforeClose?
    case ClearHandle => s.network.BeforeClear?
    case StoreStatus => s.network.BeforeStatus?
  }

  /** `try_connect` and the store of its result. */
  function Tried(s: State, addressValid: bool, handle: Connection): State {
    if !addressValid then s.(instance := true, status := FailedToConnect)
    else if handle == INVALID_CONNECTION then s.(instance := true, status := FailedToConnect, conn := handle)
    else s.(instance := true, status := Connecting, conn := handle, running := true, obtained := s.obtained + [handle])
  }

  /** `connect`: unless the client runs, a network thread is spawned, even on
      failure, over whatever thread there was before. */
  function AfterConnect(s: State, addressValid: bool, handle: Connection): State {
    if s.running then s else
    var tried := Tried(s, addressValid, handle);
    if s.joinable then tried.(terminated := true) else tried.(joinable := true, network := Polling)
  }

  predicate Closing(kind: EventKind) {
    kind.ClosedByPeer? || kind.ProblemDetectedLocally?
  }

  /** The first store of the branch for an event, and the only one unless the
      connection is closed. */
  function AfterHandle(s: State, kind: EventKind): State {
    match kind
    case NoneState => s.(network := Polling)
    case ClosedByPeer => s.(running := false, network := BeforeFailed)
    case ProblemDetectedLocally => s.(running := false, network := BeforeFailed)
    case ConnectingState => s.(status := Connecting, network := Polling)
    case ConnectedState => s.(status := Connected, network := Polling)
  }

  function Apply(s: State, step: Step): State
    requires Enabled(s, step)
  {
    match step
    case Connect(valid, handle) => AfterConnect(s, valid, handle)
    case StopEnter => s.(instance := false, owner := Entered)
    case StopExchange => s.(running := false, owner := if s.running then WonExchange else Outside)
    case StopJoin => s.(joinable := false, owner := Joined)
    case StopClose => s.(closed := s.closed + [s.conn], owner := ClosedHandle)
    case StopClear => s.(conn := INVALID_CONNECTION, owner := Outside)
    case LoopExit => s.(network := Ended)
    case Event(kind) => if s.instance then s.(network := Handling(kind)) else s
    case Handle => AfterHandle(s, s.network.kind)
    case StoreFailed => s.(status := FailedToConnect, network := BeforeClose)
    case CloseHandle => s.(closed := s.closed + [s.conn], network := BeforeClear)
    case ClearHandle => s.(conn := INVALID_CONNECTION, network := BeforeStatus)
    case StoreStatus => s.(status := Disconnected, network := Polling)
  }

  function Next(s: State, step: Step): Option<State> {
    if Enabled(s, step) then Some(Apply(s, step)) else None
  }

  /** Where some steps lead from a state, if each of them is possible. */
  function Walk(s: State, steps: seq<Step>): Option<State> {
    Runs.Run(Next, s, steps)
  }

  function Run(steps: seq<Step>): Option<State> {
    Walk(INITIAL, steps)
  }

  lemma RunAppend(steps: seq<Step>, step: Step)
    requires Run(steps).Some? && Enabled(Run(steps).value, step)
    ensures Run(steps + [step]) == Some(Apply(Run(steps).value, step))
  {
    assert (steps + [step])[..|steps|] == steps;
  }

  /** Between a close and the store that forgets the handle. */
  predicate JustClosed(s: State) {
    s.network.BeforeClear? || s.owner.ClosedHandle?
  }

  ghost predicate Distinct(handles: seq<Connection>) {
    forall j, k :: 0 <= j < k < |handles| ==> handles[j] != handles[k]
  }

  /** Every handle is closed at most once, and is unclosed only while current. */
  ghost predicate HandlesAccounted(s: State) {
    && Distinct(s.obtained) && Distinct(s.closed)
    && (s.conn != INVALID_CONNECTION ==> s.conn in s.obtained)
    && (forall h :: h in s.closed ==> h in s.obtained)
    && (forall h :: h in s.obtained ==> h != INVALID_CONNECTION)
    && (forall h :: h in s.obtained ==> (h !in s.closed <==> h == s.conn && !JustClosed(s)))
  }

  /** The closing branch, up to the store that forgets the handle. */
  predicate InClosingBranch(s: State) {
    s.network.BeforeFailed? || s.network.BeforeClose? || s.network.BeforeClear?
  }

  /** A stop that has won the exchange and not yet forgotten the handle. */
  predicate StopWon(s: State) {
    s.owner.WonExchange? || s.owner.Joined? || s.owner.ClosedHandle?
  }

  /** Running goes with a live handle; a handle outlives the flag only inside
      the two places that are about to close it. */
  ghost predicate FlagsAgree(s: State) {
    && (s.running ==>
          && s.conn != INVALID_CONNECTION && (s.network.Polling? || s.network.Handling?) && !StopWon(s)
          && (s.status.Connecting? || s.status.Connected?))
    && (s.conn != INVALID_CONNECTION && !s.running ==> InClosingBranch(s) || StopWon(s))
    && (s.network.Handling? || InClosingBranch(s) ==> s.conn != INVALID_CONNECTION)
    && (InClosingBranch(s) ==> !s.running)
    && (s.owner.Joined? || s.owner.ClosedHandle? ==> s.network.Ended? && !s.joinable)
    && (s.owner.ClosedHandle? ==> s.conn != INVALID_CONNECTION)
    && (s.running && s.owner.Outside? ==> s.instance)
    && (s.network.BeforeClose? || s.network.BeforeClear? || s.network.BeforeStatus? ==> s.status.FailedToConnect?)
    && (!s.joinable ==> s.network.Ended?)
  }

  /** What holds for as long as the program has not been terminated. */
  ghost predicate Sound(s: State) {
    !s.terminated ==> HandlesAccounted(s) && FlagsAgree(s)
  }

  lemma ConnectKeepsHandles(s: State, valid: bool, handle: Connection)
    requires HandlesAccounted(s) && FlagsAgree(s) && Enabled(s, Connect(valid, handle))
    requires !AfterConnect(s, valid, handle).terminated
    ensures HandlesAccounted(AfterConnect(s, valid, handle))
  {
    var s' := AfterConnect(s, valid, handle);
    if s' != s {
      assert s.conn == INVALID_CONNECTION;
      assert s'.obtained == s.obtained || s'.obtained == s.obtained + [handle];
    }
  }

  lemma CloseKeepsHandles(s: State, step: Step)
    requires HandlesAccounted(s) && FlagsAgree(s) && Enabled(s, step) && (step.StopClose? || step.CloseHandle?)
    ensures HandlesAccounted(Apply(s, step))
  {
    assert s.conn in s.obtained && s.conn !in s.closed;
    assert Apply(s, step).closed == s.closed + [s.conn];
  }

  lemma OtherKeepsHandles(s: State, step: Step)
    requires HandlesAccounted(s) && FlagsAgree(s) && Enabled(s, step)
    requires !step.Connect? && !step.StopClose? && !step.CloseHandle?
    ensures HandlesAccounted(Apply(s, step))
  {
    assert Apply(s, step).obtained == s.obtained && Apply(s, step).closed == s.closed;
  }

  lemma StepKeepsFlags(s: State, step: Step)
    requires FlagsAgree(s) && Enabled(s, step) && !Apply(s, step).terminated
    ensures FlagsAgree(Apply(s, step))
  {}

  lemma StepKeepsSound(s: State, step: Step)
    requires Sound(s) && Enabled(s, step)
    ensures Sound(Apply(s, step))
  {
    if !Apply(s, step).terminated {
      StepKeepsFlags(s, step);
      if step.Connect? {
        ConnectKeepsHandles(s, step.addressValid, step.handle);
      } else if step.StopClose? || step.CloseHandle? {
        CloseKeepsHandles(s, step);
      } else {
        OtherKeepsHandles(s, step);
      }
    }
  }

  lemma RunsAreSound(steps: seq<Step>)
    requires Run(steps).Some?
    ensures Sound(Run(steps).value)
  {
    forall s, step | Sound(s) && Next(s, step).Some?
      ensures Sound(Next(s, step).value)
    {
      StepKeepsSound(s, step);
    }
    Runs.KeptByRuns(Next, s => Sound(s), INITIAL, steps);
  }

  /** The owner is outside `stop` and the network thread outside the handler. */
  predicate AtRest(s: State) {
    s.owner.Outside? && (s.network.Ended? || s.network.Polling?)
  }

  /** In every run, each handle obtained is closed exactly once or is the current
      one. At rest the client runs exactly when it holds a handle, so nothing can
      be sent unless it runs. */
  lemma HandlesClosedOnce(steps: seq<Step>, h: Connection)
    requires Run(steps).Some? && !Run(steps).value.terminated
    ensures var s := Run(steps).value;
            && multiset(s.closed)[h] == (if h in s.obtained && (h != s.conn || JustClosed(s)) then 1 else 0)
            && (AtRest(s) ==> !JustClosed(s) && (s.running <==> s.conn != INVALID_CONNECTION))
            && (s.running ==> s.conn in s.obtained && (s.status.Connecting? || s.status.Connected?))
  {
    RunsAreSound(steps);
    CountDistinct(Run(steps).value.closed, h);
  }

  lemma {:induction false} CountDistinct(handles: seq<Connection>, h: Connection)
    requires Distinct(handles)
    ensures multiset(handles)[h] == if h in handles then 1 else 0
  {
    if handles != [] {
      var rest, last := handles[..|handles| - 1], handles[|handles| - 1];
      assert handles == rest + [last];
      CountDistinct(rest, h);
    }
  }

  /** However `stop` races with the network thread's status handler: when the call
      that won the exchange is done, the client holds no handle and every handle
      it ever obtained has been closed. */
  lemma StopClosesEverything(steps: seq<Step>)
    requires Run(steps).Some? && Enabled(Run(steps).value, StopClear)
    ensures var s := Apply(Run(steps).value, StopClear);
            && AtRest(s) && !s.running && s.conn == INVALID_CONNECTION && s.network.Ended? && !s.joinable
            && forall h :: h in s.obtained ==> h in s.closed
  {
    RunsAreSound(steps);
    StepKeepsSound(Run(steps).value, StopClear);
  }

  /** The race is a real one: the handler has read the instance when a stop clears it
      and wins the exchange, so the winning stop meets the closing branch. */
  lemma StopMeetsClose(h: Connection) returns (steps: seq<Step>)
    requires h != INVALID_CONNECTION
    ensures Run(steps).Some?
    ensures Run(steps).value.owner.WonExchange? && Run(steps).value.network.BeforeClose?
    ensures Run(steps).value.obtained == [h] && Run(steps).value.closed == []
  {
    steps := RacingRun([], h);
  }

  lemma RacingRun(before: seq<Step>, h: Connection) returns (steps: seq<Step>)
    requires Run(before) == Some(INITIAL) && h != INVALID_CONNECTION
    ensures Run(steps).Some?
    ensures Run(steps).value.owner.WonExchange? && Run(steps).value.network.BeforeClose?
    ensures Run(steps).value.obtained == [h] && Run(steps).value.closed == []
  {
    var s := State(true, true, Connecting, h, Polling, true, false, Outside, [h], []);
    RunAppend(before, Connect(true, h));
    assert Apply(INITIAL, Connect(true, h)) == s;
    steps := before + [Connect(true, h)];
    RunAppend(steps, Event(ClosedByPeer));
    steps := steps + [Event(ClosedByPeer)];
    RunAppend(steps, StopEnter);
    steps := steps + [StopEnter];
    RunAppend(steps, StopExchange);
    steps := steps + [StopExchange];
    RunAppend(steps, Handle);
    steps := steps + [Handle];
    RunAppend(steps, StoreFailed);
    steps := steps + [StoreFailed];
  }

  // ---- Connecting again ----

  /** A connect that finds the client not running. */
  predicate PassesCheck(s: State, step: Step) {
    step.Connect? && !s.running
  }

  /** Some connect has passed the running check, and no stop has joined since. */
  ghost predicate Unjoined(steps: seq<Step>)
    requires Run(steps).Some?
  {
    exists k :: 0 <= k < |steps| && SpawnedAt(steps, k) && forall j :: k < j < |steps| ==> steps[j] != StopJoin
  }

  ghost predicate SpawnedAt(steps: seq<Step>, k: nat)
    requires k < |steps|
  {
    Run(steps[..k]).Some? && PassesCheck(Run(steps[..k]).value, steps[k])
  }

  lemma UnjoinedStep(steps: seq<Step>)
    requires steps != [] && Run(steps).Some?
    ensures var n := |steps| - 1;
            Unjoined(steps) <==> SpawnedAt(steps, n) || (Unjoined(steps[..n]) && steps[n] != StopJoin)
  {
    var n := |steps| - 1;
    assert forall k :: 0 <= k < n ==> steps[..n][..k] == steps[..k];
    assert forall k :: 0 <= k < n ==> (SpawnedAt(steps[..n], k) <==> SpawnedAt(steps, k));
    if SpawnedAt(steps, n) || (Unjoined(steps[..n]) && steps[n] != StopJoin) {
      var k :| 0 <= k <= n && SpawnedAt(steps, k) && forall j :: k < j < |steps| ==> steps[j] != StopJoin;
      assert Unjoined(steps);
    }
  }

  /** In every run, the thread is joinable exactly when it was spawned and not joined. */
  lemma {:induction false} JoinableIffUnjoined(steps: seq<Step>)
    requires Run(steps).Some?
    ensures Run(steps).value.joinable <==> Unjoined(steps)
  {
    if steps != [] {
      JoinableIffUnjoined(steps[..|steps| - 1]);
      UnjoinedStep(steps);
    }
  }

  /** A connect ends the program exactly when it finds the client not running
      although an earlier connect got as far and no stop has joined since. Whether
      that earlier connect succeeded, and whether its network thread has ended, does
      not matter. */
  lemma ConnectTerminatesIff(steps: seq<Step>, connect: Step)
    requires Run(steps).Some? && connect.Connect? && Enabled(Run(steps).value, connect)
    ensures Apply(Run(steps).value, connect).terminated <==> !Run(steps).value.running && Unjoined(steps)
  {
    JoinableIffUnjoined(steps);
  }

  /** A client that has stopped running without a stop, because a connect failed or
      the connection was closed, is beyond recovery: stops do nothing for it, and
      every later connect ends the program. */
  lemma {:induction false} NeverConnectsAgain(steps: seq<Step>, more: seq<Step>)
    requires Run(steps).Some? && !Run(steps).value.running && Run(steps).value.joinable
    requires Run(steps).value.owner.Outside? || Run(steps).value.owner.Entered?
    requires Run(steps + more).Some? && !Run(steps + more).value.terminated
    ensures var s := Run(steps + more).value;
            && !s.running && s.joinable && (s.owner.Outside? || s.owner.Entered?)
            && forall connect: Step :: connect.Connect? && Enabled(s, connect) ==> Apply(s, connect).terminated
  {
    if more == [] {
      assert steps + more == steps;
    } else {
      var less, last := more[..|more| - 1], more[|more| - 1];
      assert (steps + more)[..|steps + more| - 1] == steps + less;
      NeverConnectsAgain(steps, less);
    }
  }

  /** The shortest such run: a connect to an invalid address, then any connect. */
  lemma SecondConnectTerminates(valid: bool, handle: Connection)
    ensures Run([Connect(false, 0), Connect(valid, handle)]).Some?
    ensures Run([Connect(false, 0), Connect(valid, handle)]).value.terminated
  {
    var first := Connect(false, 0);
    RunAppend([], first);
    assert [] + [first] == [first];
    RunAppend([first], Connect(valid, handle));
    assert [first] + [Connect(valid, handle)] == [first, Connect(valid, handle)];
  }

  // ---- The status ----

  /** The handler takes the branch for such an event. */
  ghost predicate HandledAt(steps: seq<Step>, k: nat, kind: EventKind)
    requires k < |steps|
  {
    steps[k].Handle? && Run(steps[..k]).Some? && Run(steps[..k]).value.network == Handling(kind)
  }

  /** From here on, no connect passes the running check and no connecting or connected
      event is handled. */
  ghost predicate StatusStaysAfter(steps: seq<Step>, k: nat) {
    forall j :: k < j < |steps| ==>
      !SpawnedAt(steps, j) && !HandledAt(steps, j, ConnectingState) && !HandledAt(steps, j, ConnectedState)
  }

  /** The last connecting or connected event handled since the connect was a connected one. */
  ghost predicate ConnectedLast(steps: seq<Step>) {
    exists k :: 0 <= k < |steps| && HandledAt(steps, k, ConnectedState) && StatusStaysAfter(steps, k)
  }

  lemma StatusStaysStep(steps: seq<Step>, k: nat)
    requires Run(steps).Some? && k < |steps| - 1
    ensures var n := |steps| - 1;
            && (HandledAt(steps[..n], k, ConnectedState) <==> HandledAt(steps, k, ConnectedState))
            && (StatusStaysAfter(steps, k)
                <==> StatusStaysAfter(steps[..n], k) && !SpawnedAt(steps, n)
                     && !HandledAt(steps, n, ConnectingState) && !HandledAt(steps, n, ConnectedState))
  {
    var n := |steps| - 1;
    forall j | 0 <= j < n
      ensures HandledAt(steps[..n], j, ConnectedState) <==> HandledAt(steps, j, ConnectedState)
      ensures HandledAt(steps[..n], j, ConnectingState) <==> HandledAt(steps, j, ConnectingState)
      ensures SpawnedAt(steps[..n], j) <==> SpawnedAt(steps, j)
    {
      assert steps[..n][..j] == steps[..j];
    }
  }

  lemma ConnectedLastStep(steps: seq<Step>)
    requires steps != [] && Run(steps).Some?
    ensures var n := |steps| - 1;
            ConnectedLast(steps)
            <==> (HandledAt(steps, n, ConnectedState)
                  || (ConnectedLast(steps[..n]) && !SpawnedAt(steps, n) && !HandledAt(steps, n, ConnectingState)))
  {
    var n := |steps| - 1;
    forall k | 0 <= k < n
      ensures HandledAt(steps, k, ConnectedState) && StatusStaysAfter(steps, k)
         <==> HandledAt(steps[..n], k, ConnectedState) && StatusStaysAfter(steps[..n], k)
              && !SpawnedAt(steps, n) && !HandledAt(steps, n, ConnectingState) && !HandledAt(steps, n, ConnectedState)
    {
      StatusStaysStep(steps, k);
    }
    assert StatusStaysAfter(steps, n);
  }

  /** In every run, a running client is connected if and only if that is so, and
      connecting otherwise. */
  lemma {:induction false} ConnectedIff(steps: seq<Step>)
    requires Run(steps).Some? && Run(steps).value.running && !Run(steps).value.terminated
    ensures Run(steps).value.status == if ConnectedLast(steps) then Connected else Connecting
  {
    var n := |steps| - 1;
    var s := Run(steps[..n]).value;
    RunsAreSound(steps[..n]);
    ConnectedLastStep(steps);
    if s.running {
      ConnectedIff(steps[..n]);
    }
  }

  // ---- Polling ----

  // ---- Calls, when nothing interleaves with them ----

  /** One more step. */
  lemma Then(s: State, steps: seq<Step>, s1: State, step: Step)
    requires Walk(s, steps) == Some(s1) && Enabled(s1, step)
    ensures Walk(s, steps + [step]) == Some(Apply(s1, step))
  {
    assert (steps + [step])[..|steps|] == steps;
  }

  lemma OneStep(s: State, step: Step)
    requires Enabled(s, step)
    ensures Walk(s, [step]) == Some(Apply(s, step))
  {
    Then(s, [], s, step);
    assert [] + [step] == [step];
  }

  /** A call from a reached state leads to a reached state. */
  lemma CallsAreRuns(history: seq<Step>, s: State, steps: seq<Step>, s': State)
    requires Run(history) == Some(s) && Walk(s, steps) == Some(s')
    ensures Run(history + steps) == Some(s')
  {
    Runs.RunInTwo(Next, INITIAL, history, steps);
  }

  lemma {:induction false} WalkKeepsSound(s: State, steps: seq<Step>)
    requires Sound(s) && Walk(s, steps).Some?
    ensures Sound(Walk(s, steps).value)
  {
    if steps != [] {
      var less := steps[..|steps| - 1];
      WalkKeepsSound(s, less);
      StepKeepsSound(Walk(s, less).value, steps[|steps| - 1]);
    }
  }

  /** What a stop comes to: without winning the exchange, it only clears the instance. */
  function AfterStop(s: State): State {
    if s.running then
      s.(instance := false, running := false, conn := INVALID_CONNECTION, network := Ended, joinable := false,
         closed := s.closed + [s.conn])
    else s.(instance := false)
  }

  function StopSteps(s: State): seq<Step> {
    [StopEnter, StopExchange] + if s.running then [LoopExit, StopJoin, StopClose, StopClear] else []
  }

  lemma StopWalk(s: State)
    requires Sound(s) && !s.terminated && AtRest(s)
    ensures Walk(s, StopSteps(s)) == Some(AfterStop(s)) && AtRest(AfterStop(s))
  {
    OneStep(s, StopEnter);
    var s1 := Apply(s, StopEnter);
    Then(s, [StopEnter], s1, StopExchange);
    assert [StopEnter] + [StopExchange] == [StopEnter, StopExchange];
    if s.running {
      var s2 := Apply(s1, StopExchange);
      FinishWalk(s2);
      Runs.RunInTwo(Next, s, [StopEnter, StopExchange], [LoopExit, StopJoin, StopClose, StopClear]);
    } else {
      assert StopSteps(s) == [StopEnter, StopExchange];
    }
  }

  lemma FinishWalk(s: State)
    requires !s.terminated && s.owner.WonExchange? && s.network.Polling? && !s.running && s.conn != INVALID_CONNECTION
    ensures Walk(s, [LoopExit, StopJoin, StopClose, StopClear])
         == Some(s.(network := Ended, joinable := false, closed := s.closed + [s.conn], conn := INVALID_CONNECTION,
                    owner := Outside))
  {
    OneStep(s, LoopExit);
    var s1 := s.(network := Ended);
    Then(s, [LoopExit], s1, StopJoin);
    var s2 := s1.(joinable := false, owner := Joined);
    assert [LoopExit] + [StopJoin] == [LoopExit, StopJoin];
    Then(s, [LoopExit, StopJoin], s2, StopClose);
    var s3 := s2.(closed := s.closed + [s.conn], owner := ClosedHandle);
    assert [LoopExit, StopJoin] + [StopClose] == [LoopExit, StopJoin, StopClose];
    Then(s, [LoopExit, StopJoin, StopClose], s3, StopClear);
    assert [LoopExit, StopJoin, StopClose] + [StopClear] == [LoopExit, StopJoin, StopClose, StopClear];
  }

  /** What a status event comes to. */
  function AfterEvent(s: State, kind: EventKind): State {
    if !s.instance then s else
    match kind
    case NoneState => s
    case ConnectingState => s.(status := Connecting)
    case ConnectedState => s.(status := Connected)
    case _ => s.(running := false, status := Disconnected, conn := INVALID_CONNECTION, closed := s.closed + [s.conn])
  }

  /** Its steps. */
  function EventSteps(kind: EventKind, instance: bool): seq<Step> {
    [Event(kind)]
    + (if !instance then []
       else if !Closing(kind) then [Handle]
       else [Handle, StoreFailed, CloseHandle, ClearHandle, StoreStatus])
  }

  lemma EventWalk(s: State, kind: EventKind)
    requires Enabled(s, Event(kind))
    ensures Walk(s, EventSteps(kind, s.instance)) == Some(AfterEvent(s, kind))
  {
    OneStep(s, Event(kind));
    var s1 := s.(network := Handling(kind));
    if s.instance && !Closing(kind) {
      Then(s, [Event(kind)], s1, Handle);
      assert [Event(kind)] + [Handle] == EventSteps(kind, true);
    } else if s.instance {
      CloseWalk(s1);
      Runs.RunInTwo(Next, s, [Event(kind)], [Handle, StoreFailed, CloseHandle, ClearHandle, StoreStatus]);
    } else {
      assert [Event(kind)] + [] == [Event(kind)];
    }
  }

  lemma CloseWalk(s: State)
    requires !s.terminated && s.network.Handling? && Closing(s.network.kind)
    ensures Walk(s, [Handle, StoreFailed, CloseHandle, ClearHandle, StoreStatus])
         == Some(s.(running := false, status := Disconnected, conn := INVALID_CONNECTION,
                    closed := s.closed + [s.conn], network := Polling))
  {
    OneStep(s, Handle);
    var s1 := s.(running := false, network := BeforeFailed);
    Then(s, [Handle], s1, StoreFailed);
    var s2 := s1.(status := FailedToConnect, network := BeforeClose);
    assert [Handle] + [StoreFailed] == [Handle, StoreFailed];
    Then(s, [Handle, StoreFailed], s2, CloseHandle);
    var s3 := s2.(closed := s.closed + [s.conn], network := BeforeClear);
    assert [Handle, StoreFailed] + [CloseHandle] == [Handle, StoreFailed, CloseHandle];
    Then(s, [Handle, StoreFailed, CloseHandle], s3, ClearHandle);
    var s4 := s3.(conn := INVALID_CONNECTION, network := BeforeStatus);
    assert [Handle, StoreFailed, CloseHandle] + [ClearHandle] == [Handle, StoreFailed, CloseHandle, ClearHandle];
    Then(s, [Handle, StoreFailed, CloseHandle, ClearHandle], s4, StoreStatus);
    assert [Handle, StoreFailed, CloseHandle, ClearHandle] + [StoreStatus]
        == [Handle, StoreFailed, CloseHandle, ClearHandle, StoreStatus];
  }

  /** The status events of one poll: all of them, up to the first that closes the
      connection. */
  function DispatchedSteps(kinds: seq<EventKind>, instance: bool): seq<Step> {
    if kinds == [] then []
    else if instance && Closing(kinds[0]) then EventSteps(kinds[0], instance)
    else EventSteps(kinds[0], instance) + DispatchedSteps(kinds[1..], instance)
  }

  function AfterEvents(s: State, kinds: seq<EventKind>): State
    decreases |kinds|
  {
    if kinds == [] then s
    else if s.instance && Closing(kinds[0]) then AfterEvent(s, kinds[0])
    else AfterEvents(AfterEvent(s, kinds[0]), kinds[1..])
  }

  lemma {:induction false} EventsWalk(s: State, kinds: seq<EventKind>)
    requires !s.terminated && s.network.Polling? && s.conn != INVALID_CONNECTION
    ensures Walk(s, DispatchedSteps(kinds, s.instance)) == Some(AfterEvents(s, kinds))
    ensures AfterEvents(s, kinds).network.Polling? && AfterEvents(s, kinds).owner == s.owner
    decreases |kinds|
  {
    if kinds != [] {
      EventWalk(s, kinds[0]);
      if !(s.instance && Closing(kinds[0])) {
        var s1 := AfterEvent(s, kinds[0]);
        EventsWalk(s1, kinds[1..]);
        Runs.RunInTwo(Next, s, EventSteps(kinds[0], s.instance), DispatchedSteps(kinds[1..], s.instance));
      }
    }
  }
}
