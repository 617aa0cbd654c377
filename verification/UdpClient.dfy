/** The objects of `udp_client.cpp`: the connection fields updated in place, and
    the batch of messages a poll handles. Every method that touches the connection
    is proved to append to a history that is a run of `ClientProtocol`. */
module UdpClient {
  import opened Wrappers
  import opened NetworkTypes
  import AwaiterProtocol
  import PacketClient
  import opened ClientPolling
  import opened ClientViews
  import opened BatchPolling
  import opened ClientProtocol

  /** One attempt to hand bytes to the transport. */
  datatype Sent = Sent(conn: Connection, data: seq<Byte>, reliable: bool)

  /** What handling one message makes of the packet client. */
  ghost function Handled<P>(config: PacketClient.Config<P>, c: PacketClient.Client<P>, message: Message)
    : PacketClient.Client<P>
  {
    if c.Valid() then PacketClient.Received(config, c, message.data) else c
  }

  ghost function ReceivedAll<P>(config: PacketClient.Config<P>, c: PacketClient.Client<P>, messages: seq<Message>)
    : PacketClient.Client<P>
  {
    HandleAll((c, message) => Handled(config, c, message), c, messages)
  }

  lemma {:induction false} ReceivedAllIsValid<P>(config: PacketClient.Config<P>, c: PacketClient.Client<P>,
                                                 messages: seq<Message>)
    requires c.Valid()
    ensures ReceivedAll(config, c, messages).Valid()
    ensures |ReceivedAll(config, c, messages).outcomes| == |c.outcomes| + |messages|
  {
    if messages != [] {
      var less := messages[..|messages| - 1];
      ReceivedAllIsValid(config, c, less);
      PacketClient.ReceivedIsValid(config, ReceivedAll(config, c, less), messages[|messages| - 1].data);
    }
  }

  /** Spelled out: with no message the client stays as it is, and with one more it goes
      from the state the others left it in to that in which the last is received. */
  lemma ReceivedAllSteps<P>(config: PacketClient.Config<P>, c: PacketClient.Client<P>, messages: seq<Message>,
                            last: Message)
    requires c.Valid()
    ensures ReceivedAll(config, c, []) == c
    ensures ReceivedAll(config, c, messages).Valid()
    ensures ReceivedAll(config, c, messages + [last])
         == PacketClient.Received(config, ReceivedAll(config, c, messages), last.data)
  {
    ReceivedAllIsValid(config, c, messages);
    assert (messages + [last])[..|messages|] == messages;
  }

  lemma NextMessage<P>(config: PacketClient.Config<P>, c: PacketClient.Client<P>, log: seq<Activity>,
                       messages: seq<Message>, i: nat)
    requires i < |messages|
    ensures ReceivedAll(config, c, messages[..i + 1])
         == Handled(config, ReceivedAll(config, c, messages[..i]), messages[i])
    ensures log + Callbacks(messages[..i + 1]) == log + Callbacks(messages[..i]) + [Callback(messages[i].id)]
  {
    assert Callbacks(messages[..i + 1]) == Callbacks(messages[..i]) + [Callback(messages[i].id)];
    assert messages[..i + 1][..i] == messages[..i];
  }

  lemma {:induction false} ReceivedAllKeepsPrompt<P>(config: PacketClient.Config<P>, c: PacketClient.Client<P>,
                                                     messages: seq<Message>)
    requires PromptClient(c)
    ensures PromptClient(ReceivedAll(config, c, messages))
  {
    if messages != [] {
      var less := messages[..|messages| - 1];
      ReceivedAllKeepsPrompt(config, c, less);
      ReceivedKeepsPrompt(config, ReceivedAll(config, c, less), messages[|messages| - 1].data);
    }
  }

  /** Polling sixteen at a time until the queue is drained, a sixteenth of its
      length in polls, rounded up, leaves the packet client as if it had been handed
      every message in turn and given none back. */
  lemma PollingRefinesReceiving<P(!new)>(config: PacketClient.Config<P>, c: PacketClient.Client<P>,
                                         inbox: seq<Message>, polls: nat)
    requires c.Valid()
    ensures Left(inbox, POLL_MESSAGE_COUNT, polls) == [] <==> polls >= (|inbox| + 15) / 16
    ensures polls >= (|inbox| + 15) / 16 ==>
              var polled := PollAll((c, message) => Handled(config, c, message), c => PacketClient.Released(c),
                                    c, inbox, POLL_MESSAGE_COUNT, polls);
              var all := ReceivedAll(config, c, inbox);
              && polled.Valid() && all.Valid()
              && polled.handlers == all.handlers && polled.invocations == all.invocations
              && polled.outcomes == all.outcomes
              && polled.Awaiters() == all.Awaiters().(released := polled.Awaiters().released)
  {
    DrainedIff(inbox, POLL_MESSAGE_COUNT, polls);
    if polls >= (|inbox| + 15) / 16 {
      var handle := (c: PacketClient.Client<P>, message: Message) => Handled(config, c, message);
      var finish := (c: PacketClient.Client<P>) => PacketClient.Released(c);
      var alike := (a, b) => Alike(a, b);
      forall a, b, message: Message | alike(a, b)
        ensures alike(handle(a, message), handle(b, message))
      {
        ReceivedAlike(config, a, b, message.data);
      }
      forall a, b | alike(a, b)
        ensures alike(finish(a), b)
      {
        ReleasedAlike(a, b);
      }
      PollingRefinesHandling(handle, finish, alike, c, c, inbox, POLL_MESSAGE_COUNT, polls);
    }
  }

  /** What status events move. */
  datatype LinkState = LinkState(running: bool, status: Status, conn: Connection, closes: seq<Connection>)

  /** What the first so many of some status events come to: they are all, or end with the
      first that closes the connection, and the status is what the last of them says
      that says anything. */
  ghost predicate Followed(kinds: seq<EventKind>, n: nat, last: int, a: LinkState, b: LinkState) {
    && n <= |kinds|
    && (forall k :: 0 <= k < n - 1 ==> !Closing(kinds[k]))
    && (n < |kinds| ==> n > 0 && Closing(kinds[n - 1]))
    && (if n > 0 && Closing(kinds[n - 1])
        then !b.running && b.conn == INVALID_CONNECTION && b.closes == a.closes + [a.conn]
        else b.running == a.running && b.conn == a.conn && b.closes == a.closes)
    && -1 <= last < n && (forall k :: last < k < n ==> kinds[k].NoneState?)
    && b.status == Told(if last < 0 then NoneState else kinds[last], a.status)
    && (last >= 0 ==> !kinds[last].NoneState?)
  }

  /** The status an event tells of. */
  function Told(kind: EventKind, before: Status): Status {
    match kind
    case NoneState => before
    case ConnectingState => Connecting
    case ConnectedState => Connected
    case _ => Disconnected
  }

  /** One event that does not close the connection, and then the others. */
  lemma FollowedOn(kinds: seq<EventKind>, rest: nat, last: int, a: LinkState, b: LinkState, c: LinkState)
    requires kinds != [] && !Closing(kinds[0]) && Followed(kinds[1..], rest, last, b, c)
    requires b == a.(status := Told(kinds[0], a.status))
    ensures Followed(kinds, 1 + rest, if last < 0 && kinds[0].NoneState? then -1 else 1 + last, a, c)
  {
    assert forall k :: 0 < k < 1 + rest ==> kinds[k] == kinds[1..][k - 1];
  }

  lemma FollowedNone(a: LinkState)
    ensures Followed([], 0, -1, a, a)
  {}

  lemma FollowedToClose(kinds: seq<EventKind>, a: LinkState)
    requires kinds != [] && Closing(kinds[0])
    ensures Followed(kinds, 1, 0, a, LinkState(false, Disconnected, INVALID_CONNECTION, a.closes + [a.conn]))
  {}

  class UdpClient<P(!new)> {
    var instance: bool
    var running: bool
    var status: Status
    var conn: Connection
    var joinable: bool                   // `m_network_thread.joinable()`
    var terminated: bool                 // `std::terminate` has been called
    var closes: seq<Connection>          // calls of CloseConnection
    var inbox: seq<Message>              // received by the transport, not yet polled
    var activity: seq<Activity>          // what was done with messages, in order
    var sent: seq<Sent>                  // attempts to send
    const hasCallback: bool              // the packet client's callback has been set
    const onData: PacketClient.UdpPacketClient<P>
    ghost var history: seq<Step>         // the protocol steps this client has taken
    ghost var model: State               // where they have led

    /** The fields are those of the protocol's state. */
    ghost predicate Mirrors(s: State)
      reads this`instance, this`running, this`status, this`conn, this`joinable, this`terminated, this`closes
    {
      && instance == s.instance && running == s.running && status == s.status && conn == s.conn
      && joinable == s.joinable && terminated == s.terminated && closes == s.closed
    }

    /** What holds between calls: the fields are those of a state that a run of the
        protocol has reached, with no call under way. */
    ghost predicate Valid()
      reads this`instance, this`running, this`status, this`conn, this`joinable, this`terminated, this`closes
      reads this`history, this`model
    {
      Run(history) == Some(model) && Sound(model) && AtRest(model) && Mirrors(model)
    }

    /** A call that finds the client in one state leaves it in another. */
    ghost method Extend(entry: State, steps: seq<Step>, s: State)
      requires Run(history) == Some(entry) && Sound(entry) && Walk(entry, steps) == Some(s)
      modifies this`history
      ensures Run(history) == Some(s) && Sound(s) && history == old(history) + steps
    {
      CallsAreRuns(history, entry, steps, s);
      WalkKeepsSound(entry, steps);
      history := history + steps;
    }

    /** The packet client on top of this one is in order, and apart from it. */
    ghost predicate Ready()
      reads onData, onData.preHandler, onData.Footprint()
    {
      onData.Valid() && this !in onData.Footprint()
    }

    constructor (onData: PacketClient.UdpPacketClient<P>, hasCallback: bool)
      ensures Valid() && !terminated && history == []
      ensures this.onData == onData && this.hasCallback == hasCallback && inbox == [] && activity == [] && sent == []
    {
      this.onData, this.hasCallback := onData, hasCallback;
      instance, running, status, conn, closes := false, false, Disconnected, INVALID_CONNECTION, [];
      joinable, terminated, inbox, activity, sent, history, model := false, false, [], [], [], [], INITIAL;
    }

    /** `connect`. The address check and the handle the transport returns are the
        environment's. Unless the client runs, a network thread is spawned even on
        failure, and over a thread that has not been joined that ends the program. */
    method Connect(addressValid: bool, handle: Connection) returns (ok: bool)
      requires Valid() && Enabled(model, Step.Connect(addressValid, handle))
      modifies this`instance, this`running, this`status, this`conn, this`joinable, this`terminated
      modifies this`history, this`model
      ensures Valid() && history == old(history) + [Step.Connect(addressValid, handle)]
      ensures terminated <==> !old(running) && Unjoined(old(history))
      ensures ok <==> !old(running) && addressValid && handle != INVALID_CONNECTION
      ensures running == (old(running) || ok)
      ensures status == (if old(running) then old(status) else if ok then Connecting else FailedToConnect)
      ensures conn == (if !old(running) && addressValid then handle else old(conn))
      ensures instance && joinable
    {
      ghost var entry, step := model, Step.Connect(addressValid, handle);
      ConnectTerminatesIff(history, step);
      OneStep(entry, step);
      ok := ConnectFields(addressValid, handle);
      model := AfterConnect(entry, addressValid, handle);
      Extend(entry, [step], model);
    }

    /** Its effect on the fields. */
    method ConnectFields(addressValid: bool, handle: Connection) returns (ok: bool)
      requires Mirrors(model) && (running ==> instance && joinable) && !terminated
      modifies this`instance, this`running, this`status, this`conn, this`joinable, this`terminated
      ensures Mirrors(AfterConnect(model, addressValid, handle))
      ensures terminated <==> !old(running) && old(joinable)
      ensures ok <==> !old(running) && addressValid && handle != INVALID_CONNECTION
      ensures running == (old(running) || ok)
      ensures status == (if old(running) then old(status) else if ok then Connecting else FailedToConnect)
      ensures conn == (if !old(running) && addressValid then handle else old(conn))
      ensures instance && joinable
    {
      if running {
        return false;
      }
      ok := TryConnect(addressValid, handle);
      running := ok;
      if joinable {
        terminated := true;
      } else {
        joinable := true;
      }
    }

    method TryConnect(addressValid: bool, handle: Connection) returns (ok: bool)
      modifies this`instance, this`status, this`conn
      ensures ok <==> addressValid && handle != INVALID_CONNECTION
      ensures instance && conn == (if addressValid then handle else old(conn))
      ensures status == if ok then Connecting else FailedToConnect
    {
      status := Connecting;
      instance := true;
      if !addressValid {
        status := FailedToConnect;
        return false;
      }
      conn := handle;
      if conn == INVALID_CONNECTION {
        status := FailedToConnect;
        return false;
      }
      ok := true;
    }

    /** `stop`. */
    method Stop()
      requires Valid() && !terminated
      modifies this`instance, this`running, this`conn, this`joinable, this`closes, this`history, this`model
      ensures Valid() && !terminated && !running && !instance && conn == INVALID_CONNECTION
      ensures closes == old(closes) + (if old(running) then [old(conn)] else [])
      ensures forall h :: h in model.obtained ==> h in closes
      ensures joinable == (!old(running) && old(joinable))
      ensures history == old(history) + [StopEnter, StopExchange]
                         + (if old(running) then [LoopExit, StopJoin, StopClose, StopClear] else [])
    {
      ghost var entry, before := model, history;
      StopWalk(entry);
      instance := false;
      var wasRunning := running;
      running := false;
      if wasRunning {
        FinishStop();
      }
      model := AfterStop(entry);
      Extend(entry, StopSteps(entry), model);
      assert before + StopSteps(entry) == before + [StopEnter, StopExchange]
               + (if entry.running then [LoopExit, StopJoin, StopClose, StopClear] else []);
    }

    /** The rest of `stop` for the call that won the exchange. */
    method FinishStop()
      requires conn != INVALID_CONNECTION
      modifies this`conn, this`joinable, this`closes
      ensures !joinable && conn == INVALID_CONNECTION && closes == old(closes) + [old(conn)]
    {
      if joinable {
        joinable := false;
      }
      if conn != INVALID_CONNECTION {
        closes := closes + [conn];
        conn := INVALID_CONNECTION;
      }
    }

    /** `connection_status_changed_callback` and `on_connection_status_changed`: a walk
        through the steps of the event's branch. */
    method OnConnectionStatusChanged(kind: EventKind)
      requires Mirrors(model) && Sound(model) && Enabled(model, Event(kind))
      modifies this`running, this`status, this`conn, this`closes, this`model
      ensures Mirrors(model) && Sound(model) && model == AfterEvent(old(model), kind)
      ensures Walk(old(model), EventSteps(kind, instance)) == Some(model)
      ensures if instance && (kind.ClosedByPeer? || kind.ProblemDetectedLocally?)
              then !running && conn == INVALID_CONNECTION && closes == old(closes) + [old(conn)]
              else running == old(running) && conn == old(conn) && closes == old(closes)
      ensures status == if !instance || kind.NoneState? then old(status)
                        else if kind.ConnectingState? then Connecting
                        else if kind.ConnectedState? then Connected
                        else Disconnected
    {
      EventWalk(model, kind);
      WalkKeepsSound(model, EventSteps(kind, instance));
      HandleEvent(kind);
      model := AfterEvent(model, kind);
    }

    /** Its effect on the fields. */
    method HandleEvent(kind: EventKind)
      modifies this`running, this`status, this`conn, this`closes
      ensures if instance && (kind.ClosedByPeer? || kind.ProblemDetectedLocally?)
              then !running && conn == INVALID_CONNECTION && closes == old(closes) + [old(conn)]
              else running == old(running) && conn == old(conn) && closes == old(closes)
      ensures status == if !instance || kind.NoneState? then old(status)
                        else if kind.ConnectingState? then Connecting
                        else if kind.ConnectedState? then Connected
                        else Disconnected
    {
      if !instance {
        return;
      }
      match kind
      case NoneState =>
      case ConnectingState => status := Connecting;
      case ConnectedState => status := Connected;
      case _ =>
        running := false;
        status := FailedToConnect;
        closes := closes + [conn];
        conn := INVALID_CONNECTION;
        status := Disconnected;
    }

    /** `send_raw`: without a handle nothing is handed to the transport, and otherwise
        exactly these bytes once, on the current handle. */
    method SendRaw(data: seq<Byte>, reliable: bool, accepted: bool) returns (ok: bool)
      requires Valid() && !terminated
      modifies this`sent
      ensures ok <==> running && accepted
      ensures sent == old(sent) + if running then [Sent(conn, data, reliable)] else []
    {
      if conn == INVALID_CONNECTION {
        return false;
      }
      sent := sent + [Sent(conn, data, reliable)];
      ok := accepted;
    }

    /** One call of the data callback. */
    method Dispatch(message: Message)
      requires Ready()
      modifies this`activity, onData, onData.Footprint()
      ensures Ready() && onData.Footprint() <= old(onData.Footprint())
      ensures onData.view == Handled(onData.config, old(onData.view), message)
      ensures activity == old(activity) + [Callback(message.id)]
    {
      activity := activity + [Callback(message.id)];
      var handled := onData.HandleMessage(message.data);
    }

    /** The dispatch loop of `poll_messages`. */
    method DispatchAll(messages: seq<Message>)
      requires Ready()
      modifies this`activity, onData, onData.Footprint()
      ensures Ready() && onData.Footprint() <= old(onData.Footprint())
      ensures onData.view == ReceivedAll(onData.config, old(onData.view), messages)
      ensures activity == old(activity) + Callbacks(messages)
    {
      ghost var before := onData.view;
      for i := 0 to |messages|
        invariant Ready() && onData.Footprint() <= old(onData.Footprint())
        invariant onData.view == ReceivedAll(onData.config, before, messages[..i])
        invariant activity == old(activity) + Callbacks(messages[..i])
      {
        NextMessage(onData.config, before, old(activity), messages, i);
        Dispatch(messages[i]);
      }
      assert messages[..|messages|] == messages;
    }

    /** The release loop of `poll_messages`. */
    method ReleaseAll(messages: seq<Message>)
      modifies this`activity
      ensures activity == old(activity) + GiveBacks(messages)
    {
      for i := 0 to |messages|
        invariant activity == old(activity) + GiveBacks(messages)[..i]
      {
        activity := activity + [GiveBack(messages[i].id)];
      }
    }

    /** It leaves the packet client alone. */
    method ReleaseAllApart(messages: seq<Message>)
      requires Ready()
      modifies this`activity
      ensures activity == old(activity) + GiveBacks(messages)
      ensures Ready() && onData.Footprint() == old(onData.Footprint()) && onData.view == old(onData.view)
    {
      ReleaseAll(messages);
    }

    /** The batch with somebody to hand it to. The release is noted in the awaiters'
        history before the first message is given back. */
    method DispatchAndNote(messages: seq<Message>)
      requires Ready()
      modifies this`activity, onData, onData.Footprint()
      ensures Ready() && onData.Footprint() <= old(onData.Footprint())
      ensures var all := ReceivedAll(onData.config, old(onData.view), messages);
              onData.view == all.(history := all.history + [AwaiterProtocol.ReleaseBatch])
      ensures |onData.view.outcomes| == |old(onData.view).outcomes| + |messages|
      ensures onData.view.Awaiters().released == onData.view.Awaiters().arrived
      ensures PromptClient(old(onData.view)) ==> PromptClient(onData.view)
      ensures activity == old(activity) + Callbacks(messages)
    {
      ghost var before := onData.view;
      ReceivedAllIsValid(onData.config, before, messages);
      DispatchAll(messages);
      if PromptClient(before) {
        ReceivedAllKeepsPrompt(onData.config, before, messages);
        ReleasedKeepsPrompt(onData.view);
      }
      onData.NoteRelease();
    }

    /** Both loops. */
    method HandleBatch(messages: seq<Message>)
      requires Ready()
      modifies this`activity, onData, onData.Footprint()
      ensures Ready() && onData.Footprint() <= old(onData.Footprint())
      ensures activity == old(activity) + BatchActivity(messages, hasCallback)
      ensures hasCallback ==>
                var all := ReceivedAll(onData.config, old(onData.view), messages);
                && onData.view == all.(history := all.history + [AwaiterProtocol.ReleaseBatch])
                && |onData.view.outcomes| == |old(onData.view).outcomes| + |messages|
                && onData.view.Awaiters().released == onData.view.Awaiters().arrived
      ensures !hasCallback ==> onData.view == old(onData.view)
      ensures PromptClient(old(onData.view)) ==> PromptClient(onData.view)
    {
      if hasCallback {
        DispatchAndNote(messages);
        assert activity + GiveBacks(messages) == old(activity) + BatchActivity(messages, true);
      } else {
        assert BatchActivity(messages, false) == GiveBacks(messages);
      }
      ReleaseAllApart(messages);
    }

    /** `poll_messages`: up to sixteen messages are handled in the order they
        arrived, and only after the last of them are they given back, each once. With
        inline resumption nobody is left who could still read them. */
    method PollMessages()
      requires Ready()
      modifies this`inbox, this`activity
      modifies onData, onData.Footprint()
      ensures Ready() && onData.Footprint() <= old(onData.Footprint())
      ensures var batch := if conn == INVALID_CONNECTION then [] else Batch(old(inbox), 16);
              inbox == old(inbox)[|batch|..] && activity == old(activity) + BatchActivity(batch, hasCallback)
      ensures if conn != INVALID_CONNECTION && hasCallback then
                var batch := Batch(old(inbox), 16);
                var all := ReceivedAll(onData.config, old(onData.view), batch);
                && onData.view == all.(history := all.history + [AwaiterProtocol.ReleaseBatch])
                && |onData.view.outcomes| == |old(onData.view).outcomes| + |batch|
                && onData.view.Awaiters().released == onData.view.Awaiters().arrived
              else onData.view == old(onData.view)
      ensures PromptClient(old(onData.view)) ==> PromptClient(onData.view)
    {
      if conn == INVALID_CONNECTION {
        return;
      }
      var messages := Batch(inbox, POLL_MESSAGE_COUNT);
      inbox := inbox[|messages|..];
      HandleBatch(messages);
    }

    /** The status events the transport dispatches during one poll. An event that
        finds no current handle is not dispatched: so all of them, or those up to the
        first that closes the connection. */
    method RunCallbacks(kinds: seq<EventKind>) returns (ghost n: nat, ghost last: int)
      requires Mirrors(model) && Sound(model) && conn != INVALID_CONNECTION && !terminated && instance
      requires model.network.Polling?
      modifies this`running, this`status, this`conn, this`closes, this`model
      ensures Mirrors(model) && model == AfterEvents(old(model), kinds)
      ensures Followed(kinds, n, last, old(Link()), Link())
      decreases |kinds|
    {
      if kinds == [] {
        FollowedNone(Link());
        return 0, -1;
      }
      ghost var before := Link();
      OnConnectionStatusChanged(kinds[0]);
      ghost var middle := Link();
      if conn == INVALID_CONNECTION {
        FollowedToClose(kinds, before);
        return 1, 0;
      }
      n, last := RunCallbacks(kinds[1..]);
      FollowedOn(kinds, n, last, before, middle, Link());
      n, last := 1 + n, if last < 0 && kinds[0].NoneState? then -1 else 1 + last;
    }

    /** They leave the packet client alone. */
    method RunCallbacksApart(kinds: seq<EventKind>) returns (ghost n: nat, ghost last: int)
      requires Mirrors(model) && Sound(model) && conn != INVALID_CONNECTION && !terminated && instance && Ready()
      requires model.network.Polling?
      modifies this`running, this`status, this`conn, this`closes, this`model
      ensures Mirrors(model) && model == AfterEvents(old(model), kinds)
      ensures Followed(kinds, n, last, old(Link()), Link())
      ensures Ready() && onData.Footprint() == old(onData.Footprint()) && onData.view == old(onData.view)
    {
      n, last := RunCallbacks(kinds);
    }

    /** The fields that status events move. */
    ghost function Link(): LinkState
      reads this`running, this`status, this`conn, this`closes
    {
      LinkState(running, status, conn, closes)
    }

    /** What a poll of a running client does. */
    method PollRunning(kinds: seq<EventKind>) returns (ghost n: nat, ghost last: int)
      requires Mirrors(model) && Sound(model) && conn != INVALID_CONNECTION && !terminated && instance && Ready()
      requires model.network.Polling?
      modifies this`running, this`status, this`conn, this`closes, this`model, this`inbox, this`activity
      modifies onData, onData.Footprint()
      ensures Mirrors(model) && model == AfterEvents(old(model), kinds)
      ensures Followed(kinds, n, last, old(Link()), Link())
      ensures var batch := Batch(old(inbox), 16);
              inbox == old(inbox)[|batch|..] && activity == old(activity) + BatchActivity(batch, hasCallback)
      ensures Ready() && onData.Footprint() <= old(onData.Footprint())
      ensures if hasCallback then
                var batch := Batch(old(inbox), 16);
                var all := ReceivedAll(onData.config, old(onData.view), batch);
                onData.view == all.(history := all.history + [AwaiterProtocol.ReleaseBatch])
              else onData.view == old(onData.view)
      ensures PromptClient(old(onData.view)) ==> PromptClient(onData.view)
    {
      PollMessages();
      n, last := RunCallbacksApart(kinds);
    }

    /** `poll`: nothing unless running, and otherwise a batch of messages and then the
        status events, up to one that closes the connection. */
    method Poll(kinds: seq<EventKind>) returns (ghost n: nat, ghost last: int)
      requires Valid() && !terminated
      requires Ready()
      modifies this`running, this`status, this`conn, this`closes, this`history, this`model, this`inbox, this`activity
      modifies onData, onData.Footprint()
      ensures Valid() && !terminated
      ensures history == old(history) + if old(running) then DispatchedSteps(kinds, true) else []
      ensures n <= |kinds| && forall k :: 0 <= k < n - 1 ==> !Closing(kinds[k])
      ensures if old(running) then n < |kinds| ==> n > 0 && Closing(kinds[n - 1]) else n == 0
      ensures if n > 0 && Closing(kinds[n - 1])
              then !running && conn == INVALID_CONNECTION && closes == old(closes) + [old(conn)]
              else running == old(running) && conn == old(conn) && closes == old(closes)
      ensures -1 <= last < n && forall k :: last < k < n ==> kinds[k].NoneState?
      ensures status == if last < 0 || kinds[last].NoneState? then old(status)
                        else if kinds[last].ConnectingState? then Connecting
                        else if kinds[last].ConnectedState? then Connected
                        else Disconnected
      ensures last >= 0 ==> !kinds[last].NoneState?
      ensures var batch := if old(running) then Batch(old(inbox), 16) else [];
              inbox == old(inbox)[|batch|..] && activity == old(activity) + BatchActivity(batch, hasCallback)
      ensures Ready() && onData.Footprint() <= old(onData.Footprint())
      ensures if old(running) && hasCallback then
                var batch := Batch(old(inbox), 16);
                var all := ReceivedAll(onData.config, old(onData.view), batch);
                onData.view == all.(history := all.history + [AwaiterProtocol.ReleaseBatch])
              else onData.view == old(onData.view)
      ensures PromptClient(old(onData.view)) ==> PromptClient(onData.view)
    {
      if !running {
        return 0, -1;
      }
      ghost var entry := model;
      EventsWalk(entry, kinds);
      Extend(entry, DispatchedSteps(kinds, true), AfterEvents(entry, kinds));
      n, last := PollRunning(kinds);
    }
  }
}
