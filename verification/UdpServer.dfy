/** The objects of `udp_server.cpp`: the registry and sockets updated in place, the
    message loop and the broadcast loop. Every call is proved to append to a history
    that is a run of `ServerProtocol` ending in the state the fields stand for; status
    events are part of the poll that dispatches them. */
module UdpServer {
  import opened Wrappers
  import opened NetworkTypes
  import opened BatchPolling
  import opened MapKeys
  import opened ServerProtocol
  import opened ServerCalls

  /** `k_message_count`. */
  const POLL_MESSAGE_COUNT: nat := 32

  datatype Message = Message(id: nat, conn: Connection, data: seq<Byte>)

  /** One call of the data callback. */
  datatype Delivery = Delivery(client: ClientInfo, data: seq<Byte>)

  /** One attempt to hand bytes to the transport. */
  datatype Sent = Sent(conn: Connection, data: seq<Byte>, reliable: bool)

  /** What is done with a message: its data handed to the callback, the message given
      back to the transport. */
  datatype Activity = Callback(message: nat) | GiveBack(message: nat)

  /** What the message loop moves, and what status events move. */
  datatype Intake = Intake(dataCalls: seq<Delivery>, activity: seq<Activity>)
  datatype Effects = Effects(
    clients: map<Connection, ClientInfo>,
    connectedCalls: seq<ClientInfo>,
    disconnectedCalls: seq<ClientInfo>,
    closes: seq<Connection>)

  /** What one message adds to the data callback's calls: nothing if its sender is unknown. */
  function Deliver(clients: map<Connection, ClientInfo>, calls: seq<Delivery>, message: Message): seq<Delivery> {
    if message.conn in clients then calls + [Delivery(clients[message.conn], message.data)] else calls
  }

  ghost function DeliverAll(clients: map<Connection, ClientInfo>, calls: seq<Delivery>, messages: seq<Message>)
    : seq<Delivery>
  {
    HandleAll((calls, message) => Deliver(clients, calls, message), calls, messages)
  }

  /** Spelled out: the new calls are, in order, exactly the messages whose sender is
      registered, each with that client's entry and the message's own data. */
  lemma {:induction false} DeliveredInOrder(clients: map<Connection, ClientInfo>, calls: seq<Delivery>,
                                            messages: seq<Message>)
      returns (at: seq<nat>)
    ensures forall j, k :: 0 <= j < k < |at| ==> at[j] < at[k]
    ensures forall i :: i in at <==> 0 <= i < |messages| && messages[i].conn in clients
    ensures var all := DeliverAll(clients, calls, messages);
            && |all| == |calls| + |at| && all[..|calls|] == calls
            && forall j :: 0 <= j < |at| ==>
                 && at[j] < |messages| && messages[at[j]].conn in clients
                 && all[|calls| + j] == Delivery(clients[messages[at[j]].conn], messages[at[j]].data)
  {
    if messages == [] {
      at := [];
    } else {
      var n := |messages| - 1;
      at := DeliveredInOrder(clients, calls, messages[..n]);
      if messages[n].conn in clients {
        at := at + [n];
      }
    }
  }

  /** With a fixed registry, polls that drain the queue of n messages, and a
      thirty-second of n rounded up suffices, deliver every message of a known
      sender, in order of arrival. */
  lemma PollingRefinesDelivering(clients: map<Connection, ClientInfo>, calls: seq<Delivery>, inbox: seq<Message>,
                                 polls: nat)
    ensures Left(inbox, POLL_MESSAGE_COUNT, polls) == [] <==> polls >= (|inbox| + 31) / 32
    ensures polls >= (|inbox| + 31) / 32 ==>
              PollAll((calls, message) => Deliver(clients, calls, message), calls => calls,
                      calls, inbox, POLL_MESSAGE_COUNT, polls)
              == DeliverAll(clients, calls, inbox)
  {
    DrainedIff(inbox, POLL_MESSAGE_COUNT, polls);
    if polls >= (|inbox| + 31) / 32 {
      var handle := (calls: seq<Delivery>, message: Message) => Deliver(clients, calls, message);
      PollingRefinesHandling(handle, calls => calls, (a, b) => a == b, calls, calls, inbox, POLL_MESSAGE_COUNT, polls);
    }
  }

  /** What one message does: its data is handed to the callback if that is set and the
      sender is known, and the message is given back, in this order. */
  ghost predicate Takes(clients: map<Connection, ClientInfo>, called: bool, message: Message, a: Intake, b: Intake) {
    && b.dataCalls == a.dataCalls
         + (if called && message.conn in clients then [Delivery(clients[message.conn], message.data)] else [])
    && b.activity == a.activity
         + (if called && message.conn in clients then [Callback(message.id)] else []) + [GiveBack(message.id)]
  }

  /** What one status event does, with the instance set and the callbacks set or not. */
  ghost predicate Reacts(event: Event, instance: bool, connected: bool, disconnected: bool, a: Effects, b: Effects) {
    var registers := instance && event.ConnectEvent? && event.acceptOk && event.groupOk;
    && b.clients == (if registers then a.clients[event.conn := ClientInfo(event.conn, event.address)] else a.clients)
    && b.connectedCalls == a.connectedCalls
         + (if registers && connected then [ClientInfo(event.conn, event.address)] else [])
    && b.disconnectedCalls == a.disconnectedCalls
         + (if instance && event.ClosedEvent? && event.wasConnected && event.conn in a.clients && disconnected
            then [a.clients[event.conn]] else [])
    && b.closes == a.closes
         + (if instance && (event.ClosedEvent? || (event.ConnectEvent? && !registers)) then [event.conn] else [])
  }

  /** One event before others. */
  lemma ReactsOn(events: seq<Event>, instance: bool, connected: bool, disconnected: bool,
                 before: Effects, effects: seq<Effects>)
    requires events != [] && |effects| == |events|
    requires Reacts(events[0], instance, connected, disconnected, before, effects[0])
    requires forall k :: 0 <= k < |events| - 1 ==>
               Reacts(events[1..][k], instance, connected, disconnected, effects[k], effects[k + 1])
    ensures var longer := [before] + effects;
            forall k :: 0 <= k < |events| ==>
              Reacts(events[k], instance, connected, disconnected, longer[k], longer[k + 1])
  {
    forall k | 0 < k < |events|
      ensures Reacts(events[k], instance, connected, disconnected, effects[k - 1], effects[k])
    {
      assert events[1..][k - 1] == events[k];
    }
  }

  /** Closes after closes. */
  lemma ClosedTogether(first: seq<Connection>, second: seq<Connection>, third: seq<Connection>)
    requires first <= second <= third
    ensures Elements(third[|first|..]) == Elements(second[|first|..]) + Elements(third[|second|..])
  {
    assert third[|first|..] == second[|first|..] + third[|second|..];
  }

  class UdpServer {
    var instance: bool
    var running: bool
    var port: nat
    var clients: map<Connection, ClientInfo>
    var listenSocket: nat
    var pollGroup: nat
    var joinable: bool                       // `m_network_thread.joinable()`
    var hasDataCallback: bool                // which callbacks have been set
    var hasConnectedCallback: bool
    var hasDisconnectedCallback: bool
    var dataCalls: seq<Delivery>             // calls of the data callback
    var connectedCalls: seq<ClientInfo>      // calls of the connected callback
    var disconnectedCalls: seq<ClientInfo>   // calls of the disconnected callback
    var closes: seq<Connection>              // calls of CloseConnection
    var inbox: seq<Message>                  // received by the transport, not yet polled
    var activity: seq<Activity>              // what was done with messages, in order
    var closedSockets: seq<nat>              // calls of CloseListenSocket
    var destroyedGroups: seq<nat>            // calls of DestroyPollGroup
    var sent: seq<Sent>                      // attempts to send
    ghost var history: seq<Step>             // the protocol steps this server has taken
    ghost var model: State                   // where they have led

    /** The fields are those of the protocol's state. */
    ghost predicate Mirrors(s: State)
      reads this`instance, this`running, this`clients, this`listenSocket, this`pollGroup, this`joinable
    {
      && instance == s.instance && running == s.running && clients == s.clients
      && listenSocket == s.listenSocket && pollGroup == s.pollGroup && joinable == s.threaded
    }

    /** What holds between calls: the fields are those of a state that a run of the
        protocol has reached, with no call under way. */
    ghost predicate Valid()
      reads this`instance, this`running, this`clients, this`listenSocket, this`pollGroup, this`joinable
      reads this`history, this`model
    {
      Run(history) == Some(model) && Sound(model) && Resting(model) && Mirrors(model)
    }

    /** A call that finds the server in one state leaves it in another. */
    ghost method Extend(entry: State, steps: seq<Step>, s: State)
      requires Run(history) == Some(entry) && Call(entry, steps, s)
      modifies this`history
      ensures Run(history) == Some(s) && history == old(history) + steps
    {
      CallsAreRuns(history, entry, steps, s);
      history := history + steps;
    }

    constructor ()
      ensures Valid() && history == [] && model == INITIAL
    {
      instance, running, port, clients := false, false, 0, map[];
      listenSocket, pollGroup, joinable := 0, 0, false;
      hasDataCallback, hasConnectedCallback, hasDisconnectedCallback := false, false, false;
      dataCalls, connectedCalls, disconnectedCalls, closes := [], [], [], [];
      inbox, activity, sent, closedSockets, destroyedGroups, history, model := [], [], [], [], [], [], INITIAL;
    }

    /** A client knocks: the transport opens a connection for it, under a new handle, and
        will report it as connecting during some poll. */
    ghost method NoteIncoming(conn: Connection)
      requires Valid() && conn !in model.named
      modifies this`history, this`model
      ensures Valid() && history == old(history) + [Incoming(conn)]
      ensures model == AfterIncoming(old(model), conn) && conn in model.open
      ensures forall acceptOk, groupOk, address ::
                Dispatchable(model.(network := Polling), ConnectEvent(conn, acceptOk, groupOk, address))
    {
      ghost var entry := model;
      IncomingIsCall(entry, conn);
      model := AfterIncoming(entry, conn);
      Extend(entry, [Incoming(conn)], model);
    }

    /** `start_manual`; the sockets are the transport's answers, zero for failure. */
    method Listen(portNumber: nat, socket: nat, group: nat) returns (ok: bool)
      modifies this`instance, this`running, this`port, this`listenSocket, this`pollGroup
      ensures ok <==> !old(running) && socket != 0 && group != 0
      ensures running == (old(running) || ok) && instance == (old(instance) || ok)
      ensures listenSocket == (if old(running) then old(listenSocket) else socket)
      ensures pollGroup == (if old(running) || socket == 0 then old(pollGroup) else group)
      ensures port == (if ok then portNumber else old(port))
    {
      if running {
        return false;
      }
      listenSocket := socket;
      if listenSocket == 0 {
        running := false;
        return false;
      }
      pollGroup := group;
      if pollGroup == 0 {
        running := false;
        return false;
      }
      instance := true;
      port := portNumber;
      running := true;
      ok := true;
    }

    /** The whole effect of a start on the fields, with the thread of `start_async` or not. */
    method ListenOn(portNumber: nat, socket: nat, group: nat, threaded: bool) returns (ok: bool)
      requires Mirrors(model) && (joinable ==> running)
      modifies this`instance, this`running, this`port, this`listenSocket, this`pollGroup, this`joinable
      ensures Mirrors(AfterStart(model, threaded, socket, group))
      ensures ok <==> !old(running) && socket != 0 && group != 0
      ensures running == (old(running) || ok) && instance == (old(instance) || ok)
      ensures joinable == (old(joinable) || (ok && threaded))
      ensures listenSocket == (if old(running) then old(listenSocket) else socket)
      ensures pollGroup == (if old(running) || socket == 0 then old(pollGroup) else group)
      ensures port == (if ok then portNumber else old(port))
    {
      ok := Listen(portNumber, socket, group);
      if ok && threaded {
        joinable := true;
      }
    }

    ghost method NoteStart(threaded: bool, socket: nat, group: nat)
      requires Run(history) == Some(model) && Sound(model) && Resting(model)
      modifies this`history, this`model
      ensures Run(history) == Some(model) && Sound(model) && Resting(model)
      ensures model == AfterStart(old(model), threaded, socket, group)
      ensures history == old(history) + [Start(threaded, socket, group)]
    {
      ghost var entry := model;
      StartIsCall(entry, threaded, socket, group);
      model := AfterStart(entry, threaded, socket, group);
      Extend(entry, [Start(threaded, socket, group)], model);
    }

    method StartManual(portNumber: nat, socket: nat, group: nat) returns (ok: bool)
      requires Valid()
      modifies this`instance, this`running, this`port, this`listenSocket, this`pollGroup, this`joinable
      modifies this`history, this`model
      ensures Valid() && history == old(history) + [Start(false, socket, group)]
      ensures model == AfterStart(old(model), false, socket, group)
      ensures ok <==> !old(running) && socket != 0 && group != 0
      ensures running == (old(running) || ok) && instance == (old(instance) || ok) && joinable == old(joinable)
      ensures listenSocket == (if old(running) then old(listenSocket) else socket)
      ensures pollGroup == (if old(running) || socket == 0 then old(pollGroup) else group)
      ensures port == (if ok then portNumber else old(port))
    {
      ok := ListenOn(portNumber, socket, group, false);
      NoteStart(false, socket, group);
    }

    method StartAsync(portNumber: nat, socket: nat, group: nat) returns (ok: bool)
      requires Valid()
      modifies this`instance, this`running, this`port, this`listenSocket, this`pollGroup, this`joinable
      modifies this`history, this`model
      ensures Valid() && history == old(history) + [Start(true, socket, group)]
      ensures model == AfterStart(old(model), true, socket, group)
      ensures ok <==> !old(running) && socket != 0 && group != 0
      ensures running == (old(running) || ok) && instance == (old(instance) || ok) && joinable == (old(joinable) || ok)
      ensures listenSocket == (if old(running) then old(listenSocket) else socket)
      ensures pollGroup == (if old(running) || socket == 0 then old(pollGroup) else group)
      ensures port == (if ok then portNumber else old(port))
    {
      ok := ListenOn(portNumber, socket, group, true);
      NoteStart(true, socket, group);
    }

    /** `stop`. The call that finds the server running closes every registered
        connection, in key order, and leaves nothing behind. */
    method Stop() returns (ghost order: seq<Connection>)
      requires Valid()
      modifies this`instance, this`running, this`clients, this`listenSocket, this`pollGroup, this`joinable
      modifies this`closes, this`closedSockets, this`destroyedGroups, this`history, this`model
      ensures Valid() && history == old(history) + StopSteps(old(model), order)
      ensures model == AfterStop(old(model))
      ensures clients == map[] && !running && !instance && !joinable
      ensures model.accepted !! model.open && model.open == old(model.open) - old(clients.Keys)
      ensures if old(running) then
                && listenSocket == 0 && closedSockets == old(closedSockets) + [old(listenSocket)]
                && pollGroup == 0 && destroyedGroups == old(destroyedGroups) + [old(pollGroup)]
              else
                && listenSocket == old(listenSocket) && closedSockets == old(closedSockets)
                && pollGroup == old(pollGroup) && destroyedGroups == old(destroyedGroups)
      ensures KeyOrder(order, old(clients.Keys)) && closes == old(closes) + order
    {
      instance := false;
      var wasRunning := running;
      running := false;
      order := [];
      if wasRunning {
        var visited := FinishStop();
        order := visited;
      } else {
        assert Elements([]) == clients.Keys;
      }
      ghost var entry := model;
      StopIsCall(entry, order);
      model := AfterStop(entry);
      Extend(entry, StopSteps(entry, order), model);
    }

    /** The rest of `stop` for the call that won the exchange: join, close every
        registered connection, clear the registry, close the sockets. */
    method FinishStop() returns (order: seq<Connection>)
      requires listenSocket != 0 && pollGroup != 0
      modifies this`clients, this`listenSocket, this`pollGroup, this`joinable, this`closes
      modifies this`closedSockets, this`destroyedGroups
      ensures clients == map[] && listenSocket == 0 && pollGroup == 0 && !joinable
      ensures closedSockets == old(closedSockets) + [old(listenSocket)]
      ensures destroyedGroups == old(destroyedGroups) + [old(pollGroup)]
      ensures KeyOrder(order, old(clients.Keys)) && closes == old(closes) + order
    {
      if joinable {
        joinable := false;
      }
      order := KeysInOrder(clients.Keys);
      for i := 0 to |order|
        invariant closes == old(closes) + order[..i] && !joinable
        invariant listenSocket == old(listenSocket) && closedSockets == old(closedSockets)
        invariant pollGroup == old(pollGroup) && destroyedGroups == old(destroyedGroups)
      {
        closes := closes + [order[i]];
      }
      clients := map[];
      if listenSocket != 0 {
        closedSockets := closedSockets + [listenSocket];
        listenSocket := 0;
      }
      if pollGroup != 0 {
        destroyedGroups := destroyedGroups + [pollGroup];
        pollGroup := 0;
      }
    }

    /** `disconnect`. */
    method Disconnect(conn: Connection)
      requires Valid()
      modifies this`clients, this`closes, this`history, this`model
      ensures Valid() && history == old(history) + [DisconnectClose(conn), DisconnectErase(conn)]
      ensures model == AfterDisconnect(old(model), conn)
      ensures closes == old(closes) + [conn] && model.open == old(model.open) - {conn}
      ensures clients == old(clients) - {conn}
    {
      ghost var entry := model;
      DisconnectIsCall(entry, conn);
      closes := closes + [conn];
      clients := clients - {conn};
      model := AfterDisconnect(entry, conn);
      Extend(entry, [DisconnectClose(conn), DisconnectErase(conn)], model);
    }

    /** `get_client_info`: what is found is kept under the connection's own handle, for
        a connection the server has taken on, and every such connection that is still
        open is found, unless the handler has it in hand. */
    function GetClientInfo(conn: Connection): (info: Option<ClientInfo>)
      requires Sound(model) && Mirrors(model)
      reads this`instance, this`running, this`clients, this`listenSocket, this`pollGroup, this`joinable, this`model
      ensures info.Some? ==> info.value.conn == conn && conn in model.handled
      ensures conn in model.handled && conn in model.open && !InHand(model, conn) && !model.overlapped ==> info.Some?
    {
      if conn in clients then Some(clients[conn]) else None
    }

    /** `connection_status_changed_callback` and `on_connection_status_changed`.
        The callbacks, where set, see a client that is registered: the disconnected one
        only a client that had been connected, the connected one the client just
        registered. */
    method OnConnectionStatusChanged(event: Event)
      requires Mirrors(model) && Sound(model) && Dispatchable(model, event)
      modifies this`clients, this`closes, this`connectedCalls, this`disconnectedCalls, this`model
      ensures Mirrors(model) && Sound(model) && model == AfterEvent(old(model), event)
      ensures clients == if instance && event.ConnectEvent? && event.acceptOk && event.groupOk
                         then old(clients)[event.conn := ClientInfo(event.conn, event.address)] else old(clients)
      ensures connectedCalls == old(connectedCalls)
                + (if instance && event.ConnectEvent? && event.acceptOk && event.groupOk && hasConnectedCallback
                   then [ClientInfo(event.conn, event.address)] else [])
      ensures disconnectedCalls == old(disconnectedCalls)
                + (if instance && event.ClosedEvent? && event.wasConnected && event.conn in old(clients)
                      && hasDisconnectedCallback
                   then [old(clients)[event.conn]] else [])
      ensures closes == old(closes)
                + (if instance && event.ClosedEvent? then [event.conn]
                   else if instance && event.ConnectEvent? && !(event.acceptOk && event.groupOk) then [event.conn]
                   else [])
      ensures model.open == old(model.open) - Elements(closes[|old(closes)|..])
    {
      EventIsCall(model, event);
      HandleEvent(event);
      model := AfterEvent(model, event);
    }

    /** Its effects on the objects. */
    method HandleEvent(event: Event)
      requires Mirrors(model) && Sound(model)
      modifies this`clients, this`closes, this`connectedCalls, this`disconnectedCalls
      ensures Mirrors(AfterEvent(model, event))
      ensures clients == if instance && event.ConnectEvent? && event.acceptOk && event.groupOk
                         then old(clients)[event.conn := ClientInfo(event.conn, event.address)] else old(clients)
      ensures connectedCalls == old(connectedCalls)
                + (if instance && event.ConnectEvent? && event.acceptOk && event.groupOk && hasConnectedCallback
                   then [ClientInfo(event.conn, event.address)] else [])
      ensures disconnectedCalls == old(disconnectedCalls)
                + (if instance && event.ClosedEvent? && event.wasConnected && event.conn in old(clients)
                      && hasDisconnectedCallback
                   then [old(clients)[event.conn]] else [])
      ensures closes == old(closes)
                + (if instance && event.ClosedEvent? then [event.conn]
                   else if instance && event.ConnectEvent? && !(event.acceptOk && event.groupOk) then [event.conn]
                   else [])
    {
      if !instance {
        return;
      }
      match event
      case ClosedEvent(conn, wasConnected) =>
        if wasConnected {
          var info := GetClientInfo(conn);
          if hasDisconnectedCallback && info.Some? {
            disconnectedCalls := disconnectedCalls + [info.value];
          }
        }
        closes := closes + [conn];
      case ConnectEvent(conn, acceptOk, groupOk, address) =>
        if !acceptOk {
          closes := closes + [conn];
          return;
        }
        if !groupOk {
          closes := closes + [conn];
          return;
        }
        clients := clients[conn := ClientInfo(conn, address)];
        if hasConnectedCallback {
          connectedCalls := connectedCalls + [clients[conn]];
        }
      case _ =>
    }

    ghost function IntakeNow(): Intake
      reads this`dataCalls, this`activity
    {
      Intake(dataCalls, activity)
    }

    ghost function EffectsNow(): Effects
      reads this`clients, this`connectedCalls, this`disconnectedCalls, this`closes
    {
      Effects(clients, connectedCalls, disconnectedCalls, closes)
    }

    /** The message loop of `poll`: each message is delivered if its sender is
        registered, and released either way, before the next one is looked at. */
    method PollMessages() returns (ghost intakes: seq<Intake>)
      requires Sound(model) && Mirrors(model)
      modifies this`inbox, this`dataCalls, this`activity
      ensures var batch := Batch(old(inbox), 32);
              && inbox == old(inbox)[|batch|..]
              && |intakes| == |batch| + 1 && intakes[0] == old(IntakeNow()) && intakes[|batch|] == IntakeNow()
              && (forall k :: 0 <= k < |batch| ==>
                    Takes(clients, hasDataCallback, batch[k], intakes[k], intakes[k + 1]))
              && dataCalls == (if hasDataCallback then DeliverAll(clients, old(dataCalls), batch) else old(dataCalls))
    {
      var messages := Batch(inbox, POLL_MESSAGE_COUNT);
      inbox := inbox[|messages|..];
      intakes := [IntakeNow()];
      for i := 0 to |messages|
        invariant inbox == old(inbox)[|messages|..]
        invariant |intakes| == i + 1 && intakes[0] == old(IntakeNow()) && intakes[i] == IntakeNow()
        invariant forall k :: 0 <= k < i ==> Takes(clients, hasDataCallback, messages[k], intakes[k], intakes[k + 1])
        invariant dataCalls == if hasDataCallback then DeliverAll(clients, old(dataCalls), messages[..i])
                               else old(dataCalls)
      {
        assert messages[..i + 1][..i] == messages[..i];
        TakeMessage(messages[i]);
        intakes := intakes + [IntakeNow()];
      }
      assert messages[..|messages|] == messages;
    }

    /** One turn of the loop. */
    method TakeMessage(message: Message)
      requires Sound(model) && Mirrors(model)
      modifies this`dataCalls, this`activity
      ensures Takes(clients, hasDataCallback, message, old(IntakeNow()), IntakeNow())
      ensures dataCalls == if hasDataCallback then Deliver(clients, old(dataCalls), message) else old(dataCalls)
    {
      if hasDataCallback {
        var client := GetClientInfo(message.conn);
        if client.Some? {
          dataCalls := dataCalls + [Delivery(client.value, message.data)];
          activity := activity + [Callback(message.id)];
        }
      }
      activity := activity + [GiveBack(message.id)];
    }

    /** The status events the transport dispatches during one poll, each against the
        registry that the earlier ones left. */
    method RunCallbacks(events: seq<Event>) returns (ghost effects: seq<Effects>)
      requires Mirrors(model) && Sound(model) && AllDispatchable(model, events)
      modifies this`clients, this`closes, this`connectedCalls, this`disconnectedCalls, this`model
      ensures Mirrors(model) && model == AfterEvents(old(model), events)
      ensures |effects| == |events| + 1 && effects[0] == old(EffectsNow()) && effects[|events|] == EffectsNow()
      ensures forall k :: 0 <= k < |events| ==>
                Reacts(events[k], instance, hasConnectedCallback, hasDisconnectedCallback, effects[k], effects[k + 1])
      ensures old(closes) <= closes
      ensures model.open == old(model.open) - Elements(closes[|old(closes)|..])
      decreases |events|
    {
      if events == [] {
        assert closes[|closes|..] == [];
        return [EffectsNow()];
      }
      ghost var before, first := EffectsNow(), closes;
      OnConnectionStatusChanged(events[0]);
      ghost var second := closes;
      ghost var rest := RunCallbacks(events[1..]);
      ClosedTogether(first, second, closes);
      ReactsOn(events, instance, hasConnectedCallback, hasDisconnectedCallback, before, rest);
      effects := [before] + rest;
    }

    /** The second half of `poll`. */
    method DispatchEvents(events: seq<Event>) returns (ghost effects: seq<Effects>)
      requires Mirrors(model) && Sound(model) && Resting(model)
      requires AllDispatchable(model.(network := Polling), events)
      modifies this`clients, this`closes, this`connectedCalls, this`disconnectedCalls, this`model
      ensures Mirrors(model) && model == AfterPoll(old(model), events)
      ensures |effects| == |events| + 1 && effects[0] == old(EffectsNow()) && effects[|events|] == EffectsNow()
      ensures forall k :: 0 <= k < |events| ==>
                Reacts(events[k], instance, hasConnectedCallback, hasDisconnectedCallback, effects[k], effects[k + 1])
      ensures old(closes) <= closes
      ensures model.open == old(model.open) - Elements(closes[|old(closes)|..])
    {
      ghost var threaded := model.threaded;
      if !threaded {
        ManualPollIsCall(model);
      }
      model := model.(network := Polling);
      effects := RunCallbacks(events);
      if !threaded {
        model := model.(network := Ended);
      }
    }

    /** Both halves. */
    method PollParts(events: seq<Event>) returns (ghost intakes: seq<Intake>, ghost effects: seq<Effects>)
      requires Mirrors(model) && Sound(model) && Resting(model)
      requires AllDispatchable(model.(network := Polling), events)
      modifies this`inbox, this`dataCalls, this`activity
      modifies this`clients, this`closes, this`connectedCalls, this`disconnectedCalls, this`model
      ensures Mirrors(model) && model == AfterPoll(old(model), events)
      ensures var batch := Batch(old(inbox), 32);
              && inbox == old(inbox)[|batch|..]
              && |intakes| == |batch| + 1 && intakes[0] == old(IntakeNow()) && intakes[|batch|] == IntakeNow()
              && (forall k :: 0 <= k < |batch| ==>
                    Takes(old(clients), hasDataCallback, batch[k], intakes[k], intakes[k + 1]))
      ensures |effects| == |events| + 1 && effects[0] == old(EffectsNow()) && effects[|events|] == EffectsNow()
      ensures forall k :: 0 <= k < |events| ==>
                Reacts(events[k], instance, hasConnectedCallback, hasDisconnectedCallback, effects[k], effects[k + 1])
      ensures old(closes) <= closes
      ensures model.open == old(model.open) - Elements(closes[|old(closes)|..])
    {
      intakes := PollMessages();
      effects := DispatchEvents(events);
    }

    /** `poll`: up to thirty-two messages, then the pending status events. Without a
        network thread the caller is the dispatching thread for as long as it takes. */
    method Poll(events: seq<Event>) returns (ghost intakes: seq<Intake>, ghost effects: seq<Effects>)
      requires Valid() && AllDispatchable(model.(network := Polling), events)
      modifies this`inbox, this`dataCalls, this`activity
      modifies this`clients, this`closes, this`connectedCalls, this`disconnectedCalls, this`history, this`model
      ensures Valid() && history == old(history) + PollSteps(old(model), events)
      ensures model == AfterPoll(old(model), events)
      // the messages, against the registry as it was
      ensures var batch := Batch(old(inbox), 32);
              && inbox == old(inbox)[|batch|..]
              && |intakes| == |batch| + 1 && intakes[0] == old(IntakeNow()) && intakes[|batch|] == IntakeNow()
              && (forall k :: 0 <= k < |batch| ==>
                    var known, message := hasDataCallback && batch[k].conn in old(clients), batch[k];
                    && intakes[k + 1].dataCalls == intakes[k].dataCalls
                         + (if known then [Delivery(old(clients)[message.conn], message.data)] else [])
                    && intakes[k + 1].activity == intakes[k].activity
                         + (if known then [Callback(message.id)] else []) + [GiveBack(message.id)])
      // the events, each against the registry that the earlier ones left
      ensures |effects| == |events| + 1 && effects[0] == old(EffectsNow()) && effects[|events|] == EffectsNow()
      ensures forall k :: 0 <= k < |events| ==>
                var event, a, b := events[k], effects[k], effects[k + 1];
                var registers := instance && event.ConnectEvent? && event.acceptOk && event.groupOk;
                && b.clients == (if registers then a.clients[event.conn := ClientInfo(event.conn, event.address)]
                                 else a.clients)
                && b.connectedCalls == a.connectedCalls
                     + (if registers && hasConnectedCallback then [ClientInfo(event.conn, event.address)] else [])
                && b.disconnectedCalls == a.disconnectedCalls
                     + (if instance && event.ClosedEvent? && event.wasConnected && event.conn in a.clients
                           && hasDisconnectedCallback
                        then [a.clients[event.conn]] else [])
                && b.closes == a.closes
                     + (if instance && (event.ClosedEvent? || (event.ConnectEvent? && !registers))
                        then [event.conn] else [])
      // what is closed is what leaves the open connections
      ensures old(closes) <= closes
      ensures model.open == old(model.open) - set c | c in closes[|old(closes)|..]
    {
      ghost var entry := model;
      PollIsCall(entry, events);
      Extend(entry, PollSteps(entry, events), AfterPoll(entry, events));
      intakes, effects := PollParts(events);
    }

    /** `send`; what the transport answers is up to it. */
    method Send(conn: Connection, data: seq<Byte>, reliable: bool, accepts: Connection -> bool) returns (ok: bool)
      modifies this`sent
      ensures sent == old(sent) + [Sent(conn, data, reliable)]
      ensures ok == accepts(conn)
    {
      sent := sent + [Sent(conn, data, reliable)];
      ok := accepts(conn);
    }

    /** `broadcast`: one attempt to send the same bytes to every registered client,
        in key order, going on after a failure; it succeeds exactly when there is a
        client and every attempt succeeded. */
    method Broadcast(data: seq<Byte>, reliable: bool, accepts: Connection -> bool)
      returns (ok: bool, ghost order: seq<Connection>)
      modifies this`sent
      ensures KeyOrder(order, clients.Keys)
      ensures sent == old(sent) + seq(|order|, k requires 0 <= k < |order| => Sent(order[k], data, reliable))
      ensures ok <==> clients != map[] && forall c :: c in clients ==> accepts(c)
    {
      var keys := KeysInOrder(clients.Keys);
      order := keys;
      if clients == map[] {
        EmptyKeyOrder(keys);
        return false, keys;
      }
      ok := true;
      ghost var attempts := seq(|keys|, k requires 0 <= k < |keys| => Sent(keys[k], data, reliable));
      for i := 0 to |keys|
        invariant sent == old(sent) + attempts[..i]
        invariant ok <==> forall c :: c in keys[..i] ==> accepts(c)
      {
        assert keys[..i + 1] == keys[..i] + [keys[i]];
        var accepted := Send(keys[i], data, reliable, accepts);
        if !accepted {
          ok := false;
        }
      }
      assert keys[..|keys|] == keys && attempts[..|keys|] == attempts;
      assert forall c :: c in clients <==> c in Elements(keys);
    }
  }
}
