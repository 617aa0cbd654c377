/** What each call on the server comes to when nothing interleaves with it, and
    that it is a walk of `ServerProtocol`: calls on a server in a reachable state
    leave it in a reachable state. */
module ServerCalls {
  import opened Wrappers
  import opened NetworkTypes
  import Runs
  import opened MapKeys
  import opened ServerProtocol

  /** A status event, with the transport's answers to what the handler asks of it. */
  datatype Event =
    | NoneEvent
    | ConnectedEvent
    | ClosedEvent(conn: Connection, wasConnected: bool)
    | ConnectEvent(conn: Connection, acceptOk: bool, groupOk: bool, address: Address)

  /** Between calls, no call of any thread is under way. */
  predicate Resting(s: State) {
    && s.stopper.Outside? && s.entered == 0 && s.erasing == multiset{} && !s.overlapped
    && s.network == if s.threaded then Polling else Ended
  }

  /** A call takes a resting server from one sound state to another by these steps. */
  ghost predicate Call(s: State, steps: seq<Step>, s': State) {
    Walk(s, steps) == Some(s') && Sound(s')
  }

  lemma NoStep(s: State)
    requires Sound(s)
    ensures Call(s, [], s)
  {}

  /** One more step. */
  lemma Then(s: State, steps: seq<Step>, s1: State, step: Step)
    requires Call(s, steps, s1) && Enabled(s1, step)
    ensures Call(s, steps + [step], Apply(s1, step))
  {
    WalkAppend(s, steps, step);
    StepKeepsSound(s1, step);
  }

  lemma OneStep(s: State, step: Step)
    requires Sound(s) && Enabled(s, step)
    ensures Call(s, [step], Apply(s, step))
  {
    NoStep(s);
    Then(s, [], s, step);
    assert [] + [step] == [step];
  }

  /** One walk after another. */
  lemma Join(s: State, first: seq<Step>, s1: State, second: seq<Step>, s2: State)
    requires Call(s, first, s1) && Call(s1, second, s2)
    ensures Call(s, first + second, s2)
  {
    Runs.RunInTwo(Next, s, first, second);
  }

  /** Calls from reachable states lead to reachable states. */
  lemma CallsAreRuns(history: seq<Step>, s: State, steps: seq<Step>, s': State)
    requires Run(history) == Some(s) && Call(s, steps, s')
    ensures Run(history + steps) == Some(s')
  {
    Runs.RunInTwo(Next, INITIAL, history, steps);
  }

  // ---- disconnect ----

  function AfterDisconnect(s: State, conn: Connection): State {
    s.(clients := s.clients - {conn}, open := s.open - {conn}, named := s.named + {conn})
  }

  lemma DisconnectIsCall(s: State, conn: Connection)
    requires Sound(s) && !Locked(s)
    ensures Call(s, [DisconnectClose(conn), DisconnectErase(conn)], AfterDisconnect(s, conn))
  {
    OneStep(s, DisconnectClose(conn));
    var s1 := Apply(s, DisconnectClose(conn));
    Then(s, [DisconnectClose(conn)], s1, DisconnectErase(conn));
    assert [DisconnectClose(conn)] + [DisconnectErase(conn)] == [DisconnectClose(conn), DisconnectErase(conn)];
    assert s.erasing + multiset{conn} - multiset{conn} == s.erasing;
    assert Apply(s1, DisconnectErase(conn)) == AfterDisconnect(s, conn);
  }

  // ---- arrivals ----

  /** The transport makes a connection. */
  function AfterIncoming(s: State, conn: Connection): State {
    s.(open := s.open + {conn}, named := s.named + {conn})
  }

  lemma IncomingIsCall(s: State, conn: Connection)
    requires Sound(s) && Resting(s) && conn !in s.named
    ensures Call(s, [Incoming(conn)], AfterIncoming(s, conn)) && Resting(AfterIncoming(s, conn))
  {
    OneStep(s, Incoming(conn));
  }

  // ---- start ----

  lemma StartIsCall(s: State, threaded: bool, socket: nat, group: nat)
    requires Sound(s) && Resting(s)
    ensures Call(s, [Start(threaded, socket, group)], AfterStart(s, threaded, socket, group))
    ensures Resting(AfterStart(s, threaded, socket, group))
  {
    OneStep(s, Start(threaded, socket, group));
  }

  // ---- stop ----

  /** A stop that finds the server running leaves nothing; another one only
      clears the instance pointer. */
  function AfterStop(s: State): State {
    if s.running then
      s.(instance := false, running := false, threaded := false, network := Ended, clients := map[],
         open := s.open - s.clients.Keys, listenSocket := 0, pollGroup := 0)
    else s.(instance := false)
  }

  function Exchanged(s: State): State {
    s.(instance := false, running := false, stopper := if s.running then Joining else s.stopper)
  }

  lemma StopBegins(s: State)
    requires Sound(s) && Resting(s)
    ensures Call(s, [StopEnter, StopExchange], Exchanged(s))
  {
    OneStep(s, StopEnter);
    Then(s, [StopEnter], Apply(s, StopEnter), StopExchange);
    assert [StopEnter] + [StopExchange] == [StopEnter, StopExchange];
  }

  function JoinSteps(s: State): seq<Step> {
    if s.network.Polling? then [PollEnds, StopJoin] else [StopJoin]
  }

  function Joined(s: State): State {
    s.(network := Ended, threaded := false, stopper := Closing(s.clients.Keys))
  }

  lemma StopJoins(s: State)
    requires Sound(s) && s.stopper.Joining? && !s.running && (s.network.Polling? || s.network.Ended?)
    ensures Call(s, JoinSteps(s), Joined(s))
  {
    if s.network.Polling? {
      OneStep(s, PollEnds);
      Then(s, [PollEnds], Apply(s, PollEnds), StopJoin);
      assert [PollEnds] + [StopJoin] == [PollEnds, StopJoin];
    } else {
      OneStep(s, StopJoin);
    }
  }

  /** Closing some connections one after the other. */
  function CloseSteps(order: seq<Connection>): seq<Step> {
    seq(|order|, k requires 0 <= k < |order| => StopCloseOne(order[k]))
  }

  function ClosedSome(s: State, keys: set<Connection>, gone: set<Connection>): State {
    s.(open := s.open - gone, stopper := Closing(keys - gone))
  }

  lemma CloseOneMore(s: State, keys: set<Connection>, gone: set<Connection>, last: Connection)
    requires last in keys - gone
    ensures Enabled(ClosedSome(s, keys, gone), StopCloseOne(last))
    ensures Apply(ClosedSome(s, keys, gone), StopCloseOne(last)) == ClosedSome(s, keys, gone + {last})
  {
    assert s.open - gone - {last} == s.open - (gone + {last});
    assert keys - gone - {last} == keys - (gone + {last});
  }

  lemma {:induction false} StopCloses(s: State, order: seq<Connection>, keys: set<Connection>)
    requires Sound(s) && s.stopper == Closing(keys)
    requires Ascending(order) && Elements(order) <= keys
    ensures Call(s, CloseSteps(order), ClosedSome(s, keys, Elements(order)))
  {
    if order == [] {
      NoStep(s);
      assert CloseSteps(order) == [] && Elements(order) == {};
      assert s.open - {} == s.open && keys - {} == keys;
      assert ClosedSome(s, keys, {}) == s;
    } else {
      var rest, last := order[..|order| - 1], order[|order| - 1];
      assert order == rest + [last];
      ElementsAppend(rest, last);
      assert last !in rest;
      StopCloses(s, rest, keys);
      CloseOneMore(s, keys, Elements(rest), last);
      Then(s, CloseSteps(rest), ClosedSome(s, keys, Elements(rest)), StopCloseOne(last));
      assert CloseSteps(order) == CloseSteps(rest) + [StopCloseOne(last)];
    }
  }

  lemma StopFinishes(s: State)
    requires Sound(s) && s.stopper == Closing({})
    ensures Call(s, [StopClearMap, StopCloseListen, StopDestroyGroup],
                 s.(clients := map[], listenSocket := 0, pollGroup := 0, stopper := Outside))
  {
    OneStep(s, StopClearMap);
    var s1 := Apply(s, StopClearMap);
    Then(s, [StopClearMap], s1, StopCloseListen);
    assert [StopClearMap] + [StopCloseListen] == [StopClearMap, StopCloseListen];
    Then(s, [StopClearMap, StopCloseListen], Apply(s1, StopCloseListen), StopDestroyGroup);
    assert [StopClearMap, StopCloseListen] + [StopDestroyGroup]
        == [StopClearMap, StopCloseListen, StopDestroyGroup];
  }

  function StopSteps(s: State, order: seq<Connection>): seq<Step> {
    [StopEnter, StopExchange] +
    if s.running then
      JoinSteps(s) + CloseSteps(order) + [StopClearMap, StopCloseListen, StopDestroyGroup]
    else []
  }

  /** A whole stop, the registry's keys being visited in order. */
  lemma StopIsCall(s: State, order: seq<Connection>)
    requires Sound(s) && Resting(s) && KeyOrder(order, s.clients.Keys)
    ensures Call(s, StopSteps(s, order), AfterStop(s)) && Resting(AfterStop(s))
  {
    StopBegins(s);
    if s.running {
      var s1 := Exchanged(s);
      var s2 := Joined(s1);
      var s3 := ClosedSome(s2, s.clients.Keys, s.clients.Keys);
      StopJoins(s1);
      StopCloses(s2, order, s.clients.Keys);
      Join(s1, JoinSteps(s1), s2, CloseSteps(order), s3);
      assert s3.stopper == Closing({}) by { assert s.clients.Keys - s.clients.Keys == {}; }
      StopFinishes(s3);
      Join(s1, JoinSteps(s1) + CloseSteps(order), s3, [StopClearMap, StopCloseListen, StopDestroyGroup], AfterStop(s));
      Join(s, [StopEnter, StopExchange], s1,
           JoinSteps(s) + CloseSteps(order) + [StopClearMap, StopCloseListen, StopDestroyGroup], AfterStop(s));
    } else {
      assert StopSteps(s, order) == [StopEnter, StopExchange];
      assert Exchanged(s) == AfterStop(s);
    }
  }

  // ---- status events ----

  /** An event can only be dispatched by a poll, and a connecting event names a
      connection the transport has made. */
  predicate Dispatchable(s: State, event: Event) {
    s.network.Polling? && (event.ConnectEvent? ==> event.conn in s.named)
  }

  function EventSteps(s: State, event: Event): seq<Step> {
    match event
    case NoneEvent => []
    case ConnectedEvent => []
    case ClosedEvent(conn, _) => [PeerClosedEvent(conn)] + (if s.instance then [ClosePeer] else [])
    case ConnectEvent(conn, acceptOk, groupOk, address) =>
      [ConnectingEvent(conn)]
      + (if !s.instance then []
         else if !acceptOk then [Accept(false), CloseRejected]
         else if !groupOk then [Accept(true), SetGroup(false), CloseRejected]
         else [Accept(true), SetGroup(true), Register(address)])
  }

  /** A connecting event ends with the connection registered or closed; a closed
      one with the handle closed but still registered. Without an instance
      pointer the event is ignored. */
  function AfterEvent(s: State, event: Event): State {
    if !s.instance then s else
    match event
    case NoneEvent => s
    case ConnectedEvent => s
    case ClosedEvent(conn, _) => s.(open := s.open - {conn}, named := s.named + {conn})
    case ConnectEvent(conn, acceptOk, groupOk, address) =>
      var s1 := s.(handled := s.handled + {conn}, accepted := if acceptOk then s.accepted + {conn} else s.accepted);
      if acceptOk && groupOk then s1.(clients := s1.clients[conn := ClientInfo(conn, address)])
      else s1.(open := s1.open - {conn})
  }

  lemma ClosedEventIsCall(s: State, event: Event)
    requires Sound(s) && Dispatchable(s, event) && event.ClosedEvent?
    ensures Call(s, EventSteps(s, event), AfterEvent(s, event))
  {
    var dispatch := PeerClosedEvent(event.conn);
    OneStep(s, dispatch);
    assert [dispatch] + [] == [dispatch];
    if s.instance {
      Then(s, [dispatch], Apply(s, dispatch), ClosePeer);
      assert Apply(Apply(s, dispatch), ClosePeer) == AfterEvent(s, event);
    }
  }

  /** The handler closes a connection it has refused. */
  lemma Refuse(s: State, conn: Connection)
    requires Sound(s) && s.network == Rejecting(conn)
    ensures Call(s, [CloseRejected], s.(open := s.open - {conn}, network := Polling))
  {
    OneStep(s, CloseRejected);
  }

  lemma FinishGrouping(s: State, conn: Connection, groupOk: bool, address: Address)
    requires Sound(s) && s.network == Grouping(conn)
    ensures Call(s, if groupOk then [SetGroup(true), Register(address)] else [SetGroup(false), CloseRejected],
                 if groupOk then s.(clients := s.clients[conn := ClientInfo(conn, address)], network := Polling)
                 else s.(open := s.open - {conn}, network := Polling))
  {
    OneStep(s, SetGroup(groupOk));
    var s1 := s.(network := if groupOk then Registering(conn) else Rejecting(conn));
    if groupOk {
      Then(s, [SetGroup(true)], s1, Register(address));
      assert [SetGroup(true)] + [Register(address)] == [SetGroup(true), Register(address)];
    } else {
      Refuse(s1, conn);
      Join(s, [SetGroup(false)], s1, [CloseRejected], s1.(open := s1.open - {conn}, network := Polling));
      assert [SetGroup(false)] + [CloseRejected] == [SetGroup(false), CloseRejected];
    }
  }

  lemma FinishAccepting(s: State, conn: Connection, acceptOk: bool, rest: seq<Step>, s2: State)
    requires Sound(s) && s.network == Accepting(conn)
    requires acceptOk ==>
               Call(s.(network := Grouping(conn), accepted := s.accepted + {conn}), rest, s2)
    requires !acceptOk ==> rest == [CloseRejected] && s2 == s.(open := s.open - {conn}, network := Polling)
    ensures Call(s, [Accept(acceptOk)] + rest, s2)
  {
    OneStep(s, Accept(acceptOk));
    if acceptOk {
      Join(s, [Accept(true)], s.(network := Grouping(conn), accepted := s.accepted + {conn}), rest, s2);
    } else {
      Refuse(s.(network := Rejecting(conn)), conn);
      Join(s, [Accept(false)], s.(network := Rejecting(conn)), rest, s2);
    }
  }

  lemma ConnectEventIsCall(s: State, event: Event)
    requires Sound(s) && Dispatchable(s, event) && event.ConnectEvent? && s.instance
    ensures Call(s, EventSteps(s, event), AfterEvent(s, event))
  {
    var ConnectEvent(conn, acceptOk, groupOk, address) := event;
    OneStep(s, ConnectingEvent(conn));
    var s1 := s.(network := Accepting(conn), handled := s.handled + {conn});
    var s2 := AfterEvent(s, event);
    var rest := if !acceptOk then [CloseRejected]
                else if groupOk then [SetGroup(true), Register(address)] else [SetGroup(false), CloseRejected];
    if acceptOk {
      var s3 := s1.(network := Grouping(conn), accepted := s1.accepted + {conn});
      OneStep(s1, Accept(true));
      FinishGrouping(s3, conn, groupOk, address);
    }
    FinishAccepting(s1, conn, acceptOk, rest, s2);
    Join(s, [ConnectingEvent(conn)], s1, [Accept(acceptOk)] + rest, s2);
    assert EventSteps(s, event) == [ConnectingEvent(conn)] + ([Accept(acceptOk)] + rest);
  }

  lemma EventIsCall(s: State, event: Event)
    requires Sound(s) && Dispatchable(s, event)
    ensures Call(s, EventSteps(s, event), AfterEvent(s, event))
    ensures AfterEvent(s, event).network == s.network && AfterEvent(s, event).stopper == s.stopper
    ensures AfterEvent(s, event).entered == s.entered && AfterEvent(s, event).erasing == s.erasing
    ensures AfterEvent(s, event).overlapped == s.overlapped
  {
    if event.ClosedEvent? {
      ClosedEventIsCall(s, event);
    } else if event.ConnectEvent? {
      if s.instance {
        ConnectEventIsCall(s, event);
      } else {
        OneStep(s, ConnectingEvent(event.conn));
        assert EventSteps(s, event) == [ConnectingEvent(event.conn)];
      }
    } else {
      NoStep(s);
    }
  }

  /** The events of one poll, each dispatched in the state the earlier ones left. */
  ghost predicate AllDispatchable(s: State, events: seq<Event>)
    decreases |events|
  {
    events == [] || (Dispatchable(s, events[0]) && AllDispatchable(AfterEvent(s, events[0]), events[1..]))
  }

  function AfterEvents(s: State, events: seq<Event>): State
    decreases |events|
  {
    if events == [] then s else AfterEvents(AfterEvent(s, events[0]), events[1..])
  }

  function AllEventSteps(s: State, events: seq<Event>): seq<Step>
    decreases |events|
  {
    if events == [] then []
    else EventSteps(s, events[0]) + AllEventSteps(AfterEvent(s, events[0]), events[1..])
  }

  lemma {:induction false} EventsAreCalls(s: State, events: seq<Event>)
    requires Sound(s) && s.network.Polling? && AllDispatchable(s, events)
    ensures Call(s, AllEventSteps(s, events), AfterEvents(s, events))
    ensures AfterEvents(s, events).network.Polling?
    ensures AfterEvents(s, events).stopper == s.stopper && AfterEvents(s, events).entered == s.entered
    ensures AfterEvents(s, events).erasing == s.erasing && AfterEvents(s, events).threaded == s.threaded
    ensures AfterEvents(s, events).overlapped == s.overlapped
    decreases |events|
  {
    if events == [] {
      NoStep(s);
    } else {
      var s1 := AfterEvent(s, events[0]);
      EventIsCall(s, events[0]);
      EventsAreCalls(s1, events[1..]);
      Join(s, EventSteps(s, events[0]), s1, AllEventSteps(s1, events[1..]), AfterEvents(s, events));
    }
  }

  // ---- poll ----

  lemma ManualPollIsCall(s: State)
    requires Sound(s) && Resting(s) && !s.threaded
    ensures Call(s, [ManualPoll], s.(network := Polling))
  {
    OneStep(s, ManualPoll);
  }

  lemma PollEndsIsCall(s: State)
    requires Sound(s) && s.network.Polling? && !s.threaded
    ensures Call(s, [PollEnds], s.(network := Ended))
  {
    OneStep(s, PollEnds);
  }

  /** A poll: without a network thread the caller is the dispatching thread for
      as long as it takes. */
  function AfterPoll(s: State, events: seq<Event>): State {
    if s.threaded then AfterEvents(s, events)
    else AfterEvents(s.(network := Polling), events).(network := Ended)
  }

  function PollSteps(s: State, events: seq<Event>): seq<Step> {
    if s.threaded then AllEventSteps(s, events)
    else [ManualPoll] + AllEventSteps(s.(network := Polling), events) + [PollEnds]
  }

  lemma PollIsCall(s: State, events: seq<Event>)
    requires Sound(s) && Resting(s) && AllDispatchable(s.(network := Polling), events)
    ensures Call(s, PollSteps(s, events), AfterPoll(s, events)) && Resting(AfterPoll(s, events))
  {
    var s1 := s.(network := Polling);
    if s.threaded {
      assert s == s1;
      EventsAreCalls(s, events);
    } else {
      var s2 := AfterEvents(s1, events);
      ManualPollIsCall(s);
      EventsAreCalls(s1, events);
      Join(s, [ManualPoll], s1, AllEventSteps(s1, events), s2);
      PollEndsIsCall(s2);
      Join(s, [ManualPoll] + AllEventSteps(s1, events), s2, [PollEnds], s2.(network := Ended));
    }
  }
}
