/** The objects behind the awaiter protocol: `m_awaiters`, the records and the
    events, updated in place as `async_udp_packet_client.inl` does. Every call
    is proved to append to a history that is a run of `AwaiterProtocol`. */
module AsyncPacketClient {
  import opened Wrappers
  import opened NetworkTypes
  import opened PacketHeader
  import opened AwaiterQueues
  import opened AwaiterProtocol
  import opened AwaiterSafety
  import opened AwaiterLedger

  /** `coro::event`, reduced to whether it has been set and whether a coroutine is
      suspended on it. Setting it for the first time resumes that coroutine, on the
      thread that sets it. */
  class Event {
    var isSet: bool
    var suspended: bool

    constructor ()
      ensures !isSet && !suspended
    {
      isSet, suspended := false, false;
    }
  }

  /** `awaiting_packet_t`. The ghost number names the waiter in the history. */
  class AwaitingPacket<P> {
    const event: Event
    ghost const waiter: nat
    var data: Option<P>

    constructor (event: Event, ghost waiter: nat)
      ensures this.event == event && this.waiter == waiter && data.None?
    {
      this.event, this.waiter, data := event, waiter, None;
    }
  }

  function Payload<P>(stored: Option<Stored<P>>): Option<P> {
    match stored
    case None => None
    case Some(s) => Some(s.payload)
  }

  /** What the pre-handler itself does to the history for a message with a good
      header: the lookup alone if nobody waits, and otherwise the signal too. */
  ghost function SignalSteps<P>(s: State<P>, packetType: PacketType, payload: Option<P>): seq<Step<P>> {
    if Front(s.queues, packetType).None? then [Lookup(packetType, payload)]
    else if payload.None? then [Lookup(packetType, payload), Signal]
    else [Lookup(packetType, payload), WriteData, Signal]
  }

  /** Setting the front record's event resumes its coroutine inline. */
  predicate ResumesFront<P>(s: State<P>, packetType: PacketType) {
    && Front(s.queues, packetType).Some?
    && var w := Front(s.queues, packetType).value.waiter;
       w < |s.waiters| && s.waiters[w].phase.Awaiting? && !s.waiters[w].signalled
  }

  /** All a message with a good header does to the history. */
  ghost function DeliverySteps<P>(s: State<P>, packetType: PacketType, payload: Option<P>): seq<Step<P>> {
    SignalSteps(s, packetType, payload)
    + if ResumesFront(s, packetType) then [Resume(Front(s.queues, packetType).value.waiter)] else []
  }

  /** The state the pre-handler's own steps lead to. */
  ghost function Signalled<P>(s: State<P>, packetType: PacketType, payload: Option<P>): State<P>
    requires Sound(s) && s.network.Idle?
  {
    var s1 := AfterLookup(s, packetType, payload);
    if s1.network.Idle? then s1 else
    var s2 := if s1.network.Writing? then AfterWrite(s1) else s1;
    assert RecordSound(s, packetType, s.Queue(packetType)[0]) by { assert QueueSound(s, packetType); }
    AfterSignal(s2)
  }

  lemma SignalRuns<P>(history: seq<Step<P>>, packetType: PacketType, payload: Option<P>)
    requires Run(Free, history).Some? && Run(Free, history).value.network.Idle?
    ensures Sound(Run(Free, history).value)
    ensures var s := Run(Free, history).value;
            Run(Free, history + SignalSteps(s, packetType, payload)) == Some(Signalled(s, packetType, payload))
  {
    RunsAreSound(Free, history);
    var s := Run(Free, history).value;
    var lookup := Step<P>.Lookup(packetType, payload);
    RunAppend(Free, history, lookup);
    if Front(s.queues, packetType).Some? {
      assert QueueSound(s, packetType);
      assert RecordSound(s, packetType, s.Queue(packetType)[0]);
      assert s.Queue(packetType)[0].waiter == Front(s.queues, packetType).value.waiter;
      if payload.None? {
        RunAppend(Free, history + [lookup], Step<P>.Signal);
        assert history + [lookup] + [Step<P>.Signal] == history + SignalSteps(s, packetType, payload);
      } else {
        RunAppend(Free, history + [lookup], Step<P>.WriteData);
        var s2 := AfterWrite(AfterLookup(s, packetType, payload));
        assert s2.Queue(packetType)[0].waiter == s.Queue(packetType)[0].waiter;
        RunAppend(Free, history + [lookup] + [Step<P>.WriteData], Step<P>.Signal);
        assert history + [lookup] + [Step<P>.WriteData] + [Step<P>.Signal]
            == history + SignalSteps(s, packetType, payload);
      }
    }
  }

  /** What they change: the front record of the one queue, and its waiter. */
  ghost predicate SignalEffect<P>(s: State<P>, s': State<P>, packetType: PacketType, payload: Option<P>) {
    && packetType in s.queues && s.queues[packetType] != []
    && var front := s.queues[packetType][0];
    && front.waiter < |s.waiters|
    && s'.network.Idle?
    && s'.waiters == s.waiters[front.waiter := s.waiters[front.waiter].(signalled := true)]
    && s'.queues == s.queues[packetType := s.queues[packetType][0 :=
         if payload.None? then front else Record(front.waiter, Some(Stored(s.arrived, payload.value)))]]
    && s'.writes == s.writes + (if payload.None? then []
                                else [Write(packetType, front.waiter, Stored(s.arrived, payload.value))])
    && s'.taken == s.taken + [Take(packetType, front.waiter, Packet(s.arrived, payload))]
  }

  lemma SignalledEffect<P>(s: State<P>, packetType: PacketType, payload: Option<P>)
    requires Sound(s) && s.network.Idle? && Front(s.queues, packetType).Some?
    ensures SignalEffect(s, Signalled(s, packetType, payload), packetType, payload)
  {
    assert QueueSound(s, packetType);
    assert RecordSound(s, packetType, s.Queue(packetType)[0]);
    var queue := s.queues[packetType];
    if payload.Some? {
      var queue' := AfterWrite(AfterLookup(s, packetType, payload)).Queue(packetType);
      assert forall i :: 0 < i < |queue| ==> queue[0].waiter < queue[i].waiter && queue'[i] == queue[i];
      assert queue' == queue[0 := Record(queue[0].waiter, Some(Stored(s.arrived, payload.value)))];
    } else {
      assert queue == queue[0 := queue[0]];
    }
  }

  /** Where a run ends that is extended by them. */
  ghost function SignalEnds<P>(history: seq<Step<P>>, packetType: PacketType, payload: Option<P>): (s': State<P>)
    requires Run(Free, history).Some? && Run(Free, history).value.network.Idle?
    ensures var s := Run(Free, history).value;
            && Run(Free, history + SignalSteps(s, packetType, payload)) == Some(s')
            && (Front(s.queues, packetType).Some? ==> SignalEffect(s, s', packetType, payload))
            && (Front(s.queues, packetType).None? ==> s' == s.(arrived := s.arrived + 1))
  {
    var s := Run(Free, history).value;
    SignalRuns(history, packetType, payload);
    assert Front(s.queues, packetType).Some? ==>
             SignalEffect(s, Signalled(s, packetType, payload), packetType, payload) by {
      if Front(s.queues, packetType).Some? {
        SignalledEffect(s, packetType, payload);
      }
    }
    Signalled(s, packetType, payload)
  }

  /** The front waiter has returned with the payload of this very message. */
  ghost predicate ResumedWith<P>(s: State<P>, s': State<P>, packetType: PacketType, payload: Option<P>) {
    && Front(s.queues, packetType).Some?
    && var w := Front(s.queues, packetType).value.waiter;
       w < |s.waiters|
       && s'.waiters == s.waiters[w := Waiter(packetType, Returned(Packet(s.arrived, payload).Content()), true)]
  }

  /** A coroutine that setting the event resumes inline finds the payload of the
      message being delivered: nothing was written for it before. */
  lemma ResumesWithOwnMessage<P>(history: seq<Step<P>>, packetType: PacketType, payload: Option<P>)
    requires Run(Free, history).Some? && Run(Free, history).value.network.Idle?
    requires ResumesFront(Run(Free, history).value, packetType)
    ensures var s, s' := Run(Free, history).value, SignalEnds(history, packetType, payload);
            var w := Front(s.queues, packetType).value.waiter;
            && Enabled(s', Step<P>.Resume(w)) && s'.waiters[w].packetType == packetType
            && LastWrite(s'.writes, w) == Packet(s.arrived, payload).Content()
            && ResumedWith(s, AfterResume(s', w), packetType, payload)
  {
    var s, s' := Run(Free, history).value, SignalEnds(history, packetType, payload);
    var w := Front(s.queues, packetType).value.waiter;
    RunsAreSound(Free, history);
    assert QueueSound(s, packetType);
    assert RecordSound(s, packetType, s.Queue(packetType)[0]);
    ServedIffSignalled(s, w);
    NoWriteNoData(s, w);
    if payload.Some? {
      LastWriteAppend(s.writes, s'.writes[|s.writes|], w);
    }
  }

  /** Where a run ends that is extended by a whole delivery. */
  ghost function DeliveryEnds<P>(history: seq<Step<P>>, packetType: PacketType, payload: Option<P>): (s': State<P>)
    requires Run(Free, history).Some? && Run(Free, history).value.network.Idle?
    ensures var s := Run(Free, history).value;
            && Run(Free, history + DeliverySteps(s, packetType, payload)) == Some(s')
            && s'.network.Idle?
            && (ResumesFront(s, packetType) ==> ResumedWith(s, s', packetType, payload))
            && (Front(s.queues, packetType).Some? ==>
                  s'.taken == s.taken + [Take(packetType, Front(s.queues, packetType).value.waiter,
                                              Packet(s.arrived, payload))])
            && (Front(s.queues, packetType).None? ==> s' == s.(arrived := s.arrived + 1))
  {
    var s, s1 := Run(Free, history).value, SignalEnds(history, packetType, payload);
    var steps := SignalSteps(s, packetType, payload);
    if ResumesFront(s, packetType) then
      var w := Front(s.queues, packetType).value.waiter;
      RunAppend(Free, history + steps, Step<P>.Resume(w));
      ResumesWithOwnMessage(history, packetType, payload);
      assert history + steps + [Step<P>.Resume(w)] == history + DeliverySteps(s, packetType, payload);
      AfterResume(s1, w)
    else
      assert history + DeliverySteps(s, packetType, payload) == history + steps;
      s1
  }

  /** After the signal, the coroutine it resumes can go on. */
  lemma DeliveryExtends<P>(history: seq<Step<P>>, packetType: PacketType, payload: Option<P>)
    requires Run(Free, history).Some? && Run(Free, history).value.network.Idle?
    ensures var s, s' := Run(Free, history).value, SignalEnds(history, packetType, payload);
            if ResumesFront(s, packetType) then
              var w := Front(s.queues, packetType).value.waiter;
              && Enabled(s', Step<P>.Resume(w)) && s'.waiters[w].packetType == packetType
              && Payload(LastWrite(s'.writes, w)) == payload
              && history + DeliverySteps(s, packetType, payload)
                 == (history + SignalSteps(s, packetType, payload)) + [Step<P>.Resume(w)]
            else
              history + DeliverySteps(s, packetType, payload) == history + SignalSteps(s, packetType, payload)
  {
    var s := Run(Free, history).value;
    if ResumesFront(s, packetType) {
      ResumesWithOwnMessage(history, packetType, payload);
    }
  }

  /** The awaiter half of `AsyncUdpPacketClient`. */
  class AwaiterTable<P(!new)> {
    var awaiters: Queues<AwaitingPacket<P>>
    const serde: Byte
    const unpack: seq<Byte> -> Option<P>
    var resumed: seq<Option<P>>              // what coroutines resumed inline have popped
    ghost var history: seq<Step<P>>
    ghost var events: seq<Event>

    ghost function Records(): set<AwaitingPacket<P>>
      reads this`awaiters
    {
      set t, i | t in awaiters && 0 <= i < |awaiters[t]| :: awaiters[t][i]
    }

    ghost function Footprint(): set<object>
      reads this`awaiters, this`events
    {
      {this} + Records() + set e | e in events
    }

    ghost function Model(): State<P>
      reads this`history
      requires Run(Free, history).Some?
    {
      Run(Free, history).value
    }

    /** A record object stands for a record of the protocol. */
    ghost predicate Represents(o: AwaitingPacket<P>, record: Record<P>)
      reads this`events, o
    {
      && o.waiter == record.waiter < |events|
      && o.event == events[record.waiter]
      && o.data == Payload(record.data)
    }

    /** The objects of one queue stand, in order, for the records of one. */
    ghost predicate QueueMirrors(queue: seq<AwaitingPacket<P>>, records: seq<Record<P>>)
      reads this`events, queue
    {
      |queue| == |records| && forall i :: 0 <= i < |queue| ==> Represents(queue[i], records[i])
    }

    ghost predicate EventsMirror(waiters: seq<Waiter<P>>)
      reads this`events, events
    {
      && |events| == |waiters|
      && (forall j, k :: 0 <= j < k < |events| ==> events[j] != events[k])
      && (forall k :: 0 <= k < |events| ==>
            && events[k].isSet == waiters[k].signalled
            && events[k].suspended == (waiters[k].phase.Awaiting? && !waiters[k].signalled))
    }

    ghost predicate QueuesMirror(queues: Queues<Record<P>>)
      reads this`awaiters, this`events, Records()
    {
      && awaiters.Keys == queues.Keys
      && (forall t :: t in awaiters ==> QueueMirrors(awaiters[t], queues[t]))
    }

    /** The objects stand for a state of the protocol. */
    ghost predicate Mirrors(s: State<P>)
      reads this`awaiters, this`events, Records(), events
    {
      s.network.Idle? && EventsMirror(s.waiters) && QueuesMirror(s.queues)
    }

    ghost predicate Valid()
      reads this`awaiters, this`events, this`history, Records(), events
    {
      Run(Free, history).Some? && Mirrors(Model())
    }

    constructor (serde: Byte, unpack: seq<Byte> -> Option<P>)
      ensures Valid() && history == [] && this.serde == serde && this.unpack == unpack
      ensures Footprint() == {this}
    {
      this.serde, this.unpack := serde, unpack;
      awaiters, resumed, history, events := map[], [], [], [];
    }

    /** Distinct places in the queues hold distinct record objects. */
    lemma RecordsDistinct(t: PacketType, i: nat, t': PacketType, i': nat)
      requires Valid() && t in awaiters && t' in awaiters && i < |awaiters[t]| && i' < |awaiters[t']|
      ensures awaiters[t][i] == awaiters[t'][i'] ==> t == t' && i == i'
    {
      var s := Model();
      RunsAreSound(Free, history);
      assert QueueSound(s, t) && QueueSound(s, t');
      assert RecordSound(s, t, s.Queue(t)[i]) && RecordSound(s, t', s.Queue(t')[i']);
    }

    /** `register_packet_awaiter`, with a record made for a fresh event. */
    method RegisterPacketAwaiter(packetType: PacketType, awaiting: AwaitingPacket<P>)
      requires Valid() && awaiting !in Records() && awaiting.event !in events
      requires awaiting.waiter == |events| && awaiting.data.None?
      requires !awaiting.event.isSet && !awaiting.event.suspended
      modifies this`awaiters, this`history, this`events
      ensures Valid()
      ensures history == old(history) + [Step<P>.Register(packetType)]
      ensures awaiters == Pushed(old(awaiters), packetType, awaiting)
      ensures events == old(events) + [awaiting.event]
      ensures Records() <= old(Records()) + {awaiting}
    {
      RunAppend(Free, history, Step<P>.Register(packetType));
      Push(packetType, awaiting, Model());
      history := history + [Step<P>.Register(packetType)];
    }

    method Enqueue(packetType: PacketType, awaiting: AwaitingPacket<P>)
      modifies this`awaiters
      ensures awaiters == Pushed(old(awaiters), packetType, awaiting)
    {
      if packetType in awaiters {
        var queue := awaiters[packetType];
        awaiters := awaiters[packetType := queue + [awaiting]];
      } else {
        var queue := [awaiting];
        awaiters := awaiters[packetType := queue];
      }
    }

    method Push(packetType: PacketType, awaiting: AwaitingPacket<P>, ghost s: State<P>)
      requires Mirrors(s) && awaiting !in Records() && awaiting.event !in events
      requires awaiting.waiter == |events| && awaiting.data.None?
      requires !awaiting.event.isSet && !awaiting.event.suspended
      modifies this`awaiters, this`events
      ensures Mirrors(AfterRegister(s, packetType))
      ensures awaiters == Pushed(old(awaiters), packetType, awaiting)
      ensures events == old(events) + [awaiting.event]
      ensures Records() <= old(Records()) + {awaiting}
    {
      Enqueue(packetType, awaiting);
      events := events + [awaiting.event];
      forall t | t in awaiters
        ensures QueueMirrors(awaiters[t], AfterRegister(s, packetType).queues[t])
      {
        assert t in old(awaiters) ==> old(QueueMirrors(awaiters[t], s.queues[t]));
      }
    }

    /** `get_packet_awaiter`: indexing the map creates a missing key. */
    method GetPacketAwaiter(packetType: PacketType) returns (awaiting: Option<AwaitingPacket<P>>)
      modifies this`awaiters
      ensures awaiters == Popped(old(awaiters), packetType)
      ensures awaiting == Front(old(awaiters), packetType)
    {
      if packetType !in awaiters {
        awaiters := awaiters[packetType := []];
      }
      var queue := awaiters[packetType];
      if queue == [] {
        return None;
      }
      awaiting := Some(queue[0]);
      awaiters := awaiters[packetType := queue[1..]];
    }

    /** The first half of `async_wait_for_packet`: register a record for a new event. */
    method BeginWait(packetType: PacketType) returns (event: Event)
      requires Valid()
      modifies this`awaiters, this`history, this`events
      ensures Valid() && fresh(event) && fresh(Footprint() - old(Footprint()))
      ensures history == old(history) + [Step<P>.Register(packetType)]
      ensures events == old(events) + [event]
    {
      event := new Event();
      var awaiting := new AwaitingPacket(event, |events|);
      RegisterPacketAwaiter(packetType, awaiting);
    }

    /** What a coroutine does when it goes on: pop the front record of its type and
        take its data. It gets what was last written for it, although the code never
        checks whose record it pops. */
    method Continue(packetType: PacketType, ghost w: nat) returns (data: Option<P>)
      requires Valid() && Enabled(Model(), Resume(w)) && Model().waiters[w].packetType == packetType
      modifies this`awaiters, this`history
      ensures Valid() && Footprint() <= old(Footprint())
      ensures history == old(history) + [Step<P>.Resume(w)]
      ensures Model().waiters[w].phase.Returned? && data == Payload(Model().waiters[w].phase.result)
      ensures data == Payload(LastWrite(old(Model()).writes, w))
    {
      RunAppend(Free, history, Step<P>.Resume(w));
      RunsAreSound(Free, history);
      ResumePopsOwn(Model(), w);
      data := PopData(packetType, w, Model());
      history := history + [Step<P>.Resume(w)];
    }

    /** The other half of `async_wait_for_packet`: go on, then convert the payload.
        It returns nothing if no payload was written, or none that converts. */
    method FinishWait<T>(packetType: PacketType, convert: P -> Option<T>, ghost w: nat) returns (result: Option<T>)
      requires Valid() && Enabled(Model(), Resume(w)) && Model().waiters[w].packetType == packetType
      modifies this`awaiters, this`history
      ensures Valid() && Footprint() <= old(Footprint())
      ensures history == old(history) + [Step<P>.Resume(w)]
      ensures var written := LastWrite(old(Model()).writes, w);
              && (result.Some? <==> written.Some? && convert(written.value.payload).Some?)
              && (result.Some? ==> result == convert(written.value.payload))
    {
      var data := Continue(packetType, w);
      if data.None? {
        return None;
      }
      result := convert(data.value);
    }

    method PopData(packetType: PacketType, ghost w: nat, ghost s: State<P>) returns (result: Option<P>)
      requires Mirrors(s) && w < |s.waiters| && s.waiters[w].packetType == packetType && s.waiters[w].signalled
      modifies this`awaiters
      ensures Mirrors(AfterResume(s, w)) && Records() <= old(Records())
      ensures result == Payload(AfterResume(s, w).waiters[w].phase.result)
    {
      assert packetType in awaiters ==> QueueMirrors(awaiters[packetType], s.queues[packetType]);
      var awaiter := GetPacketAwaiter(packetType);
      forall t | t in awaiters
        ensures QueueMirrors(awaiters[t], AfterResume(s, w).queues[t])
      {
        assert t in old(awaiters) ==> old(QueueMirrors(awaiters[t], s.queues[t]));
      }
      if awaiter.None? || awaiter.value.data.None? {
        return None;
      }
      return awaiter.value.data;
    }

    /** `co_await event`: the coroutine suspends, or goes on if the event is set. */
    method Suspend(event: Event, ghost w: nat)
      requires Valid() && Enabled(Model(), Await(w)) && event == events[w]
      modifies this`history, event`suspended
      ensures Valid() && Footprint() == old(Footprint()) && history == old(history) + [Step<P>.Await(w)]
    {
      RunAppend(Free, history, Step<P>.Await(w));
      Park(event, w, Model());
      history := history + [Step<P>.Await(w)];
    }

    method Park(event: Event, ghost w: nat, ghost s: State<P>)
      requires Mirrors(s) && Enabled(s, Await(w)) && event == events[w]
      modifies event`suspended
      ensures Mirrors(Apply(s, Await(w)))
    {
      if !event.isSet {
        event.suspended := true;
      }
      forall t | t in awaiters
        ensures QueueMirrors(awaiters[t], s.queues[t])
      {
        assert old(QueueMirrors(awaiters[t], s.queues[t]));
      }
    }

    /** The type a message is waited for under, if this client can read its header. */
    function TypeOf(message: seq<Byte>): Option<PacketType> {
      var header := Parsed(message);
      if header.Some? && header.value.serde == serde then Some(header.value.packetType) else None
    }

    /** Exactly if its first bytes are this client's header for that type. */
    lemma TypeOfIff(message: seq<Byte>, t: PacketType)
      ensures TypeOf(message) == Some(t) <==> Framed(Header(serde, t)) <= message
    {
      ParsedIffWritten(message, Header(serde, t));
    }

    lemma FrontDistinct(t: PacketType)
      requires Valid() && t in awaiters && awaiters[t] != []
      ensures forall t', i :: t' in awaiters && 0 <= i < |awaiters[t']| && awaiters[t'][i] == awaiters[t][0]
                ==> t' == t && i == 0
    {
      forall t', i | t' in awaiters && 0 <= i < |awaiters[t']| && awaiters[t'][i] == awaiters[t][0]
        ensures t' == t && i == 0
      {
        RecordsDistinct(t', i, t, 0);
      }
    }

    /** `awaiter->m_data = std::move(*maybe_payload)`, if there is a payload. */
    method Store(awaiter: AwaitingPacket<P>, payload: Option<P>, packetType: PacketType,
                 ghost queues: Queues<Record<P>>, ghost record: Record<P>)
      requires QueuesMirror(queues) && packetType in awaiters && awaiters[packetType] != []
      requires awaiter == awaiters[packetType][0]
      requires forall t, i :: t in awaiters && 0 <= i < |awaiters[t]| && awaiters[t][i] == awaiter
                 ==> t == packetType && i == 0
      requires record.waiter == queues[packetType][0].waiter
      requires if payload.None? then record.data == queues[packetType][0].data else Payload(record.data) == payload
      modifies awaiter`data
      ensures QueuesMirror(queues[packetType := queues[packetType][0 := record]])
    {
      assert QueueMirrors(awaiters[packetType], queues[packetType]);
      if payload.Some? {
        awaiter.data := payload;
      }
      forall t | t in awaiters
        ensures QueueMirrors(awaiters[t], queues[packetType := queues[packetType][0 := record]][t])
      {
        assert old(QueueMirrors(awaiters[t], queues[t]));
      }
    }

    /** `event::set()`, up to the resumption of the coroutine suspended on it. */
    method SetEvent(event: Event, ghost w: nat, ghost waiters: seq<Waiter<P>>) returns (resumes: bool)
      requires EventsMirror(waiters) && w < |events| && event == events[w]
      modifies event
      ensures EventsMirror(waiters[w := waiters[w].(signalled := true)])
      ensures resumes <==> waiters[w].phase.Awaiting? && !waiters[w].signalled
    {
      resumes := event.suspended;
      event.isSet, event.suspended := true, false;
    }

    /** Deserialize, store the payload in the front record, and set its event;
        set the event alone if the payload does not deserialize. */
    method StoreAndSet(packetType: PacketType, bytes: seq<Byte>, ghost s: State<P>, ghost s': State<P>)
      returns (resumes: bool)
      requires Mirrors(s) && SignalEffect(s, s', packetType, unpack(bytes))
      requires packetType in awaiters && awaiters[packetType] != []
      requires forall t, i :: t in awaiters && 0 <= i < |awaiters[t]| && awaiters[t][i] == awaiters[packetType][0]
                 ==> t == packetType && i == 0
      modifies Records(), events
      ensures Mirrors(s') && (resumes <==> ResumesFront(s, packetType))
    {
      var awaiter := awaiters[packetType][0];
      assert QueueMirrors(awaiters[packetType], s.queues[packetType]);
      Store(awaiter, unpack(bytes), packetType, s.queues, s'.queues[packetType][0]);
      resumes := SetEvent(awaiter.event, awaiter.waiter, s.waiters);
    }

    /** The pre-handler from its locked lookup to its signal, as far as the objects go. */
    method TakeForFront(packetType: PacketType, bytes: seq<Byte>, ghost s: State<P>, ghost s': State<P>)
      returns (taken: bool, resumes: bool)
      requires Valid() && s == Model()
      requires Front(s.queues, packetType).Some? ==> SignalEffect(s, s', packetType, unpack(bytes))
      requires Front(s.queues, packetType).None? ==> s' == s.(arrived := s.arrived + 1)
      modifies Records(), events
      ensures Mirrors(s')
      ensures taken <==> Front(s.queues, packetType).Some?
      ensures resumes <==> ResumesFront(s, packetType)
    {
      assert packetType in awaiters ==> QueueMirrors(awaiters[packetType], s.queues[packetType]);
      taken, resumes := packetType in awaiters && awaiters[packetType] != [], false;
      if taken {
        FrontDistinct(packetType);
        resumes := StoreAndSet(packetType, bytes, s, s');
      }
    }

    /** The pre-handler from its locked lookup to its signal; `w` is the coroutine
        suspended on the event, if there is one. */
    method SignalFront(packetType: PacketType, bytes: seq<Byte>, ghost s: State<P>)
      returns (taken: bool, resumes: bool, ghost w: nat)
      requires Valid() && s == Model()
      modifies this`history, Records(), events
      ensures Valid()
      ensures taken <==> Front(s.queues, packetType).Some?
      ensures resumes <==> ResumesFront(s, packetType)
      ensures resumes ==> Enabled(Model(), Resume(w)) && Model().waiters[w].packetType == packetType
      ensures resumes ==> Payload(LastWrite(Model().writes, w)) == unpack(bytes)
      ensures history + (if resumes then [Step<P>.Resume(w)] else [])
           == old(history) + DeliverySteps(s, packetType, unpack(bytes))
    {
      DeliveryExtends(history, packetType, unpack(bytes));
      ghost var s' := SignalEnds(history, packetType, unpack(bytes));
      w := if ResumesFront(s, packetType) then Front(s.queues, packetType).value.waiter else 0;
      taken, resumes := TakeForFront(packetType, bytes, s, s');
      history := history + SignalSteps(s, packetType, unpack(bytes));
    }

    /** A coroutine suspended on the event runs inside the call that sets it. */
    method ResumeInline(packetType: PacketType, resumes: bool, ghost w: nat)
      requires Valid()
      requires resumes ==> Enabled(Model(), Resume(w)) && Model().waiters[w].packetType == packetType
      modifies this`awaiters, this`resumed, this`history
      ensures Valid() && Footprint() <= old(Footprint())
      ensures resumed == old(resumed) + if resumes then [Payload(LastWrite(old(Model()).writes, w))] else []
      ensures history == old(history) + if resumes then [Step<P>.Resume(w)] else []
    {
      if resumes {
        var data := Continue(packetType, w);
        resumed := resumed + [data];
      }
    }

    /** The pre-handler from its locked lookup on. */
    method Deliver(packetType: PacketType, bytes: seq<Byte>, ghost s: State<P>) returns (taken: bool)
      requires Valid() && s == Model()
      modifies this`awaiters, this`resumed, this`history, Records(), events
      ensures Valid() && Footprint() <= old(Footprint())
      ensures taken <==> Front(s.queues, packetType).Some?
      ensures history == old(history) + DeliverySteps(s, packetType, unpack(bytes))
      ensures resumed == old(resumed) + if ResumesFront(s, packetType) then [unpack(bytes)] else []
    {
      var resumes;
      ghost var w;
      taken, resumes, w := SignalFront(packetType, bytes, s);
      ResumeInline(packetType, resumes, w);
    }

    /** `on_data_received_pre_handler`. It takes a message exactly when its header
        is good and some waiter is registered for its type; the front record gets the
        payload, if that deserializes, and its event is set either way. A coroutine that
        this resumes is handed the payload of this message, inside the call. */
    method OnDataReceivedPreHandler(message: seq<Byte>) returns (handled: bool)
      requires Valid()
      modifies this`awaiters, this`resumed, this`history, Records(), events
      ensures Valid() && Footprint() <= old(Footprint())
      ensures handled <==> TypeOf(message).Some? && Front(old(Model()).queues, TypeOf(message).value).Some?
      ensures history == old(history) +
                if TypeOf(message).None? then []
                else DeliverySteps(old(Model()), TypeOf(message).value, unpack(message[HEADER_SIZE..]))
      ensures resumed == old(resumed) +
                if TypeOf(message).None? || !ResumesFront(old(Model()), TypeOf(message).value) then []
                else [unpack(message[HEADER_SIZE..])]
    {
      var header := UnpackInternalPacketHeader(message);
      if header.None? || header.value.serde != serde {
        return false;
      }
      handled := Deliver(header.value.packetType, message[HEADER_SIZE..], Model());
    }

    /** The messages looked up so far are given back to the transport. */
    ghost method NoteRelease()
      requires Valid()
      modifies this`history
      ensures Valid() && history == old(history) + [Step<P>.ReleaseBatch]
    {
      RunAppend(Free, history, Step<P>.ReleaseBatch);
      assert Mirrors(Apply(Model(), Step<P>.ReleaseBatch));
      history := history + [Step<P>.ReleaseBatch];
    }
  }
}
