/** The awaiter protocol of `AsyncUdpPacketClient` as a step relation between one
    network thread and any number of waiting coroutines. The network thread takes
    a message in three steps (find the front record under the lock, write the
    payload through the pointer, set the event through the pointer), and the
    coroutines may move between any two of them. */
module AwaiterProtocol {
  import opened Wrappers
  import opened NetworkTypes
  import Runs
  import opened AwaiterQueues

  /** A deserialized payload together with the message it was read from. */
  datatype Stored<+P> = Stored(message: nat, payload: P)

  /** `awaiting_packet_t`. The waiter's number stands for its event pointer. */
  datatype Record<+P> = Record(waiter: nat, data: Option<Stored<P>>)

  datatype Phase<+P> =
    | Registered                                // before `co_await event`
    | Awaiting                                  // suspended, or about to go on if the event is set
    | Returned(result: Option<Stored<P>>)       // popped a record; this was its data

  datatype Waiter<+P> = Waiter(packetType: PacketType, phase: Phase<P>, signalled: bool)

  /** Where the network thread stands: `awaiter` is the pointer it took under the lock. */
  datatype Network<+P> =
    | Idle
    | Writing(awaiter: nat, packetType: PacketType, stored: Stored<P>)
    | Signalling(awaiter: nat, packetType: PacketType)

  /** A message as it arrived: its number and what it deserialized to. */
  datatype Packet<+P> = Packet(message: nat, payload: Option<P>) {
    function Content(): Option<Stored<P>> {
      match payload
      case None => None
      case Some(p) => Some(Stored(message, p))
    }
  }

  /** History of the pre-handler: a message taken for a waiter, a payload written to one. */
  datatype Take<+P> = Take(packetType: PacketType, waiter: nat, packet: Packet<P>)
  datatype Write<+P> = Write(packetType: PacketType, waiter: nat, stored: Stored<P>)

  /** Messages are numbered by arrival; the buffers of those below `released`
      have been given back to the transport. */
  datatype State<+P> = State(
    queues: map<PacketType, seq<Record<P>>>,
    waiters: seq<Waiter<P>>,
    network: Network<P>,
    arrived: nat,
    released: nat,
    taken: seq<Take<P>>,
    writes: seq<Write<P>>)
  {
    function Queue(packetType: PacketType): seq<Record<P>> {
      QueueOf(queues, packetType)
    }
  }

  datatype Step<+P> =
    | Register(packetType: PacketType)
    | Await(waiter: nat)
    | Lookup(packetType: PacketType, payload: Option<P>)
    | WriteData
    | Signal
    | Resume(waiter: nat)
    | ReleaseBatch

  function Initial<P>(): State<P> {
    State(map[], [], Idle, 0, 0, [], [])
  }

  /** The record pointer is still good: the record has not been popped. */
  predicate Denotes<P>(queue: seq<Record<P>>, awaiter: nat) {
    exists i :: 0 <= i < |queue| && queue[i].waiter == awaiter
  }

  function Overwritten<P>(queue: seq<Record<P>>, awaiter: nat, stored: Stored<P>): seq<Record<P>> {
    seq(|queue|, i requires 0 <= i < |queue| =>
      if queue[i].waiter == awaiter then queue[i].(data := Some(stored)) else queue[i])
  }

  /** `register_packet_awaiter`, called with a fresh event. */
  function AfterRegister<P>(s: State<P>, packetType: PacketType): State<P> {
    s.(queues := Pushed(s.queues, packetType, Record(|s.waiters|, None)),
       waiters := s.waiters + [Waiter(packetType, Registered, false)])
  }

  /** The locked lookup, which takes a message for the front record or leaves
      it to the packet handlers. A payload that does not deserialize is not written. */
  function AfterLookup<P>(s: State<P>, packetType: PacketType, payload: Option<P>): State<P> {
    var front := Front(s.queues, packetType);
    if front.None? then s.(arrived := s.arrived + 1) else
    var awaiter := front.value.waiter;
    s.(arrived := s.arrived + 1,
       taken := s.taken + [Take(packetType, awaiter, Packet(s.arrived, payload))],
       network := if payload.None? then Signalling(awaiter, packetType)
                  else Writing(awaiter, packetType, Stored(s.arrived, payload.value)))
  }

  /** `awaiter->m_data = std::move(*maybe_payload)`, outside the lock. */
  function AfterWrite<P>(s: State<P>): State<P>
    requires s.network.Writing?
  {
    var Writing(awaiter, packetType, stored) := s.network;
    s.(queues := s.queues[packetType := Overwritten(s.Queue(packetType), awaiter, stored)],
       writes := s.writes + [Write(packetType, awaiter, stored)],
       network := Signalling(awaiter, packetType))
  }

  /** `awaiter->m_event->set()`, outside the lock. */
  function AfterSignal<P>(s: State<P>): State<P>
    requires s.network.Signalling? && s.network.awaiter < |s.waiters|
  {
    var a := s.network.awaiter;
    s.(waiters := s.waiters[a := s.waiters[a].(signalled := true)], network := Idle)
  }

  /** `get_packet_awaiter`: the coroutine pops the front record of its type,
      whichever record that is, and returns its data. */
  function AfterResume<P>(s: State<P>, w: nat): State<P>
    requires w < |s.waiters|
  {
    var packetType := s.waiters[w].packetType;
    var front := Front(s.queues, packetType);
    var result := if front.None? then None else front.value.data;
    s.(queues := Popped(s.queues, packetType),
       waiters := s.waiters[w := s.waiters[w].(phase := Returned(result))])
  }

  /** The pointer the network thread holds still denotes a queued record. */
  predicate PointerGood<P>(s: State<P>) {
    !s.network.Idle? ==> Denotes(s.Queue(s.network.packetType), s.network.awaiter)
  }

  /** When a step can happen. Writing or signalling through a pointer whose record
      is gone cannot: the program has no meaning beyond that point. */
  predicate Enabled<P>(s: State<P>, step: Step<P>) {
    match step
    case Register(_) => true
    case Await(w) => w < |s.waiters| && s.waiters[w].phase.Registered?
    case Lookup(_, _) => s.network.Idle?
    case WriteData => s.network.Writing? && PointerGood(s)
    case Signal => s.network.Signalling? && PointerGood(s) && s.network.awaiter < |s.waiters|
    case Resume(w) => w < |s.waiters| && s.waiters[w].phase.Awaiting? && s.waiters[w].signalled
    case ReleaseBatch => s.network.Idle?
  }

  function Apply<P>(s: State<P>, step: Step<P>): State<P>
    requires Enabled(s, step)
  {
    match step
    case Register(packetType) => AfterRegister(s, packetType)
    case Await(w) => s.(waiters := s.waiters[w := s.waiters[w].(phase := Awaiting)])
    case Lookup(packetType, payload) => AfterLookup(s, packetType, payload)
    case WriteData => AfterWrite(s)
    case Signal => AfterSignal(s)
    case Resume(w) => AfterResume(s, w)
    case ReleaseBatch => s.(released := s.arrived)
  }

  /** The lookup that goes wrong: it finds a front record that has been signalled
      already and not been popped yet. */
  predicate Stale<P>(s: State<P>, step: Step<P>) {
    && step.Lookup?
    && Front(s.queues, step.packetType).Some?
    && var w := Front(s.queues, step.packetType).value.waiter;
       w < |s.waiters| && s.waiters[w].signalled
  }

  /** Some waiter has been signalled and has not popped its record yet. */
  predicate Pending<P>(s: State<P>) {
    exists w :: 0 <= w < |s.waiters| && s.waiters[w].signalled && !s.waiters[w].phase.Returned?
  }

  /** Which steps a schedule admits.
      `Free` admits every interleaving. `Fresh` rules out stale lookups only.
      `Prompt` is what resuming inline from `event.set()` gives: signalled waiters
      pop before the network thread takes or releases anything else, and a waiter
      is suspended before its record is looked up. */
  datatype Schedule = Free | Fresh | Prompt

  predicate Admits<P>(schedule: Schedule, s: State<P>, step: Step<P>) {
    match schedule
    case Free => true
    case Fresh => !Stale(s, step)
    case Prompt =>
      match step
      case Lookup(packetType, _) =>
        && !Pending(s)
        && (Front(s.queues, packetType).Some? ==>
            var w := Front(s.queues, packetType).value.waiter;
            w < |s.waiters| && s.waiters[w].phase.Awaiting?)
      case ReleaseBatch => !Pending(s)
      case _ => true
  }

  function Next<P>(schedule: Schedule, s: State<P>, step: Step<P>): Option<State<P>> {
    if Enabled(s, step) && Admits(schedule, s, step) then Some(Apply(s, step)) else None
  }

  /** The state a run ends in, if every one of its steps is possible and admitted. */
  function Run<P>(schedule: Schedule, steps: seq<Step<P>>): Option<State<P>> {
    Runs.Run((s, step) => Next(schedule, s, step), Initial(), steps)
  }

  /** Prompt runs make no stale lookup, and every schedule is some interleaving. */
  lemma {:induction false} PromptIsFresh<P>(steps: seq<Step<P>>)
    ensures Run(Prompt, steps).Some? ==> Run(Fresh, steps) == Run(Prompt, steps)
    ensures Run(Fresh, steps).Some? ==> Run(Free, steps) == Run(Fresh, steps)
  {
    if steps != [] {
      PromptIsFresh(steps[..|steps| - 1]);
    }
  }

  lemma RunAppend<P>(schedule: Schedule, steps: seq<Step<P>>, step: Step<P>)
    ensures Run(schedule, steps + [step])
         == match Run(schedule, steps)
            case None => None
            case Some(s) => if Enabled(s, step) && Admits(schedule, s, step) then Some(Apply(s, step)) else None
  {
    assert (steps + [step])[..|steps|] == steps;
  }

  /** States that differ only in which types have an empty queue and which have
      no key stay that way: the same steps are possible, with the same effects. */
  lemma EmptyQueuesInvisible<P>(s: State<P>, queues: Queues<Record<P>>, step: Step<P>)
    requires SameQueues(s.queues, queues)
    ensures Enabled(s, step) <==> Enabled(s.(queues := queues), step)
    ensures Enabled(s, step) ==>
              var s', t' := Apply(s, step), Apply(s.(queues := queues), step);
              SameQueues(s'.queues, t'.queues) && t' == s'.(queues := t'.queues)
  {
    assert forall t: PacketType :: QueueOf(s.queues, t) == QueueOf(queues, t);
    match step
    case Register(t) => MissingKeyIsEmptyQueue(s.queues, queues, t, Record(|s.waiters|, None));
    case Lookup(t, _) => MissingKeyIsEmptyQueue(s.queues, queues, t, Record(0, None));
    case Resume(w) =>
      if Enabled(s, step) {
        MissingKeyIsEmptyQueue(s.queues, queues, s.waiters[w].packetType, Record(0, None));
      }
    case WriteData =>
      if s.network.Writing? {
        var a, b := AfterWrite(s), AfterWrite(s.(queues := queues));
        forall t: PacketType
          ensures QueueOf(a.queues, t) == QueueOf(b.queues, t)
        {
          assert s.Queue(t) == QueueOf(queues, t);
        }
      }
    case Signal =>
      if s.network.Signalling? {
        assert s.Queue(s.network.packetType) == s.(queues := queues).Queue(s.network.packetType);
      }
    case _ =>
  }

  // ---- Histories ----

  /** The last payload written for a waiter. */
  function LastWrite<P>(writes: seq<Write<P>>, w: nat): Option<Stored<P>> {
    if writes == [] then None
    else if writes[|writes| - 1].waiter == w then Some(writes[|writes| - 1].stored)
    else LastWrite(writes[..|writes| - 1], w)
  }

  lemma LastWriteAppend<P>(writes: seq<Write<P>>, write: Write<P>, w: nat)
    ensures LastWrite(writes + [write], w)
         == if write.waiter == w then Some(write.stored) else LastWrite(writes, w)
  {
    assert (writes + [write])[..|writes|] == writes;
  }

  /** The waiters for whom some message was taken. */
  ghost function Served<P>(taken: seq<Take<P>>): set<nat> {
    set take | take in taken :: take.waiter
  }

  lemma ServedAppend<P>(taken: seq<Take<P>>, take: Take<P>)
    ensures Served(taken + [take]) == Served(taken) + {take.waiter}
  {
    assert forall t :: t in taken + [take] <==> t in taken || t == take;
  }
}
