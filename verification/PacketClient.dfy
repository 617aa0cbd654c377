/** Routing in `udp_packet_client.inl`: a message goes to an awaiter, to the
    handler bound to its type, or nowhere. */
module PacketClient {
  import opened Wrappers
  import opened NetworkTypes
  import opened PacketHeader
  import opened AwaiterQueues
  import opened AwaiterProtocol
  import opened AwaiterSafety
  import opened AsyncPacketClient

  /** Handlers are named, not modelled: what matters is which one runs, on what. */
  type Handler = nat

  datatype Invocation<+P> = Invocation(handler: Handler, payload: P)

  datatype DropReason = BadHeader | WrongSerde | NobodyBound | BadPayload

  datatype Outcome<+P> =
    | ToAwaiter(packetType: PacketType, payload: Option<P>)
    | ToHandler(invocation: Invocation<P>)
    | Dropped(reason: DropReason)

  datatype Config<!P> = Config(serde: Byte, unpack: seq<Byte> -> Option<P>)

  /** Where `handle_message` sends a message, given who waits and what is bound. */
  function Route<P>(config: Config<P>, waiting: Queues<Record<P>>, handlers: map<PacketType, Handler>,
                    message: seq<Byte>): Outcome<P>
  {
    var header := Parsed(message);
    if header.None? then Dropped(BadHeader)
    else if header.value.serde != config.serde then Dropped(WrongSerde)
    else
      var packetType, payload := header.value.packetType, config.unpack(message[HEADER_SIZE..]);
      if Front(waiting, packetType).Some? then ToAwaiter(packetType, payload)
      else if packetType !in handlers then Dropped(NobodyBound)
      else if payload.None? then Dropped(BadPayload)
      else ToHandler(Invocation(handlers[packetType], payload.value))
  }

  /** The message starts with the header of a packet of this type. */
  ghost predicate Carries<P>(config: Config<P>, message: seq<Byte>, t: PacketType) {
    Framed(Header(config.serde, t)) <= message
  }

  /** Exactly when each outcome arises: awaiters come first, then handlers, and a
      message is dropped when it carries no header of ours, or nobody is there for
      its type, or only a handler is and the payload does not deserialize. */
  lemma RoutedIff<P>(config: Config<P>, waiting: Queues<Record<P>>, handlers: map<PacketType, Handler>,
                     message: seq<Byte>, invocation: Invocation<P>)
    ensures var outcome := Route(config, waiting, handlers, message);
            && (outcome.ToAwaiter? <==>
                  exists t: PacketType :: Carries(config, message, t) && QueueOf(waiting, t) != [])
            && (outcome == ToHandler(invocation) <==>
                  exists t: PacketType :: Carries(config, message, t) && QueueOf(waiting, t) == []
                    && t in handlers && handlers[t] == invocation.handler
                    && config.unpack(message[HEADER_SIZE..]) == Some(invocation.payload))
            && (outcome.Dropped? <==> (forall t: PacketType :: Carries(config, message, t) ==>
                 QueueOf(waiting, t) == [] && (t !in handlers || config.unpack(message[HEADER_SIZE..]).None?)))
  {
    forall t: PacketType
      ensures Carries(config, message, t) <==> Parsed(message) == Some(Header(config.serde, t))
    {
      ParsedIffWritten(message, Header(config.serde, t));
    }
    if Parsed(message).Some? && Parsed(message).value.serde == config.serde {
      assert Carries(config, message, Parsed(message).value.packetType);
    }
  }

  // ---- Whole runs ----

  /** What can happen to the async client: a message, a change of the handler
      table, a step of a coroutine, or the release of the messages handled so far. */
  datatype Input<+P> =
    | Message(bytes: seq<Byte>)
    | Bind(packetType: PacketType, handler: Handler)
    | Unbind(packetType: PacketType)
    | Coroutine(step: Step<P>)
    | Release

  /** The protocol history of its awaiters, its handler table, the handler calls
      it has made, and what became of each message. */
  datatype Client<+P> = Client(
    history: seq<Step<P>>,
    handlers: map<PacketType, Handler>,
    invocations: seq<Invocation<P>>,
    outcomes: seq<Outcome<P>>)
  {
    ghost predicate Valid() {
      Run(Free, history).Some? && Run(Free, history).value.network.Idle?
    }

    ghost function Awaiters(): State<P>
      requires Valid()
    {
      Run(Free, history).value
    }
  }

  /** `bind_packet_handler`: the first binding of a type stays. */
  function Bound(handlers: map<PacketType, Handler>, t: PacketType, handler: Handler): map<PacketType, Handler> {
    if t in handlers then handlers else handlers[t := handler]
  }

  /** The protocol steps a message adds: none unless its header is ours. */
  ghost function StepsFor<P>(config: Config<P>, awaiters: State<P>, message: seq<Byte>): seq<Step<P>> {
    var header := Parsed(message);
    if header.None? || header.value.serde != config.serde then []
    else DeliverySteps(awaiters, header.value.packetType, config.unpack(message[HEADER_SIZE..]))
  }

  function CallOf<P>(outcome: Outcome<P>): seq<Invocation<P>> {
    if outcome.ToHandler? then [outcome.invocation] else []
  }

  /** `handle_message`. */
  ghost function Received<P>(config: Config<P>, c: Client<P>, message: seq<Byte>): Client<P>
    requires c.Valid()
  {
    var outcome := Route(config, c.Awaiters().queues, c.handlers, message);
    Client(c.history + StepsFor(config, c.Awaiters(), message), c.handlers,
           c.invocations + CallOf(outcome), c.outcomes + [outcome])
  }

  ghost predicate Possible<P>(c: Client<P>, input: Input<P>)
    requires c.Valid()
  {
    input.Coroutine? ==>
      && (input.step.Register? || input.step.Await? || input.step.Resume?)
      && Enabled(c.Awaiters(), input.step)
  }

  ghost function After<P>(config: Config<P>, c: Client<P>, input: Input<P>): Client<P>
    requires c.Valid() && Possible(c, input)
  {
    match input
    case Message(bytes) => Received(config, c, bytes)
    case Bind(t, handler) => c.(handlers := Bound(c.handlers, t, handler))
    case Unbind(t) => c.(handlers := c.handlers - {t})
    case Coroutine(step) => Stepped(c, step)
    case Release => Released(c)
  }

  /** A coroutine has taken a step. */
  ghost function Stepped<P>(c: Client<P>, step: Step<P>): Client<P> {
    c.(history := c.history + [step])
  }

  ghost function Released<P>(c: Client<P>): Client<P> {
    Stepped(c, ReleaseBatch)
  }

  ghost function TakenShare<P>(taken: seq<Take<P>>): seq<(PacketType, Option<P>)> {
    seq(|taken|, k requires 0 <= k < |taken| => (taken[k].packetType, taken[k].packet.payload))
  }

  lemma TakenShareAppend<P>(taken: seq<Take<P>>, take: Take<P>)
    ensures TakenShare(taken + [take]) == TakenShare(taken) + [(take.packetType, take.packet.payload)]
  {}

  /** What a message adds to it: its type and payload, if somebody waits for it. */
  ghost function TakenOf<P>(config: Config<P>, waiting: Queues<Record<P>>, message: seq<Byte>)
    : seq<(PacketType, Option<P>)>
  {
    var header := Parsed(message);
    if header.None? || header.value.serde != config.serde || Front(waiting, header.value.packetType).None? then []
    else [(header.value.packetType, config.unpack(message[HEADER_SIZE..]))]
  }

  lemma StepsForRun<P>(config: Config<P>, history: seq<Step<P>>, message: seq<Byte>)
    requires Run(Free, history).Some? && Run(Free, history).value.network.Idle?
    ensures var s := Run(Free, history).value;
            var after := Run(Free, history + StepsFor(config, s, message));
            && after.Some? && after.value.network.Idle?
            && TakenShare(after.value.taken) == TakenShare(s.taken) + TakenOf(config, s.queues, message)
  {
    var s, header := Run(Free, history).value, Parsed(message);
    if header.None? || header.value.serde != config.serde {
      assert history + [] == history;
      assert TakenShare(s.taken) + [] == TakenShare(s.taken);
    } else {
      var t, payload := header.value.packetType, config.unpack(message[HEADER_SIZE..]);
      var s' := DeliveryEnds(history, t, payload);
      if Front(s.queues, t).Some? {
        TakenShareAppend(s.taken, Take(t, Front(s.queues, t).value.waiter, Packet(s.arrived, payload)));
      } else {
        assert TakenShare(s.taken) + [] == TakenShare(s.taken);
      }
    }
  }

  lemma ReceivedIsValid<P>(config: Config<P>, c: Client<P>, message: seq<Byte>)
    requires c.Valid()
    ensures Received(config, c, message).Valid()
    ensures TakenShare(Received(config, c, message).Awaiters().taken)
         == TakenShare(c.Awaiters().taken) + TakenOf(config, c.Awaiters().queues, message)
  {
    StepsForRun(config, c.history, message);
  }

  lemma StepIsValid<P>(c: Client<P>, step: Step<P>)
    requires c.Valid() && Enabled(c.Awaiters(), step)
    requires step.Register? || step.Await? || step.Resume? || step.ReleaseBatch?
    ensures Stepped(c, step).Valid() && Stepped(c, step).Awaiters() == Apply(c.Awaiters(), step)
  {
    RunAppend(Free, c.history, step);
  }

  lemma BindingIsValid<P>(config: Config<P>, c: Client<P>, input: Input<P>)
    requires c.Valid() && (input.Bind? || input.Unbind?)
    ensures After(config, c, input).Valid() && After(config, c, input).Awaiters() == c.Awaiters()
  {
    assert After(config, c, input).history == c.history;
  }

  lemma CoroutineIsValid<P>(config: Config<P>, c: Client<P>, step: Step<P>)
    requires c.Valid() && Possible(c, Input<P>.Coroutine(step))
    ensures var c' := After(config, c, Input<P>.Coroutine(step));
            c' == Stepped(c, step) && c'.Valid() && c'.Awaiters().taken == c.Awaiters().taken
  {
    StepIsValid(c, step);
  }

  /** Giving back what was handled: the last step of the history, after which every
      message that has arrived has been released. */
  lemma ReleasedIs<P>(c: Client<P>)
    requires c.Valid()
    ensures var c' := Released(c);
            && c' == c.(history := c.history + [Step<P>.ReleaseBatch]) && c'.Valid()
            && c'.Awaiters() == c.Awaiters().(released := c.Awaiters().arrived)
  {
    StepIsValid(c, Step<P>.ReleaseBatch);
  }

  lemma ReleaseIsValid<P>(config: Config<P>, c: Client<P>)
    requires c.Valid()
    ensures var c' := After(config, c, Input<P>.Release);
            c' == Released(c) && c'.Valid() && c'.Awaiters().taken == c.Awaiters().taken
  {
    StepIsValid(c, Step<P>.ReleaseBatch);
  }

  lemma AfterIsValid<P>(config: Config<P>, c: Client<P>, input: Input<P>)
    requires c.Valid() && Possible(c, input)
    ensures After(config, c, input).Valid()
  {
    if input.Message? {
      ReceivedIsValid(config, c, input.bytes);
    } else if input.Coroutine? {
      CoroutineIsValid(config, c, input.step);
    } else if input.Release? {
      ReleaseIsValid(config, c);
    } else {
      BindingIsValid(config, c, input);
    }
  }

  /** Where a sequence of inputs leads, if each of them is possible. */
  ghost function ClientRun<P>(config: Config<P>, inputs: seq<Input<P>>): (c: Option<Client<P>>)
    ensures c.Some? ==> c.value.Valid()
  {
    if inputs == [] then Some(Client([], map[], [], [])) else
    var before, input := ClientRun(config, inputs[..|inputs| - 1]), inputs[|inputs| - 1];
    if before.None? || !Possible(before.value, input) then None else
    AfterIsValid(config, before.value, input);
    Some(After(config, before.value, input))
  }

  /** Nothing but a coroutine's step ever has to wait: messages, changes of the table,
      releases and registrations are possible after every run. */
  lemma AlwaysPossible<P>(config: Config<P>, inputs: seq<Input<P>>, input: Input<P>)
    requires ClientRun(config, inputs).Some? && (input.Coroutine? ==> input.step.Register?)
    ensures ClientRun(config, inputs + [input]) == Some(After(config, ClientRun(config, inputs).value, input))
  {
    assert (inputs + [input])[..|inputs|] == inputs;
  }

  /** The handler calls among some outcomes, and the waiters' share of them. */
  ghost function HandlerCalls<P>(outcomes: seq<Outcome<P>>): seq<Invocation<P>> {
    if outcomes == [] then [] else
    var last := outcomes[|outcomes| - 1];
    HandlerCalls(outcomes[..|outcomes| - 1]) + CallOf(last)
  }

  ghost function AwaiterShare<P>(outcomes: seq<Outcome<P>>): seq<(PacketType, Option<P>)> {
    if outcomes == [] then [] else
    var last := outcomes[|outcomes| - 1];
    AwaiterShare(outcomes[..|outcomes| - 1])
    + (if last.ToAwaiter? then [(last.packetType, last.payload)] else [])
  }

  ghost function Messages<P>(inputs: seq<Input<P>>): nat {
    if inputs == [] then 0 else
    Messages(inputs[..|inputs| - 1]) + (if inputs[|inputs| - 1].Message? then 1 else 0)
  }

  /** In every run, each message has exactly one outcome, and the outcomes account
      for every effect: the calls made to handlers, in order, and the messages
      taken by the pre-handler, in order. */
  ghost predicate Accounted<P>(c: Client<P>)
    requires c.Valid()
  {
    && c.invocations == HandlerCalls(c.outcomes)
    && TakenShare(c.Awaiters().taken) == AwaiterShare(c.outcomes)
  }

  lemma ReceivedKeepsAccounts<P>(config: Config<P>, c: Client<P>, message: seq<Byte>)
    requires c.Valid() && Accounted(c)
    ensures Received(config, c, message).Valid() && Accounted(Received(config, c, message))
  {
    var c' := Received(config, c, message);
    ReceivedIsValid(config, c, message);
    assert c'.outcomes[..|c.outcomes|] == c.outcomes;
  }

  lemma InputKeepsAccounts<P>(config: Config<P>, c: Client<P>, input: Input<P>)
    requires c.Valid() && Possible(c, input) && Accounted(c)
    ensures After(config, c, input).Valid() && Accounted(After(config, c, input))
    ensures |After(config, c, input).outcomes| == |c.outcomes| + (if input.Message? then 1 else 0)
  {
    if input.Message? {
      ReceivedKeepsAccounts(config, c, input.bytes);
    } else if input.Coroutine? {
      CoroutineIsValid(config, c, input.step);
    } else if input.Release? {
      ReleaseIsValid(config, c);
    } else {
      BindingIsValid(config, c, input);
    }
  }

  lemma {:induction false} EveryMessageAccounted<P>(config: Config<P>, inputs: seq<Input<P>>)
    requires ClientRun(config, inputs).Some?
    ensures var c := ClientRun(config, inputs).value;
            |c.outcomes| == Messages(inputs) && Accounted(c)
  {
    if inputs != [] {
      var prefix := inputs[..|inputs| - 1];
      EveryMessageAccounted(config, prefix);
      InputKeepsAccounts(config, ClientRun(config, prefix).value, inputs[|inputs| - 1]);
    }
  }

  // ---- The object ----

  class UdpPacketClient<P(!new)> {
    const config: Config<P>
    const preHandler: AwaiterTable?<P>     // set by the async client, which hooks in its awaiters
    var handlers: map<PacketType, Handler>
    var invocations: seq<Invocation<P>>    // the handler calls made so far
    ghost var view: Client<P>              // this client as the run model sees it

    ghost function Footprint(): set<object>
      reads preHandler
    {
      if preHandler == null then {} else preHandler.Footprint()
    }

    /** The awaiters are those of the view; without a pre-handler nobody ever waits. */
    ghost predicate AwaitersAgree(history: seq<Step<P>>)
      reads preHandler, Footprint()
    {
      if preHandler == null then
        Run(Free, history).Some? && Run(Free, history).value.network.Idle? && Run(Free, history).value.queues == map[]
      else
        && preHandler.Valid() && history == preHandler.history && this !in Footprint()
        && preHandler.serde == config.serde && preHandler.unpack == config.unpack
    }

    ghost predicate Valid()
      reads this, preHandler, Footprint()
    {
      && AwaitersAgree(view.history)
      && view.Valid()
      && view.handlers == handlers && view.invocations == invocations
    }

    constructor (config: Config<P>, preHandler: AwaiterTable?<P>)
      requires preHandler != null ==>
                 preHandler.Valid() && preHandler.serde == config.serde && preHandler.unpack == config.unpack
      ensures Valid() && this.preHandler == preHandler && this.config == config
      ensures view == Client(if preHandler == null then [] else preHandler.history, map[], [], [])
    {
      this.config, this.preHandler := config, preHandler;
      handlers, invocations := map[], [];
      view := Client(if preHandler == null then [] else preHandler.history, map[], [], []);
    }

    method BindPacketHandler(t: PacketType, handler: Handler) returns (bound: bool)
      requires Valid()
      modifies this`handlers, this`view
      ensures Valid() && view == After(config, old(view), Input<P>.Bind(t, handler))
      ensures bound <==> t !in old(handlers)
      ensures handlers == if bound then old(handlers)[t := handler] else old(handlers)
    {
      view := view.(handlers := Bound(view.handlers, t, handler));
      if t in handlers {
        return false;
      }
      handlers := handlers[t := handler];
      bound := true;
    }

    method UnbindPacketHandler(t: PacketType)
      requires Valid()
      modifies this`handlers, this`view
      ensures Valid() && view == After(config, old(view), Input<P>.Unbind(t))
      ensures handlers == old(handlers) - {t}
    {
      view := view.(handlers := view.handlers - {t});
      handlers := handlers - {t};
    }

    /** A coroutine registers for a type: a step of the run model. */
    method BeginWait(t: PacketType) returns (event: Event)
      requires Valid() && preHandler != null
      modifies this`view, Footprint()
      ensures Valid() && fresh(event) && fresh(Footprint() - old(Footprint()))
      ensures preHandler.events == old(preHandler.events) + [event]
      ensures view == Stepped(old(view), Step<P>.Register(t))
      ensures view.history == old(view).history + [Step<P>.Register(t)]
    {
      StepIsValid(view, Step<P>.Register(t));
      event := preHandler.BeginWait(t);
      view := Stepped(view, Step<P>.Register(t));
    }

    /** It suspends on its event. */
    method Suspend(event: Event, ghost w: nat)
      requires Valid() && preHandler != null && Enabled(view.Awaiters(), Step<P>.Await(w))
      requires event == preHandler.events[w]
      modifies this`view, Footprint()
      ensures Valid() && Footprint() == old(Footprint())
      ensures view == Stepped(old(view), Step<P>.Await(w))
      ensures view.history == old(view).history + [Step<P>.Await(w)]
    {
      StepIsValid(view, Step<P>.Await(w));
      preHandler.Suspend(event, w);
      view := Stepped(view, Step<P>.Await(w));
    }

    /** It goes on, and returns the conversion of what was last written for it. */
    method FinishWait<T>(t: PacketType, convert: P -> Option<T>, ghost w: nat) returns (result: Option<T>)
      requires Valid() && preHandler != null && Enabled(view.Awaiters(), Step<P>.Resume(w))
      requires view.Awaiters().waiters[w].packetType == t
      modifies this`view, Footprint()
      ensures Valid() && Footprint() <= old(Footprint())
      ensures view == Stepped(old(view), Step<P>.Resume(w))
      ensures view.history == old(view).history + [Step<P>.Resume(w)]
      ensures var written := LastWrite(old(view).Awaiters().writes, w);
              && (result.Some? <==> written.Some? && convert(written.value.payload).Some?)
              && (result.Some? ==> result == convert(written.value.payload))
    {
      StepIsValid(view, Step<P>.Resume(w));
      result := preHandler.FinishWait(t, convert, w);
      view := Stepped(view, Step<P>.Resume(w));
    }

    /** The call of the pre-handler callback, when one is registered. */
    method TryPreHandler(t: PacketType, message: seq<Byte>, ghost history: seq<Step<P>>, ghost awaiters: State<P>)
      returns (taken: bool)
      requires AwaitersAgree(history) && Parsed(message) == Some(Header(config.serde, t))
      requires Run(Free, history) == Some(awaiters)
      modifies Footprint()
      ensures AwaitersAgree(history + StepsFor(config, awaiters, message))
      ensures taken <==> Front(awaiters.queues, t).Some?
      ensures Footprint() <= old(Footprint())
    {
      if preHandler == null {
        RunAppend(Free, history, Step<P>.Lookup(t, config.unpack(message[HEADER_SIZE..])));
        return false;
      }
      taken := preHandler.OnDataReceivedPreHandler(message);
    }

    /** The rest of `handle_message`: find the handler, deserialize, call it. */
    method CallHandler(t: PacketType, bytes: seq<Byte>) returns (called: bool)
      modifies this`invocations
      ensures called <==> t in handlers && config.unpack(bytes).Some?
      ensures invocations == old(invocations)
                             + (if called then [Invocation(handlers[t], config.unpack(bytes).value)] else [])
    {
      if t !in handlers {
        return false;
      }
      var payload := config.unpack(bytes);
      if payload.None? {
        return false;
      }
      invocations := invocations + [Invocation(handlers[t], payload.value)];
      called := true;
    }

    /** `handle_message` once the header is known to be ours. */
    method RouteParsed(t: PacketType, message: seq<Byte>, ghost history: seq<Step<P>>, ghost awaiters: State<P>)
      returns (handled: bool)
      requires AwaitersAgree(history) && Parsed(message) == Some(Header(config.serde, t))
      requires Run(Free, history) == Some(awaiters) && this !in Footprint()
      modifies this`invocations, Footprint()
      ensures AwaitersAgree(history + StepsFor(config, awaiters, message))
      ensures Footprint() <= old(Footprint())
      ensures var outcome := Route(config, awaiters.queues, handlers, message);
              invocations == old(invocations) + CallOf(outcome) && (handled <==> !outcome.Dropped?)
    {
      ghost var outcome := Route(config, awaiters.queues, handlers, message);
      assert outcome.ToAwaiter? <==> Front(awaiters.queues, t).Some?;
      handled := TryPreHandler(t, message, history, awaiters);
      if !handled {
        handled := CallHandler(t, message[HEADER_SIZE..]);
      }
    }

    /** `handle_message`: its effects on the objects. */
    method RouteMessage(message: seq<Byte>, ghost history: seq<Step<P>>, ghost awaiters: State<P>)
      returns (handled: bool)
      requires AwaitersAgree(history) && Run(Free, history) == Some(awaiters) && this !in Footprint()
      modifies this`invocations, Footprint()
      ensures AwaitersAgree(history + StepsFor(config, awaiters, message))
      ensures Footprint() <= old(Footprint())
      ensures var outcome := Route(config, awaiters.queues, handlers, message);
              invocations == old(invocations) + CallOf(outcome) && (handled <==> !outcome.Dropped?)
    {
      var header := UnpackInternalPacketHeader(message);
      if header.None? || header.value.serde != config.serde {
        assert history + [] == history;
        return false;
      }
      handled := RouteParsed(header.value.packetType, message, history, awaiters);
    }

    /** `handle_message` is one message of the run model. It reports whether the
        message went anywhere. */
    method HandleMessage(message: seq<Byte>) returns (handled: bool)
      requires Valid()
      modifies this`invocations, this`view, Footprint()
      ensures Valid() && Footprint() <= old(Footprint())
      ensures view == Received(config, old(view), message)
      ensures var outcome := Route(config, old(view).Awaiters().queues, handlers, message);
              && view.outcomes == old(view).outcomes + [outcome]
              && invocations == old(invocations) + (if outcome.ToHandler? then [outcome.invocation] else [])
              && (handled <==> !outcome.Dropped?)
    {
      ReceivedIsValid(config, view, message);
      handled := RouteMessage(message, view.history, view.Awaiters());
      view := Received(config, view, message);
    }

    /** The messages handled so far are given back to the transport. */
    ghost method NoteRelease()
      requires Valid()
      modifies this`view, Footprint()
      ensures Valid() && Footprint() <= old(Footprint())
      ensures view == Released(old(view))
      ensures view == old(view).(history := old(view).history + [Step<P>.ReleaseBatch])
      ensures view.Awaiters() == old(view).Awaiters().(released := old(view).Awaiters().arrived)
      ensures preHandler != null ==> preHandler.history == old(preHandler.history) + [Step<P>.ReleaseBatch]
    {
      ReleasedIs(view);
      if preHandler != null {
        preHandler.NoteRelease();
      }
      view := Released(view);
    }
  }
}
