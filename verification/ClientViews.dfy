/** The life of payload views in the client as a whole, when `event.set()` resumes
    a suspended coroutine before it returns: what handlers and coroutines read
    belongs to the message being handled, and polling keeps it so. */
module ClientViews {
  import opened Wrappers
  import opened NetworkTypes
  import opened PacketHeader
  import opened AwaiterQueues
  import opened AwaiterProtocol
  import opened AwaiterSafety
  import opened AsyncPacketClient
  import opened PacketClient

  /** Between messages of a prompt run: nobody is signalled and still to pop, and
      whoever is registered has suspended. */
  ghost predicate Settled<P>(history: seq<Step<P>>) {
    && Run(Prompt, history).Some?
    && var s := Run(Prompt, history).value;
       && s.network.Idle? && !Pending(s)
       && forall w :: 0 <= w < |s.waiters| ==> !s.waiters[w].phase.Registered?
  }

  /** The prompt schedule restrains lookups and releases only. */
  lemma {:induction false} PromptFollows<P>(history: seq<Step<P>>, steps: seq<Step<P>>)
    requires Run(Prompt, history).Some? && Run(Free, history + steps).Some?
    requires forall k :: 0 <= k < |steps| ==> !steps[k].Lookup? && !steps[k].ReleaseBatch?
    ensures Run(Prompt, history + steps) == Run(Free, history + steps)
  {
    if steps == [] {
      PromptIsFresh(history);
      assert history + steps == history;
    } else {
      var less, last := steps[..|steps| - 1], steps[|steps| - 1];
      assert history + steps == (history + less) + [last];
      RunAppend(Free, history + less, last);
      RunAppend(Prompt, history + less, last);
      PromptFollows(history, less);
    }
  }

  lemma SettledFront<P>(history: seq<Step<P>>, t: PacketType)
    requires Settled(history)
    ensures Run(Free, history) == Run(Prompt, history)
    ensures var s := Run(Prompt, history).value;
            && Admits(Prompt, s, Step<P>.Lookup(t, None))
            && (Front(s.queues, t).Some? ==> ResumesFront(s, t))
  {
    PromptIsFresh(history);
    RunsAreSound(Prompt, history);
    var s := Run(Prompt, history).value;
    if Front(s.queues, t).Some? {
      assert QueueSound(s, t);
      assert RecordSound(s, t, s.Queue(t)[0]);
    }
  }

  lemma DeliveryKeepsSettled<P>(history: seq<Step<P>>, t: PacketType, payload: Option<P>)
    requires Settled(history)
    ensures Run(Free, history).Some? && Run(Free, history).value.network.Idle?
    ensures Settled(history + DeliverySteps(Run(Free, history).value, t, payload))
  {
    SettledFront(history, t);
    var s, s' := Run(Free, history).value, DeliveryEnds(history, t, payload);
    var steps := DeliverySteps(s, t, payload);
    RunAppend(Prompt, history, steps[0]);
    RunAppend(Free, history, steps[0]);
    assert (history + [steps[0]]) + steps[1..] == history + steps;
    PromptFollows(history + [steps[0]], steps[1..]);
  }

  /** Registering and suspending without a message in between, and releasing. */
  lemma WaitKeepsSettled<P>(history: seq<Step<P>>, t: PacketType)
    requires Settled(history)
    ensures Settled(history + [Step<P>.Register(t)] + [Step<P>.Await(|Run(Prompt, history).value.waiters|)])
  {
    var w := |Run(Prompt, history).value.waiters|;
    RunAppend(Prompt, history, Step<P>.Register(t));
    RunAppend(Prompt, history + [Step<P>.Register(t)], Step<P>.Await(w));
  }

  lemma ReleaseKeepsSettled<P>(history: seq<Step<P>>)
    requires Settled(history)
    ensures Settled(history + [Step<P>.ReleaseBatch])
  {
    RunAppend(Prompt, history, Step<P>.ReleaseBatch);
  }

  ghost predicate PromptClient<P>(c: Client<P>) {
    c.Valid() && Settled(c.history)
  }

  lemma ReceivedKeepsPrompt<P>(config: Config<P>, c: Client<P>, message: seq<Byte>)
    requires PromptClient(c)
    ensures PromptClient(Received(config, c, message))
  {
    ReceivedIsValid(config, c, message);
    var header := Parsed(message);
    if header.None? || header.value.serde != config.serde {
      assert c.history + [] == c.history;
    } else {
      DeliveryKeepsSettled(c.history, header.value.packetType, config.unpack(message[HEADER_SIZE..]));
    }
  }

  lemma ReleasedKeepsPrompt<P>(c: Client<P>)
    requires PromptClient(c)
    ensures PromptClient(Released(c))
  {
    RunAppend(Free, c.history, Step<P>.ReleaseBatch);
    ReleaseKeepsSettled(c.history);
  }

  lemma WaitKeepsPrompt<P>(c: Client<P>, t: PacketType)
    requires c.Valid()
    ensures var c1, w := Stepped(c, Step<P>.Register(t)), |c.Awaiters().waiters|;
            && c1.Valid() && Enabled(c1.Awaiters(), Step<P>.Await(w))
            && (PromptClient(c) ==> PromptClient(Stepped(c1, Step<P>.Await(w))))
  {
    var c1, w := Stepped(c, Step<P>.Register(t)), |c.Awaiters().waiters|;
    StepIsValid(c, Step<P>.Register(t));
    StepIsValid(c1, Step<P>.Await(w));
    if PromptClient(c) {
      PromptIsFresh(c.history);
      WaitKeepsSettled(c.history, t);
    }
  }

  /** A client whose awaiters have no history is prompt. */
  lemma NewClientIsPrompt<P>(c: Client<P>)
    requires c.history == []
    ensures PromptClient(c)
  {}

  /** `async_wait_for_packet` up to its suspension, with no message in between: the
      coroutine waits at the end of its type's queue. */
  method StartWaiting<P(!new)>(client: UdpPacketClient<P>, t: PacketType) returns (event: Event, ghost w: nat)
    requires client.Valid() && client.preHandler != null
    modifies client`view, client.Footprint()
    ensures client.Valid() && fresh(client.Footprint() - old(client.Footprint()))
    ensures w == |old(client.view).Awaiters().waiters|
    ensures client.view == Stepped(Stepped(old(client.view), Step<P>.Register(t)), Step<P>.Await(w))
    ensures PromptClient(old(client.view)) ==> PromptClient(client.view)
  {
    w := |client.view.Awaiters().waiters|;
    WaitKeepsPrompt(client.view, t);
    event := client.BeginWait(t);
    client.Suspend(event, w);
  }

  // ---- What is read while a message is handled ----

  /** The bytes behind the header, which payloads may be views of. */
  function Body(message: seq<Byte>): seq<Byte> {
    if |message| < HEADER_SIZE then [] else message[HEADER_SIZE..]
  }

  /** The first message of a type answers the first of those who wait for it: that
      coroutine returns with the message's payload, or with nothing if that does not
      deserialize, before the message has been handled. */
  lemma FirstMessageAnswers<P>(config: Config<P>, c: Client<P>, message: seq<Byte>, t: PacketType)
    requires PromptClient(c) && Carries(config, message, t) && QueueOf(c.Awaiters().queues, t) != []
    ensures Received(config, c, message).Valid()
    ensures var before, after := c.Awaiters(), Received(config, c, message).Awaiters();
            var w := QueueOf(before.queues, t)[0].waiter;
            && w < |before.waiters| == |after.waiters| && before.waiters[w].phase.Awaiting?
            && after.waiters[w]
               == Waiter(t, Returned(Packet(before.arrived, config.unpack(Body(message))).Content()), true)
  {
    ReceivedIsValid(config, c, message);
    ParsedIffWritten(message, Header(config.serde, t));
    SettledFront(c.history, t);
    var s' := DeliveryEnds(c.history, t, config.unpack(message[HEADER_SIZE..]));
    assert Received(config, c, message).Awaiters() == s';
  }

  /** A message being handled hands out its own payload and no other: to the handler
      it calls, if any, and to the coroutine it resumes, if any. */
  lemma HandlesOwnMessage<P>(config: Config<P>, c: Client<P>, message: seq<Byte>, w: nat)
    requires PromptClient(c) && w < |c.Awaiters().waiters|
    ensures var c' := Received(config, c, message);
            && c'.Valid() && |c'.Awaiters().waiters| == |c.Awaiters().waiters|
            && c.invocations <= c'.invocations
            && (forall k :: |c.invocations| <= k < |c'.invocations| ==>
                  config.unpack(Body(message)) == Some(c'.invocations[k].payload))
            && var before, after := c.Awaiters().waiters[w].phase, c'.Awaiters().waiters[w].phase;
               (after == before
                || after == Phase.Returned(Packet(c.Awaiters().arrived, config.unpack(Body(message))).Content()))
  {
    ReceivedIsValid(config, c, message);
    var header := Parsed(message);
    if header.None? || header.value.serde != config.serde {
      assert c.history + [] == c.history;
    } else {
      SettledFront(c.history, header.value.packetType);
      var s' := DeliveryEnds(c.history, header.value.packetType, config.unpack(message[HEADER_SIZE..]));
    }
  }

  // ---- Releases are unobserved ----

  /** Two clients that differ only in what they have given back to the transport. */
  ghost predicate Alike<P>(a: Client<P>, b: Client<P>) {
    && a.Valid() && b.Valid()
    && a.handlers == b.handlers && a.invocations == b.invocations && a.outcomes == b.outcomes
    && a.Awaiters() == b.Awaiters().(released := a.Awaiters().released)
  }

  lemma SignalledAlike<P>(s: State<P>, released: nat, t: PacketType, payload: Option<P>)
    requires Sound(s) && s.network.Idle? && Sound(s.(released := released))
    ensures Signalled(s.(released := released), t, payload) == Signalled(s, t, payload).(released := released)
  {
    var s' := s.(released := released);
    assert s'.Queue(t) == s.Queue(t);
    if Front(s.queues, t).Some? && payload.Some? {
      assert AfterLookup(s', t, payload).Queue(t) == AfterLookup(s, t, payload).Queue(t);
    }
  }

  lemma DeliveredAlike<P>(a: Client<P>, b: Client<P>, t: PacketType, payload: Option<P>)
    requires Alike(a, b)
    ensures DeliverySteps(a.Awaiters(), t, payload) == DeliverySteps(b.Awaiters(), t, payload)
    ensures DeliveryEnds(a.history, t, payload)
         == DeliveryEnds(b.history, t, payload).(released := a.Awaiters().released)
  {
    RunsAreSound(Free, a.history);
    RunsAreSound(Free, b.history);
    SignalledAlike(b.Awaiters(), a.Awaiters().released, t, payload);
  }

  lemma ReceivedAlike<P>(config: Config<P>, a: Client<P>, b: Client<P>, message: seq<Byte>)
    requires Alike(a, b)
    ensures Alike(Received(config, a, message), Received(config, b, message))
  {
    ReceivedIsValid(config, a, message);
    ReceivedIsValid(config, b, message);
    var header := Parsed(message);
    if header.None? || header.value.serde != config.serde {
      assert a.history + [] == a.history && b.history + [] == b.history;
    } else {
      DeliveredAlike(a, b, header.value.packetType, config.unpack(message[HEADER_SIZE..]));
    }
  }

  lemma ReleasedAlike<P>(a: Client<P>, b: Client<P>)
    requires Alike(a, b)
    ensures Alike(Released(a), b)
  {
    RunAppend(Free, a.history, Step<P>.ReleaseBatch);
  }
}
