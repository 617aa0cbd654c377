/** First-in first-out matching of packets to waiters. The reference below reads
    off the labels of a run alone who should get what; the protocol, with its
    queues, pointers and events, is proved to do exactly that unless a lookup
    finds a front record that is already signalled. */
module AwaiterFifo {
  import opened Wrappers
  import opened NetworkTypes
  import opened AwaiterQueues
  import opened AwaiterProtocol
  import opened AwaiterSafety
  import opened AwaiterLedger

  /** For one packet type: who registered, and which packets were accepted.
      The k-th packet belongs to the k-th waiter. */
  datatype Matching<+P> = Matching(waiters: seq<nat>, packets: seq<Packet<P>>)

  ghost function Registrations<P>(steps: seq<Step<P>>): nat {
    Count(steps, (step: Step<P>) => step.Register?)
  }

  ghost function Arrivals<P>(steps: seq<Step<P>>): nat {
    Count(steps, (step: Step<P>) => step.Lookup?)
  }

  /** A waiter joins when it registers; an arriving packet is accepted when
      some waiter has none yet. */
  ghost function Reference<P>(steps: seq<Step<P>>, packetType: PacketType): Matching<P> {
    if steps == [] then Matching([], []) else
    var prefix, step := steps[..|steps| - 1], steps[|steps| - 1];
    var m := Reference(prefix, packetType);
    if step == Register(packetType) then
      m.(waiters := m.waiters + [Registrations(prefix)])
    else if step.Lookup? && step.packetType == packetType && |m.packets| < |m.waiters| then
      m.(packets := m.packets + [Packet(Arrivals(prefix), step.payload)])
    else m
  }

  /** What the pre-handler's history should be for one type. */
  ghost function Paired<P>(packetType: PacketType, m: Matching<P>): seq<Take<P>>
    requires |m.packets| <= |m.waiters|
  {
    seq(|m.packets|, k requires 0 <= k < |m.packets| => Take(packetType, m.waiters[k], m.packets[k]))
  }

  /** What the pre-handler's history is for one type. */
  ghost function OfType<P>(taken: seq<Take<P>>, packetType: PacketType): seq<Take<P>> {
    if taken == [] then [] else
    var last := taken[|taken| - 1];
    OfType(taken[..|taken| - 1], packetType) + (if last.packetType == packetType then [last] else [])
  }

  lemma {:induction false} OfTypeMembers<P>(taken: seq<Take<P>>, packetType: PacketType, take: Take<P>)
    ensures take in OfType(taken, packetType) <==> take in taken && take.packetType == packetType
  {
    if taken != [] {
      OfTypeMembers(taken[..|taken| - 1], packetType, take);
      assert taken == taken[..|taken| - 1] + [taken[|taken| - 1]];
    }
  }

  lemma OfTypeAppend<P>(taken: seq<Take<P>>, take: Take<P>, packetType: PacketType)
    ensures OfType(taken + [take], packetType)
         == OfType(taken, packetType) + (if take.packetType == packetType then [take] else [])
  {
    assert (taken + [take])[..|taken|] == taken;
  }

  /** The queue of a type holds the reference's waiters from some point on, all
      those before it have their packet, and packets went out in order. */
  ghost predicate Follows<P>(s: State<P>, packetType: PacketType, m: Matching<P>) {
    var queue := s.Queue(packetType);
    var popped := |m.waiters| - |queue|;
    && 0 <= popped <= |m.packets| <= |m.waiters|
    && (forall i :: 0 <= i < |queue| ==> queue[i].waiter == m.waiters[popped + i])
    && OfType(s.taken, packetType) == Paired(packetType, m)
  }

  /** The reference's waiters, in registration order and of its type. */
  ghost predicate Enrolled<P>(s: State<P>, packetType: PacketType, m: Matching<P>) {
    && (forall j, k :: 0 <= j < k < |m.waiters| ==> m.waiters[j] < m.waiters[k])
    && (forall k :: 0 <= k < |m.waiters| ==>
          m.waiters[k] < |s.waiters| && s.waiters[m.waiters[k]].packetType == packetType)
    && (forall w :: 0 <= w < |s.waiters| && s.waiters[w].packetType == packetType ==> w in m.waiters)
  }

  /** Each served waiter was served one message, and what was written for it is
      that message, unless the network thread has yet to write it. */
  ghost predicate TakeWritten<P>(s: State<P>, take: Take<P>) {
    if s.network.Writing? && s.network.awaiter == take.waiter
    then LastWrite(s.writes, take.waiter).None? && take.packet.Content() == Some(s.network.stored)
    else LastWrite(s.writes, take.waiter) == take.packet.Content()
  }

  ghost predicate ServedOnce<P>(s: State<P>) {
    && (forall take :: take in s.taken ==> TakeWritten(s, take))
    && (!s.network.Idle? ==>
          s.network.awaiter < |s.waiters| && !s.waiters[s.network.awaiter].signalled)
  }

  ghost predicate Counted<P>(s: State<P>, steps: seq<Step<P>>) {
    |s.waiters| == Registrations(steps) && s.arrived == Arrivals(steps)
  }

  lemma StepKeepsServedOnce<P>(s: State<P>, step: Step<P>)
    requires Sound(s) && Enabled(s, step) && !Stale(s, step) && ServedOnce(s)
    ensures ServedOnce(Apply(s, step))
  {
    var s' := Apply(s, step);
    match step
    case Lookup(packetType, payload) =>
      if Front(s.queues, packetType).Some? {
        FreshFrontUnserved(s, packetType);
        NoWriteNoData(s, Front(s.queues, packetType).value.waiter);
      }
    case WriteData =>
      forall take | take in s.taken
        ensures TakeWritten(s', take)
      {
        assert TakeWritten(s, take);
        LastWriteAppend(s.writes, s'.writes[|s.writes|], take.waiter);
      }
    case _ =>
      assert forall take :: TakeWritten(s, take) ==> TakeWritten(s', take);
  }

  lemma FreshFrontUnserved<P>(s: State<P>, packetType: PacketType)
    requires Sound(s) && s.network.Idle? && Front(s.queues, packetType).Some?
    requires var w := Front(s.queues, packetType).value.waiter; w < |s.waiters| ==> !s.waiters[w].signalled
    ensures var w := Front(s.queues, packetType).value.waiter; w < |s.waiters| && w !in Served(s.taken)
  {
    assert QueueSound(s, packetType);
    assert RecordSound(s, packetType, s.Queue(packetType)[0]);
    ServedIffSignalled(s, Front(s.queues, packetType).value.waiter);
  }

  /** A fresh lookup finds the first waiter of the reference without a packet. */
  lemma FreshFrontIsNext<P>(s: State<P>, t: PacketType, m: Matching<P>)
    requires Sound(s) && s.network.Idle? && Front(s.queues, t).Some? && Follows(s, t, m)
    requires var w := Front(s.queues, t).value.waiter; w < |s.waiters| ==> !s.waiters[w].signalled
    ensures |m.packets| == |m.waiters| - |s.Queue(t)| < |m.waiters|
    ensures Front(s.queues, t).value.waiter == m.waiters[|m.packets|]
  {
    FreshFrontUnserved(s, t);
    var popped := |m.waiters| - |s.Queue(t)|;
    if popped < |m.packets| {
      OfTypeMembers(s.taken, t, Paired(t, m)[popped]);
      assert false;
    }
  }

  lemma FreshTakeFollows<P>(s: State<P>, t: PacketType, payload: Option<P>, m: Matching<P>)
    requires Sound(s) && s.network.Idle? && Front(s.queues, t).Some? && Follows(s, t, m)
    requires var w := Front(s.queues, t).value.waiter; w < |s.waiters| ==> !s.waiters[w].signalled
    ensures Follows(AfterLookup(s, t, payload), t, m.(packets := m.packets + [Packet(s.arrived, payload)]))
    ensures |m.packets| < |m.waiters|
  {
    FreshFrontIsNext(s, t, m);
    var s', m' := AfterLookup(s, t, payload), m.(packets := m.packets + [Packet(s.arrived, payload)]);
    var take := s'.taken[|s.taken|];
    OfTypeAppend(s.taken, take, t);
    assert Paired(t, m') == Paired(t, m) + [take];
  }

  lemma OtherLookupFollows<P>(s: State<P>, t: PacketType, payload: Option<P>, other: PacketType, m: Matching<P>)
    requires s.network.Idle? && Follows(s, other, m)
    requires other == t ==> Front(s.queues, t).None?
    ensures Follows(AfterLookup(s, t, payload), other, m)
    ensures other == t ==> |m.packets| == |m.waiters|
  {
    var s' := AfterLookup(s, t, payload);
    if Front(s.queues, t).Some? {
      OfTypeAppend(s.taken, s'.taken[|s.taken|], other);
    }
  }

  lemma RegisterFollows<P>(s: State<P>, t: PacketType, m: Matching<P>)
    requires Follows(s, t, m)
    ensures Follows(AfterRegister(s, t), t, m.(waiters := m.waiters + [|s.waiters|]))
  {
    var m' := m.(waiters := m.waiters + [|s.waiters|]);
    assert AfterRegister(s, t).Queue(t) == s.Queue(t) + [Record(|s.waiters|, None)];
    assert Paired(t, m') == Paired(t, m);
  }

  lemma SameTypeFollows<P>(s: State<P>, s': State<P>, t: PacketType, m: Matching<P>)
    requires Follows(s, t, m) && s'.Queue(t) == s.Queue(t) && s'.taken == s.taken
    ensures Follows(s', t, m)
  {}

  lemma ResumeFollows<P>(s: State<P>, w: nat, m: Matching<P>)
    requires Sound(s) && Enabled(s, Resume(w)) && Enrolled(s, s.waiters[w].packetType, m)
    requires Follows(s, s.waiters[w].packetType, m)
    ensures Follows(AfterResume(s, w), s.waiters[w].packetType, m)
  {
    var t := s.waiters[w].packetType;
    ResumePopsOwn(s, w);
    SignalledHasPacket(s, w, m);
    assert AfterResume(s, w).Queue(t) == s.Queue(t)[1..];
  }

  /** The packet of the first unpopped waiter has been accepted once it is signalled. */
  lemma SignalledHasPacket<P>(s: State<P>, w: nat, m: Matching<P>)
    requires Sound(s) && w < |s.waiters| && s.waiters[w].signalled
    requires Enrolled(s, s.waiters[w].packetType, m) && Follows(s, s.waiters[w].packetType, m)
    ensures exists k :: 0 <= k < |m.packets| && m.waiters[k] == w
  {
    var t := s.waiters[w].packetType;
    assert WaiterSound(s, w);
    var take :| take in s.taken && take.waiter == w;
    assert TakeSound(s, take);
    OfTypeMembers(s.taken, t, take);
    var k :| 0 <= k < |m.packets| && Paired(t, m)[k] == take;
    assert m.waiters[k] == w;
  }

  lemma WriteFollows<P>(s: State<P>, t: PacketType, m: Matching<P>)
    requires s.network.Writing? && Follows(s, t, m)
    ensures Follows(AfterWrite(s), t, m)
  {}

  /** The reference after one more step, told from the state it is about. */
  lemma ReferenceStep<P>(s: State<P>, steps: seq<Step<P>>, step: Step<P>, t: PacketType)
    requires Counted(s, steps)
    ensures var m, m' := Reference(steps, t), Reference(steps + [step], t);
            m' == if step == Register(t) then m.(waiters := m.waiters + [|s.waiters|])
                  else if step.Lookup? && step.packetType == t && |m.packets| < |m.waiters| then
                    m.(packets := m.packets + [Packet(s.arrived, step.payload)])
                  else m
    ensures Enabled(s, step) ==> Counted(Apply(s, step), steps + [step])
  {
    assert (steps + [step])[..|steps|] == steps;
    CountAppend(steps, step, (step: Step<P>) => step.Register?);
    CountAppend(steps, step, (step: Step<P>) => step.Lookup?);
  }

  /** Steps the reference does not see. */
  lemma SilentStepFollows<P>(s: State<P>, step: Step<P>, t: PacketType, m: Matching<P>)
    requires Sound(s) && Enabled(s, step) && Follows(s, t, m) && Enrolled(s, t, m)
    requires !step.Register? && !step.Lookup?
    ensures Follows(Apply(s, step), t, m)
  {
    if step.WriteData? {
      WriteFollows(s, t, m);
    } else if step.Resume? && s.waiters[step.waiter].packetType == t {
      ResumeFollows(s, step.waiter, m);
    } else {
      if step.Resume? {
        RefineTotalMap(s.queues, s.waiters[step.waiter].packetType, t, Record(0, None));
      }
      SameTypeFollows(s, Apply(s, step), t, m);
    }
  }

  lemma StepFollows<P>(s: State<P>, steps: seq<Step<P>>, step: Step<P>, t: PacketType)
    requires Sound(s) && Enabled(s, step) && !Stale(s, step) && Counted(s, steps)
    requires Follows(s, t, Reference(steps, t)) && Enrolled(s, t, Reference(steps, t))
    ensures Follows(Apply(s, step), t, Reference(steps + [step], t))
  {
    var m := Reference(steps, t);
    ReferenceStep(s, steps, step, t);
    if step == Register(t) {
      RegisterFollows(s, t, m);
    } else if step.Register? {
      RefineTotalMap(s.queues, step.packetType, t, Record(|s.waiters|, None));
      SameTypeFollows(s, Apply(s, step), t, m);
    } else if step.Lookup? {
      if step.packetType == t && Front(s.queues, t).Some? {
        FreshTakeFollows(s, t, step.payload, m);
      } else {
        OtherLookupFollows(s, step.packetType, step.payload, t, m);
      }
    } else {
      SilentStepFollows(s, step, t, m);
    }
  }

  lemma StepKeepsEnrolled<P>(s: State<P>, steps: seq<Step<P>>, step: Step<P>, t: PacketType)
    requires Enabled(s, step) && Counted(s, steps) && Enrolled(s, t, Reference(steps, t))
    ensures Enrolled(Apply(s, step), t, Reference(steps + [step], t))
  {
    var s', m, m' := Apply(s, step), Reference(steps, t), Reference(steps + [step], t);
    ReferenceStep(s, steps, step, t);
    assert forall w :: 0 <= w < |s.waiters| ==> s'.waiters[w].packetType == s.waiters[w].packetType;
    forall w | 0 <= w < |s'.waiters| && s'.waiters[w].packetType == t
      ensures w in m'.waiters
    {
      if w == |s.waiters| {
        assert m'.waiters[|m.waiters|] == w;
      } else {
        assert w in m.waiters;
      }
    }
  }

  /** The reference enrols every waiter, whatever the schedule. */
  lemma {:induction false} RunsEnrol<P>(schedule: Schedule, steps: seq<Step<P>>, t: PacketType)
    requires Run(schedule, steps).Some?
    ensures Enrolled(Run(schedule, steps).value, t, Reference(steps, t))
    ensures Counted(Run(schedule, steps).value, steps)
  {
    if steps != [] {
      var prefix, step := steps[..|steps| - 1], steps[|steps| - 1];
      assert steps == prefix + [step];
      RunsEnrol(schedule, prefix, t);
      ReferenceStep(Run(schedule, prefix).value, prefix, step, t);
      StepKeepsEnrolled(Run(schedule, prefix).value, prefix, step, t);
    }
  }

  lemma {:induction false} FreshRunsFollow<P>(steps: seq<Step<P>>, t: PacketType)
    requires Run(Fresh, steps).Some?
    ensures var s := Run(Fresh, steps).value;
            Sound(s) && ServedOnce(s) && Follows(s, t, Reference(steps, t)) && Enrolled(s, t, Reference(steps, t))
  {
    RunsAreSound(Fresh, steps);
    RunsEnrol(Fresh, steps, t);
    if steps != [] {
      var prefix, step := steps[..|steps| - 1], steps[|steps| - 1];
      assert steps == prefix + [step];
      FreshRunsFollow(prefix, t);
      RunsEnrol(Fresh, prefix, t);
      StepKeepsServedOnce(Run(Fresh, prefix).value, step);
      StepFollows(Run(Fresh, prefix).value, prefix, step, t);
    }
  }

  /** With no stale lookup, the pointer taken under the lock still denotes the
      front record of its queue whenever it is written or signalled through,
      whatever registrations and resumes came in between. */
  lemma PointerStaysGood<P>(steps: seq<Step<P>>)
    requires Run(Fresh, steps).Some? && !Run(Fresh, steps).value.network.Idle?
    ensures var s := Run(Fresh, steps).value;
            && PointerGood(s)
            && Front(s.queues, s.network.packetType).Some?
            && Front(s.queues, s.network.packetType).value.waiter == s.network.awaiter
            && Enabled(s, if s.network.Writing? then WriteData else Signal)
  {
    var s := Run(Fresh, steps).value;
    FreshRunsFollow(steps, s.network.packetType);
    assert WaiterSound(s, s.network.awaiter);
    PointedIsQueued(s);
  }

  /** Where the packet of the first unpopped waiter is, once it is accepted: on its
      way into the front record, or in it. */
  ghost predicate FrontHolds<P>(s: State<P>, packetType: PacketType, packet: Packet<P>) {
    && Front(s.queues, packetType).Some?
    && var front := Front(s.queues, packetType).value;
       if s.network.Writing? && s.network.awaiter == front.waiter
       then front.data.None? && packet.Content() == Some(s.network.stored)
       else front.data == packet.Content()
  }

  /** At most one accepted packet of a type has not been popped, and it is with
      the front record. */
  lemma UnpoppedPacketAtFront<P>(s: State<P>, t: PacketType, m: Matching<P>)
    requires Sound(s) && ServedOnce(s) && Follows(s, t, m) && Enrolled(s, t, m)
    ensures var popped := |m.waiters| - |s.Queue(t)|;
            && |m.packets| <= popped + 1
            && (|m.packets| == popped + 1 ==> FrontHolds(s, t, m.packets[popped]))
  {
    var queue, popped := s.Queue(t), |m.waiters| - |s.Queue(t)|;
    assert QueueSound(s, t);
    if |m.packets| > popped + 1 {
      assert queue[1].waiter == m.waiters[popped + 1];
      OfTypeMembers(s.taken, t, Paired(t, m)[popped + 1]);
      assert false;
    }
    if |m.packets| == popped + 1 {
      var take := Paired(t, m)[popped];
      OfTypeMembers(s.taken, t, take);
      assert TakeWritten(s, take) && RecordSound(s, t, queue[0]);
    }
  }

  lemma WaiterOutcome<P>(s: State<P>, t: PacketType, m: Matching<P>, k: nat)
    requires Sound(s) && ServedOnce(s) && Follows(s, t, m) && Enrolled(s, t, m) && k < |m.waiters|
    ensures var phase := s.waiters[m.waiters[k]].phase;
            && (phase.Returned? <==> k < |m.waiters| - |s.Queue(t)|)
            && (phase.Returned? ==> k < |m.packets| && phase.result == m.packets[k].Content())
  {
    var queue, popped, w := s.Queue(t), |m.waiters| - |s.Queue(t)|, m.waiters[k];
    assert WaiterSound(s, w) && QueueSound(s, t);
    if k >= popped {
      assert RecordSound(s, t, queue[k - popped]);
    } else {
      assert forall i :: 0 <= i < |queue| ==> queue[i].waiter == m.waiters[popped + i];
      var take := Paired(t, m)[k];
      OfTypeMembers(s.taken, t, take);
      assert TakeWritten(s, take) && TakeSound(s, take);
    }
  }

  /** The matching theorem. With no stale lookup, for every type: the pre-handler
      takes the reference's packets for the reference's waiters, in order; exactly
      an initial stretch of the waiters has returned; the k-th waiter returned the
      k-th packet's payload, or nothing if that did not deserialize; and an accepted
      packet that has not been returned, of which there is at most one, is with the
      front record. */
  lemma KthWaiterGetsKthPacket<P>(steps: seq<Step<P>>, t: PacketType)
    requires Run(Fresh, steps).Some?
    ensures var s, m := Run(Fresh, steps).value, Reference(steps, t);
            var popped := |m.waiters| - |s.Queue(t)|;
            && 0 <= popped <= |m.packets| <= |m.waiters|
            && Enrolled(s, t, m)
            && OfType(s.taken, t) == Paired(t, m)
            && (forall k :: 0 <= k < |m.waiters| ==>
                  var phase := s.waiters[m.waiters[k]].phase;
                  && (phase.Returned? <==> k < popped)
                  && (phase.Returned? ==> phase.result == m.packets[k].Content()))
            && |m.packets| <= popped + 1
            && (|m.packets| == popped + 1 ==> FrontHolds(s, t, m.packets[popped]))
  {
    var s, m := Run(Fresh, steps).value, Reference(steps, t);
    FreshRunsFollow(steps, t);
    var popped := |m.waiters| - |s.Queue(t)|;
    forall k | 0 <= k < |m.waiters|
      ensures var phase := s.waiters[m.waiters[k]].phase;
              && (phase.Returned? <==> k < popped)
              && (phase.Returned? ==> k < |m.packets| && phase.result == m.packets[k].Content())
    {
      WaiterOutcome(s, t, m, k);
    }
    UnpoppedPacketAtFront(s, t, m);
  }

  /** Nothing is lost: with no stale lookup, whenever the network thread is between
      messages and no signalled waiter has yet to pop, every accepted packet has been
      returned to its waiter. */
  lemma EveryAcceptedPacketReturned<P>(steps: seq<Step<P>>, t: PacketType, k: nat)
    requires Run(Fresh, steps).Some? && Run(Fresh, steps).value.network.Idle?
    requires !Pending(Run(Fresh, steps).value) && k < |Reference(steps, t).packets|
    ensures var s, m := Run(Fresh, steps).value, Reference(steps, t);
            && k < |m.waiters| && m.waiters[k] < |s.waiters|
            && s.waiters[m.waiters[k]].phase == Phase.Returned(m.packets[k].Content())
  {
    var s, m := Run(Fresh, steps).value, Reference(steps, t);
    FreshRunsFollow(steps, t);
    KthWaiterGetsKthPacket(steps, t);
    var popped := |m.waiters| - |s.Queue(t)|;
    if |m.packets| > popped {
      WaiterOutcome(s, t, m, popped);
      OfTypeMembers(s.taken, t, Paired(t, m)[popped]);
      ServedIffSignalled(s, m.waiters[popped]);
      assert false;
    }
  }

  /** Nor is a payload ever replaced by a later one. */
  lemma {:induction false} FreshSupersedesNothing<P>(steps: seq<Step<P>>, t: PacketType)
    requires Run(Fresh, steps).Some?
    ensures Superseded(Run(Fresh, steps).value.writes, t) == 0
  {
    if steps != [] {
      var prefix, step := steps[..|steps| - 1], steps[|steps| - 1];
      var s := Run(Fresh, prefix).value;
      FreshSupersedesNothing(prefix, t);
      FreshRunsFollow(prefix, t);
      if step.WriteData? {
        var take :| take in s.taken && take.waiter == s.network.awaiter;
        assert TakeWritten(s, take);
        assert AfterWrite(s).writes[..|s.writes|] == s.writes;
      }
    }
  }
}
