/** What every interleaving of the awaiter protocol keeps, however late the
    signalled coroutines pop. */
module AwaiterSafety {
  import opened Wrappers
  import opened NetworkTypes
  import opened AwaiterQueues
  import opened AwaiterProtocol

  /** One queued record: its waiter has its type, has not returned, and finds
      in it the last payload written for it. */
  ghost predicate RecordSound<P>(s: State<P>, packetType: PacketType, record: Record<P>) {
    && record.waiter < |s.waiters|
    && s.waiters[record.waiter].packetType == packetType
    && !s.waiters[record.waiter].phase.Returned?
    && record.data == LastWrite(s.writes, record.waiter)
  }

  ghost predicate InOrder<P>(queue: seq<Record<P>>) {
    forall i, j :: 0 <= i < j < |queue| ==> queue[i].waiter < queue[j].waiter
  }

  /** One queue: records in registration order, of which only the front one can
      have been served. */
  ghost predicate QueueSound<P>(s: State<P>, packetType: PacketType) {
    var queue := s.Queue(packetType);
    && (forall i :: 0 <= i < |queue| ==> RecordSound(s, packetType, queue[i]))
    && InOrder(queue)
    && (forall i :: 0 < i < |queue| ==> queue[i].waiter !in Served(s.taken))
  }

  /** One waiter: it is queued until it returns, only served waiters are
      signalled, and it returns the last payload written for it. */
  ghost predicate WaiterSound<P>(s: State<P>, w: nat)
    requires w < |s.waiters|
  {
    && (!s.waiters[w].phase.Returned? ==> Denotes(s.Queue(s.waiters[w].packetType), w))
    && (s.waiters[w].signalled ==> w in Served(s.taken))
    && (s.waiters[w].phase.Returned? ==>
          s.waiters[w].signalled && s.waiters[w].phase.result == LastWrite(s.writes, w))
  }

  /** One served waiter: its message has its type, and it is signalled unless the
      network thread is still at it. */
  ghost predicate TakeSound<P>(s: State<P>, take: Take<P>) {
    && take.waiter < |s.waiters|
    && s.waiters[take.waiter].packetType == take.packetType
    && (s.waiters[take.waiter].signalled || (!s.network.Idle? && s.network.awaiter == take.waiter))
  }

  ghost predicate HistorySound<P>(s: State<P>) {
    && (forall k :: 0 <= k < |s.taken| ==> TakeSound(s, s.taken[k]))
    && (forall k :: 0 <= k < |s.writes| ==> s.writes[k].waiter in Served(s.taken))
    && (!s.network.Idle? ==>
          && s.network.awaiter in Served(s.taken)
          && s.network.awaiter < |s.waiters|
          && s.waiters[s.network.awaiter].packetType == s.network.packetType)
  }

  ghost predicate Sound<P>(s: State<P>) {
    && (forall packetType: PacketType :: QueueSound(s, packetType))
    && (forall w :: 0 <= w < |s.waiters| ==> WaiterSound(s, w))
    && HistorySound(s)
  }

  lemma NoWriteNoData<P>(s: State<P>, w: nat)
    requires HistorySound(s) && w !in Served(s.taken)
    ensures LastWrite(s.writes, w).None?
  {
    NeverWritten(s.writes, w);
  }

  lemma NeverWritten<P>(writes: seq<Write<P>>, w: nat)
    requires forall k :: 0 <= k < |writes| ==> writes[k].waiter != w
    ensures LastWrite(writes, w).None?
  {}

  lemma RegisterKeepsOwnQueue<P>(s: State<P>, t: PacketType)
    requires QueueSound(s, t) && HistorySound(s)
    ensures QueueSound(AfterRegister(s, t), t)
  {
    var s', w := AfterRegister(s, t), |s.waiters|;
    assert w !in Served(s.taken);
    NoWriteNoData(s, w);
    var queue := s.Queue(t);
    assert s'.Queue(t) == queue + [Record(w, None)];
    assert forall record :: RecordSound(s, t, record) ==> RecordSound(s', t, record) && record.waiter < w;
    assert RecordSound(s', t, Record(w, None));
  }

  lemma RegisterKeepsOtherQueue<P>(s: State<P>, packetType: PacketType, t: PacketType)
    requires QueueSound(s, t) && t != packetType
    ensures QueueSound(AfterRegister(s, packetType), t)
  {
    var s' := AfterRegister(s, packetType);
    RefineTotalMap(s.queues, packetType, t, Record(|s.waiters|, None));
    assert s'.Queue(t) == s.Queue(t);
    assert forall record :: RecordSound(s, t, record) ==> RecordSound(s', t, record);
  }

  lemma RegisterKeepsSound<P>(s: State<P>, packetType: PacketType)
    requires Sound(s)
    ensures Sound(AfterRegister(s, packetType))
  {
    var s' := AfterRegister(s, packetType);
    forall other: PacketType
      ensures QueueSound(s', other)
    {
      if other == packetType {
        RegisterKeepsOwnQueue(s, packetType);
      } else {
        RegisterKeepsOtherQueue(s, packetType, other);
      }
    }
    forall v | 0 <= v < |s'.waiters|
      ensures WaiterSound(s', v)
    {
      RefineTotalMap(s.queues, packetType, s'.waiters[v].packetType, Record(|s.waiters|, None));
      if v < |s.waiters| {
        assert WaiterSound(s, v);
        StillDenotes(s.Queue(s.waiters[v].packetType), s'.Queue(s.waiters[v].packetType), v);
      } else {
        assert s'.Queue(packetType)[|s.Queue(packetType)|].waiter == v;
      }
    }
    assert forall take :: TakeSound(s, take) ==> TakeSound(s', take);
  }

  /** A pointer survives everything but popping its own record. */
  lemma StillDenotes<P>(queue: seq<Record<P>>, queue': seq<Record<P>>, awaiter: nat)
    requires |queue| <= |queue'| && forall i :: 0 <= i < |queue| ==> queue'[i].waiter == queue[i].waiter
    ensures Denotes(queue, awaiter) ==> Denotes(queue', awaiter)
  {
    if i :| 0 <= i < |queue| && queue[i].waiter == awaiter {
      assert queue'[i].waiter == awaiter;
    }
  }

  lemma AwaitKeepsSound<P>(s: State<P>, w: nat)
    requires Sound(s) && Enabled(s, Await(w))
    ensures Sound(Apply(s, Await(w)))
  {
    var s' := Apply(s, Await(w));
    assert forall t, record :: RecordSound(s, t, record) ==> RecordSound(s', t, record);
    assert forall t: PacketType :: QueueSound(s, t) ==> QueueSound(s', t);
    assert forall v :: 0 <= v < |s.waiters| && WaiterSound(s, v) ==> WaiterSound(s', v);
    assert forall take :: TakeSound(s, take) ==> TakeSound(s', take);
  }

  lemma LookupKeepsSound<P>(s: State<P>, packetType: PacketType, payload: Option<P>)
    requires Sound(s) && s.network.Idle?
    ensures Sound(AfterLookup(s, packetType, payload))
  {
    var s' := AfterLookup(s, packetType, payload);
    if Front(s.queues, packetType).Some? {
      var a := Front(s.queues, packetType).value.waiter;
      assert QueueSound(s, packetType);
      assert RecordSound(s, packetType, s.Queue(packetType)[0]);
      var take := s'.taken[|s.taken|];
      ServedAppend(s.taken, take);
      forall t: PacketType
        ensures QueueSound(s', t)
      {
        assert QueueSound(s, t);
        assert forall record :: RecordSound(s, t, record) ==> RecordSound(s', t, record);
      }
      assert forall v :: 0 <= v < |s.waiters| && WaiterSound(s, v) ==> WaiterSound(s', v);
      assert forall t :: TakeSound(s, t) ==> TakeSound(s', t);
      assert TakeSound(s', take);
    } else {
      assert forall t: PacketType :: QueueSound(s, t) ==> QueueSound(s', t);
      assert forall v :: 0 <= v < |s.waiters| && WaiterSound(s, v) ==> WaiterSound(s', v);
      assert forall t :: TakeSound(s, t) ==> TakeSound(s', t);
    }
  }

  lemma WriteKeepsQueue<P>(s: State<P>, t: PacketType)
    requires QueueSound(s, t) && s.network.Writing?
    requires t != s.network.packetType ==>
               forall record :: RecordSound(s, t, record) ==> record.waiter != s.network.awaiter
    ensures QueueSound(AfterWrite(s), t)
  {
    var s' := AfterWrite(s);
    var queue, queue' := s.Queue(t), s'.Queue(t);
    assert |queue'| == |queue| && forall i :: 0 <= i < |queue| ==> queue'[i].waiter == queue[i].waiter;
    forall i | 0 <= i < |queue'|
      ensures RecordSound(s', t, queue'[i])
    {
      assert RecordSound(s, t, queue[i]);
      LastWriteAppend(s.writes, s'.writes[|s.writes|], queue[i].waiter);
    }
  }

  lemma WriteKeepsSound<P>(s: State<P>)
    requires Sound(s) && Enabled(s, WriteData)
    ensures Sound(AfterWrite(s))
  {
    var s' := AfterWrite(s);
    var a := s.network.awaiter;
    forall t: PacketType
      ensures QueueSound(s', t)
    {
      assert QueueSound(s, t);
      WriteKeepsQueue(s, t);
    }
    PointedIsQueued(s);
    forall v | 0 <= v < |s.waiters|
      ensures WaiterSound(s', v)
    {
      assert WaiterSound(s, v);
      StillDenotes(s.Queue(s.waiters[v].packetType), s'.Queue(s.waiters[v].packetType), v);
      LastWriteAppend(s.writes, s'.writes[|s.writes|], v);
    }
    assert forall take :: TakeSound(s, take) ==> TakeSound(s', take);
  }

  /** A pointer that still denotes a record denotes the front record of its
      queue, and that record's waiter has not returned. */
  lemma PointedIsQueued<P>(s: State<P>)
    requires Sound(s) && PointerGood(s) && !s.network.Idle?
    ensures !s.waiters[s.network.awaiter].phase.Returned?
    ensures |s.Queue(s.network.packetType)| > 0
    ensures s.Queue(s.network.packetType)[0].waiter == s.network.awaiter
  {
    var queue := s.Queue(s.network.packetType);
    var i :| 0 <= i < |queue| && queue[i].waiter == s.network.awaiter;
    assert QueueSound(s, s.network.packetType);
    assert RecordSound(s, s.network.packetType, queue[i]);
  }

  lemma SignalKeepsSound<P>(s: State<P>)
    requires Sound(s) && Enabled(s, Signal)
    ensures Sound(AfterSignal(s))
  {
    var s' := AfterSignal(s);
    assert forall t, record :: RecordSound(s, t, record) ==> RecordSound(s', t, record);
    assert forall t: PacketType :: QueueSound(s, t) ==> QueueSound(s', t);
    assert forall v :: 0 <= v < |s.waiters| && WaiterSound(s, v) ==> WaiterSound(s', v);
    assert forall take :: TakeSound(s, take) ==> TakeSound(s', take);
  }

  /** A signalled waiter that has not returned owns the front record of its
      type: resuming pops its own record, never another waiter's. */
  lemma ResumePopsOwn<P>(s: State<P>, w: nat)
    requires Sound(s) && w < |s.waiters| && s.waiters[w].signalled && !s.waiters[w].phase.Returned?
    ensures Front(s.queues, s.waiters[w].packetType).Some?
    ensures Front(s.queues, s.waiters[w].packetType).value.waiter == w
    ensures Front(s.queues, s.waiters[w].packetType).value.data == LastWrite(s.writes, w)
  {
    assert WaiterSound(s, w);
    var queue := s.Queue(s.waiters[w].packetType);
    var i :| 0 <= i < |queue| && queue[i].waiter == w;
    assert QueueSound(s, s.waiters[w].packetType);
    assert RecordSound(s, s.waiters[w].packetType, queue[i]);
  }

  lemma ResumeKeepsOtherQueue<P>(s: State<P>, w: nat, t: PacketType)
    requires w < |s.waiters| && QueueSound(s, t) && t != s.waiters[w].packetType
    ensures QueueSound(AfterResume(s, w), t)
  {
    var s' := AfterResume(s, w);
    RefineTotalMap(s.queues, s.waiters[w].packetType, t, Record(0, None));
    assert s'.Queue(t) == s.Queue(t);
    assert forall record :: RecordSound(s, t, record) ==> RecordSound(s', t, record);
  }

  lemma ResumeKeepsOwnQueue<P>(s: State<P>, w: nat)
    requires w < |s.waiters| && QueueSound(s, s.waiters[w].packetType)
    requires s.Queue(s.waiters[w].packetType) != [] && s.Queue(s.waiters[w].packetType)[0].waiter == w
    ensures QueueSound(AfterResume(s, w), s.waiters[w].packetType)
  {
    var s', t := AfterResume(s, w), s.waiters[w].packetType;
    var queue, queue' := s.Queue(t), s'.Queue(t);
    assert queue' == queue[1..];
    assert forall record :: RecordSound(s, t, record) && record.waiter != w ==> RecordSound(s', t, record);
  }

  lemma ResumeKeepsSound<P>(s: State<P>, w: nat)
    requires Sound(s) && Enabled(s, Resume(w))
    ensures Sound(AfterResume(s, w))
  {
    var s' := AfterResume(s, w);
    ResumePopsOwn(s, w);
    forall t: PacketType
      ensures QueueSound(s', t)
    {
      if t == s.waiters[w].packetType {
        ResumeKeepsOwnQueue(s, w);
      } else {
        ResumeKeepsOtherQueue(s, w, t);
      }
    }
    forall v | 0 <= v < |s.waiters|
      ensures WaiterSound(s', v)
    {
      assert WaiterSound(s, v);
      if v != w && !s.waiters[v].phase.Returned? {
        var queue := s.Queue(s.waiters[v].packetType);
        var i :| 0 <= i < |queue| && queue[i].waiter == v;
        if s.waiters[v].packetType == s.waiters[w].packetType {
          assert s'.Queue(s.waiters[v].packetType)[i - 1].waiter == v;
        } else {
          assert s'.Queue(s.waiters[v].packetType)[i].waiter == v;
        }
      }
    }
    assert forall take :: TakeSound(s, take) ==> TakeSound(s', take);
  }

  lemma StepKeepsSound<P>(s: State<P>, step: Step<P>)
    requires Sound(s) && Enabled(s, step)
    ensures Sound(Apply(s, step))
  {
    match step
    case Register(t) => RegisterKeepsSound(s, t);
    case Await(w) => AwaitKeepsSound(s, w);
    case Lookup(t, payload) => LookupKeepsSound(s, t, payload);
    case WriteData => WriteKeepsSound(s);
    case Signal => SignalKeepsSound(s);
    case Resume(w) => ResumeKeepsSound(s, w);
    case ReleaseBatch =>
      assert forall t, record :: RecordSound(s, t, record) ==> RecordSound(Apply(s, step), t, record);
      assert forall t: PacketType :: QueueSound(s, t) ==> QueueSound(Apply(s, step), t);
      assert forall v :: 0 <= v < |s.waiters| && WaiterSound(s, v) ==> WaiterSound(Apply(s, step), v);
      assert forall take :: TakeSound(s, take) ==> TakeSound(Apply(s, step), take);
  }

  /** Every state of every run, under any schedule. */
  lemma {:induction false} RunsAreSound<P>(schedule: Schedule, steps: seq<Step<P>>)
    requires Run(schedule, steps).Some?
    ensures Sound(Run(schedule, steps).value)
  {
    if steps != [] {
      var prefix := steps[..|steps| - 1];
      RunsAreSound(schedule, prefix);
      StepKeepsSound(Run(schedule, prefix).value, steps[|steps| - 1]);
    }
  }

  /** In every state of every run, at most the front record of a queue belongs
      to a signalled waiter. */
  lemma OnlyFrontSignalled<P>(schedule: Schedule, steps: seq<Step<P>>, t: PacketType, i: nat)
    requires Run(schedule, steps).Some? && i < |Run(schedule, steps).value.Queue(t)|
    ensures var s := Run(schedule, steps).value;
            var w := s.Queue(t)[i].waiter;
            w < |s.waiters| && (s.waiters[w].signalled ==> i == 0)
  {
    RunsAreSound(schedule, steps);
    var s := Run(schedule, steps).value;
    assert QueueSound(s, t);
    assert RecordSound(s, t, s.Queue(t)[i]);
    assert WaiterSound(s, s.Queue(t)[i].waiter);
  }

  /** However late a waiter resumes, it pops its own record, and returns the
      last payload written for it before that. */
  lemma ResumingReturnsLastWrite<P>(schedule: Schedule, steps: seq<Step<P>>, w: nat)
    requires Run(schedule, steps).Some? && Enabled(Run(schedule, steps).value, Resume(w))
    ensures var s := Run(schedule, steps).value;
            && Front(s.queues, s.waiters[w].packetType).Some?
            && Front(s.queues, s.waiters[w].packetType).value.waiter == w
            && AfterResume(s, w).waiters[w].phase == Phase.Returned(LastWrite(s.writes, w))
  {
    RunsAreSound(schedule, steps);
    ResumePopsOwn(Run(schedule, steps).value, w);
  }

  /** Under every interleaving, the network thread's pointer goes bad exactly
      when the waiter it was taken for has returned in the meantime. */
  lemma PointerBadIffReturned<P>(schedule: Schedule, steps: seq<Step<P>>)
    requires Run(schedule, steps).Some? && !Run(schedule, steps).value.network.Idle?
    ensures var s := Run(schedule, steps).value;
            && s.network.awaiter < |s.waiters|
            && (PointerGood(s) <==> !s.waiters[s.network.awaiter].phase.Returned?)
  {
    RunsAreSound(schedule, steps);
    var s := Run(schedule, steps).value;
    assert WaiterSound(s, s.network.awaiter);
    if PointerGood(s) {
      PointedIsQueued(s);
    }
  }
}
