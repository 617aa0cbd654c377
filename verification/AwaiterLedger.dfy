/** Conservation of messages in the awaiter protocol, under every interleaving:
    where each message the pre-handler took has gone. */
module AwaiterLedger {
  import opened Wrappers
  import opened NetworkTypes
  import opened AwaiterQueues
  import opened AwaiterProtocol
  import opened AwaiterSafety

  ghost function Count<A>(xs: seq<A>, p: A -> bool): nat {
    if xs == [] then 0 else Count(xs[..|xs| - 1], p) + (if p(xs[|xs| - 1]) then 1 else 0)
  }

  lemma CountAppend<A>(xs: seq<A>, x: A, p: A -> bool)
    ensures Count(xs + [x], p) == Count(xs, p) + (if p(x) then 1 else 0)
  {
    assert (xs + [x])[..|xs|] == xs;
  }

  lemma {:induction false} CountUpdate<A>(xs: seq<A>, i: nat, x: A, p: A -> bool)
    requires i < |xs|
    ensures Count(xs[i := x], p) == Count(xs, p) - (if p(xs[i]) then 1 else 0) + (if p(x) then 1 else 0)
  {
    var last := |xs| - 1;
    if i == last {
      assert xs[i := x][..last] == xs[..last];
    } else {
      assert xs[i := x][..last] == xs[..last][i := x];
      CountUpdate(xs[..last], i, x, p);
    }
  }

  /** Messages of a type the pre-handler took. */
  ghost function Taken<P>(s: State<P>, packetType: PacketType): nat {
    Count(s.taken, (take: Take<P>) => take.packetType == packetType)
  }

  /** ... of which the payload did not deserialize. */
  ghost function Failed<P>(s: State<P>, packetType: PacketType): nat {
    Count(s.taken, (take: Take<P>) => take.packetType == packetType && take.packet.payload.None?)
  }

  /** ... of which the network thread still holds the payload. */
  ghost function InFlight<P>(s: State<P>, packetType: PacketType): nat {
    if s.network.Writing? && s.network.packetType == packetType then 1 else 0
  }

  ghost function Written<P>(s: State<P>, packetType: PacketType): nat {
    Count(s.writes, (write: Write<P>) => write.packetType == packetType)
  }

  /** Payloads handed to a coroutine. */
  ghost function ReturnedPayloads<P>(s: State<P>, packetType: PacketType): nat {
    Count(s.waiters, (w: Waiter<P>) => w.packetType == packetType && w.phase.Returned? && w.phase.result.Some?)
  }

  /** Payloads in a front record that has not been popped. */
  ghost function StoredInFront<P>(s: State<P>, packetType: PacketType): nat {
    if s.Queue(packetType) != [] && s.Queue(packetType)[0].data.Some? then 1 else 0
  }

  /** Payloads lost because a later write replaced them in the same record. */
  ghost function Superseded<P>(writes: seq<Write<P>>, packetType: PacketType): nat {
    if writes == [] then 0 else
    var earlier, write := writes[..|writes| - 1], writes[|writes| - 1];
    Superseded(earlier, packetType)
    + (if write.packetType == packetType && LastWrite(earlier, write.waiter).Some? then 1 else 0)
  }

  /** Messages taken failed, are in flight, or were written. */
  ghost predicate TakesBalanced<P>(s: State<P>, packetType: PacketType) {
    Taken(s, packetType) == Failed(s, packetType) + InFlight(s, packetType) + Written(s, packetType)
  }

  /** Payloads written were returned, are stored, or were superseded. */
  ghost predicate WritesBalanced<P>(s: State<P>, packetType: PacketType) {
    Written(s, packetType)
    == ReturnedPayloads(s, packetType) + StoredInFront(s, packetType) + Superseded(s.writes, packetType)
  }

  ghost predicate Balanced<P>(s: State<P>, packetType: PacketType) {
    TakesBalanced(s, packetType) && WritesBalanced(s, packetType)
  }

  lemma UnservedHasNoData<P>(s: State<P>, packetType: PacketType, i: nat)
    requires Sound(s) && 0 < i < |s.Queue(packetType)|
    ensures s.Queue(packetType)[i].data.None?
  {
    assert QueueSound(s, packetType);
    assert RecordSound(s, packetType, s.Queue(packetType)[i]);
    NoWriteNoData(s, s.Queue(packetType)[i].waiter);
  }

  lemma WriteCounts<P>(s: State<P>, packetType: PacketType)
    requires s.network.Writing?
    ensures var s' := AfterWrite(s);
            && Written(s', packetType) == Written(s, packetType) + InFlight(s, packetType)
            && Superseded(s'.writes, packetType)
               == Superseded(s.writes, packetType)
                  + (if s.network.packetType == packetType && LastWrite(s.writes, s.network.awaiter).Some?
                     then 1 else 0)
  {
    var s' := AfterWrite(s);
    CountAppend(s.writes, s'.writes[|s.writes|], (write: Write<P>) => write.packetType == packetType);
    assert s'.writes[..|s.writes|] == s.writes;
  }

  /** The written record is the front one, and held the waiter's last write. */
  lemma WriteStores<P>(s: State<P>, packetType: PacketType)
    requires Sound(s) && Enabled(s, WriteData)
    ensures StoredInFront(AfterWrite(s), packetType)
         == if s.network.packetType == packetType then 1 else StoredInFront(s, packetType)
    ensures StoredInFront(s, s.network.packetType)
         == if LastWrite(s.writes, s.network.awaiter).Some? then 1 else 0
  {
    PointedIsQueued(s);
    assert QueueSound(s, s.network.packetType);
    assert RecordSound(s, s.network.packetType, s.Queue(s.network.packetType)[0]);
  }

  lemma WriteKeepsBalance<P>(s: State<P>, packetType: PacketType)
    requires Sound(s) && Enabled(s, WriteData) && Balanced(s, packetType)
    ensures Balanced(AfterWrite(s), packetType)
  {
    WriteCounts(s, packetType);
    WriteStores(s, packetType);
    assert InFlight(AfterWrite(s), packetType) == 0;
  }

  lemma ResumeKeepsBalance<P>(s: State<P>, w: nat, packetType: PacketType)
    requires Sound(s) && Enabled(s, Resume(w)) && Balanced(s, packetType)
    ensures Balanced(AfterResume(s, w), packetType)
  {
    var s', t := AfterResume(s, w), s.waiters[w].packetType;
    CountUpdate(s.waiters, w, s'.waiters[w],
      (w: Waiter<P>) => w.packetType == packetType && w.phase.Returned? && w.phase.result.Some?);
    ResumePopsOwn(s, w);
    if |s.Queue(t)| > 1 {
      UnservedHasNoData(s, t, 1);
    }
  }

  lemma RegisterKeepsBalance<P>(s: State<P>, t: PacketType, packetType: PacketType)
    requires Balanced(s, packetType)
    ensures Balanced(AfterRegister(s, t), packetType)
  {
    var s' := AfterRegister(s, t);
    CountAppend(s.waiters, s'.waiters[|s.waiters|],
      (w: Waiter<P>) => w.packetType == packetType && w.phase.Returned? && w.phase.result.Some?);
    RefineTotalMap(s.queues, t, packetType, Record(|s.waiters|, None));
  }

  lemma LookupKeepsBalance<P>(s: State<P>, t: PacketType, payload: Option<P>, packetType: PacketType)
    requires s.network.Idle? && Balanced(s, packetType)
    ensures Balanced(AfterLookup(s, t, payload), packetType)
  {
    if Front(s.queues, t).Some? {
      var take := AfterLookup(s, t, payload).taken[|s.taken|];
      CountAppend(s.taken, take, (take: Take<P>) => take.packetType == packetType);
      CountAppend(s.taken, take,
        (take: Take<P>) => take.packetType == packetType && take.packet.payload.None?);
    }
  }

  lemma PhaseKeepsBalance<P>(s: State<P>, step: Step<P>, packetType: PacketType)
    requires Enabled(s, step) && (step.Await? || step.Signal?) && Balanced(s, packetType)
    ensures Balanced(Apply(s, step), packetType)
  {
    var s', w := Apply(s, step), if step.Await? then step.waiter else s.network.awaiter;
    CountUpdate(s.waiters, w, s'.waiters[w],
      (w: Waiter<P>) => w.packetType == packetType && w.phase.Returned? && w.phase.result.Some?);
  }

  lemma StepKeepsBalance<P>(s: State<P>, step: Step<P>, packetType: PacketType)
    requires Sound(s) && Enabled(s, step) && Balanced(s, packetType)
    ensures Balanced(Apply(s, step), packetType)
  {
    match step
    case Register(t) => RegisterKeepsBalance(s, t, packetType);
    case Lookup(t, payload) => LookupKeepsBalance(s, t, payload, packetType);
    case WriteData => WriteKeepsBalance(s, packetType);
    case Resume(w) => ResumeKeepsBalance(s, w, packetType);
    case Await(_) => PhaseKeepsBalance(s, step, packetType);
    case Signal => PhaseKeepsBalance(s, step, packetType);
    case ReleaseBatch =>
  }

  /** In every state of every run, for every type: each message taken for a
      waiter failed to deserialize, is in flight, is stored in the front record,
      was superseded there, or was returned to a waiter. */
  lemma {:induction false} LedgerBalances<P>(schedule: Schedule, steps: seq<Step<P>>, packetType: PacketType)
    requires Run(schedule, steps).Some?
    ensures var s := Run(schedule, steps).value;
            Taken(s, packetType)
            == ReturnedPayloads(s, packetType) + StoredInFront(s, packetType) + Superseded(s.writes, packetType)
               + Failed(s, packetType) + InFlight(s, packetType)
    ensures Balanced(Run(schedule, steps).value, packetType)
  {
    if steps != [] {
      var prefix := steps[..|steps| - 1];
      LedgerBalances(schedule, prefix, packetType);
      RunsAreSound(schedule, prefix);
      StepKeepsBalance(Run(schedule, prefix).value, steps[|steps| - 1], packetType);
    }
  }

  // ---- How often the protocol goes wrong ----

  /** Lookups of a run that found an already signalled front record. */
  ghost function StaleLookups<P>(steps: seq<Step<P>>): nat
    requires Run(Free, steps).Some?
  {
    if steps == [] then 0 else
    var prefix, step := steps[..|steps| - 1], steps[|steps| - 1];
    StaleLookups(prefix) + (if Stale(Run(Free, prefix).value, step) then 1 else 0)
  }

  /** With the network thread between messages, the front waiter has been served
      before exactly when it is signalled. */
  lemma ServedIffSignalled<P>(s: State<P>, w: nat)
    requires Sound(s) && s.network.Idle? && w < |s.waiters|
    ensures w in Served(s.taken) <==> s.waiters[w].signalled
  {
    assert WaiterSound(s, w);
    if w in Served(s.taken) {
      var take :| take in s.taken && take.waiter == w;
      assert TakeSound(s, take);
    }
  }

  lemma LookupServes<P>(s: State<P>, step: Step<P>)
    requires Sound(s) && Enabled(s, step)
    ensures var s' := Apply(s, step);
            |s'.taken| - |Served(s'.taken)| == |s.taken| - |Served(s.taken)| + (if Stale(s, step) then 1 else 0)
  {
    if step.Lookup? && Front(s.queues, step.packetType).Some? {
      assert QueueSound(s, step.packetType);
      assert RecordSound(s, step.packetType, s.Queue(step.packetType)[0]);
      ServedIffSignalled(s, Front(s.queues, step.packetType).value.waiter);
      var take := Apply(s, step).taken[|s.taken|];
      ServedAppend(s.taken, take);
      if Stale(s, step) {
        assert Served(s.taken) + {take.waiter} == Served(s.taken);
      }
    }
  }

  /** Each stale lookup, and nothing else, spends a second message on a waiter. */
  lemma {:induction false} StaleLookupsCountDoubleServing<P>(steps: seq<Step<P>>)
    requires Run(Free, steps).Some?
    ensures var s := Run(Free, steps).value; |s.taken| == |Served(s.taken)| + StaleLookups(steps)
  {
    if steps != [] {
      var prefix := steps[..|steps| - 1];
      StaleLookupsCountDoubleServing(prefix);
      RunsAreSound(Free, prefix);
      LookupServes(Run(Free, prefix).value, steps[|steps| - 1]);
    }
  }

  /** The fresh runs are the interleavings without a stale lookup. */
  lemma {:induction false} FreshIffNoStaleLookup<P>(steps: seq<Step<P>>)
    requires Run(Free, steps).Some?
    ensures Run(Fresh, steps).Some? <==> StaleLookups(steps) == 0
    ensures Run(Fresh, steps).Some? ==> Run(Fresh, steps) == Run(Free, steps)
  {
    if steps != [] {
      FreshIffNoStaleLookup(steps[..|steps| - 1]);
    }
  }
}
