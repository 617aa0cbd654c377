/** Payloads may be views into a message's buffer (`std::span` in the binary
    serializer). A view is read after its message has been released exactly when a
    release finds a payload in a front record, which the prompt schedule rules out. */
module AwaiterViews {
  import opened Wrappers
  import opened NetworkTypes
  import opened AwaiterQueues
  import opened AwaiterProtocol
  import opened AwaiterSafety
  import opened AwaiterLedger
  import opened AwaiterFifo

  ghost predicate Live<P>(s: State<P>, stored: Stored<P>) {
    s.released <= stored.message < s.arrived
  }

  /** The front record of a type holds a payload nobody has popped. */
  ghost predicate HoldsData<P>(s: State<P>, t: PacketType) {
    Front(s.queues, t).Some? && Front(s.queues, t).value.data.Some?
  }

  /** Whatever payload sits in a front record or is about to be written there
      still has its message. */
  ghost predicate ViewsLive<P>(s: State<P>) {
    && s.released <= s.arrived
    && (s.network.Writing? ==> Live(s, s.network.stored))
    && (forall t: PacketType :: HoldsData(s, t) ==> Live(s, Front(s.queues, t).value.data.value))
  }

  /** Waiters that are looked up have suspended, so they can resume at once. */
  ghost predicate Suspended<P>(s: State<P>) {
    && (forall w :: 0 <= w < |s.waiters| && s.waiters[w].signalled ==> !s.waiters[w].phase.Registered?)
    && (!s.network.Idle? ==>
          s.network.awaiter < |s.waiters| && !s.waiters[s.network.awaiter].phase.Registered?)
  }

  /** With nothing pending, no record holds a payload. */
  lemma NoPendingNoData<P>(s: State<P>, t: PacketType)
    requires Sound(s) && s.network.Idle? && !Pending(s) && Front(s.queues, t).Some?
    ensures Front(s.queues, t).value.data.None?
  {
    var record := Front(s.queues, t).value;
    assert QueueSound(s, t);
    assert RecordSound(s, t, s.Queue(t)[0]);
    ServedIffSignalled(s, record.waiter);
    NoWriteNoData(s, record.waiter);
  }

  lemma WriteKeepsViewsLive<P>(s: State<P>)
    requires Sound(s) && Enabled(s, WriteData) && ViewsLive(s)
    ensures ViewsLive(AfterWrite(s))
  {
    PointedIsQueued(s);
    var s' := AfterWrite(s);
    forall t: PacketType | HoldsData(s', t)
      ensures Live(s', Front(s'.queues, t).value.data.value)
    {
      if t != s.network.packetType {
        assert HoldsData(s, t) && Front(s.queues, t) == Front(s'.queues, t);
      }
    }
  }

  lemma ResumeKeepsViewsLive<P>(s: State<P>, w: nat)
    requires Sound(s) && Enabled(s, Resume(w)) && ViewsLive(s)
    ensures ViewsLive(AfterResume(s, w))
  {
    ResumePopsOwn(s, w);
    var s' := AfterResume(s, w);
    forall t: PacketType | HoldsData(s', t)
      ensures Live(s', Front(s'.queues, t).value.data.value)
    {
      if t == s.waiters[w].packetType {
        UnservedHasNoData(s, t, 1);
      } else {
        assert HoldsData(s, t) && Front(s.queues, t) == Front(s'.queues, t);
      }
    }
  }

  /** Under any schedule, the one step that can leave a dead view behind is a
      release, and it does so exactly when some front record holds a payload. */
  lemma StepKeepsViewsLiveIff<P>(s: State<P>, step: Step<P>)
    requires Sound(s) && Enabled(s, step) && ViewsLive(s)
    ensures ViewsLive(Apply(s, step))
       <==> (step.ReleaseBatch? ==> forall t: PacketType :: !HoldsData(s, t))
  {
    var s' := Apply(s, step);
    match step
    case Register(packetType) =>
      forall t: PacketType | HoldsData(s', t)
        ensures Live(s', Front(s'.queues, t).value.data.value)
      {
        RefineTotalMap(s.queues, packetType, t, Record(|s.waiters|, None));
        assert HoldsData(s, t) && Front(s.queues, t) == Front(s'.queues, t);
      }
    case WriteData => WriteKeepsViewsLive(s);
    case Resume(w) => ResumeKeepsViewsLive(s, w);
    case ReleaseBatch =>
      if t: PacketType :| HoldsData(s, t) {
        assert HoldsData(s', t) && !Live(s', Front(s'.queues, t).value.data.value);
      } else {
        assert forall t: PacketType :: HoldsData(s', t) ==> HoldsData(s, t);
      }
    case _ =>
      forall t: PacketType | HoldsData(s', t)
        ensures Live(s', Front(s'.queues, t).value.data.value)
      {
        assert HoldsData(s, t) && Front(s.queues, t) == Front(s'.queues, t);
      }
  }

  // ---- Whole runs ----

  lemma {:induction false} PrefixRuns<P>(schedule: Schedule, steps: seq<Step<P>>, k: nat)
    requires Run(schedule, steps).Some? && k <= |steps|
    ensures Run(schedule, steps[..k]).Some?
    ensures k < |steps| ==> Enabled(Run(schedule, steps[..k]).value, steps[k])
  {
    if k == |steps| {
      assert steps[..k] == steps;
    } else {
      var less := steps[..|steps| - 1];
      if k < |less| {
        PrefixRuns(schedule, less, k);
        assert less[..k] == steps[..k];
      }
    }
  }

  /** The state in which a step of a run happens. */
  ghost function At<P>(steps: seq<Step<P>>, k: nat): (s: State<P>)
    requires Run(Free, steps).Some? && k < |steps|
    ensures Run(Free, steps[..k]) == Some(s) && Enabled(s, steps[k])
  {
    PrefixRuns(Free, steps, k);
    Run(Free, steps[..k]).value
  }

  /** What the waiter gets there is no view of a released message. */
  ghost predicate ReadsLive<P>(s: State<P>, w: nat)
    requires Enabled(s, Step<P>.Resume(w))
  {
    var result := AfterResume(s, w).waiters[w].phase.result;
    result.Some? ==> Live(s, result.value)
  }

  ghost predicate AllReadsLive<P>(steps: seq<Step<P>>)
    requires Run(Free, steps).Some?
  {
    forall k :: 0 <= k < |steps| && steps[k].Resume? ==> ReadsLive(At(steps, k), steps[k].waiter)
  }

  /** A release finds a payload in some front record. */
  ghost predicate ReleasesEarly<P>(s: State<P>, step: Step<P>) {
    step.ReleaseBatch? && exists t: PacketType :: HoldsData(s, t)
  }

  ghost predicate EarlyAt<P>(steps: seq<Step<P>>, k: nat)
    requires Run(Free, steps).Some? && k < |steps|
  {
    ReleasesEarly(At(steps, k), steps[k])
  }

  ghost predicate EarlyRelease<P>(steps: seq<Step<P>>)
    requires Run(Free, steps).Some?
  {
    exists k :: 0 <= k < |steps| && EarlyAt(steps, k)
  }

  lemma EarlyReleaseStep<P>(steps: seq<Step<P>>)
    requires steps != [] && Run(Free, steps).Some?
    ensures var n := |steps| - 1;
            && Run(Free, steps[..n]).Some?
            && (EarlyRelease(steps) <==> EarlyRelease(steps[..n]) || EarlyAt(steps, n))
  {
    var n := |steps| - 1;
    forall k | 0 <= k < n
      ensures EarlyAt(steps[..n], k) <==> EarlyAt(steps, k)
    {
      assert steps[..n][..k] == steps[..k];
    }
  }

  /** Until a release comes too early, every stored payload has its message. */
  lemma {:induction false} TimelyKeepsViewsLive<P>(steps: seq<Step<P>>)
    requires Run(Free, steps).Some? && !EarlyRelease(steps)
    ensures ViewsLive(Run(Free, steps).value)
  {
    if steps != [] {
      var n := |steps| - 1;
      EarlyReleaseStep(steps);
      TimelyKeepsViewsLive(steps[..n]);
      RunsAreSound(Free, steps[..n]);
      StepKeepsViewsLiveIff(At(steps, n), steps[n]);
    }
  }

  lemma LiveViewIsRead<P>(s: State<P>, w: nat)
    requires Sound(s) && ViewsLive(s) && Enabled(s, Step<P>.Resume(w))
    ensures ReadsLive(s, w)
  {
    ResumePopsOwn(s, w);
  }

  lemma TimelyPrefix<P>(steps: seq<Step<P>>, k: nat)
    requires Run(Free, steps).Some? && !EarlyRelease(steps) && k <= |steps|
    ensures Run(Free, steps[..k]).Some? && !EarlyRelease(steps[..k])
  {
    PrefixRuns(Free, steps, k);
    forall j | 0 <= j < k
      ensures EarlyAt(steps[..k], j) <==> EarlyAt(steps, j)
    {
      assert steps[..k][..j] == steps[..j];
    }
  }

  lemma TimelyRunsReadLive<P>(steps: seq<Step<P>>)
    requires Run(Free, steps).Some? && !EarlyRelease(steps)
    ensures AllReadsLive(steps)
  {
    forall k | 0 <= k < |steps| && steps[k].Resume?
      ensures ReadsLive(At(steps, k), steps[k].waiter)
    {
      var s := At(steps, k);
      TimelyPrefix(steps, k);
      TimelyKeepsViewsLive(steps[..k]);
      RunsAreSound(Free, steps[..k]);
      LiveViewIsRead(s, steps[k].waiter);
    }
  }

  lemma {:induction false} TimelyWithoutRelease<P>(steps: seq<Step<P>>, more: seq<Step<P>>)
    requires Run(Free, steps).Some? && !EarlyRelease(steps) && Run(Free, steps + more).Some?
    requires forall k :: 0 <= k < |more| ==> !more[k].ReleaseBatch?
    ensures !EarlyRelease(steps + more)
  {
    if more == [] {
      assert steps + more == steps;
    } else {
      var less, all := more[..|more| - 1], steps + more;
      assert all[..|all| - 1] == steps + less && all[|all| - 1] == more[|more| - 1];
      EarlyReleaseStep(all);
      TimelyWithoutRelease(steps, less);
    }
  }

  /** When the network thread is between messages, a payload in a front record belongs
      to a signalled waiter that has yet to pop it. */
  lemma HeldForSignalled<P>(s: State<P>, t: PacketType)
    requires Sound(s) && s.network.Idle? && HoldsData(s, t)
    ensures var w := Front(s.queues, t).value.waiter;
            && w < |s.waiters| && s.waiters[w].packetType == t
            && s.waiters[w].signalled && !s.waiters[w].phase.Returned?
  {
    var record := Front(s.queues, t).value;
    assert QueueSound(s, t);
    assert RecordSound(s, t, s.Queue(t)[0]);
    ServedIffSignalled(s, record.waiter);
    if record.waiter !in Served(s.taken) {
      NoWriteNoData(s, record.waiter);
    }
  }

  lemma DeadViewIsRead<P>(s: State<P>, t: PacketType, w: nat)
    requires HoldsData(s, t) && !Live(s, Front(s.queues, t).value.data.value)
    requires Enabled(s, Step<P>.Resume(w)) && s.waiters[w].packetType == t
    ensures !ReadsLive(s, w)
  {}

  lemma LastReads<P>(steps: seq<Step<P>>, w: nat)
    requires Run(Free, steps).Some? && Enabled(Run(Free, steps).value, Step<P>.Resume(w))
    requires !ReadsLive(Run(Free, steps).value, w)
    ensures Run(Free, steps + [Resume(w)]).Some? && !AllReadsLive(steps + [Resume(w)])
  {
    RunAppend(Free, steps, Step<P>.Resume(w));
    var all := steps + [Resume(w)];
    assert all[..|steps|] == steps && all[|steps|] == Step<P>.Resume(w);
    assert !ReadsLive(At(all, |steps|), all[|steps|].waiter);
  }

  /** After a release that came too early, one waiter only has to go on. */
  lemma EarlyReleaseIsRead<P>(steps: seq<Step<P>>, t: PacketType) returns (more: seq<Step<P>>)
    requires Run(Free, steps).Some? && !EarlyRelease(steps)
    requires Run(Free, steps).value.network.Idle? && HoldsData(Run(Free, steps).value, t)
    ensures Run(Free, steps + [ReleaseBatch] + more).Some? && !AllReadsLive(steps + [ReleaseBatch] + more)
    ensures forall k :: 0 <= k < |more| ==> !more[k].ReleaseBatch?
  {
    var s := Run(Free, steps).value;
    var w := Front(s.queues, t).value.waiter;
    TimelyKeepsViewsLive(steps);
    RunsAreSound(Free, steps);
    HeldForSignalled(s, t);
    RunAppend(Free, steps, Step<P>.ReleaseBatch);
    var released, s1 := steps + [Step<P>.ReleaseBatch], Apply(s, Step<P>.ReleaseBatch);
    if s.waiters[w].phase.Registered? {
      RunAppend(Free, released, Step<P>.Await(w));
      DeadViewIsRead(Apply(s1, Step<P>.Await(w)), t, w);
      LastReads(released + [Step<P>.Await(w)], w);
      more := [Await(w), Resume(w)];
      assert released + more == released + [Step<P>.Await(w)] + [Resume(w)];
    } else {
      DeadViewIsRead(s1, t, w);
      LastReads(released, w);
      more := [Resume(w)];
    }
  }

  /** Anything that may happen after a release, before the next one. */
  ghost predicate FollowsRelease<P>(steps: seq<Step<P>>, more: seq<Step<P>>) {
    Run(Free, steps + [ReleaseBatch] + more).Some? && forall k :: 0 <= k < |more| ==> !more[k].ReleaseBatch?
  }

  lemma SafeReleaseReadsLive<P>(steps: seq<Step<P>>, more: seq<Step<P>>)
    requires Run(Free, steps).Some? && !EarlyRelease(steps) && FollowsRelease(steps, more)
    requires forall t: PacketType :: !HoldsData(Run(Free, steps).value, t)
    ensures AllReadsLive(steps + [ReleaseBatch] + more)
  {
    var released := steps + [Step<P>.ReleaseBatch];
    PrefixRuns(Free, released + more, |released|);
    assert (released + more)[..|released|] == released && released[..|released| - 1] == steps;
    EarlyReleaseStep(released);
    TimelyWithoutRelease(released, more);
    TimelyRunsReadLive(released + more);
  }

  /** The exact condition, for every interleaving: as long as each release finds no
      payload in a front record, whatever follows reads live views up to the next
      release; and where one does find a payload, a waiter that goes on reads the view
      of a released message. */
  lemma ReleaseSafeIff<P>(steps: seq<Step<P>>)
    requires Run(Free, steps).Some? && !EarlyRelease(steps) && Run(Free, steps).value.network.Idle?
    ensures (forall more :: FollowsRelease(steps, more) ==> AllReadsLive(steps + [ReleaseBatch] + more))
       <==> forall t: PacketType :: !HoldsData(Run(Free, steps).value, t)
  {
    if t: PacketType :| HoldsData(Run(Free, steps).value, t) {
      var more := EarlyReleaseIsRead(steps, t);
      assert FollowsRelease(steps, more);
    } else {
      forall more | FollowsRelease(steps, more)
        ensures AllReadsLive(steps + [ReleaseBatch] + more)
      {
        SafeReleaseReadsLive(steps, more);
      }
    }
  }

  /** A continuation without another release that reads a released message. */
  ghost predicate ReadsReleased<P>(steps: seq<Step<P>>, more: seq<Step<P>>) {
    && Run(Free, steps + more).Some? && !AllReadsLive(steps + more)
    && forall k :: 0 <= k < |more| ==> !more[k].ReleaseBatch?
  }

  lemma {:induction false} EarlyReleaseWitness<P>(steps: seq<Step<P>>) returns (k: nat, more: seq<Step<P>>)
    requires Run(Free, steps).Some? && EarlyRelease(steps)
    ensures k <= |steps| && ReadsReleased(steps[..k], more)
  {
    var n := |steps| - 1;
    EarlyReleaseStep(steps);
    if EarlyRelease(steps[..n]) {
      k, more := EarlyReleaseWitness(steps[..n]);
      assert steps[..n][..k] == steps[..k];
    } else {
      var t: PacketType :| HoldsData(At(steps, n), t);
      more := EarlyReleaseIsRead(steps[..n], t);
      var released := steps[..n] + [Step<P>.ReleaseBatch];
      k := |steps|;
      assert steps[n] == ReleaseBatch && steps == released && steps[..k] == released;
    }
  }

  /** Over whole runs: a release has come too early if and only if the run, cut off at
      some point, can go on without another release to read a released message. */
  lemma EarlyReleaseIff<P>(steps: seq<Step<P>>)
    requires Run(Free, steps).Some?
    ensures EarlyRelease(steps) <==> exists k, more :: 0 <= k <= |steps| && ReadsReleased(steps[..k], more)
  {
    if EarlyRelease(steps) {
      var k, more := EarlyReleaseWitness(steps);
    }
    if k, more :| 0 <= k <= |steps| && ReadsReleased(steps[..k], more) {
      PrefixRuns(Free, steps, k);
      if !EarlyRelease(steps) {
        TimelyPrefix(steps, k);
        TimelyWithoutRelease(steps[..k], more);
        TimelyRunsReadLive(steps[..k] + more);
        assert false;
      }
    }
  }

  // ---- Prompt runs ----

  lemma {:induction false} PromptKeepsViewsLive<P>(steps: seq<Step<P>>)
    requires Run(Prompt, steps).Some?
    ensures ViewsLive(Run(Prompt, steps).value) && Suspended(Run(Prompt, steps).value)
  {
    if steps != [] {
      var prefix := steps[..|steps| - 1];
      PromptKeepsViewsLive(prefix);
      RunsAreSound(Prompt, prefix);
      var s, step := Run(Prompt, prefix).value, steps[|steps| - 1];
      if step.ReleaseBatch? {
        forall t: PacketType
          ensures !HoldsData(s, t)
        {
          if Front(s.queues, t).Some? {
            NoPendingNoData(s, t);
          }
        }
      }
      StepKeepsViewsLiveIff(s, step);
    }
  }

  /** Under the prompt schedule a resuming waiter reads a message that has
      arrived and has not been released. */
  lemma ResumeReadsLiveView<P>(steps: seq<Step<P>>, w: nat)
    requires Run(Prompt, steps).Some? && Enabled(Run(Prompt, steps).value, Resume(w))
    ensures var s := Run(Prompt, steps).value;
            var phase := AfterResume(s, w).waiters[w].phase;
            phase.Returned? && (phase.result.Some? ==> Live(s, phase.result.value))
  {
    PromptKeepsViewsLive(steps);
    RunsAreSound(Prompt, steps);
    ResumePopsOwn(Run(Prompt, steps).value, w);
  }

  /** So in a prompt run nothing that a coroutine ever returned was, at the time, a
      view of a released message. */
  lemma EveryResumeReadLiveView<P>(steps: seq<Step<P>>, k: nat)
    requires Run(Prompt, steps).Some? && k < |steps| && steps[k].Resume?
    ensures Run(Prompt, steps[..k]).Some? && Enabled(Run(Prompt, steps[..k]).value, steps[k])
    ensures var s := Run(Prompt, steps[..k]).value;
            var phase := AfterResume(s, steps[k].waiter).waiters[steps[k].waiter].phase;
            phase.Returned? && (phase.result.Some? ==> Live(s, phase.result.value))
  {
    PrefixRuns(Prompt, steps, k);
    ResumeReadsLiveView(steps[..k], steps[k].waiter);
  }

  /** The prompt schedule never waits for a waiter that cannot move: whenever it
      holds back the network thread, the pending waiter can resume at once. */
  lemma PendingCanResume<P>(steps: seq<Step<P>>, w: nat)
    requires Run(Prompt, steps).Some?
    requires var s := Run(Prompt, steps).value;
             w < |s.waiters| && s.waiters[w].signalled && !s.waiters[w].phase.Returned?
    ensures Run(Prompt, steps + [Resume(w)]).Some?
  {
    PromptKeepsViewsLive(steps);
    RunAppend(Prompt, steps, Step<P>.Resume(w));
  }
}
