/** Where the first-in first-out promise ends: exactly at the first lookup that
    finds a front record already signalled. */
module AwaiterLimits {
  import opened Wrappers
  import opened NetworkTypes
  import opened AwaiterQueues
  import opened AwaiterProtocol
  import opened AwaiterSafety
  import opened AwaiterLedger
  import opened AwaiterFifo

  /** The pre-handler's whole history is the one the reference asks for. */
  ghost predicate Matched<P>(steps: seq<Step<P>>)
    requires Run(Free, steps).Some?
  {
    forall t: PacketType ::
      |Reference(steps, t).packets| <= |Reference(steps, t).waiters|
      && OfType(Run(Free, steps).value.taken, t) == Paired(t, Reference(steps, t))
  }

  ghost function TimesServed<P>(taken: seq<Take<P>>, w: nat): nat {
    Count(taken, (take: Take<P>) => take.waiter == w)
  }

  lemma {:induction false} ServedOnceEach<P>(taken: seq<Take<P>>)
    requires forall w: nat :: TimesServed(taken, w) <= 1
    ensures |taken| == |Served(taken)|
  {
    if taken != [] {
      var rest, last := taken[..|taken| - 1], taken[|taken| - 1];
      assert taken == rest + [last];
      forall w: nat
        ensures TimesServed(taken, w) == TimesServed(rest, w) + (if last.waiter == w then 1 else 0)
      {
        CountAppend(rest, last, (take: Take<P>) => take.waiter == w);
      }
      ServedOnceEach(rest);
      ServedAppend(rest, last);
      if last.waiter in Served(rest) {
        var take :| take in rest && take.waiter == last.waiter;
        CountPositive(rest, take);
        assert false;
      }
    }
  }

  lemma {:induction false} CountPositive<P>(taken: seq<Take<P>>, take: Take<P>)
    requires take in taken
    ensures TimesServed(taken, take.waiter) >= 1
  {
    var rest, last := taken[..|taken| - 1], taken[|taken| - 1];
    assert taken == rest + [last];
    if take != last {
      CountPositive(rest, take);
    }
  }

  /** A waiter is served only messages of its own type. */
  lemma {:induction false} TimesServedOfType<P>(taken: seq<Take<P>>, w: nat, t: PacketType)
    requires forall take :: take in taken && take.waiter == w ==> take.packetType == t
    ensures TimesServed(taken, w) == TimesServed(OfType(taken, t), w)
  {
    if taken != [] {
      var rest, last := taken[..|taken| - 1], taken[|taken| - 1];
      assert taken == rest + [last];
      TimesServedOfType(rest, w, t);
      OfTypeAppend(rest, last, t);
      assert OfType(rest, t) + [] == OfType(rest, t);
      CountAppend(rest, last, (take: Take<P>) => take.waiter == w);
      CountAppend(OfType(rest, t), last, (take: Take<P>) => take.waiter == w);
    }
  }

  lemma {:induction false} PairedServesOnce<P>(t: PacketType, waiters: seq<nat>, packets: seq<Packet<P>>, w: nat)
    requires |packets| <= |waiters|
    requires forall j, k :: 0 <= j < k < |waiters| ==> waiters[j] < waiters[k]
    ensures TimesServed(Paired(t, Matching(waiters, packets)), w) <= 1
    ensures (forall k :: 0 <= k < |packets| ==> waiters[k] != w)
        ==> TimesServed(Paired(t, Matching(waiters, packets)), w) == 0
  {
    if packets != [] {
      var n := |packets| - 1;
      var paired := Paired(t, Matching(waiters, packets));
      assert paired[..n] == Paired(t, Matching(waiters, packets[..n]));
      PairedServesOnce(t, waiters, packets[..n], w);
    }
  }

  /** The exact condition. For every interleaving, the packets went to the
      reference's waiters in the reference's order if and only if no lookup found
      a front record that had been signalled and not yet popped. */
  lemma MatchedIffNoStaleLookup<P>(steps: seq<Step<P>>)
    requires Run(Free, steps).Some?
    ensures Matched(steps) <==> StaleLookups(steps) == 0
  {
    if StaleLookups(steps) == 0 {
      FreshIffNoStaleLookup(steps);
      forall t: PacketType
        ensures |Reference(steps, t).packets| <= |Reference(steps, t).waiters|
        ensures OfType(Run(Free, steps).value.taken, t) == Paired(t, Reference(steps, t))
      {
        FreshRunsFollow(steps, t);
      }
    }
    if Matched(steps) {
      MatchedServesOnce(steps);
      ServedOnceEach(Run(Free, steps).value.taken);
      StaleLookupsCountDoubleServing(steps);
    }
  }

  lemma MatchedServesOnce<P>(steps: seq<Step<P>>)
    requires Run(Free, steps).Some? && Matched(steps)
    ensures forall w: nat :: TimesServed(Run(Free, steps).value.taken, w) <= 1
  {
    var s := Run(Free, steps).value;
    RunsAreSound(Free, steps);
    forall w: nat
      ensures TimesServed(s.taken, w) <= 1
    {
      assert forall take :: take in s.taken ==> TakeSound(s, take);
      var t: PacketType := if w < |s.waiters| then s.waiters[w].packetType else 0;
      TimesServedOfType(s.taken, w, t);
      RunsEnrol(Free, steps, t);
      var m := Reference(steps, t);
      PairedServesOnce(t, m.waiters, m.packets, w);
    }
  }

  // ---- Runs that break the promise ----

  /** One waiter for type 7, and one message written and signalled for it. */
  const DELIVERY: seq<Step<int>> := [Register(7), Await(0), Lookup(7, Some(1)), WriteData, Signal]

  /** ... which leaves the payload in the record until the waiter pops. */
  const DELIVERED: State<int> :=
    State(map[7 := [Record(0, Some(Stored(0, 1)))]], [Waiter(7, Awaiting, true)], Idle, 1, 0,
          [Take(7, 0, Packet(0, Some(1)))], [Write(7, 0, Stored(0, 1))])

  const LOOKED_UP: State<int> :=
    State(map[7 := [Record(0, None)]], [Waiter(7, Awaiting, false)], Writing(0, 7, Stored(0, 1)), 1, 0,
          [Take(7, 0, Packet(0, Some(1)))], [])

  lemma LookupRuns()
    ensures Run(Fresh, DELIVERY[..3]) == Some(LOOKED_UP)
  {
    RunAppend(Fresh, [], DELIVERY[0]);
    assert [] + [DELIVERY[0]] == DELIVERY[..1];
    RunAppend(Fresh, DELIVERY[..1], DELIVERY[1]);
    assert DELIVERY[..1] + [DELIVERY[1]] == DELIVERY[..2];
    RunAppend(Fresh, DELIVERY[..2], DELIVERY[2]);
    assert DELIVERY[..2] + [DELIVERY[2]] == DELIVERY[..3];
    assert Run(Fresh, DELIVERY[..3]).value == LOOKED_UP;
  }

  lemma DeliveryRuns()
    ensures Run(Fresh, DELIVERY) == Some(DELIVERED) == Run(Free, DELIVERY)
  {
    PromptIsFresh(DELIVERY);
    LookupRuns();
    assert LOOKED_UP.Queue(7)[0].waiter == 0;
    RunAppend(Fresh, DELIVERY[..3], DELIVERY[3]);
    assert DELIVERY[..3] + [DELIVERY[3]] == DELIVERY[..4];
    var s4 := AfterWrite(LOOKED_UP);
    assert s4.Queue(7) == [Record(0, Some(Stored(0, 1)))];
    assert s4.Queue(7)[0].waiter == 0;
    RunAppend(Fresh, DELIVERY[..4], DELIVERY[4]);
    assert DELIVERY[..4] + [DELIVERY[4]] == DELIVERY;
    assert AfterSignal(s4) == DELIVERED;
  }

  /** The state after a second message for the same record. */
  const REDELIVERED: State<int> :=
    State(map[7 := [Record(0, Some(Stored(1, 2)))]], [Waiter(7, Awaiting, true)], Idle, 2, 0,
          [Take(7, 0, Packet(0, Some(1))), Take(7, 0, Packet(1, Some(2)))],
          [Write(7, 0, Stored(0, 1)), Write(7, 0, Stored(1, 2))])

  lemma RedeliveryRuns(steps: seq<Step<int>>)
    requires Run(Free, steps) == Some(DELIVERED)
    ensures Run(Free, steps + [Lookup(7, Some(2))] + [WriteData] + [Signal]) == Some(REDELIVERED)
  {
    RunAppend(Free, steps, Lookup(7, Some(2)));
    var s1 := AfterLookup(DELIVERED, 7, Some(2));
    assert s1.Queue(7)[0].waiter == 0;
    RunAppend(Free, steps + [Lookup(7, Some(2))], WriteData);
    var s2 := AfterWrite(s1);
    assert s2.Queue(7) == [Record(0, Some(Stored(1, 2)))];
    assert s2.Queue(7)[0].waiter == 0;
    RunAppend(Free, steps + [Lookup(7, Some(2))] + [WriteData], Signal);
    assert AfterSignal(s2) == REDELIVERED;
  }

  lemma RedeliverySupersedes()
    ensures Superseded(REDELIVERED.writes, 7) == 1
  {
    var writes := REDELIVERED.writes;
    assert writes[..1] == DELIVERED.writes && writes[..1][..0] == [];
    assert LastWrite(writes[..1], 0) == Some(Stored(0, 1));
  }

  /** A second message before the pop overwrites the first: the only waiter ever
      registered returns message 1, and message 0 is lost. */
  lemma LatePopLosesMessage(steps: seq<Step<int>>)
    requires Run(Free, steps) == Some(DELIVERED)
    ensures var late := steps + [Lookup(7, Some(2))] + [WriteData] + [Signal] + [Resume(0)];
            && Run(Free, late).Some?
            && Run(Free, late).value.waiters == [Waiter(7, Returned(Some(Stored(1, 2))), true)]
            && Superseded(Run(Free, late).value.writes, 7) == 1
  {
    RedeliveryRuns(steps);
    RunAppend(Free, steps + [Lookup(7, Some(2))] + [WriteData] + [Signal], Resume(0));
    assert AfterResume(REDELIVERED, 0).waiters == [Waiter(7, Returned(Some(Stored(1, 2))), true)];
    RedeliverySupersedes();
  }

  /** A pop between a stale lookup and its write leaves the network thread with
      a pointer to a record that is gone. */
  lemma LatePopLeavesBadPointer(steps: seq<Step<int>>)
    requires Run(Free, steps) == Some(DELIVERED)
    ensures var late := steps + [Lookup(7, Some(2))] + [Resume(0)];
            && Run(Free, late).Some?
            && Run(Free, late).value.network.Writing?
            && !PointerGood(Run(Free, late).value)
  {
    RunAppend(Free, steps, Lookup(7, Some(2)));
    RunAppend(Free, steps + [Lookup(7, Some(2))], Resume(0));
    assert AfterResume(AfterLookup(DELIVERED, 7, Some(2)), 0).Queue(7) == [];
  }

  /** Even with no stale lookup, a pop after the batch was released returns a
      view of a released message. */
  lemma LatePopReadsReleasedView(steps: seq<Step<int>>)
    requires Run(Fresh, steps) == Some(DELIVERED)
    ensures var late := steps + [ReleaseBatch] + [Resume(0)];
            && Run(Fresh, late).Some?
            && var s := Run(Fresh, late).value;
               s.waiters == [Waiter(7, Returned(Some(Stored(0, 1))), true)] && s.released > 0
  {
    RunAppend(Fresh, steps, ReleaseBatch);
    RunAppend(Fresh, steps + [ReleaseBatch], Resume(0));
  }
}
