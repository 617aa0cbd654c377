/** The batches `poll_messages` of the client works in, and what becomes of each message
    over any number of polls: handled once, then given back once. */
module ClientPolling {
  import opened NetworkTypes
  import opened BatchPolling

  /** `k_default_poll_message_count`. */
  const POLL_MESSAGE_COUNT: nat := 16

  /** A transport message: which one it is, and its bytes. */
  datatype Message = Message(id: nat, data: seq<Byte>)

  /** What the client does with a message: hand it to the data callback, inside which
      handlers and resumed coroutines read it, and give it back to the transport. */
  datatype Activity = Callback(message: nat) | GiveBack(message: nat)

  function Callbacks(messages: seq<Message>): seq<Activity> {
    seq(|messages|, k requires 0 <= k < |messages| => Callback(messages[k].id))
  }

  function GiveBacks(messages: seq<Message>): seq<Activity> {
    seq(|messages|, k requires 0 <= k < |messages| => GiveBack(messages[k].id))
  }

  /** One poll: every message of the batch is handled before the first is given back. */
  function BatchActivity(messages: seq<Message>, called: bool): seq<Activity> {
    (if called then Callbacks(messages) else []) + GiveBacks(messages)
  }

  /** Spelled out: one call for each message, in order, then one give-back for each. */
  lemma BatchActivityAt(messages: seq<Message>, called: bool)
    ensures var activity, calls := BatchActivity(messages, called), if called then |messages| else 0;
            && |activity| == calls + |messages|
            && (forall k :: 0 <= k < calls ==> activity[k] == Callback(messages[k].id))
            && (forall k :: 0 <= k < |messages| ==> activity[calls + k] == GiveBack(messages[k].id))
  {}

  /** Every message there has been, in order of arrival: those waiting at first, and those
      that arrived before each of some polls. */
  ghost function EverArrived(inbox: seq<Message>, arrivals: seq<seq<Message>>): seq<Message> {
    if arrivals == [] then inbox
    else EverArrived(inbox, arrivals[..|arrivals| - 1]) + arrivals[|arrivals| - 1]
  }

  /** What the next poll receives, when so many have been received. */
  ghost function Share(all: seq<Message>, count: nat): seq<Message>
    requires count <= |all|
  {
    Batch(all[count..], POLL_MESSAGE_COUNT)
  }

  /** How many messages the polls receive. */
  ghost function PolledCount(inbox: seq<Message>, arrivals: seq<seq<Message>>): (count: nat)
    ensures count <= |EverArrived(inbox, arrivals)|
  {
    if arrivals == [] then 0 else
    var before := PolledCount(inbox, arrivals[..|arrivals| - 1]);
    before + |Share(EverArrived(inbox, arrivals), before)|
  }

  /** What is done with them, poll by poll. */
  ghost function PollActivity(inbox: seq<Message>, arrivals: seq<seq<Message>>, called: bool): seq<Activity> {
    if arrivals == [] then [] else
    var less := arrivals[..|arrivals| - 1];
    PollActivity(inbox, less, called)
    + BatchActivity(Share(EverArrived(inbox, arrivals), PolledCount(inbox, less)), called)
  }

  /** Each poll receives sixteen messages, or all there are if they are fewer; so some
      polls have received all that was waiting at first, or sixteen each. */
  lemma {:induction false} SixteenEach(inbox: seq<Message>, arrivals: seq<seq<Message>>)
    ensures PolledCount(inbox, arrivals) >= |inbox| || PolledCount(inbox, arrivals) >= 16 * |arrivals|
    ensures arrivals != [] ==>
              var all, before := EverArrived(inbox, arrivals), PolledCount(inbox, arrivals[..|arrivals| - 1]);
              PolledCount(inbox, arrivals) == (if |all| - before <= 16 then |all| else before + 16)
    ensures |inbox| <= |EverArrived(inbox, arrivals)|
  {
    if arrivals != [] {
      SixteenEach(inbox, arrivals[..|arrivals| - 1]);
    }
  }

  /** What concerns one message. */
  ghost function About(activity: seq<Activity>, id: nat): seq<Activity> {
    if activity == [] then [] else
    var last := activity[|activity| - 1];
    About(activity[..|activity| - 1], id) + (if last.message == id then [last] else [])
  }

  lemma {:induction false} AboutConcat(first: seq<Activity>, second: seq<Activity>, id: nat)
    ensures About(first + second, id) == About(first, id) + About(second, id)
  {
    if second == [] {
      assert first + second == first;
    } else {
      AboutConcat(first, second[..|second| - 1], id);
      assert (first + second)[..|first + second| - 1] == first + second[..|second| - 1];
    }
  }

  ghost predicate DistinctIds(messages: seq<Message>) {
    forall j, k :: 0 <= j < k < |messages| ==> messages[j].id != messages[k].id
  }

  ghost predicate Names(messages: seq<Message>, id: nat) {
    exists k :: 0 <= k < |messages| && messages[k].id == id
  }

  lemma NamesSplit(first: seq<Message>, second: seq<Message>, id: nat)
    ensures Names(first + second, id) <==> Names(first, id) || Names(second, id)
    ensures DistinctIds(first + second) && Names(first, id) ==> !Names(second, id)
    ensures DistinctIds(first + second) ==> DistinctIds(first) && DistinctIds(second)
  {
    var all := first + second;
    assert forall k :: 0 <= k < |first| ==> all[k] == first[k];
    assert forall k :: 0 <= k < |second| ==> all[|first| + k] == second[k];
  }

  lemma {:induction false} AboutOnce(messages: seq<Message>, id: nat)
    requires DistinctIds(messages)
    ensures About(Callbacks(messages), id) == if Names(messages, id) then [Callback(id)] else []
    ensures About(GiveBacks(messages), id) == if Names(messages, id) then [GiveBack(id)] else []
  {
    if messages != [] {
      var less, last := messages[..|messages| - 1], messages[|messages| - 1];
      assert messages == less + [last];
      NamesSplit(less, [last], id);
      assert Names([last], id) <==> last.id == id by {
        assert [last][0] == last;
      }
      AboutOnce(less, id);
      assert Callbacks(messages) == Callbacks(less) + [Callback(last.id)];
      assert GiveBacks(messages) == GiveBacks(less) + [GiveBack(last.id)];
      AboutLast(Callbacks(less), Callback(last.id), id);
      AboutLast(GiveBacks(less), GiveBack(last.id), id);
    }
  }

  lemma AboutLast(activity: seq<Activity>, last: Activity, id: nat)
    ensures About(activity + [last], id) == About(activity, id) + if last.message == id then [last] else []
  {
    assert (activity + [last])[..|activity|] == activity;
  }

  lemma AboutBatch(messages: seq<Message>, called: bool, id: nat)
    requires DistinctIds(messages)
    ensures About(BatchActivity(messages, called), id)
         == if Names(messages, id) then (if called then [Callback(id)] else []) + [GiveBack(id)] else []
  {
    AboutOnce(messages, id);
    AboutConcat(if called then Callbacks(messages) else [], GiveBacks(messages), id);
  }

  /** A message is among the first ones or among the others, not both. */
  lemma InOneBatch(first: seq<Message>, rest: seq<Message>, k: nat)
    requires DistinctIds(first + rest) && k < |first + rest|
    ensures DistinctIds(first) && DistinctIds(rest)
    ensures Names(first, (first + rest)[k].id) <==> k < |first|
  {
    var id := (first + rest)[k].id;
    NamesSplit(first, rest, id);
    if k < |first| {
      assert first[k].id == id;
    } else {
      assert rest[k - |first|].id == id;
    }
  }

  lemma {:induction false} NeverAboutOthers(inbox: seq<Message>, arrivals: seq<seq<Message>>, called: bool, id: nat)
    requires DistinctIds(EverArrived(inbox, arrivals)) && !Names(EverArrived(inbox, arrivals), id)
    ensures About(PollActivity(inbox, arrivals, called), id) == []
  {
    if arrivals != [] {
      var less, all := arrivals[..|arrivals| - 1], EverArrived(inbox, arrivals);
      var before := PolledCount(inbox, less);
      var share := Share(all, before);
      NamesSplit(EverArrived(inbox, less), arrivals[|arrivals| - 1], id);
      NeverAboutOthers(inbox, less, called, id);
      ShareNames(all, before, id);
      AboutBatch(share, called, id);
      AboutConcat(PollActivity(inbox, less, called), BatchActivity(share, called), id);
    }
  }

  lemma ShareNames(all: seq<Message>, count: nat, id: nat)
    requires DistinctIds(all) && count <= |all|
    ensures DistinctIds(Share(all, count))
    ensures Names(Share(all, count), id) ==> Names(all, id)
  {
    var share := Share(all, count);
    assert forall k :: 0 <= k < |share| ==> share[k] == all[count + k];
  }

  /** The next poll receives a message exactly if it is next. */
  lemma ShareAt(all: seq<Message>, count: nat, k: nat)
    requires DistinctIds(all) && count <= |all| && k < |all|
    ensures DistinctIds(Share(all, count))
    ensures Names(Share(all, count), all[k].id) <==> count <= k < count + |Share(all, count)|
  {
    var share := Share(all, count);
    assert forall j :: 0 <= j < |share| ==> share[j] == all[count + j];
    if count <= k < count + |share| {
      assert share[k - count].id == all[k].id;
    }
  }

  /** What it does with a message. */
  lemma AboutShare(all: seq<Message>, count: nat, called: bool, k: nat)
    requires DistinctIds(all) && count <= |all| && k < |all|
    ensures About(BatchActivity(Share(all, count), called), all[k].id)
         == if count <= k < count + |Share(all, count)|
            then (if called then [Callback(all[k].id)] else []) + [GiveBack(all[k].id)] else []
  {
    ShareAt(all, count, k);
    AboutBatch(Share(all, count), called, all[k].id);
  }

  /** What was done with a message before the last poll. */
  lemma AboutEarlier(inbox: seq<Message>, less: seq<seq<Message>>, last: seq<Message>, called: bool, k: nat)
    requires var all := EverArrived(inbox, less) + last; DistinctIds(all) && k < |all|
    requires k < |EverArrived(inbox, less)| ==>
               About(PollActivity(inbox, less, called), EverArrived(inbox, less)[k].id)
               == if k < PolledCount(inbox, less)
                  then (if called then [Callback(EverArrived(inbox, less)[k].id)] else [])
                       + [GiveBack(EverArrived(inbox, less)[k].id)]
                  else []
    ensures var id := (EverArrived(inbox, less) + last)[k].id;
            About(PollActivity(inbox, less, called), id)
            == if k < PolledCount(inbox, less) then (if called then [Callback(id)] else []) + [GiveBack(id)] else []
  {
    var earlier := EverArrived(inbox, less);
    if k >= |earlier| {
      InOneBatch(earlier, last, k);
      NeverAboutOthers(inbox, less, called, (earlier + last)[k].id);
    }
  }

  /** What all of some polls do with a message, by what all but the last have done. */
  lemma AboutLastPoll(inbox: seq<Message>, arrivals: seq<seq<Message>>, called: bool, k: nat)
    requires arrivals != []
    requires DistinctIds(EverArrived(inbox, arrivals)) && k < |EverArrived(inbox, arrivals)|
    ensures var less, id := arrivals[..|arrivals| - 1], EverArrived(inbox, arrivals)[k].id;
            var once := (if called then [Callback(id)] else []) + [GiveBack(id)];
            About(PollActivity(inbox, arrivals, called), id)
            == About(PollActivity(inbox, less, called), id)
               + if PolledCount(inbox, less) <= k < PolledCount(inbox, arrivals) then once else []
  {
    var less, all := arrivals[..|arrivals| - 1], EverArrived(inbox, arrivals);
    var share := Share(all, PolledCount(inbox, less));
    AboutShare(all, PolledCount(inbox, less), called, k);
    AboutConcat(PollActivity(inbox, less, called), BatchActivity(share, called), all[k].id);
  }

  /** Over any number of polls, with messages arriving in between, each message
      received is handled once and then given back once, in that order, and nothing
      happens to the others: nobody is handed a message that has been given back. */
  lemma {:induction false} HandledThenGivenBack(inbox: seq<Message>, arrivals: seq<seq<Message>>, called: bool, k: nat)
    requires DistinctIds(EverArrived(inbox, arrivals)) && k < |EverArrived(inbox, arrivals)|
    ensures var id := EverArrived(inbox, arrivals)[k].id;
            About(PollActivity(inbox, arrivals, called), id)
            == if k < PolledCount(inbox, arrivals) then (if called then [Callback(id)] else []) + [GiveBack(id)]
               else []
  {
    if arrivals != [] {
      var less, last := arrivals[..|arrivals| - 1], arrivals[|arrivals| - 1];
      var earlier := EverArrived(inbox, less);
      assert EverArrived(inbox, arrivals) == earlier + last;
      InOneBatch(earlier, last, k);
      if k < |earlier| {
        HandledThenGivenBack(inbox, less, called, k);
      }
      AboutEarlier(inbox, less, last, called, k);
      AboutLastPoll(inbox, arrivals, called, k);
    }
  }
}
