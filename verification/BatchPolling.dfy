/** Polling takes messages in bounded batches: 32 at a time in the server, 16 in
    the client. Repeated polling refines handling them one at a time. */
module BatchPolling {

  /** What one poll receives from a queue. */
  function Batch<M>(inbox: seq<M>, limit: nat): seq<M> {
    if |inbox| <= limit then inbox else inbox[..limit]
  }

  /** What is left in the queue after some polls. */
  ghost function Left<M>(inbox: seq<M>, limit: nat, polls: nat): seq<M> {
    if polls == 0 then inbox else Left(inbox[|Batch(inbox, limit)|..], limit, polls - 1)
  }

  /** The batches those polls received, one after the other. */
  ghost function Batches<M>(inbox: seq<M>, limit: nat, polls: nat): seq<M> {
    if polls == 0 then [] else
    var batch := Batch(inbox, limit);
    batch + Batches(inbox[|batch|..], limit, polls - 1)
  }

  /** How many messages some polls receive from a queue of a given length. */
  function Received(length: nat, limit: nat, polls: nat): nat {
    if polls * limit <= length then polls * limit else length
  }

  lemma ReceivedStep(length: nat, limit: nat, polls: nat)
    requires polls > 0
    ensures Received(length, limit, polls)
         == if length <= limit then length else limit + Received(length - limit, limit, polls - 1)
  {
    assert polls * limit == limit + (polls - 1) * limit;
    assert (polls - 1) * limit >= 0;
  }

  /** After any number of polls exactly the first so many messages have been
      received, in arrival order, each once. */
  lemma {:induction false} PollsTakePrefix<M>(inbox: seq<M>, limit: nat, polls: nat)
    ensures Batches(inbox, limit, polls) == inbox[..Received(|inbox|, limit, polls)]
    ensures Left(inbox, limit, polls) == inbox[Received(|inbox|, limit, polls)..]
  {
    if polls > 0 {
      ReceivedStep(|inbox|, limit, polls);
      var batch := Batch(inbox, limit);
      var rest := inbox[|batch|..];
      PollsTakePrefix(rest, limit, polls - 1);
      assert inbox == batch + rest;
      assert |inbox| <= limit ==> rest == [];
    }
  }

  /** A queue of n messages is drained by k polls if and only if k is at least n
      divided by the batch size, rounded up; by then all have been received. */
  lemma DrainedIff<M>(inbox: seq<M>, limit: nat, polls: nat)
    requires limit > 0
    ensures Left(inbox, limit, polls) == [] <==> polls >= (|inbox| + limit - 1) / limit
    ensures Left(inbox, limit, polls) == [] ==> Batches(inbox, limit, polls) == inbox
  {
    PollsTakePrefix(inbox, limit, polls);
    CeilingDivision(|inbox|, limit, polls);
  }

  lemma CeilingDivision(n: nat, limit: nat, k: nat)
    requires limit > 0
    ensures k * limit >= n <==> k >= (n + limit - 1) / limit
  {
    var q := (n + limit - 1) / limit;
    assert q * limit <= n + limit - 1 < (q + 1) * limit by {
      assert n + limit - 1 == q * limit + (n + limit - 1) % limit;
    }
    if k >= q {
      assert k * limit >= q * limit;
    } else {
      assert k * limit <= (q - 1) * limit;
    }
  }

  /** Handling messages one after the other. */
  ghost function HandleAll<S, M>(handle: (S, M) -> S, s: S, messages: seq<M>): S {
    if messages == [] then s
    else handle(HandleAll(handle, s, messages[..|messages| - 1]), messages[|messages| - 1])
  }

  lemma {:induction false} HandleAllAppend<S, M>(handle: (S, M) -> S, s: S, first: seq<M>, second: seq<M>)
    ensures HandleAll(handle, s, first + second) == HandleAll(handle, HandleAll(handle, s, first), second)
  {
    if second == [] {
      assert first + second == first;
    } else {
      HandleAllAppend(handle, s, first, second[..|second| - 1]);
      assert (first + second)[..|first + second| - 1] == first + second[..|second| - 1];
    }
  }

  /** Handling none leaves the state, handling one is handling it: with the lemma above
      this fixes the outcome for any number. */
  lemma HandleAllOne<S, M>(handle: (S, M) -> S, s: S, message: M)
    ensures HandleAll(handle, s, []) == s && HandleAll(handle, s, [message]) == handle(s, message)
  {
    assert [message][..0] == [];
  }

  /** Handling them a batch at a time, with something to finish after each batch. */
  ghost function PollAll<S, M>(handle: (S, M) -> S, finish: S -> S, s: S, inbox: seq<M>, limit: nat, polls: nat): S
    decreases polls
  {
    if polls == 0 then s else
    var batch := Batch(inbox, limit);
    PollAll(handle, finish, finish(HandleAll(handle, s, batch)), inbox[|batch|..], limit, polls - 1)
  }

  /** Handling cannot tell alike states apart, and finishing a batch leaves a state
      like the one before. */
  ghost predicate Unobserved<S(!new), M(!new)>(handle: (S, M) -> S, finish: S -> S, alike: (S, S) -> bool) {
    && (forall a, b, m :: alike(a, b) ==> alike(handle(a, m), handle(b, m)))
    && (forall a, b :: alike(a, b) ==> alike(finish(a), b))
  }

  lemma {:induction false} AlikeHandled<S(!new), M(!new)>(handle: (S, M) -> S, finish: S -> S, alike: (S, S) -> bool,
                                                          a: S, b: S, messages: seq<M>)
    requires Unobserved(handle, finish, alike) && alike(a, b)
    ensures alike(HandleAll(handle, a, messages), HandleAll(handle, b, messages))
  {
    if messages != [] {
      AlikeHandled(handle, finish, alike, a, b, messages[..|messages| - 1]);
    }
  }

  lemma {:induction false} PollsHandleBatches<S(!new), M(!new)>(handle: (S, M) -> S, finish: S -> S,
                                                                alike: (S, S) -> bool, a: S, b: S, inbox: seq<M>,
                                                                limit: nat, polls: nat)
    requires Unobserved(handle, finish, alike) && alike(a, b)
    ensures alike(PollAll(handle, finish, a, inbox, limit, polls),
                  HandleAll(handle, b, Batches(inbox, limit, polls)))
    decreases polls
  {
    if polls > 0 {
      var batch := Batch(inbox, limit);
      AlikeHandled(handle, finish, alike, a, b, batch);
      PollsHandleBatches(handle, finish, alike, finish(HandleAll(handle, a, batch)), HandleAll(handle, b, batch),
                         inbox[|batch|..], limit, polls - 1);
      HandleAllAppend(handle, b, batch, Batches(inbox[|batch|..], limit, polls - 1));
    }
  }

  /** Batching refines one-at-a-time handling, whatever handling a message does and
      whatever unobserved finishing comes after each batch: with enough polls to
      drain the queue, the outcome is like that of handing over every message in turn. */
  lemma PollingRefinesHandling<S(!new), M(!new)>(handle: (S, M) -> S, finish: S -> S, alike: (S, S) -> bool,
                                                 a: S, b: S, inbox: seq<M>, limit: nat, polls: nat)
    requires Unobserved(handle, finish, alike) && alike(a, b)
    requires limit > 0 && polls >= (|inbox| + limit - 1) / limit
    ensures Left(inbox, limit, polls) == []
    ensures alike(PollAll(handle, finish, a, inbox, limit, polls), HandleAll(handle, b, inbox))
  {
    DrainedIff(inbox, limit, polls);
    PollsHandleBatches(handle, finish, alike, a, b, inbox, limit, polls);
  }
}
