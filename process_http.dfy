/**
 * The HTTP side of laminar_floating_point_error/process.py: the bounded
 * retry around every request (retry_request) and the status poll that
 * waits for a submitted pipeline (wait_for_pipeline_completion), with the
 * registry of pipelines in flight that the interrupt handler cancels.
 * Replies are given as data: `reply(k)` is what the k-th call (from 1)
 * of the request function yields.
 */
module ProcessHttp {
  import opened Wrappers
  import opened Json
  import opened Interrupt

  const MaxRetries: nat := 5

  /** One call of the request function. */
  datatype Reply =
    | Response(status: int, body: Value)  // a response, with its parsed JSON body
    | RequestFailure                      // a requests exception (connection, timeout, ...)
    | OtherFailure                        // any other exception

  /** `raise_for_status` raises for 4xx and 5xx codes. */
  predicate HttpError(status: int) { 400 <= status < 600 }

  /** The failures the retry loop catches: requests exceptions, HTTPError included. */
  predicate Retryable(r: Reply) { r.RequestFailure? || (r.Response? && HttpError(r.status)) }

  datatype Retried =
    | Returned(body: Value)  // the first response that passed raise_for_status
    | RaisedRequest          // the last requests exception, re-raised after the last attempt
    | RaisedOther            // an exception the loop does not catch

  /** The outcome and the number of calls made, from attempt `attempt` on. */
  function RetryFrom(reply: nat -> Reply, attempt: nat): (Retried, nat)
    requires 1 <= attempt <= MaxRetries
    decreases MaxRetries - attempt
  {
    var r := reply(attempt);
    if r.OtherFailure? then (RaisedOther, attempt)
    else if !Retryable(r) then (Returned(r.body), attempt)
    else if attempt == MaxRetries then (RaisedRequest, attempt)
    else RetryFrom(reply, attempt + 1)
  }

  function Retry(reply: nat -> Reply): (Retried, nat) { RetryFrom(reply, 1) }

  /** retry_request */
  method RetryRequest(reply: nat -> Reply) returns (r: Retried, calls: nat)
    ensures (r, calls) == Retry(reply)
  {
    var attempt := 1;
    while attempt <= MaxRetries
      invariant 1 <= attempt <= MaxRetries + 1
      invariant attempt <= MaxRetries ==> Retry(reply) == RetryFrom(reply, attempt)
      invariant attempt == MaxRetries + 1 ==> Retry(reply) == (RaisedRequest, MaxRetries)
    {
      var response := reply(attempt);
      if response.OtherFailure? {
        return RaisedOther, attempt;
      }
      if !Retryable(response) {
        return Returned(response.body), attempt;
      }
      attempt := attempt + 1;
    }
    return RaisedRequest, MaxRetries;
  }

  /**
   * At most MaxRetries calls; every call before the last failed with a
   * requests exception or an HTTP error; the result is the last call's
   * response when it passed, the last call's exception when it was of
   * another kind, and the requests failure only after MaxRetries of them.
   */
  lemma {:induction false} RetryOutcome(reply: nat -> Reply)
    ensures var (r, calls) := Retry(reply);
      1 <= calls <= MaxRetries
      && (forall j :: 1 <= j < calls ==> Retryable(reply(j)))
      && (r.Returned? <==> reply(calls).Response? && !HttpError(reply(calls).status))
      && (r.Returned? ==> r.body == reply(calls).body)
      && (r.RaisedOther? <==> reply(calls).OtherFailure?)
      && (r.RaisedRequest? <==> Retryable(reply(calls)))
      && (r.RaisedRequest? ==> calls == MaxRetries)
  {
    RetryFromOutcome(reply, 1);
  }

  lemma {:induction false} RetryFromOutcome(reply: nat -> Reply, attempt: nat)
    requires 1 <= attempt <= MaxRetries
    ensures var (r, calls) := RetryFrom(reply, attempt);
      attempt <= calls <= MaxRetries
      && (forall j :: attempt <= j < calls ==> Retryable(reply(j)))
      && (r.Returned? <==> reply(calls).Response? && !HttpError(reply(calls).status))
      && (r.Returned? ==> r.body == reply(calls).body)
      && (r.RaisedOther? <==> reply(calls).OtherFailure?)
      && (r.RaisedRequest? <==> Retryable(reply(calls)))
      && (r.RaisedRequest? ==> calls == MaxRetries)
    decreases MaxRetries - attempt
  {
    if Retryable(reply(attempt)) && attempt < MaxRetries {
      RetryFromOutcome(reply, attempt + 1);
    }
  }

  /** The pipelines in flight, by worker thread: what the interrupt handler cancels. */
  class Registry {
    var active: map<nat, (Value, string)>

    constructor ()
      ensures active == map[]
    {
      active := map[];
    }

    method Register(thread: nat, cacheId: Value, title: string)
      modifies this
      ensures active == old(active)[thread := (cacheId, title)]
    {
      active := active[thread := (cacheId, title)];
    }

    /** The `finally` clause: drop the entry if it is there. */
    method Unregister(thread: nat)
      modifies this
      ensures active == old(active) - {thread}
    {
      if thread in active {
        active := active - {thread};
      }
    }
  }

  const InterruptedStatus: string := "INTERRUPTED"
  const InterruptedDetail: string := "Processing interrupted by user"

  datatype Waited =
    | Finished(status: Value, error: Value)  // the (status, error) pair returned
    | Raised                                 // an exception left the loop
    | PollLimit                              // the model's bound on polls ran out

  /** What one status reply means: None to keep polling, else the pair returned. */
  function StatusReply(body: Value): (r: Option<(Value, Value)>)
    requires body.Obj?
    ensures r.None? <==> Get(body, "pipeline_status", Str("UNKNOWN")) == Str("SENT")
    ensures r.Some? ==> r.value.1 == At(body, "error")
  {
    var status := Get(body, "pipeline_status", Str("UNKNOWN"));
    var error := At(body, "error");
    if status == Str("SUCCESS") then
      if Truthy(error) then Some((Str("ERROR_WITH_SUCCESS"), error)) else Some((Str("SUCCESS"), error))
    else if status == Str("SENT") then None
    else Some((status, error))
  }

  /**
   * The poll loop from its `poll`-th status request on, with the flag read
   * numbered `read` next; `fuel` bounds the number of polls.
   */
  function Poll(replies: nat -> nat -> Reply, s: Shutdown, read: nat, poll: nat, fuel: nat): (Waited, nat)
    decreases fuel
  {
    if IsSet(s, read) then (Finished(Str(InterruptedStatus), Str(InterruptedDetail)), read + 1)
    else if fuel == 0 then (PollLimit, read + 1)
    else
      var r := Retry(replies(poll)).0;
      if !r.Returned? || !r.body.Obj? then
        (if IsSet(s, read + 1) then Finished(Str(InterruptedStatus), Str(InterruptedDetail)) else Raised, read + 2)
      else match StatusReply(r.body)
        case Some((status, error)) => (Finished(status, error), read + 1)
        case None => Poll(replies, s, read + 1, poll + 1, fuel - 1)
  }

  /**
   * wait_for_pipeline_completion, run by worker `thread`: registers the
   * pipeline, polls until a final status, an exception or the shutdown
   * flag, and always removes the registration on the way out.
   */
  method WaitForCompletion(registry: Registry, thread: nat, cacheId: Value, title: string,
                           replies: nat -> nat -> Reply, s: Shutdown, read: nat, fuel: nat)
    returns (w: Waited, read': nat)
    modifies registry
    ensures (w, read') == Poll(replies, s, read, 0, fuel)
    ensures registry.active == old(registry.active) - {thread}
  {
    registry.Register(thread, cacheId, title);
    var poll := 0;
    var left := fuel;
    read' := read;
    while true
      invariant poll + left == fuel
      invariant registry.active == old(registry.active)[thread := (cacheId, title)]
      invariant Poll(replies, s, read, 0, fuel) == Poll(replies, s, read', poll, left)
      decreases left
    {
      if IsSet(s, read') {
        read' := read' + 1;
        w := Finished(Str(InterruptedStatus), Str(InterruptedDetail));
        break;
      }
      read' := read' + 1;
      if left == 0 {
        w := PollLimit;
        break;
      }
      var r, _ := RetryRequest(replies(poll));
      if !r.Returned? || !r.body.Obj? {
        w := if IsSet(s, read') then Finished(Str(InterruptedStatus), Str(InterruptedDetail)) else Raised;
        read' := read' + 1;
        break;
      }
      var next := StatusReply(r.body);
      if next.Some? {
        w := Finished(next.value.0, next.value.1);
        break;
      }
      poll := poll + 1;
      left := left - 1;
    }
    registry.Unregister(thread);
  }

  /** The status request of poll `k` returned a JSON object whose status is "SENT". */
  predicate SentAt(replies: nat -> nat -> Reply, k: nat)
  {
    var r := Retry(replies(k)).0;
    r.Returned? && r.body.Obj? && Get(r.body, "pipeline_status", Str("UNKNOWN")) == Str("SENT")
  }

  /**
   * The status request of poll `k` returned a JSON object with a final
   * status, and `w` is the pair the loop returns for it: "SUCCESS" with a
   * truthy error becomes "ERROR_WITH_SUCCESS", any other status but
   * "SENT" is passed through, and the error is the reply's own.
   */
  predicate FinalAt(replies: nat -> nat -> Reply, k: nat, w: Waited)
  {
    var r := Retry(replies(k)).0;
    r.Returned? && r.body.Obj? && w.Finished?
    && var status := Get(r.body, "pipeline_status", Str("UNKNOWN"));
    var error := At(r.body, "error");
    status != Str("SENT") && w.error == error
    && (status == Str("SUCCESS") && Truthy(error) ==> w.status == Str("ERROR_WITH_SUCCESS"))
    && (status == Str("SUCCESS") && !Truthy(error) ==> w.status == Str("SUCCESS"))
    && (status != Str("SUCCESS") ==> w.status == status)
  }

  /**
   * The status mapping: "SENT" is never returned, "SUCCESS" only without an
   * error message; a flag seen set at the loop test returns "INTERRUPTED",
   * and an exception is re-raised only when the flag is clear in the handler.
   */
  lemma {:induction false} PollOutcome(replies: nat -> nat -> Reply, s: Shutdown, read: nat, poll: nat, fuel: nat)
    ensures var (w, read') := Poll(replies, s, read, poll, fuel);
      read' > read
      && (w.Finished? ==> w.status != Str("SENT"))
      && (w.Finished? && w.status == Str("SUCCESS") ==> !Truthy(w.error))
      && (IsSet(s, read) ==> w == Finished(Str(InterruptedStatus), Str(InterruptedDetail)))
      && (w.Raised? ==> !IsSet(s, read' - 1))
    decreases fuel
  {
    if !IsSet(s, read) && fuel > 0 {
      var r := Retry(replies(poll)).0;
      if r.Returned? && r.body.Obj? && StatusReply(r.body).None? {
        PollOutcome(replies, s, read + 1, poll + 1, fuel - 1);
      }
    }
  }

  /** A "SENT" reply moves the loop on to the next poll. */
  lemma PollSent(replies: nat -> nat -> Reply, s: Shutdown, read: nat, poll: nat, fuel: nat)
    requires !IsSet(s, read) && fuel > 0
    requires Retry(replies(poll)).0.Returned? && Retry(replies(poll)).0.body.Obj?
    requires StatusReply(Retry(replies(poll)).0.body).None?
    ensures SentAt(replies, poll)
    ensures Poll(replies, s, read, poll, fuel) == Poll(replies, s, read + 1, poll + 1, fuel - 1)
  {
  }

  /** A reply with any other status ends the loop with its mapped pair. */
  lemma PollAnswered(replies: nat -> nat -> Reply, s: Shutdown, read: nat, poll: nat, fuel: nat)
    requires !IsSet(s, read) && fuel > 0
    requires Retry(replies(poll)).0.Returned? && Retry(replies(poll)).0.body.Obj?
    requires StatusReply(Retry(replies(poll)).0.body).Some?
    ensures Poll(replies, s, read, poll, fuel).1 == read + 1
    ensures FinalAt(replies, poll, Poll(replies, s, read, poll, fuel).0)
    ensures !SentAt(replies, poll)
  {
  }

  /** The first poll from `poll` on, within `fuel` polls, whose reply is not a "SENT" object. */
  function FirstAnswer(replies: nat -> nat -> Reply, poll: nat, fuel: nat): (k: nat)
    ensures poll <= k <= poll + fuel
    decreases fuel
  {
    if fuel > 0 && SentAt(replies, poll) then FirstAnswer(replies, poll + 1, fuel - 1) else poll
  }

  /** Every reply before the first answer is a "SENT" object. */
  lemma {:induction false} FirstAnswerSent(replies: nat -> nat -> Reply, poll: nat, fuel: nat)
    ensures forall j :: poll <= j < FirstAnswer(replies, poll, fuel) ==> SentAt(replies, j)
    ensures FirstAnswer(replies, poll, fuel) < poll + fuel ==> !SentAt(replies, FirstAnswer(replies, poll, fuel))
    decreases fuel
  {
    if fuel > 0 && SentAt(replies, poll) {
      FirstAnswerSent(replies, poll + 1, fuel - 1);
    }
  }

  /** A pair returned with the flag set at the last read is the "INTERRUPTED" pair. */
  lemma {:induction false} PollInterrupted(replies: nat -> nat -> Reply, s: Shutdown, read: nat, poll: nat, fuel: nat)
    ensures Poll(replies, s, read, poll, fuel).1 > read
    ensures var (w, read') := Poll(replies, s, read, poll, fuel);
      w.Finished? && IsSet(s, read' - 1) ==> w == Finished(Str(InterruptedStatus), Str(InterruptedDetail))
    decreases fuel
  {
    PollOutcome(replies, s, read, poll, fuel);
    if !IsSet(s, read) && fuel > 0 {
      var r := Retry(replies(poll)).0;
      if r.Returned? && r.body.Obj? && StatusReply(r.body).None? {
        PollSent(replies, s, read, poll, fuel);
        PollInterrupted(replies, s, read + 1, poll + 1, fuel - 1);
      }
    }
  }

  /**
   * Where any other returned pair comes from: the mapping of the reply of
   * the first poll whose status is not "SENT" (FirstAnswerSent: every
   * earlier reply is "SENT").
   */
  lemma {:induction false} PollFinal(replies: nat -> nat -> Reply, s: Shutdown, read: nat, poll: nat, fuel: nat)
    ensures Poll(replies, s, read, poll, fuel).1 > read
    ensures var (w, read') := Poll(replies, s, read, poll, fuel);
      w.Finished? && !IsSet(s, read' - 1) ==>
        FirstAnswer(replies, poll, fuel) < poll + fuel && FinalAt(replies, FirstAnswer(replies, poll, fuel), w)
    decreases fuel
  {
    PollOutcome(replies, s, read, poll, fuel);
    if !IsSet(s, read) && fuel > 0 {
      var r := Retry(replies(poll)).0;
      if r.Returned? && r.body.Obj? {
        if StatusReply(r.body).None? {
          PollSent(replies, s, read, poll, fuel);
          PollFinal(replies, s, read + 1, poll + 1, fuel - 1);
        } else {
          PollAnswered(replies, s, read, poll, fuel);
        }
      }
    }
  }
}
