/** Publishing one business event: one message, built once, sent until the queue accepts it. */
module Publisher {
  import opened Outcomes
  import Retry

  datatype Message = Message(eventId: string, eventType: string, payload: string)

  /** One attempt: the queue's address is looked up, then the message is sent.  An error of the
      queue client says nothing about whether the message got through. */
  datatype Sending = Accepted | Unresolved | SendError(gotThrough: bool) | Unexpected

  function ClassifySending(s: Sending): Retry.Class {
    match s
    case Accepted => Retry.Answer
    case Unresolved => Retry.Transient
    case SendError(_) => Retry.Transient
    case Unexpected => Retry.Fatal
  }

  /** The messages that the attempts have put on the queue. */
  function Enqueued(calls: seq<(Message, Sending)>): seq<Message> {
    if calls == [] then []
    else
      var last := calls[|calls| - 1];
      Enqueued(calls[..|calls| - 1])
      + if last.1 == Accepted || last.1 == SendError(true) then [last.0] else []
  }

  lemma {:induction false} EnqueuedIsOneMessage(calls: seq<(Message, Sending)>, message: Message)
    requires forall i :: 0 <= i < |calls| ==> calls[i].0 == message
    ensures |Enqueued(calls)| <= |calls| && forall i :: 0 <= i < |Enqueued(calls)| ==> Enqueued(calls)[i] == message
    ensures calls != [] && calls[|calls| - 1].1 == Accepted ==> Enqueued(calls) != []
    decreases |calls|
  {
    if calls != [] {
      EnqueuedIsOneMessage(calls[..|calls| - 1], message);
    }
  }

  /** publish_event.  An id comes back exactly when the last attempt was accepted, and then the
      message is on the queue at least once and at most `attempts` times, always with that id;
      without an id it may still be there. */
  method PublishEvent(port: Retry.Port<Message, Sending>, eventId: string, eventType: string, payload: string,
                      attempts: int, baseDelay: real, multiplier: real, maxDelay: real)
      returns (r: Result<Option<string>>, ghost calls: seq<(Message, Sending)>)
    requires baseDelay >= 0.0 && multiplier >= 0.0 && maxDelay >= 0.0
    modifies port
    ensures port.log == old(port.log) + calls
    ensures |Enqueued(calls)| <= |calls| <= if attempts < 0 then 0 else attempts
    ensures forall i :: 0 <= i < |Enqueued(calls)| ==> Enqueued(calls)[i] == Message(eventId, eventType, payload)
    ensures r.Raised? <==> calls != [] && calls[|calls| - 1].1 == Unexpected
    ensures r.Ok? ==> r.value == if calls != [] && calls[|calls| - 1].1 == Accepted then Some(eventId) else None
    ensures r == Ok(Some(eventId)) ==> Enqueued(calls) != []
    ensures forall i :: 0 <= i < |calls| - 1 ==> calls[i].1 == Unresolved || calls[i].1.SendError?
  {
    var message := Message(eventId, eventType, payload);
    var verdict, sleeps;
    verdict, sleeps, calls := Retry.RetryWithBackoff(port, message, ClassifySending, attempts, baseDelay, multiplier,
                                                     maxDelay, true);
    EnqueuedIsOneMessage(calls, message);
    match verdict
    case Returned(_) => r := Ok(Some(eventId));
    case Reraised(_) => r := Raised;
    case Exhausted(_) => r := Ok(None);
  }

  /** A queue outage can leave the caller without an id although the message is there: two
      attempts, the first got through. */
  lemma NoIdAlthoughEnqueued() returns (message: Message, calls: seq<(Message, Sending)>)
    ensures Retry.Consumed(ClassifySending, 2, calls)
    ensures Retry.VerdictOf(ClassifySending, calls).Exhausted? && Enqueued(calls) == [message]
  {
    message := Message("e", "OrderPaid", "");
    calls := [(message, SendError(true)), (message, Unresolved)];
    assert calls[..1] == [(message, SendError(true))] && calls[..1][..0] == [];
    assert Enqueued(calls[..1]) == [message];
  }
}
