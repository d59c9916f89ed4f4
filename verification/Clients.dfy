/**
 The reliability stack around one remote dependency, composed in the order the clients
 compose it: bulkhead, then breaker, then retry, then the request; and the three clients that
 read its result: payment gateway, product service, payment service.
 */
module Clients {
  import opened Outcomes
  import opened Orders
  import StockRules
  import Retry
  import opened Breaker
  import opened Bulkheads

  /** How the stack ends.  Full and Refused are raised without sending anything. */
  datatype Guarded<R> = Full | Refused | Ran(verdict: Retry.Verdict<R>)

  datatype Policy = Policy(attempts: int, baseDelay: real, multiplier: real, maxDelay: real)

  ghost predicate Usable(p: Policy) {
    p.baseDelay >= 0.0 && p.multiplier >= 0.0 && p.maxDelay >= 0.0
  }

  /** The calls on the wire that go with an outcome of the stack. */
  ghost predicate Explains<Q, R>(classify: R -> Retry.Class, attempts: int, calls: seq<(Q, R)>, outcome: Guarded<R>) {
    match outcome
    case Full => calls == []
    case Refused => calls == []
    case Ran(verdict) => Retry.Consumed(classify, attempts, calls) && verdict == Retry.VerdictOf(classify, calls)
  }

  lemma SumNotNegative(xs: seq<real>)
    requires forall i :: 0 <= i < |xs| ==> xs[i] >= 0.0
    ensures Retry.Sum(xs) >= 0.0
    decreases |xs|
  {
    if xs != [] {
      SumNotNegative(xs[..|xs| - 1]);
    }
  }

  /** breaker.call(lambda: retry_with_backoff(...)).  `k` is where this call's attempt stands in
      the breaker's history; refused means that nothing was sent. */
  method BreakerCall<Q, R(0)>(breaker: CircuitBreaker, port: Retry.Port<Q, R>, request: Q, classify: R -> Retry.Class,
                              policy: Policy)
      returns (outcome: Guarded<R>, ghost calls: seq<(Q, R)>, ghost k: nat)
    requires breaker.Valid() && Usable(policy)
    modifies breaker, port
    ensures breaker.Valid() && !outcome.Full?
    ensures port.log == old(port.log) + calls
    ensures forall i :: 0 <= i < |calls| ==> calls[i].0 == request
    ensures Explains(classify, policy.attempts, calls, outcome)
    ensures old(breaker.history) <= breaker.history
    ensures |old(breaker.history)| <= k < |breaker.history| && breaker.history[k].Attempt?
    ensures outcome.Ran? <==> Admits(breaker.Bounds(), breaker.history[..k], breaker.history[k].at)
    ensures outcome.Ran? ==> k < |breaker.history| - 1
    ensures |calls| <= if Admits(breaker.Bounds(), breaker.history[..k], breaker.history[k].at) && policy.attempts > 0
                       then policy.attempts else 0
    ensures outcome.Ran? ==>
              if outcome.verdict.Returned? then Last(breaker.history).Success? else Last(breaker.history).Failure?
  {
    calls := [];
    breaker.Elapse(0.0);
    ghost var before := breaker.history;
    k := |before|;
    var admitted := breaker.BeforeCall();
    assert breaker.history[..k] == before;
    if !admitted {
      outcome := Refused;
      return;
    }
    ghost var entered := breaker.history;
    var verdict, sleeps;
    verdict, sleeps, calls := Retry.RetryWithBackoff(port, request, classify, policy.attempts,
                                                     policy.baseDelay, policy.multiplier, policy.maxDelay, true);
    SumNotNegative(sleeps);
    breaker.Elapse(Retry.Sum(sleeps));
    if verdict.Returned? {
      breaker.OnSuccess();
    } else {
      breaker.OnFailure();
    }
    assert entered <= breaker.history && breaker.history[..k] == before;
    outcome := Ran(verdict);
  }

  /** bulkhead.call(lambda: breaker.call(...)): the permit is given back whatever happened. */
  method GuardedCall<Q, R(0)>(bulkhead: Bulkhead, breaker: CircuitBreaker, port: Retry.Port<Q, R>, me: ThreadId,
                              request: Q, classify: R -> Retry.Class, policy: Policy)
      returns (outcome: Guarded<R>, ghost calls: seq<(Q, R)>, ghost k: nat)
    requires bulkhead.Valid() && me !in bulkhead.threads && breaker.Valid() && Usable(policy)
    modifies bulkhead, breaker, port
    ensures bulkhead.Valid() && me !in bulkhead.threads && breaker.Valid()
    ensures port.log == old(port.log) + calls
    ensures forall i :: 0 <= i < |calls| ==> calls[i].0 == request
    ensures Explains(classify, policy.attempts, calls, outcome)
    ensures old(breaker.history) <= breaker.history
    ensures !outcome.Full? ==> |old(breaker.history)| <= k < |breaker.history| && breaker.history[k].Attempt?
    ensures !outcome.Full? ==> (outcome.Ran? <==> Admits(breaker.Bounds(), breaker.history[..k], breaker.history[k].at))
    ensures outcome.Ran? ==> k < |breaker.history| - 1
    ensures outcome.Ran? ==>
              if outcome.verdict.Returned? then Last(breaker.history).Success? else Last(breaker.history).Failure?
  {
    calls, k := [], 0;
    var entered := bulkhead.Enter(me);
    if !entered {
      return Full, calls, k;
    }
    outcome, calls, k := BreakerCall(breaker, port, request, classify, policy);
    bulkhead.Leave(me);
  }

  /** What a peer sends back over HTTP, or does not.  `body` is the content as the answer the
      client expects, `detail` is what it gives as the reason of a refusal; either may not parse. */
  datatype Http<B> = Response(code: int, body: Option<B>, detail: Option<string>) | TimedOut | TransportError

  // ---- the payment gateway client ----

  datatype GatewayBody = GatewayBody(status: string, transactionId: Option<string>)
  datatype GatewayOutcome = GatewayOutcome(status: Status, transactionId: Option<string>)
  datatype ChargeRequest = ChargeRequest(order: int, cents: int, key: string)

  /** GatewayUnavailable: no answer, or a 5xx. */
  predicate Unavailable<B>(reply: Http<B>) {
    !reply.Response? || reply.code >= 500
  }

  /** An answer below 400 whose body is the JSON the client expects. */
  predicate Readable<B>(reply: Http<B>) {
    reply.Response? && reply.code < 400 && reply.body.Some?
  }

  predicate Rejected<B>(reply: Http<B>) {
    reply.Response? && 400 <= reply.code < 500
  }

  /** An answer below 400 that does not parse: the exception is nobody's to catch. */
  predicate Unreadable<B>(reply: Http<B>) {
    reply.Response? && reply.code < 400 && reply.body.None?
  }

  function ClassifyReply<B>(reply: Http<B>): Retry.Class {
    if Unavailable(reply) then Retry.Transient
    else if Readable(reply) then Retry.Answer
    else Retry.Fatal
  }

  function Digit(d: nat): char
    requires d < 10
  {
    ['0', '1', '2', '3', '4', '5', '6', '7', '8', '9'][d]
  }

  function Digits(n: nat): string {
    if n < 10 then [Digit(n)] else Digits(n / 10) + [Digit(n % 10)]
  }

  function Decimal(n: int): string {
    if n < 0 then "-" + Digits(-n) else Digits(n)
  }

  /** The idempotency key of an order's charge. */
  function KeyOf(order: int): string {
    "order-" + Decimal(order)
  }

  lemma {:induction false} DigitsInjective(a: nat, b: nat)
    requires Digits(a) == Digits(b)
    ensures a == b
  {
    var x, y := Digits(a), Digits(b);
    assert x[|x| - 1] == Digit(a % 10) && y[|y| - 1] == Digit(b % 10);
    if a >= 10 && b >= 10 {
      assert x[..|x| - 1] == Digits(a / 10) && y[..|y| - 1] == Digits(b / 10);
      DigitsInjective(a / 10, b / 10);
    } else {
      DigitsLength(a);
      DigitsLength(b);
    }
  }

  lemma DigitsLength(n: nat)
    ensures n >= 10 ==> |Digits(n)| >= 2
    ensures Digits(n)[0] != '-'
  {
  }

  lemma DecimalInjective(a: int, b: int)
    requires Decimal(a) == Decimal(b)
    ensures a == b
  {
    DigitsLength(if a < 0 then -a else a);
    DigitsLength(if b < 0 then -b else b);
    if a < 0 && b < 0 {
      assert Digits(-a) == Decimal(a)[1..] && Digits(-b) == Decimal(b)[1..];
      DigitsInjective(-a, -b);
    } else if a >= 0 && b >= 0 {
      DigitsInjective(a, b);
    }
  }

  /** The key spells the order's number out. */
  lemma KeyReads()
    ensures KeyOf(7) == "order-7" && KeyOf(120) == "order-120"
  {
    assert Digits(120) == Digits(12) + [Digit(0)] && Digits(12) == Digits(1) + [Digit(2)];
  }

  /** Two orders never share an idempotency key. */
  lemma KeysDistinct(a: int, b: int)
    requires KeyOf(a) == KeyOf(b)
    ensures a == b
  {
    assert Decimal(a) == KeyOf(a)[6..] && Decimal(b) == KeyOf(b)[6..];
    DecimalInjective(a, b);
  }

  ghost predicate AllButLast<Q, B>(calls: seq<(Q, Http<B>)>) {
    forall i :: 0 <= i < |calls| - 1 ==> Unavailable(calls[i].1)
  }

  ghost predicate LastReply<Q, B>(calls: seq<(Q, Http<B>)>, p: Http<B> -> bool) {
    calls != [] && AllButLast(calls) && p(calls[|calls| - 1].1)
  }

  ghost predicate NeverAnswered<Q, B>(calls: seq<(Q, Http<B>)>, attempts: int) {
    calls == [] || (|calls| == attempts && forall i :: 0 <= i < |calls| ==> Unavailable(calls[i].1))
  }

  predicate Approves(reply: Http<GatewayBody>) {
    Readable(reply) && reply.body.value.status == "SUCCESS"
  }

  /** gateway_client.charge.  The outcome is honest: it is what the last request was told after
      only unavailable ones, and UNKNOWN exactly when nothing was sent or nothing ever came
      back.  It raises only on a reply it cannot parse. */
  method ChargeGateway(bulkhead: Bulkhead, breaker: CircuitBreaker,
                       port: Retry.Port<ChargeRequest, Http<GatewayBody>>, me: ThreadId,
                       order: int, cents: int, policy: Policy)
      returns (r: Result<GatewayOutcome>, ghost calls: seq<(ChargeRequest, Http<GatewayBody>)>)
    requires bulkhead.Valid() && me !in bulkhead.threads && breaker.Valid() && Usable(policy)
    modifies bulkhead, breaker, port
    ensures bulkhead.Valid() && me !in bulkhead.threads && breaker.Valid()
    ensures port.log == old(port.log) + calls
    ensures |calls| <= if policy.attempts < 0 then 0 else policy.attempts
    ensures forall i :: 0 <= i < |calls| ==> calls[i].0 == ChargeRequest(order, cents, KeyOf(order))
    ensures r.Raised? <==> LastReply(calls, Unreadable)
    ensures r.Ok? ==> (r.value.status == SUCCESS <==> LastReply(calls, Approves))
    ensures r.Ok? ==> (r.value.status == FAILED <==>
                       LastReply(calls, reply => Rejected(reply) || (Readable(reply) && !Approves(reply))))
    ensures r.Ok? ==> (r.value.status == UNKNOWN <==> NeverAnswered(calls, policy.attempts))
    ensures r.Ok? ==> r.value.transactionId ==
                      if LastReply(calls, Readable) then calls[|calls| - 1].1.body.value.transactionId else None
    ensures LastReply(calls, Rejected) ==> breaker.history != [] && Last(breaker.history).Failure?
    ensures forall i :: 0 <= i < |calls| - 1 ==> !calls[i].1.Response? || calls[i].1.code >= 500
    ensures calls != [] && calls[|calls| - 1].1.Response? ==>
              var last := calls[|calls| - 1].1;
              && (last.code >= 500 ==> r == Ok(GatewayOutcome(UNKNOWN, None)))
              && (400 <= last.code < 500 ==> r == Ok(GatewayOutcome(FAILED, None)))
              && (last.code < 400 && last.body.None? ==> r == Raised)
              && (last.code < 400 && last.body.Some? ==>
                    r == Ok(GatewayOutcome(if last.body.value.status == "SUCCESS" then SUCCESS else FAILED,
                                           last.body.value.transactionId)))
    ensures calls == [] || !calls[|calls| - 1].1.Response? ==> r == Ok(GatewayOutcome(UNKNOWN, None))
  {
    var request := ChargeRequest(order, cents, KeyOf(order));
    var outcome;
    ghost var k;
    outcome, calls, k := GuardedCall(bulkhead, breaker, port, me, request, ClassifyReply, policy);
    match outcome
    case Full => r := Ok(GatewayOutcome(UNKNOWN, None));
    case Refused => r := Ok(GatewayOutcome(UNKNOWN, None));
    case Ran(Returned(reply)) =>
      var body := reply.body.value;
      r := Ok(GatewayOutcome(if body.status == "SUCCESS" then SUCCESS else FAILED, body.transactionId));
    case Ran(Reraised(reply)) =>
      r := if reply.code >= 400 then Ok(GatewayOutcome(FAILED, None)) else Raised;
    case Ran(Exhausted(_)) => r := Ok(GatewayOutcome(UNKNOWN, None));
  }

  // ---- the product service client ----

  type Line = StockRules.Item
  type PricedLine = StockRules.PricedLine

  datatype StockResult<B> =
    | Done(body: B)
    | ServiceError(code: int, detail: string)    // ProductServiceError
    | ServiceUnavailable                         // ProductServiceUnavailable
    | Crashed                                    // any other exception

  predicate Below400<B>(reply: Http<B>) {
    reply.Response? && reply.code < 400
  }

  /** A release has nothing to read in the answer. */
  function ClassifyRelease<B>(reply: Http<B>): Retry.Class {
    if Unavailable(reply) then Retry.Transient
    else if Below400(reply) then Retry.Answer
    else Retry.Fatal
  }

  predicate Explained<B>(reply: Http<B>) {
    Rejected(reply) && reply.detail.Some?
  }

  predicate Unexplained<B>(reply: Http<B>) {
    Rejected(reply) && reply.detail.None?
  }

  /** reserve of the product client: the same stack, with the request sent again after every
      reply that did not come. */
  method ReserveItems(bulkhead: Bulkhead, breaker: CircuitBreaker, port: Retry.Port<seq<Line>, Http<seq<PricedLine>>>,
                      me: ThreadId, items: seq<Line>, policy: Policy)
      returns (r: StockResult<seq<PricedLine>>, ghost calls: seq<(seq<Line>, Http<seq<PricedLine>>)>)
    requires bulkhead.Valid() && me !in bulkhead.threads && breaker.Valid() && Usable(policy)
    modifies bulkhead, breaker, port
    ensures bulkhead.Valid() && me !in bulkhead.threads && breaker.Valid()
    ensures port.log == old(port.log) + calls
    ensures |calls| <= if policy.attempts < 0 then 0 else policy.attempts
    ensures forall i :: 0 <= i < |calls| ==> calls[i].0 == items
    ensures r.Done? <==> LastReply(calls, Readable)
    ensures r.Done? ==> calls[|calls| - 1].1.body == Some(r.body)
    ensures r.ServiceError? <==> LastReply(calls, Explained)
    ensures r.ServiceError? ==> calls[|calls| - 1].1.code == r.code && calls[|calls| - 1].1.detail == Some(r.detail)
    ensures r.ServiceUnavailable? <==> NeverAnswered(calls, policy.attempts)
    ensures r.Crashed? <==> LastReply(calls, Unreadable) || LastReply(calls, Unexplained)
    ensures calls != [] && calls[|calls| - 1].1.Response? ==>
              var last := calls[|calls| - 1].1;
              && (last.code >= 500 ==> r == ServiceUnavailable)
              && (400 <= last.code < 500 ==>
                    r == if last.detail.Some? then ServiceError(last.code, last.detail.value) else Crashed)
              && (last.code < 400 ==> r == if last.body.Some? then Done(last.body.value) else Crashed)
    ensures r.ServiceError? ==> breaker.history != [] && Last(breaker.history).Failure?
  {
    var outcome;
    ghost var k;
    outcome, calls, k := GuardedCall(bulkhead, breaker, port, me, items, ClassifyReply, policy);
    match outcome
    case Full => r := ServiceUnavailable;
    case Refused => r := ServiceUnavailable;
    case Ran(Returned(reply)) => r := Done(reply.body.value);
    case Ran(Reraised(reply)) =>
      r := if reply.code >= 400 && reply.detail.Some? then ServiceError(reply.code, reply.detail.value) else Crashed;
    case Ran(Exhausted(_)) => r := ServiceUnavailable;
  }

  /** release of the product client: any answer below 400 will do. */
  method ReleaseItems(bulkhead: Bulkhead, breaker: CircuitBreaker, port: Retry.Port<seq<Line>, Http<()>>,
                      me: ThreadId, items: seq<Line>, policy: Policy)
      returns (r: StockResult<()>, ghost calls: seq<(seq<Line>, Http<()>)>)
    requires bulkhead.Valid() && me !in bulkhead.threads && breaker.Valid() && Usable(policy)
    modifies bulkhead, breaker, port
    ensures bulkhead.Valid() && me !in bulkhead.threads && breaker.Valid()
    ensures port.log == old(port.log) + calls
    ensures |calls| <= if policy.attempts < 0 then 0 else policy.attempts
    ensures forall i :: 0 <= i < |calls| ==> calls[i].0 == items
    ensures r.Done? <==> LastReply(calls, Below400)
    ensures r.ServiceError? <==> LastReply(calls, Explained)
    ensures r.ServiceError? ==> calls[|calls| - 1].1.code == r.code && calls[|calls| - 1].1.detail == Some(r.detail)
    ensures r.ServiceUnavailable? <==> NeverAnswered(calls, policy.attempts)
    ensures r.Crashed? <==> LastReply(calls, Unexplained)
    ensures calls != [] && calls[|calls| - 1].1.Response? ==>
              var last := calls[|calls| - 1].1;
              && (last.code >= 500 ==> r == ServiceUnavailable)
              && (400 <= last.code < 500 ==>
                    r == if last.detail.Some? then ServiceError(last.code, last.detail.value) else Crashed)
              && (last.code < 400 ==> r == Done(()))
  {
    var outcome;
    ghost var k;
    outcome, calls, k := GuardedCall(bulkhead, breaker, port, me, items, ClassifyRelease, policy);
    match outcome
    case Full => r := ServiceUnavailable;
    case Refused => r := ServiceUnavailable;
    case Ran(Returned(_)) => r := Done(());
    case Ran(Reraised(reply)) =>
      r := if reply.detail.Some? then ServiceError(reply.code, reply.detail.value) else Crashed;
    case Ran(Exhausted(_)) => r := ServiceUnavailable;
  }

  // ---- the payment service client ----

  datatype PaymentResult = PaymentResult(status: Status, transactionId: string)

  /** A 4xx from the payment service is retried like a 5xx. */
  function ClassifyPayment(reply: Http<PaymentResult>): Retry.Class {
    if Unavailable(reply) || Rejected(reply) then Retry.Transient
    else if Readable(reply) then Retry.Answer
    else Retry.Fatal
  }

  /** payment_client.charge: whatever is not a readable answer becomes UNKNOWN, so the order
      side reads FAILED only when the payment service said so. */
  method ChargePayment(bulkhead: Bulkhead, breaker: CircuitBreaker, port: Retry.Port<(int, int), Http<PaymentResult>>,
                       me: ThreadId, order: int, cents: int, policy: Policy)
      returns (r: Result<PaymentResult>, ghost calls: seq<((int, int), Http<PaymentResult>)>)
    requires bulkhead.Valid() && me !in bulkhead.threads && breaker.Valid() && Usable(policy)
    modifies bulkhead, breaker, port
    ensures bulkhead.Valid() && me !in bulkhead.threads && breaker.Valid()
    ensures port.log == old(port.log) + calls
    ensures |calls| <= if policy.attempts < 0 then 0 else policy.attempts
    ensures forall i :: 0 <= i < |calls| ==> calls[i].0 == (order, cents)
    ensures r.Raised? <==> calls != [] && Unreadable(calls[|calls| - 1].1)
    ensures r.Ok? ==> if calls != [] && Readable(calls[|calls| - 1].1)
                      then r.value == calls[|calls| - 1].1.body.value
                      else r.value == PaymentResult(UNKNOWN, "")
    ensures calls != [] && calls[|calls| - 1].1.Response? ==>
              var last := calls[|calls| - 1].1;
              && (last.code >= 400 ==> r == Ok(PaymentResult(UNKNOWN, "")))
              && (last.code < 400 ==> r == if last.body.Some? then Ok(last.body.value) else Raised)
  {
    var outcome;
    ghost var k;
    outcome, calls, k := GuardedCall(bulkhead, breaker, port, me, (order, cents), ClassifyPayment, policy);
    match outcome
    case Full => r := Ok(PaymentResult(UNKNOWN, ""));
    case Refused => r := Ok(PaymentResult(UNKNOWN, ""));
    case Ran(Returned(reply)) => r := Ok(reply.body.value);
    case Ran(Reraised(_)) => r := Raised;
    case Ran(Exhausted(_)) => r := Ok(PaymentResult(UNKNOWN, ""));
  }
}
