/**
 The two programs of the order service that move stock: create_order and cancel_order.  Each
 statement that touches shared state is one action of the ledger system, and between any two
 of them everybody else, requests already sent included, may act.
 */
module OrderPrograms {
  import opened Outcomes
  import opened Orders
  import opened StockRules
  import opened Ledger

  predicate By(a: Action, f: nat, t: ThreadId) {
    a.At? && a.f == f && !a.step.Serve? && !a.step.ServeNot? && a.step.t == t
  }

  lemma {:induction false} Split(s: Sys, a: seq<Action>, b: seq<Action>)
    requires Feasible(s, a + b)
    ensures Feasible(s, a) && Feasible(Exec(s, a), b) && Exec(s, a + b) == Exec(Exec(s, a), b)
    decreases |a|
  {
    if a == [] {
      assert a + b == b;
    } else {
      assert (a + b)[1..] == a[1..] + b;
      Split(Apply(s, a[0]), a[1..], b);
    }
  }

  /** What a thread keeps while others act.  Nobody else can touch an order not committed yet,
      and a request comes back fine only by being applied. */
  ghost predicate Kept(flow: Flow, flow': Flow, t: ThreadId)
    requires t in flow.threads
  {
    && t in flow'.threads && flow'.threads[t] == flow.threads[t] && flow'.items == flow.items
    && flow'.reserved >= flow.reserved && flow'.released >= flow.released
    && (flow.order == None && flow.threads.Keys == {t} ==> flow'.order == None && flow'.threads.Keys == {t})
    && (flow.order.Some? ==> flow'.order.Some?)
    && (Waits(flow.threads[t].pc) && flow.threads[t].pc.request.value in flow.requests ==>
          RequestKept(flow, flow', flow.threads[t].pc.request.value))
  }

  ghost predicate RequestKept(flow: Flow, flow': Flow, r: RequestId)
    requires r in flow.requests
  {
    && r in flow'.requests && flow'.requests[r].kind == flow.requests[r].kind
    && (flow.requests[r].reply.Underway? && flow'.requests[r].reply.Fine? ==>
          if flow.requests[r].kind == Reserving then flow'.reserved > flow.reserved else flow'.released > flow.released)
    && (!flow.requests[r].reply.Underway? ==> flow'.requests[r] == flow.requests[r])
  }

  lemma StepKeepsRequest(stock: map<int, int>, flow: Flow, step: Step, r: RequestId)
    requires Can(flow, step) && r in flow.requests
    requires step.Read? ==> flow.threads[step.t].pc.request.value != r
    ensures RequestKept(flow, FlowAfter(stock, flow, step), r)
  {
    StepFrame(stock, flow, step, r);
  }

  /** A step of somebody else on the same order. */
  lemma FlowKept(stock: map<int, int>, flow: Flow, step: Step, t: ThreadId)
    requires Can(flow, step) && t in flow.threads && Backed(flow) && !(ByThread(step) && step.t == t)
             && !(step.Cancel? && step.t == t)
    ensures Kept(flow, FlowAfter(stock, flow, step), t)
  {
    var pc := flow.threads[t].pc;
    assert ThreadBacked(flow, t);
    CountsGrow(stock, flow, step);
    if Waits(pc) && pc.request.value in flow.requests {
      if step.Read? {
        assert flow.threads[step.t].pc.request.value != pc.request.value;
      }
      StepKeepsRequest(stock, flow, step, pc.request.value);
    }
  }

  lemma StepKept(s: Sys, a: Action, f: nat, t: ThreadId)
    requires Enabled(s, a) && f < |s.flows| && t in s.flows[f].threads && Backed(s.flows[f]) && !By(a, f, t)
    ensures f < |Apply(s, a).flows| && Kept(s.flows[f], Apply(s, a).flows[f], t) && Backed(Apply(s, a).flows[f])
  {
    if a.At? && a.f == f {
      FlowKept(s.stock, s.flows[f], a.step, t);
      StepBacked(s.stock, s.flows[f], a.step);
    }
  }

  lemma {:induction false} OthersKeep(s: Sys, acts: seq<Action>, f: nat, t: ThreadId)
    requires Feasible(s, acts) && f < |s.flows| && t in s.flows[f].threads && Backed(s.flows[f])
    requires forall i :: 0 <= i < |acts| ==> !By(acts[i], f, t)
    ensures f < |Exec(s, acts).flows| && Kept(s.flows[f], Exec(s, acts).flows[f], t)
    decreases |acts|
  {
    if acts != [] {
      StepKept(s, acts[0], f, t);
      OthersKeep(Apply(s, acts[0]), acts[1..], f, t);
    }
  }

  /** Requests that the thread has sent in the run. */
  function Sends(acts: seq<Action>, f: nat, t: ThreadId): nat {
    if acts == [] then 0
    else
      var last := acts[|acts| - 1];
      Sends(acts[..|acts| - 1], f, t) + if last.At? && last.f == f && last.step.Send? && last.step.t == t then 1 else 0
  }

  lemma OneMoreSent(acts: seq<Action>, a: Action, f: nat, t: ThreadId)
    ensures Sends(acts + [a], f, t)
            == Sends(acts, f, t) + if a.At? && a.f == f && a.step.Send? && a.step.t == t then 1 else 0
  {
    assert (acts + [a])[..|acts + [a]| - 1] == acts;
  }

  lemma {:induction false} OthersSendNothing(acts: seq<Action>, n: nat, f: nat, t: ThreadId)
    requires n <= |acts| && forall i :: n <= i < |acts| ==> !By(acts[i], f, t)
    ensures Sends(acts, f, t) == Sends(acts[..n], f, t)
    decreases |acts|
  {
    if n == |acts| {
      assert acts[..n] == acts;
    } else {
      assert acts[..|acts| - 1][..n] == acts[..n];
      OthersSendNothing(acts[..|acts| - 1], n, f, t);
    }
  }

  /** How a call of the product client ends for the order service. */
  datatype Called = Done | Rejected | Unreachable

  function AfterCall(thread: Thread, r: Called): Pc {
    match r
    case Done =>
      if thread.pc.Reserve? then CommitNew else Settle(if thread.cancelling then CANCELLED else PAYMENT_FAILED, false)
    case Rejected => Finished
    case Unreachable => if thread.pc.Release? && !thread.cancelling then Settle(PAYMENT_FAILED, true) else Finished
  }

  /** create_order ends with an order, or with an HTTP error that leaves none, or fails on the way. */
  datatype Creation = Placed(f: nat, status: OrderStatus) | Refusal | NoProductService | Failure

  /** NotRecorded: the release was applied and the commit of the status raised. */
  datatype Cancellation = Cancelled | NoSuchOrder | Conflict | ReleaseRefused | NoAnswer | NotRecorded

  class OrderService {
    var sys: Sys
    ghost var baseline: map<int, int>
    ghost var trace: seq<Action>

    ghost predicate Valid()
      reads this
    {
      Feasible(Sys(baseline, []), trace) && sys == Exec(Sys(baseline, []), trace)
    }

    ghost predicate Here(f: nat, thread: Thread, t: ThreadId)
      reads this
    {
      f < |sys.flows| && t in sys.flows[f].threads && sys.flows[f].threads[t] == thread
    }

    /** Both counts only ever grow. */
    ghost predicate Grown(was: Flow, f: nat)
      reads this
    {
      f < |sys.flows| && sys.flows[f].reserved >= was.reserved && sys.flows[f].released >= was.released
    }

    method Do(a: Action)
      requires Valid() && Enabled(sys, a)
      modifies `sys, `trace
      ensures Valid() && trace == old(trace) + [a] && sys == Apply(old(sys), a)
    {
      Append(Sys(baseline, []), trace, a);
      trace := trace + [a];
      sys := Apply(sys, a);
    }

    /** Everybody else acts; the body takes no step, callers only know the contract. */
    method Others(f: nat, t: ThreadId)
      requires Valid()
      modifies `sys, `trace
      ensures Valid() && old(trace) <= trace
      ensures forall i :: |old(trace)| <= i < |trace| ==> !By(trace[i], f, t)
    {
    }

    method Await(f: nat, t: ThreadId)
      requires Valid() && f < |sys.flows| && t in sys.flows[f].threads
      modifies `sys, `trace
      ensures Valid() && old(trace) <= trace
      ensures f < |sys.flows| && Kept(old(sys).flows[f], sys.flows[f], t) && Backed(sys.flows[f])
      ensures Sends(trace, f, t) == Sends(old(trace), f, t)
    {
      ghost var before := trace;
      RunBacked(Sys(baseline, []), before);
      Others(f, t);
      assert trace == before + trace[|before|..];
      OthersSendNothing(trace, |before|, f, t);
      Split(Sys(baseline, []), before, trace[|before|..]);
      OthersKeep(Exec(Sys(baseline, []), before), trace[|before|..], f, t);
      RunBacked(Sys(baseline, []), trace);
    }

    /** Send one request and wait.  If it is answered fine by then, it has been applied. */
    method SendAndWait(f: nat, t: ThreadId) returns (request: RequestId)
      requires Valid() && f < |sys.flows| && t in sys.flows[f].threads
      requires sys.flows[f].threads[t].pc == Reserve(None) || sys.flows[f].threads[t].pc == Release(None)
      modifies `sys, `trace
      ensures Valid() && old(trace) <= trace && Grown(old(sys).flows[f], f)
      ensures var thread := old(sys).flows[f].threads[t];
              && Here(f, thread.(pc := if thread.pc.Reserve? then Reserve(Some(request)) else Release(Some(request))), t)
              && request in sys.flows[f].requests
              && (sys.flows[f].requests[request].reply.Fine? ==>
                    if thread.pc.Reserve? then sys.flows[f].reserved > old(sys).flows[f].reserved
                    else sys.flows[f].released > old(sys).flows[f].released)
      ensures old(sys).flows[f].order == None && old(sys).flows[f].threads.Keys == {t} ==>
                sys.flows[f].order == None && sys.flows[f].threads.Keys == {t}
      ensures old(sys).flows[f].order.Some? ==> sys.flows[f].order.Some?
      ensures Sends(trace, f, t) == Sends(old(trace), f, t) + 1
      ensures sys.flows[f].items == old(sys).flows[f].items
    {
      request := NewId(sys.flows[f].requests.Keys);
      OneMoreSent(trace, At(f, Send(t, request)), f, t);
      Do(At(f, Send(t, request)));
      Await(f, t);
    }

    /** One request and what becomes of it: an answer, a 5xx, or nothing in time. */
    method CallOnce(f: nat, t: ThreadId) returns (r: Option<Called>)
      requires Valid() && f < |sys.flows| && t in sys.flows[f].threads
      requires sys.flows[f].threads[t].pc == Reserve(None) || sys.flows[f].threads[t].pc == Release(None)
      modifies `sys, `trace
      ensures Valid() && old(trace) <= trace && f < |sys.flows| && t in sys.flows[f].threads
      ensures var thread := old(sys).flows[f].threads[t];
              sys.flows[f].threads[t] == thread.(pc := if r == None then thread.pc else AfterCall(thread, r.value))
      ensures r != Some(Unreachable) && Grown(old(sys).flows[f], f)
      ensures r == Some(Done) ==>
                if old(sys).flows[f].threads[t].pc.Reserve? then sys.flows[f].reserved > old(sys).flows[f].reserved
                else sys.flows[f].released > old(sys).flows[f].released
      ensures old(sys).flows[f].order == None && old(sys).flows[f].threads.Keys == {t} ==>
                sys.flows[f].order == None && sys.flows[f].threads.Keys == {t}
      ensures old(sys).flows[f].order.Some? ==> sys.flows[f].order.Some?
      ensures Sends(trace, f, t) == Sends(old(trace), f, t) + 1
      ensures sys.flows[f].items == old(sys).flows[f].items
    {
      var request := SendAndWait(f, t);
      var timedOut: bool := *;
      if timedOut || sys.flows[f].requests[request].reply.Underway? {
        OneMoreSent(trace, At(f, Timeout(t)), f, t);
        Do(At(f, Timeout(t)));
        return None;
      }
      r := ReadReply(f, t, request);
    }

    /** What the thread makes of a reply that is there. */
    method ReadReply(f: nat, t: ThreadId, request: RequestId) returns (r: Option<Called>)
      requires Valid() && f < |sys.flows| && t in sys.flows[f].threads && request in sys.flows[f].requests
      requires var pc := sys.flows[f].threads[t].pc; Waits(pc) && pc.request.value == request
      requires !sys.flows[f].requests[request].reply.Underway?
      modifies `sys, `trace
      ensures Valid() && old(trace) <= trace && f < |sys.flows| && t in sys.flows[f].threads
      ensures var thread := old(sys).flows[f].threads[t];
              sys.flows[f].threads[t] == thread.(pc := if r.Some? then AfterCall(thread, r.value)
                                                       else if thread.pc.Reserve? then Reserve(None) else Release(None))
      ensures r != Some(Unreachable) && (r == Some(Done) <==> old(sys).flows[f].requests[request].reply.Fine?)
      ensures r == Some(Rejected) <==> old(sys).flows[f].requests[request].reply.Rejected4xx?
      ensures sys.flows[f].reserved == old(sys).flows[f].reserved && sys.flows[f].released == old(sys).flows[f].released
      ensures sys.flows[f].items == old(sys).flows[f].items && sys.flows[f].order == old(sys).flows[f].order
      ensures sys.flows[f].threads.Keys == old(sys).flows[f].threads.Keys
      ensures Sends(trace, f, t) == Sends(old(trace), f, t)
    {
      var reply := sys.flows[f].requests[request].reply;
      OneMoreSent(trace, At(f, Read(t)), f, t);
      Do(At(f, Read(t)));
      match reply
      case Fine => return Some(Done);
      case Rejected4xx => return Some(Rejected);
      case Failed5xx => return None;
      case Underway => assert false; return None;
    }

    /** The product client: up to `attempts` requests, none while the circuit is open or the
        bulkhead is full.  Done means that a request of this very call has been applied. */
    method CallProduct(f: nat, t: ThreadId, attempts: nat) returns (r: Called)
      requires Valid() && f < |sys.flows| && t in sys.flows[f].threads
      requires sys.flows[f].threads[t].pc == Reserve(None) || sys.flows[f].threads[t].pc == Release(None)
      modifies `sys, `trace
      ensures Valid() && old(trace) <= trace && f < |sys.flows| && t in sys.flows[f].threads
      ensures var thread := old(sys).flows[f].threads[t]; sys.flows[f].threads[t] == thread.(pc := AfterCall(thread, r))
      ensures Grown(old(sys).flows[f], f)
      ensures r == Done ==>
                if old(sys).flows[f].threads[t].pc.Reserve? then sys.flows[f].reserved > old(sys).flows[f].reserved
                else sys.flows[f].released > old(sys).flows[f].released
      ensures old(sys).flows[f].order == None && old(sys).flows[f].threads.Keys == {t} ==>
                sys.flows[f].order == None && sys.flows[f].threads.Keys == {t}
      ensures old(sys).flows[f].order.Some? ==> sys.flows[f].order.Some?
      ensures Sends(old(trace), f, t) <= Sends(trace, f, t) <= Sends(old(trace), f, t) + attempts
      ensures sys.flows[f].items == old(sys).flows[f].items
    {
      ghost var was := sys.flows[f];
      for attempt := 0 to attempts
        invariant Valid() && old(trace) <= trace && Here(f, was.threads[t], t) && Grown(was, f)
        invariant Sends(trace, f, t) == Sends(old(trace), f, t) + attempt
        invariant was.order == None && was.threads.Keys == {t} ==>
                    sys.flows[f].order == None && sys.flows[f].threads.Keys == {t}
        invariant was.order.Some? ==> sys.flows[f].order.Some?
        invariant sys.flows[f].items == was.items
      {
        var open: bool := *;
        if open {
          break;
        }
        var answer := CallOnce(f, t);
        if answer.Some? {
          return answer.value;
        }
      }
      OneMoreSent(trace, At(f, GiveUp(t)), f, t);
      Do(At(f, GiveUp(t)));
      r := Unreachable;
    }

    /** The first half of create_order: reserve, then commit the order as PENDING. */
    method PlaceOrder(items: seq<Item>, attempts: nat) returns (placed: Result<Called>)
      requires Valid() && forall i :: 0 <= i < |items| ==> items[i].quantity > 0
      modifies `sys, `trace
      ensures Valid() && old(trace) <= trace
      ensures var pc := if placed == Ok(Done) then AskCharge else Finished;
              Here(|old(sys).flows|, Thread(false, pc), 0)
      ensures sys.flows[|old(sys).flows|].order == if placed == Ok(Done) then Some(PENDING) else None
      ensures sys.flows[|old(sys).flows|].items == items
      ensures Sends(trace, |old(sys).flows|, 0) <= Sends(old(trace), |old(sys).flows|, 0) + attempts
    {
      var f, t := |sys.flows|, 0;
      OneMoreSent(trace, Create(items), f, t);
      Do(Create(items));
      Await(f, t);
      var reserved := CallProduct(f, t, attempts);
      if reserved != Done {
        return Ok(reserved);
      }
      var committed := CommitPending(f, t);
      return if committed then Ok(Done) else Raised;
    }

    /** The commit of the new order. */
    method CommitPending(f: nat, t: ThreadId) returns (committed: bool)
      requires Valid() && Here(f, Thread(false, CommitNew), t)
      requires sys.flows[f].order == None && sys.flows[f].threads.Keys == {t}
      modifies `sys, `trace
      ensures Valid() && old(trace) <= trace
      ensures Here(f, Thread(false, if committed then AskCharge else Finished), t)
      ensures sys.flows[f].order == if committed then Some(PENDING) else None
      ensures sys.flows[f].items == old(sys).flows[f].items && Sends(trace, f, t) == Sends(old(trace), f, t)
    {
      Await(f, t);
      committed := *;
      OneMoreSent(trace, At(f, CommitOrder(t, committed)), f, t);
      Do(At(f, CommitOrder(t, committed)));
    }

    /** The last commit of either program: the order gets the status that the thread has for it.
        The commit may fail, and an error may be raised although it was applied. */
    method WriteStatus(f: nat, t: ThreadId) returns (raised: bool)
      requires Valid() && f < |sys.flows| && t in sys.flows[f].threads && sys.flows[f].threads[t].pc.Settle?
      modifies `sys, `trace
      ensures Valid() && old(trace) <= trace && Grown(old(sys).flows[f], f)
      ensures Here(f, old(sys).flows[f].threads[t].(pc := Finished), t) && OrderBacked(sys.flows[f])
      ensures var pc := old(sys).flows[f].threads[t].pc;
              !raised ==> sys.flows[f].order == Some(pc.status) && sys.flows[f].unreleased == pc.unreleased
      ensures old(sys).flows[f].order.Some? ==> sys.flows[f].order.Some?
      ensures Sends(trace, f, t) == Sends(old(trace), f, t)
      ensures sys.flows[f].items == old(sys).flows[f].items
    {
      Await(f, t);
      var applied: bool := *;
      raised := *;
      var a := At(f, if raised && !applied then Crash(t) else Write(t));
      OneMoreSent(trace, a, f, t);
      Do(a);
      RunBacked(Sys(baseline, []), trace);
    }

    /** _release_items, in the thread of create_order. */
    method GiveBack(f: nat, t: ThreadId, attempts: nat) returns (r: Called)
      requires Valid() && Here(f, Thread(false, Release(None)), t) && sys.flows[f].order.Some?
      modifies `sys, `trace
      ensures Valid() && old(trace) <= trace && Grown(old(sys).flows[f], f)
      ensures Here(f, Thread(false, AfterCall(Thread(false, Release(None)), r)), t)
      ensures r == Done ==> sys.flows[f].released > old(sys).flows[f].released
      ensures sys.flows[f].order.Some? && sys.flows[f].items == old(sys).flows[f].items
      ensures Sends(trace, f, t) <= Sends(old(trace), f, t) + attempts
    {
      Await(f, t);
      r := CallProduct(f, t, attempts);
    }

    /** The second half: charge, give the stock back if the charge failed, write the status that
        the charge earned.  Only a FAILED charge sends anything to the product service. */
    method SettleOrder(f: nat, attempts: nat) returns (settled: Result<OrderStatus>, charged: Status)
      requires Valid() && Here(f, Thread(false, AskCharge), 0) && sys.flows[f].order.Some?
      modifies `sys, `trace
      ensures Valid() && old(trace) <= trace && Here(f, Thread(false, Finished), 0)
      ensures sys.flows[f].order.Some? && OrderBacked(sys.flows[f])
      ensures settled.Ok? ==> sys.flows[f].order == Some(settled.value)
      ensures settled.Ok? ==> (settled.value == PAID <==> charged == SUCCESS)
      ensures settled.Ok? ==> (settled.value == PAYMENT_PENDING <==> charged == UNKNOWN)
      ensures settled.Ok? ==> (settled.value == PAYMENT_FAILED <==> charged == FAILED)
      ensures Sends(trace, f, 0) <= Sends(old(trace), f, 0) + if charged == FAILED then attempts else 0
      ensures settled.Ok? && charged != FAILED ==> !sys.flows[f].unreleased
      ensures settled.Ok? && charged == FAILED && !sys.flows[f].unreleased ==>
                sys.flows[f].released > old(sys).flows[f].released
      ensures sys.flows[f].items == old(sys).flows[f].items
    {
      var t := 0;
      Await(f, t);
      charged := *;
      OneMoreSent(trace, At(f, Pay(t, charged)), f, t);
      Do(At(f, Pay(t, charged)));
      if charged == FAILED {
        var released := GiveBack(f, t, attempts);
        if released == Rejected {
          RunBacked(Sys(baseline, []), trace);
          return Raised, charged;      // not caught here: the order stays as it is
        }
      }
      var raised := WriteStatus(f, t);
      settled := if raised then Raised else Ok(StatusFor(charged));
    }

    /** create_order: no order without stock taken for it, the status that its charge earned, and
        PAYMENT_FAILED only once a release of this very call was applied or the order is marked as
        keeping its stock.  `charged` is the outcome of the charge, if it came to that. */
    method CreateOrder(items: seq<Item>, attempts: nat) returns (r: Creation, charged: Option<Status>)
      requires Valid() && forall i :: 0 <= i < |items| ==> items[i].quantity > 0
      modifies `sys, `trace
      ensures Valid() && old(trace) <= trace && Here(|old(sys).flows|, Thread(false, Finished), 0)
      ensures OrderBacked(sys.flows[|old(sys).flows|])
      ensures r.Placed? ==>
                && r.f == |old(sys).flows| && sys.flows[r.f].order == Some(r.status) && charged.Some?
                && (r.status == PAID <==> charged.value == SUCCESS)
                && (r.status == PAYMENT_PENDING <==> charged.value == UNKNOWN)
                && (r.status == PAYMENT_FAILED <==> charged.value == FAILED)
                && (sys.flows[r.f].unreleased ==> r.status == PAYMENT_FAILED)
      ensures r.Refusal? || r.NoProductService? ==> sys.flows[|old(sys).flows|].order == None && charged == None
      ensures sys.flows[|old(sys).flows|].items == items
    {
      var f := |sys.flows|;
      var placed := PlaceOrder(items, attempts);
      if placed != Ok(Done) {
        r := if placed == Ok(Rejected) then Refusal else if placed.Ok? then NoProductService else Failure;
        return r, None;
      }
      var settled, outcome := SettleOrder(f, attempts);
      charged := Some(outcome);
      r := if settled.Ok? then Placed(f, settled.value) else Failure;
    }

    /** cancel_order: only a PENDING or PAID order, only once the product service has applied a
        release made by this very call. */
    method CancelOrder(f: nat, attempts: nat) returns (r: Cancellation)
      requires Valid() && f < |sys.flows|
      modifies `sys, `trace
      ensures Valid() && old(trace) <= trace && f < |sys.flows|
      ensures r == NoSuchOrder <==> old(sys).flows[f].order == None
      ensures r == Conflict <==> old(sys).flows[f].order.Some? && !Cancellable(old(sys).flows[f].order.value)
      ensures r == Conflict <==>
              old(sys).flows[f].order in {Some(PAYMENT_FAILED), Some(PAYMENT_PENDING), Some(CANCELLED)}
      ensures r == NoSuchOrder || r == Conflict ==> sys == old(sys)
      ensures r == Cancelled ==> sys.flows[f].order == Some(CANCELLED)
      ensures r == Cancelled || r == NotRecorded ==> sys.flows[f].released > old(sys).flows[f].released
      ensures Grown(old(sys).flows[f], f)
    {
      var order := sys.flows[f].order;
      if order == None {
        return NoSuchOrder;
      }
      if !Cancellable(order.value) {
        return Conflict;
      }
      var t := NewId(sys.flows[f].threads.Keys);
      Do(At(f, Cancel(t)));
      Await(f, t);
      var released := CallProduct(f, t, attempts);
      match released {
        case Rejected => return ReleaseRefused;
        case Unreachable => return NoAnswer;
        case Done =>
      }
      var raised := WriteStatus(f, t);
      r := if raised then NotRecorded else Cancelled;
    }
  }
}
