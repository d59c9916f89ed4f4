/**
 The three programs of a charge: the order service's payment step, the payment service's
 `charge` and the stand-in gateway's `charge`.  Each statement that touches shared state is one
 action of the payment system, and between any two of them everybody else may act.
 */
module PaymentPrograms {
  import opened Outcomes
  import opened Orders
  import Clients
  import opened Payments

  lemma {:induction false} Split(s: Sys, a: seq<Action>, b: seq<Action>)
    requires Feasible(s, a + b)
    ensures Feasible(s, a) && Feasible(Exec(s, a), b) && Exec(s, a + b) == Exec(Exec(s, a), b)
    decreases |a|
  {
    if a == [] {
      assert a + b == b;
    } else {
      assert (a + b)[1..] == a[1..] + b;
      Split(Apply(s, a[0]), a[1..], b);
    }
  }

  lemma {:induction false} OthersLeaveCharge(s: Sys, acts: seq<Action>, c: ChargeId)
    requires Feasible(s, acts) && c in s.service.charges
    requires forall i :: 0 <= i < |acts| && acts[i].AtService? ==> acts[i].c != c
    ensures c in Exec(s, acts).service.charges && Exec(s, acts).service.charges[c] == s.service.charges[c]
    decreases |acts|
  {
    if acts != [] {
      OthersLeaveCharge(Apply(s, acts[0]), acts[1..], c);
    }
  }

  lemma {:induction false} OthersLeavePost(s: Sys, acts: seq<Action>, p: PostId)
    requires Feasible(s, acts) && p in s.gateway.posts
    requires forall i :: 0 <= i < |acts| && acts[i].AtGateway? ==> acts[i].g.p != p
    ensures p in Exec(s, acts).gateway.posts && Exec(s, acts).gateway.posts[p] == s.gateway.posts[p]
    decreases |acts|
  {
    if acts != [] {
      OthersLeavePost(Apply(s, acts[0]), acts[1..], p);
    }
  }

  /** Others may cancel the order, but its payment is only driven by its own thread. */
  lemma {:induction false} OthersLeavePaying(s: Sys, acts: seq<Action>, o: OrderId)
    requires Feasible(s, acts) && o in s.orders
    requires forall i :: 0 <= i < |acts| && acts[i].AtOrder? && acts[i].o == o ==> acts[i].ostep.Cancel?
    ensures o in Exec(s, acts).orders && Exec(s, acts).orders[o].paying == s.orders[o].paying
    decreases |acts|
  {
    if acts != [] {
      OthersLeavePaying(Apply(s, acts[0]), acts[1..], o);
    }
  }

  /** The order service's thread does nothing to the order. */
  ghost predicate OnlyCancels(acts: seq<Action>, o: OrderId) {
    forall i :: 0 <= i < |acts| && acts[i].AtOrder? && acts[i].o == o ==> acts[i].ostep.Cancel?
  }

  /** What is heard is what is written: once the payment service has answered, the order's next
      status is the one its payment row calls for, whatever happens in between. */
  lemma HeardIsWritten(acts: seq<Action>, between: seq<Action>, o: OrderId)
    requires Feasible(Init(), acts) && Enabled(Exec(Init(), acts), AtOrder(o, Hear))
    requires Feasible(Apply(Exec(Init(), acts), AtOrder(o, Hear)), between) && OnlyCancels(between, o)
    ensures var s := Exec(Apply(Exec(Init(), acts), AtOrder(o, Hear)), between);
            && Enabled(s, AtOrder(o, Settle)) && o in s.service.rows
            && var status := Apply(s, AtOrder(o, Settle)).orders[o].status;
            && (s.service.rows[o].status == SUCCESS <==> status == PAID)
            && (s.service.rows[o].status == UNKNOWN <==> status == PAYMENT_PENDING)
            && (s.service.rows[o].status == FAILED <==> status == PAYMENT_FAILED)
  {
    var s0 := Exec(Init(), acts);
    var s1 := Apply(s0, AtOrder(o, Hear));
    RunAgreed(Init(), acts);
    HearBacked(s0, o);
    StepAgreed(s0, AtOrder(o, Hear));
    RunAgreed(s1, between);
    OthersLeavePaying(s1, between, o);
  }

  /** The answer that is heard is the row of the order. */
  lemma HearBacked(s: Sys, o: OrderId)
    requires Agreed(s) && Enabled(s, AtOrder(o, Hear))
    ensures o in s.service.rows
    ensures Apply(s, AtOrder(o, Hear)).orders[o].paying == Decided(s.service.rows[o].status)
  {
    assert OwnCharge(s.service, o, s.orders[o]);
    assert ChargeBacked(s.service.rows, s.service.charges[s.orders[o].paying.current.value]);
  }

  /** And when nothing was heard, the order is left for reconciliation. */
  lemma UnheardIsPending(s: Sys, between: seq<Action>, o: OrderId)
    requires Enabled(s, AtOrder(o, Conclude)) && Feasible(Apply(s, AtOrder(o, Conclude)), between) && OnlyCancels(between, o)
    ensures var s' := Exec(Apply(s, AtOrder(o, Conclude)), between);
            Enabled(s', AtOrder(o, Settle)) && Apply(s', AtOrder(o, Settle)).orders[o].status == PAYMENT_PENDING
  {
    OthersLeavePaying(Apply(s, AtOrder(o, Conclude)), between, o);
  }

  /** Requests that the charge has sent to the gateway in the run. */
  function Posted(acts: seq<Action>, c: ChargeId): nat {
    if acts == [] then 0
    else
      var last := acts[|acts| - 1];
      Posted(acts[..|acts| - 1], c) + if last.AtService? && last.c == c && last.step.SendPost? then 1 else 0
  }

  lemma OneMorePosted(acts: seq<Action>, a: Action, c: ChargeId)
    ensures Posted(acts + [a], c)
            == Posted(acts, c) + if a.AtService? && a.c == c && a.step.SendPost? then 1 else 0
  {
    assert (acts + [a])[..|acts + [a]| - 1] == acts;
  }

  lemma {:induction false} OthersPostNothing(acts: seq<Action>, n: nat, c: ChargeId)
    requires n <= |acts| && forall i :: n <= i < |acts| && acts[i].AtService? ==> acts[i].c != c
    ensures Posted(acts, c) == Posted(acts[..n], c)
    decreases |acts|
  {
    if n == |acts| {
      assert acts[..n] == acts;
    } else {
      assert acts[..|acts| - 1][..n] == acts[..n];
      OthersPostNothing(acts[..|acts| - 1], n, c);
    }
  }

  /** The row that an answer is turned into; a refusal brings no transaction of its own. */
  function RowFor(answer: Answer, newTxn: Txn): Row {
    match answer
    case Charged(result) => Row(if result.approved then SUCCESS else FAILED, result.txn)
    case Refused => Row(FAILED, newTxn)
    case Unavailable => Row(UNKNOWN, newTxn)
  }

  /** A request keeps its key. */
  lemma {:induction false} KeysStay(s: Sys, acts: seq<Action>, p: PostId)
    requires Feasible(s, acts) && p in s.gateway.posts
    ensures p in Exec(s, acts).gateway.posts && Exec(s, acts).gateway.posts[p].key == s.gateway.posts[p].key
    decreases |acts|
  {
    if acts != [] {
      KeysStay(Apply(s, acts[0]), acts[1..], p);
    }
  }

  class World {
    var sys: Sys
    ghost var trace: seq<Action>

    ghost predicate Valid()
      reads this
    {
      Feasible(Init(), trace) && sys == Exec(Init(), trace)
    }

    method Do(a: Action)
      requires Valid() && Enabled(sys, a)
      modifies this
      ensures Valid() && trace == old(trace) + [a] && sys == Apply(old(sys), a)
    {
      Append(Init(), trace, a);
      trace := trace + [a];
      sys := Apply(sys, a);
    }

    /** A request sent earlier in the run still has its key. */
    lemma KeyStays(before: seq<Action>, p: PostId)
      requires Valid() && before <= trace && Feasible(Init(), before) && p in Exec(Init(), before).gateway.posts
      ensures p in sys.gateway.posts && sys.gateway.posts[p].key == Exec(Init(), before).gateway.posts[p].key
    {
      assert trace == before + trace[|before|..];
      Split(Init(), before, trace[|before|..]);
      KeysStay(Exec(Init(), before), trace[|before|..], p);
    }

    /** Everybody but this charge acts; the body takes no step, callers only know the contract. */
    method OtherCharges(c: ChargeId)
      requires Valid()
      modifies this
      ensures Valid() && old(trace) <= trace
      ensures forall i :: |old(trace)| <= i < |trace| && trace[i].AtService? ==> trace[i].c != c
    {
    }

    method OtherPosts(p: PostId)
      requires Valid()
      modifies this
      ensures Valid() && old(trace) <= trace
      ensures forall i :: |old(trace)| <= i < |trace| && trace[i].AtGateway? ==> trace[i].g.p != p
    {
    }

    method OtherOrders(o: OrderId)
      requires Valid()
      modifies this
      ensures Valid() && old(trace) <= trace
      ensures forall i :: |old(trace)| <= i < |trace| && trace[i].AtOrder? && trace[i].o == o ==> trace[i].ostep.Cancel?
    {
    }

    method AwaitCharge(c: ChargeId)
      requires Valid() && c in sys.service.charges
      modifies this
      ensures Valid() && old(trace) <= trace
      ensures c in sys.service.charges && sys.service.charges[c] == old(sys).service.charges[c]
      ensures Posted(trace, c) == Posted(old(trace), c) && RowsStay(old(sys).service.rows, sys.service.rows)
    {
      ghost var before := trace;
      OtherCharges(c);
      assert trace == before + trace[|before|..];
      OthersPostNothing(trace, |before|, c);
      Split(Init(), before, trace[|before|..]);
      RunAgreed(Init(), before);
      RunAgreed(Exec(Init(), before), trace[|before|..]);
      OthersLeaveCharge(Exec(Init(), before), trace[|before|..], c);
    }

    method AwaitPost(p: PostId)
      requires Valid() && p in sys.gateway.posts
      modifies this
      ensures Valid() && old(trace) <= trace
      ensures p in sys.gateway.posts && sys.gateway.posts[p] == old(sys).gateway.posts[p]
    {
      ghost var before := trace;
      OtherPosts(p);
      assert trace == before + trace[|before|..];
      Split(Init(), before, trace[|before|..]);
      OthersLeavePost(Exec(Init(), before), trace[|before|..], p);
    }

    method AwaitOrder(o: OrderId)
      requires Valid() && o in sys.orders
      modifies this
      ensures Valid() && old(trace) <= trace
      ensures o in sys.orders && sys.orders[o].paying == old(sys).orders[o].paying
      ensures RowsStay(old(sys).service.rows, sys.service.rows)
    {
      ghost var before := trace;
      OtherOrders(o);
      assert trace == before + trace[|before|..];
      Split(Init(), before, trace[|before|..]);
      RunAgreed(Init(), before);
      RunAgreed(Exec(Init(), before), trace[|before|..]);
      OthersLeavePaying(Exec(Init(), before), trace[|before|..], o);
    }

    /** fake_gateway charge: replay a known key; otherwise fail, or decide and store. */
    method GatewayCharge(p: PostId) returns (answer: Answer)
      requires Valid() && p in sys.gateway.posts && sys.gateway.posts[p].stage.Sent?
      modifies this
      ensures Valid() && old(trace) <= trace && p in sys.gateway.posts
      ensures sys.gateway.posts[p] == Post(old(sys).gateway.posts[p].key, Answered(answer))
      ensures !answer.Refused?
      ensures answer.Charged? ==>
                var key := sys.gateway.posts[p].key;
                key in sys.gateway.store && sys.gateway.store[key] == answer.result
    {
      AwaitPost(p);
      var key := sys.gateway.posts[p].key;
      var existing := if key in sys.gateway.store then Some(sys.gateway.store[key]) else None;
      Do(AtGateway(Lookup(p)));
      if existing.Some? {
        return Charged(existing.value);
      }
      AwaitPost(p);
      var injectError: bool, approved: bool, txn: Txn := *, *, *;
      if injectError {
        Do(AtGateway(Fail(p)));
        return Unavailable;
      }
      Do(AtGateway(Store(p, approved, txn)));
      return Charged(Stored(approved, txn));
    }

    /** The payment service's `charge`: the stored row if there is one, otherwise ask the
        gateway and insert; losing the insert to another charge is an error to the caller. */
    method ServiceCharge(c: ChargeId, attempts: nat) returns (r: Result<Row>)
      requires Valid() && c in sys.service.charges && sys.service.charges[c].progress.Looking?
      modifies this
      ensures Valid() && old(trace) <= trace && c in sys.service.charges
      ensures sys.service.charges[c] ==
              Charge(old(sys).service.charges[c].order, if r.Ok? then Replied(r.value) else Gone)
      ensures r.Ok? ==> sys.service.charges[c].order in sys.service.rows
                        && sys.service.rows[sys.service.charges[c].order] == r.value
      ensures var order, rows := old(sys).service.charges[c].order, old(sys).service.rows;
              order in rows ==> r == Ok(rows[order]) && Posted(trace, c) == Posted(old(trace), c)
      ensures Posted(trace, c) <= Posted(old(trace), c) + attempts
    {
      AwaitCharge(c);
      var order := sys.service.charges[c].order;
      var existing := if order in sys.service.rows then Some(sys.service.rows[order]) else None;
      OneMorePosted(trace, AtService(c, Look), c);
      Do(AtService(c, Look));
      if existing.Some? {
        return Ok(existing.value);
      }
      ghost var told;
      var row;
      row, told := AskGateway(c, attempts);
      AwaitCharge(c);
      var fault: bool, applied: bool := *, *;
      var taken := order in sys.service.rows;
      OneMorePosted(trace, AtService(c, Insert(fault, applied)), c);
      Do(AtService(c, Insert(fault, applied)));
      return if fault || taken then Raised else Ok(row);
    }

    /** One request under the order's key, and the answer if one comes in time. */
    method PostOnce(c: ChargeId) returns (p: PostId, answer: Option<Answer>, newTxn: Txn)
      requires Valid() && c in sys.service.charges && sys.service.charges[c].progress == Trying(None)
      modifies this
      ensures Valid() && old(trace) <= trace && c in sys.service.charges
      ensures answer == None || answer == Some(Unavailable) ==> sys.service.charges[c] == old(sys).service.charges[c]
      ensures answer.Some? && !answer.value.Unavailable? ==>
                && sys.service.charges[c] ==
                   Charge(old(sys).service.charges[c].order, Inserting(RowFor(answer.value, newTxn)))
                && p in sys.gateway.posts
                && sys.gateway.posts[p] == Post(Clients.KeyOf(sys.service.charges[c].order), Answered(answer.value))
      ensures Posted(trace, c) == Posted(old(trace), c) + 1
    {
      AwaitCharge(c);
      p := NewId(sys.gateway.posts.Keys);
      newTxn := *;
      OneMorePosted(trace, AtService(c, SendPost(p)), c);
      Do(AtService(c, SendPost(p)));
      ghost var before := trace;
      AwaitCharge(c);
      KeyStays(before, p);
      var timedOut: bool := *;
      if timedOut || !sys.gateway.posts[p].stage.Answered? {
        OneMorePosted(trace, AtService(c, StopWaiting), c);
        Do(AtService(c, StopWaiting));
        return p, None, newTxn;
      }
      answer := Some(sys.gateway.posts[p].stage.answer);
      OneMorePosted(trace, AtService(c, Receive(newTxn)), c);
      Do(AtService(c, Receive(newTxn)));
    }

    /** What the gateway client makes of up to `attempts` requests under one key: SUCCESS or FAILED
        only on the answer to a request under the order's own key, UNKNOWN without one. */
    method AskGateway(c: ChargeId, attempts: nat) returns (row: Row, ghost told: Option<PostId>)
      requires Valid() && c in sys.service.charges && sys.service.charges[c].progress == Trying(None)
      modifies this
      ensures Valid() && old(trace) <= trace && c in sys.service.charges
      ensures sys.service.charges[c] == Charge(old(sys).service.charges[c].order, Inserting(row))
      ensures row.status == UNKNOWN <==> told == None
      ensures told.Some? ==>
                && told.value in sys.gateway.posts
                && var post := sys.gateway.posts[told.value];
                && post.key == Clients.KeyOf(sys.service.charges[c].order) && post.stage.Answered?
                && !post.stage.answer.Unavailable?
                && (post.stage.answer.Charged? ==>
                      row.txn == post.stage.answer.result.txn
                      && (row.status == SUCCESS <==> post.stage.answer.result.approved))
                && (post.stage.answer.Refused? ==> row.status == FAILED)
      ensures Posted(trace, c) <= Posted(old(trace), c) + attempts
    {
      for attempt := 0 to attempts
        invariant Valid() && old(trace) <= trace && c in sys.service.charges
        invariant sys.service.charges[c] == Charge(old(sys).service.charges[c].order, Trying(None))
        invariant Posted(trace, c) <= Posted(old(trace), c) + attempt
      {
        var open: bool := *;       // bulkhead full or breaker open: nothing is sent
        if open {
          break;
        }
        var p, answer, newTxn := PostOnce(c);
        if answer.Some? && !answer.value.Unavailable? {
          return RowFor(answer.value, newTxn), Some(p);
        }
      }
      var newTxn: Txn := *;
      OneMorePosted(trace, AtService(c, GiveUp(newTxn)), c);
      Do(AtService(c, GiveUp(newTxn)));
      return Row(UNKNOWN, newTxn), None;
    }

    /** create_order after its commit: ask for the charge, then write the status it earned: what the
        order's payment row says if its answer was heard, PAYMENT_PENDING if none was. */
    method PayOrder(o: OrderId, attempts: nat) returns (status: OrderStatus, heard: Option<Row>)
      requires Valid() && o in sys.orders && sys.orders[o].paying == Asking(None)
      modifies this
      ensures Valid() && old(trace) <= trace && o in sys.orders && sys.orders[o] == Order(status, Settled)
      ensures heard == None ==> status == PAYMENT_PENDING
      ensures heard.Some? ==> o in sys.service.rows && sys.service.rows[o] == heard.value
      ensures heard.Some? ==> (status == PAID <==> heard.value.status == SUCCESS)
      ensures heard.Some? ==> (status == PAYMENT_PENDING <==> heard.value.status == UNKNOWN)
      ensures heard.Some? ==> (status == PAYMENT_FAILED <==> heard.value.status == FAILED)
    {
      var result;
      result, heard := AskPayment(o, attempts);
      AwaitOrder(o);
      Do(AtOrder(o, Settle));
      match result {
        case SUCCESS => status := PAID;
        case UNKNOWN => status := PAYMENT_PENDING;
        case FAILED => status := PAYMENT_FAILED;
      }
    }

    /** payment_client.charge as the order sees it: the first answer that comes, or UNKNOWN. */
    method AskPayment(o: OrderId, attempts: nat) returns (result: Status, heard: Option<Row>)
      requires Valid() && o in sys.orders && sys.orders[o].paying == Asking(None)
      modifies this
      ensures Valid() && old(trace) <= trace && o in sys.orders && sys.orders[o].paying == Decided(result)
      ensures heard == None ==> result == UNKNOWN
      ensures heard.Some? ==> o in sys.service.rows && sys.service.rows[o] == heard.value && result == heard.value.status
    {
      for attempt := 0 to attempts
        invariant Valid() && old(trace) <= trace && o in sys.orders && sys.orders[o].paying == Asking(None)
      {
        var open: bool := *;
        if open {
          break;
        }
        heard := AskOnce(o);
        if heard.Some? {
          return heard.value.status, heard;
        }
      }
      AwaitOrder(o);
      Do(AtOrder(o, Conclude));
      return UNKNOWN, None;
    }

    /** One request to the payment service; nothing is heard of it in time, or its row is. */
    method AskOnce(o: OrderId) returns (heard: Option<Row>)
      requires Valid() && o in sys.orders && sys.orders[o].paying == Asking(None)
      modifies this
      ensures Valid() && old(trace) <= trace && o in sys.orders
      ensures heard == None ==> sys.orders[o].paying == Asking(None)
      ensures heard.Some? ==> sys.orders[o].paying == Decided(heard.value.status)
      ensures heard.Some? ==> o in sys.service.rows && sys.service.rows[o] == heard.value
    {
      AwaitOrder(o);
      var c := NewId(sys.service.charges.Keys);
      Do(AtOrder(o, Ask(c)));
      AwaitOrder(o);
      var timedOut: bool := *;
      if timedOut || c !in sys.service.charges || !sys.service.charges[c].progress.Replied? {
        Do(AtOrder(o, StopAsking));
        return None;
      }
      RunAgreed(Init(), trace);
      HearBacked(sys, o);
      var row := sys.service.charges[c].progress.row;
      assert OwnCharge(sys.service, o, sys.orders[o]) && ChargeBacked(sys.service.rows, sys.service.charges[c]);
      Do(AtOrder(o, Hear));
      return Some(row);
    }
  }
}
