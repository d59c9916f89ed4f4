/**
 The stock ledger across the order and product services: creating an order reserves over HTTP
 with retries, a declined payment and a cancellation release over HTTP with retries, and no
 request carries an identity, so one that was applied and whose reply was lost is applied again.
 */
module Ledger {
  import opened Outcomes
  import opened Orders
  import opened StockRules

  type ThreadId = nat
  type RequestId = nat

  /** A request that nobody has seen answered: still under way, or answered and not read. */
  datatype Reply = Underway | Fine | Rejected4xx | Failed5xx
  datatype Request = Request(kind: Kind, reply: Reply)

  /** create_order, from its first reserve to its last commit; cancel_order starts at Releasing. */
  datatype Pc =
    | Reserve(request: Option<RequestId>)
    | CommitNew
    | AskCharge
    | Release(request: Option<RequestId>)
    | Settle(status: OrderStatus, unreleased: bool)
    | Finished

  datatype Thread = Thread(cancelling: bool, pc: Pc)

  /** One order from its request on.  `reserved` and `released` count the requests that the
      product service committed; `unreleased` says that a PAYMENT_FAILED order kept its stock
      because the product service could not be reached. */
  datatype Flow = Flow(items: seq<Item>, order: Option<OrderStatus>, unreleased: bool, reserved: nat, released: nat,
                       requests: map<RequestId, Request>, threads: map<ThreadId, Thread>)

  datatype Sys = Sys(stock: map<int, int>, flows: seq<Flow>)

  datatype Step =
    | Send(t: ThreadId, r: RequestId)
    | Read(t: ThreadId)
    | Timeout(t: ThreadId)
    | GiveUp(t: ThreadId)
    | CommitOrder(t: ThreadId, ok: bool)
    | Pay(t: ThreadId, outcome: Status)
    | Write(t: ThreadId)
    | Crash(t: ThreadId)
    | Cancel(t: ThreadId)
    | Serve(r: RequestId)
    | ServeNot(r: RequestId)

  datatype Action = Create(items: seq<Item>) | At(f: nat, step: Step)

  predicate Waits(pc: Pc) {
    (pc.Reserve? || pc.Release?) && pc.request.Some?
  }

  predicate Can(flow: Flow, step: Step) {
    match step
    case Send(t, r) =>
      t in flow.threads && (flow.threads[t].pc == Reserve(None) || flow.threads[t].pc == Release(None))
      && r !in flow.requests
    case Read(t) =>
      t in flow.threads && Waits(flow.threads[t].pc) && flow.threads[t].pc.request.value in flow.requests
      && !flow.requests[flow.threads[t].pc.request.value].reply.Underway?
    case Timeout(t) => t in flow.threads && Waits(flow.threads[t].pc)
    case GiveUp(t) => t in flow.threads && (flow.threads[t].pc == Reserve(None) || flow.threads[t].pc == Release(None))
    case CommitOrder(t, _) => t in flow.threads && flow.threads[t].pc.CommitNew?
    case Pay(t, _) => t in flow.threads && flow.threads[t].pc.AskCharge?
    case Write(t) => t in flow.threads && flow.threads[t].pc.Settle?
    case Crash(t) => t in flow.threads
    case Cancel(t) => t !in flow.threads && flow.order.Some? && Cancellable(flow.order.value)
    case Serve(r) => r in flow.requests && flow.requests[r].reply.Underway?
    case ServeNot(r) => r in flow.requests && flow.requests[r].reply.Underway?
  }

  /** What the product service makes of a request: its own transaction, all or nothing. */
  function Served(stock: map<int, int>, flow: Flow, r: RequestId): Change
    requires r in flow.requests
  {
    ApplyItems(flow.requests[r].kind, stock, flow.items)
  }

  function NextPc(flow: Flow, step: Step): Pc
    requires Can(flow, step) && !step.Cancel? && !step.Serve? && !step.ServeNot?
  {
    var thread := flow.threads[step.t];
    match step
    case Send(_, r) => if thread.pc.Reserve? then Reserve(Some(r)) else Release(Some(r))
    case Read(_) =>
      (match flow.requests[thread.pc.request.value].reply
       case Fine =>
         if thread.pc.Reserve? then CommitNew
         else if thread.cancelling then Settle(CANCELLED, false) else Settle(PAYMENT_FAILED, false)
       case Failed5xx => if thread.pc.Reserve? then Reserve(None) else Release(None)
       case _ => Finished)
    case Timeout(_) => if thread.pc.Reserve? then Reserve(None) else Release(None)
    case GiveUp(_) =>
      if thread.pc.Release? && !thread.cancelling then Settle(PAYMENT_FAILED, true) else Finished
    case CommitOrder(_, ok) => if ok then AskCharge else Finished
    case Pay(_, outcome) => if outcome == FAILED then Release(None) else Settle(StatusFor(outcome), false)
    case Write(_) => Finished
    case Crash(_) => Finished
  }

  function Moved(flow: Flow, step: Step): Flow
    requires Can(flow, step) && !step.Cancel? && !step.Serve? && !step.ServeNot?
  {
    flow.(threads := flow.threads[step.t := flow.threads[step.t].(pc := NextPc(flow, step))])
  }

  function FlowAfter(stock: map<int, int>, flow: Flow, step: Step): Flow
    requires Can(flow, step)
  {
    match step
    case Cancel(t) => flow.(threads := flow.threads[t := Thread(true, Release(None))])
    case Serve(r) =>
      if Served(stock, flow, r).Changed? then
        var done := flow.(requests := flow.requests[r := flow.requests[r].(reply := Fine)]);
        if flow.requests[r].kind == Reserving then done.(reserved := flow.reserved + 1)
        else done.(released := flow.released + 1)
      else flow.(requests := flow.requests[r := flow.requests[r].(reply := Rejected4xx)])
    case ServeNot(r) => flow.(requests := flow.requests[r := flow.requests[r].(reply := Failed5xx)])
    case Send(t, r) =>
      var kind := if flow.threads[t].pc.Reserve? then Reserving else Releasing;
      Moved(flow, step).(requests := flow.requests[r := Request(kind, Underway)])
    case Read(t) => Moved(flow, step).(requests := flow.requests - {flow.threads[t].pc.request.value})
    case CommitOrder(_, ok) => if ok then Moved(flow, step).(order := Some(PENDING)) else Moved(flow, step)
    case Write(t) =>
      Moved(flow, step).(order := Some(flow.threads[t].pc.status), unreleased := flow.threads[t].pc.unreleased)
    case Timeout(_) => Moved(flow, step)
    case GiveUp(_) => Moved(flow, step)
    case Pay(_, _) => Moved(flow, step)
    case Crash(_) => Moved(flow, step)
  }

  function StockAfter(stock: map<int, int>, flow: Flow, step: Step): map<int, int>
    requires Can(flow, step)
  {
    if step.Serve? && Served(stock, flow, step.r).Changed? then Served(stock, flow, step.r).rows else stock
  }

  predicate Enabled(s: Sys, a: Action) {
    match a
    case Create(items) => forall i :: 0 <= i < |items| ==> items[i].quantity > 0
    case At(f, step) => f < |s.flows| && Can(s.flows[f], step)
  }

  function NewFlow(items: seq<Item>): Flow {
    Flow(items, None, false, 0, 0, map[], map[0 := Thread(false, Reserve(None))])
  }

  function Apply(s: Sys, a: Action): Sys
    requires Enabled(s, a)
  {
    match a
    case Create(items) => s.(flows := s.flows + [NewFlow(items)])
    case At(f, step) =>
      Sys(StockAfter(s.stock, s.flows[f], step), s.flows[f := FlowAfter(s.stock, s.flows[f], step)])
  }

  predicate Feasible(s: Sys, acts: seq<Action>)
    decreases |acts|
  {
    acts == [] || (Enabled(s, acts[0]) && Feasible(Apply(s, acts[0]), acts[1..]))
  }

  function Exec(s: Sys, acts: seq<Action>): Sys
    requires Feasible(s, acts)
    decreases |acts|
  {
    if acts == [] then s else Exec(Apply(s, acts[0]), acts[1..])
  }

  lemma {:induction false} Append(s: Sys, acts: seq<Action>, a: Action)
    requires Feasible(s, acts) && Enabled(Exec(s, acts), a)
    ensures Feasible(s, acts + [a]) && Exec(s, acts + [a]) == Apply(Exec(s, acts), a)
    decreases |acts|
  {
    if acts == [] {
      assert acts + [a] == [a];
    } else {
      assert (acts + [a])[1..] == acts[1..] + [a];
      Append(Apply(s, acts[0]), acts[1..], a);
    }
  }

  lemma Then(start: Sys, acts: seq<Action>, s: Sys, a: Action) returns (acts': seq<Action>, s': Sys)
    requires Feasible(start, acts) && Exec(start, acts) == s && Enabled(s, a)
    ensures acts' == acts + [a] && s' == Apply(s, a)
    ensures Feasible(start, acts') && Exec(start, acts') == s'
  {
    Append(start, acts, a);
    acts', s' := acts + [a], Apply(s, a);
  }

  // ---- what has been applied ----

  function Times(n: int, amount: int): int {
    n * amount
  }

  /** Units of the product this order's applied requests have taken out, net. */
  function TakenBy(flow: Flow, product: int): int {
    Times(flow.reserved - flow.released, Total(flow.items, product))
  }

  function TakenBySum(flows: seq<Flow>, product: int): int {
    if flows == [] then 0
    else TakenBySum(flows[..|flows| - 1], product) + TakenBy(flows[|flows| - 1], product)
  }

  lemma {:induction false} SumChanged(flows: seq<Flow>, f: nat, flow: Flow, product: int)
    requires f < |flows|
    ensures TakenBySum(flows[f := flow], product)
            == TakenBySum(flows, product) - TakenBy(flows[f], product) + TakenBy(flow, product)
    decreases |flows|
  {
    var changed := flows[f := flow];
    if f == |flows| - 1 {
      assert changed[..|changed| - 1] == flows[..|flows| - 1];
    } else {
      assert changed[..|changed| - 1] == flows[..|flows| - 1][f := flow];
      SumChanged(flows[..|flows| - 1], f, flow, product);
    }
  }

  ghost predicate Balanced(baseline: map<int, int>, s: Sys) {
    && s.stock.Keys == baseline.Keys
    && (forall f :: 0 <= f < |s.flows| ==> Positive(s.flows[f].items))
    && forall p :: p in baseline ==> s.stock[p] == baseline[p] - TakenBySum(s.flows, p)
  }

  lemma FlowLedger(stock: map<int, int>, flow: Flow, step: Step, product: int)
    requires Can(flow, step) && Positive(flow.items) && product in stock
    ensures StockAfter(stock, flow, step).Keys == stock.Keys && FlowAfter(stock, flow, step).items == flow.items
    ensures StockAfter(stock, flow, step)[product]
            == stock[product] + TakenBy(flow, product) - TakenBy(FlowAfter(stock, flow, step), product)
  {
    if step.Serve? {
      ItemsMeaning(flow.requests[step.r].kind, stock, flow.items);
      var n, amount := flow.reserved - flow.released, Total(flow.items, product);
      assert Times(n + 1, amount) == Times(n, amount) + amount;
      assert Times(n - 1, amount) == Times(n, amount) - amount;
    }
  }

  lemma StepBalanced(baseline: map<int, int>, s: Sys, a: Action)
    requires Balanced(baseline, s) && Enabled(s, a)
    ensures Balanced(baseline, Apply(s, a))
  {
    var s' := Apply(s, a);
    match a
    case Create(items) =>
      assert s'.flows[..|s'.flows| - 1] == s.flows;
    case At(f, step) =>
      assert Positive(s.flows[f].items);
      FlowKeys(s.stock, s.flows[f], step);
      forall p | p in baseline ensures s'.stock[p] == baseline[p] - TakenBySum(s'.flows, p) {
        FlowLedger(s.stock, s.flows[f], step, p);
        SumChanged(s.flows, f, s'.flows[f], p);
      }
  }

  lemma FlowKeys(stock: map<int, int>, flow: Flow, step: Step)
    requires Can(flow, step) && Positive(flow.items)
    ensures StockAfter(stock, flow, step).Keys == stock.Keys && FlowAfter(stock, flow, step).items == flow.items
  {
    if step.Serve? {
      ItemsMeaning(flow.requests[step.r].kind, stock, flow.items);
    }
  }

  lemma {:induction false} RunBalanced(baseline: map<int, int>, s: Sys, acts: seq<Action>)
    requires Balanced(baseline, s) && Feasible(s, acts)
    ensures Balanced(baseline, Exec(s, acts))
    decreases |acts|
  {
    if acts != [] {
      StepBalanced(baseline, s, acts[0]);
      RunBalanced(baseline, Apply(s, acts[0]), acts[1..]);
    }
  }

  /** The ledger, in every run with lost replies, late requests, retries and crashes: stock is
      the baseline minus everything applied by reserves plus everything applied by releases. */
  lemma StockIsBaselineMinusApplied(baseline: map<int, int>, acts: seq<Action>, product: int)
    requires Feasible(Sys(baseline, []), acts) && product in baseline
    ensures var s := Exec(Sys(baseline, []), acts);
            product in s.stock && s.stock[product] == baseline[product] - TakenBySum(s.flows, product)
  {
    RunBalanced(baseline, Sys(baseline, []), acts);
  }

  // ---- what an order's status says about its stock, in every run ----

  /** No other thread waits for this request. */
  ghost predicate Sole(flow: Flow, t: ThreadId, r: RequestId) {
    forall u :: u in flow.threads && u != t && Waits(flow.threads[u].pc) ==> flow.threads[u].pc.request.value != r
  }

  ghost predicate ThreadBacked(flow: Flow, t: ThreadId)
    requires t in flow.threads
  {
    var pc := flow.threads[t].pc;
    && (Waits(pc) ==>
          && pc.request.value in flow.requests
          && flow.requests[pc.request.value].kind == (if pc.Reserve? then Reserving else Releasing)
          && Sole(flow, t, pc.request.value))
    && (pc.CommitNew? ==> flow.reserved >= 1)
    && (pc.AskCharge? || pc.Release? || pc.Settle? ==> flow.order.Some?)
    && (pc.Settle? && (pc.status == CANCELLED || (pc.status == PAYMENT_FAILED && !pc.unreleased)) ==> flow.released >= 1)
  }

  ghost predicate OrderBacked(flow: Flow) {
    && (flow.order.Some? ==> flow.reserved >= 1)
    && (flow.order == Some(CANCELLED) || (flow.order == Some(PAYMENT_FAILED) && !flow.unreleased) ==> flow.released >= 1)
  }

  ghost predicate Backed(flow: Flow) {
    && (forall r :: r in flow.requests && flow.requests[r].reply.Fine? ==>
          if flow.requests[r].kind == Reserving then flow.reserved >= 1 else flow.released >= 1)
    && (forall t :: t in flow.threads ==> ThreadBacked(flow, t))
    && OrderBacked(flow)
  }

  predicate ByThread(step: Step) {
    !step.Serve? && !step.ServeNot? && !step.Cancel?
  }

  /** What one thread's step leaves to the others. */
  lemma StepFrame(stock: map<int, int>, flow: Flow, step: Step, r: RequestId)
    requires Can(flow, step) && r in flow.requests
    requires step.Read? ==> flow.threads[step.t].pc.request.value != r
    ensures var flow' := FlowAfter(stock, flow, step);
            r in flow'.requests && flow'.requests[r].kind == flow.requests[r].kind
  {
  }

  lemma StaysSole(stock: map<int, int>, flow: Flow, step: Step, t: ThreadId, r: RequestId)
    requires Can(flow, step) && r in flow.requests && Sole(flow, t, r)
    ensures Sole(FlowAfter(stock, flow, step), t, r)
  {
  }

  lemma CountsGrow(stock: map<int, int>, flow: Flow, step: Step)
    requires Can(flow, step)
    ensures FlowAfter(stock, flow, step).reserved >= flow.reserved && FlowAfter(stock, flow, step).released >= flow.released
    ensures flow.order.Some? ==> FlowAfter(stock, flow, step).order.Some?
  {
  }

  lemma ThreadStaysBacked(stock: map<int, int>, flow: Flow, step: Step, t: ThreadId)
    requires Backed(flow) && Can(flow, step) && t in flow.threads && !(ByThread(step) && step.t == t)
    ensures t in FlowAfter(stock, flow, step).threads && ThreadBacked(FlowAfter(stock, flow, step), t)
  {
    assert ThreadBacked(flow, t);
    CountsGrow(stock, flow, step);
    if ByThread(step) {
      assert ThreadBacked(flow, step.t);
    }
    if Waits(flow.threads[t].pc) {
      StepFrame(stock, flow, step, flow.threads[t].pc.request.value);
      StaysSole(stock, flow, step, t, flow.threads[t].pc.request.value);
    }
  }

  lemma MoverStaysBacked(stock: map<int, int>, flow: Flow, step: Step)
    requires Backed(flow) && Can(flow, step) && ByThread(step)
    ensures ThreadBacked(FlowAfter(stock, flow, step), step.t) && OrderBacked(FlowAfter(stock, flow, step))
  {
    assert ThreadBacked(flow, step.t);
    forall u | u in flow.threads && u != step.t
      ensures Waits(flow.threads[u].pc) ==> flow.threads[u].pc.request.value in flow.requests
    {
      assert ThreadBacked(flow, u);
    }
  }

  lemma StepBacked(stock: map<int, int>, flow: Flow, step: Step)
    requires Backed(flow) && Can(flow, step)
    ensures Backed(FlowAfter(stock, flow, step))
  {
    var flow' := FlowAfter(stock, flow, step);
    if ByThread(step) {
      MoverStaysBacked(stock, flow, step);
    }
    forall t | t in flow'.threads ensures ThreadBacked(flow', t) {
      if t in flow.threads && !(ByThread(step) && step.t == t) {
        ThreadStaysBacked(stock, flow, step, t);
      }
    }
  }

  lemma {:induction false} RunBacked(s: Sys, acts: seq<Action>)
    requires Feasible(s, acts) && forall f :: 0 <= f < |s.flows| ==> Backed(s.flows[f])
    ensures forall f :: 0 <= f < |Exec(s, acts).flows| ==> Backed(Exec(s, acts).flows[f])
    decreases |acts|
  {
    if acts != [] {
      if acts[0].At? {
        StepBacked(s.stock, s.flows[acts[0].f], acts[0].step);
      }
      RunBacked(Apply(s, acts[0]), acts[1..]);
    }
  }

  /** Whatever is lost, late or repeated: no order exists before its stock was taken, and none
      is CANCELLED, or PAYMENT_FAILED without the stock being noted as kept, before stock of it
      was given back. */
  lemma OrdersAreBacked(baseline: map<int, int>, acts: seq<Action>, f: nat)
    requires Feasible(Sys(baseline, []), acts) && f < |Exec(Sys(baseline, []), acts).flows|
    ensures OrderBacked(Exec(Sys(baseline, []), acts).flows[f])
  {
    RunBacked(Sys(baseline, []), acts);
  }

  // ---- what the charge decides ----

  /** Where a creating thread can be after its charge ended with c. */
  ghost predicate Follows(pc: Pc, c: Status) {
    match c
    case SUCCESS => pc.Settle? && pc.status == PAID
    case UNKNOWN => pc.Settle? && pc.status == PAYMENT_PENDING
    case FAILED => pc.Release? || (pc.Settle? && pc.status == PAYMENT_FAILED)
  }

  ghost predicate Charged(s: Sys, f: nat, t: ThreadId, c: Status) {
    && f < |s.flows| && t in s.flows[f].threads && !s.flows[f].threads[t].cancelling
    && Follows(s.flows[f].threads[t].pc, c)
  }

  lemma StepCharges(s: Sys, a: Action, f: nat, t: ThreadId, c: Status)
    requires Enabled(s, a) && Charged(Apply(s, a), f, t, c) && !Charged(s, f, t, c)
    ensures a == At(f, Pay(t, c))
  {
  }

  lemma {:induction false} ChargedOnlyByPay(s: Sys, acts: seq<Action>, f: nat, t: ThreadId, c: Status)
    requires Feasible(s, acts) && Charged(Exec(s, acts), f, t, c)
    ensures Charged(s, f, t, c) || At(f, Pay(t, c)) in acts
    decreases |acts|
  {
    if acts != [] {
      ChargedOnlyByPay(Apply(s, acts[0]), acts[1..], f, t, c);
      if Charged(Apply(s, acts[0]), f, t, c) && !Charged(s, f, t, c) {
        StepCharges(s, acts[0], f, t, c);
      }
    }
  }

  /** The one outcome that gives stock back: a creating thread sends a releasing request only after
      its own charge FAILED, never after an UNKNOWN or a SUCCESS. */
  lemma ReleasesOnlyAfterDecline(baseline: map<int, int>, acts: seq<Action>, f: nat, t: ThreadId, r: RequestId)
    requires Feasible(Sys(baseline, []), acts) && Enabled(Exec(Sys(baseline, []), acts), At(f, Send(t, r)))
    requires var thread := Exec(Sys(baseline, []), acts).flows[f].threads[t]; !thread.cancelling && thread.pc.Release?
    ensures At(f, Pay(t, FAILED)) in acts
  {
    ChargedOnlyByPay(Sys(baseline, []), acts, f, t, FAILED);
  }

  /** Cancelling threads write CANCELLED, creating threads what their charge decided. */
  ghost predicate WritesOwn(flow: Flow) {
    forall t :: t in flow.threads ==>
      var thread := flow.threads[t];
      if thread.cancelling then thread.pc.Release? || thread.pc.Finished? || thread.pc == Settle(CANCELLED, false)
      else thread.pc.Settle? ==> Follows(thread.pc, SUCCESS) || Follows(thread.pc, UNKNOWN) || Follows(thread.pc, FAILED)
  }

  lemma StepWritesOwn(stock: map<int, int>, flow: Flow, step: Step)
    requires Can(flow, step) && WritesOwn(flow)
    ensures WritesOwn(FlowAfter(stock, flow, step))
  {
  }

  /** What must have happened for an order to have this status. */
  ghost predicate Earned(acts: seq<Action>, f: nat, status: OrderStatus) {
    match status
    case PENDING => exists t :: At(f, CommitOrder(t, true)) in acts
    case PAID => exists t :: At(f, Pay(t, SUCCESS)) in acts
    case PAYMENT_PENDING => exists t :: At(f, Pay(t, UNKNOWN)) in acts
    case PAYMENT_FAILED => exists t :: At(f, Pay(t, FAILED)) in acts
    case CANCELLED => exists t :: At(f, Cancel(t)) in acts
  }

  /** A cancelling thread is there because of a cancellation. */
  lemma {:induction false} CancellingByCancel(s: Sys, acts: seq<Action>, f: nat, t: ThreadId)
    requires Feasible(s, acts) && Cancelling(Exec(s, acts), f, t)
    ensures Cancelling(s, f, t) || At(f, Cancel(t)) in acts
    decreases |acts|
  {
    if acts != [] {
      CancellingByCancel(Apply(s, acts[0]), acts[1..], f, t);
    }
  }

  ghost predicate Cancelling(s: Sys, f: nat, t: ThreadId) {
    f < |s.flows| && t in s.flows[f].threads && s.flows[f].threads[t].cancelling
  }

  ghost predicate OrdersEarned(s: Sys, acts: seq<Action>) {
    forall f :: 0 <= f < |s.flows| ==>
      WritesOwn(s.flows[f]) && (s.flows[f].order.Some? ==> Earned(acts, f, s.flows[f].order.value))
  }

  lemma EarnedStays(acts: seq<Action>, a: Action, f: nat, status: OrderStatus)
    requires Earned(acts, f, status)
    ensures Earned(acts + [a], f, status)
  {
  }

  /** The status that a step writes has been earned. */
  lemma WriteEarns(baseline: map<int, int>, acts: seq<Action>, f: nat, step: Step)
    requires Feasible(Sys(baseline, []), acts) && Enabled(Exec(Sys(baseline, []), acts), At(f, step)) && step.Write?
    requires WritesOwn(Exec(Sys(baseline, []), acts).flows[f])
    ensures Earned(acts, f, Exec(Sys(baseline, []), acts).flows[f].threads[step.t].pc.status)
  {
    var s := Exec(Sys(baseline, []), acts);
    var thread := s.flows[f].threads[step.t];
    if thread.cancelling {
      CancellingByCancel(Sys(baseline, []), acts, f, step.t);
    } else {
      var c := if Follows(thread.pc, SUCCESS) then SUCCESS else if Follows(thread.pc, UNKNOWN) then UNKNOWN else FAILED;
      ChargedOnlyByPay(Sys(baseline, []), acts, f, step.t, c);
    }
  }

  lemma {:induction false} RunEarned(baseline: map<int, int>, acts: seq<Action>)
    requires Feasible(Sys(baseline, []), acts)
    ensures OrdersEarned(Exec(Sys(baseline, []), acts), acts)
    decreases |acts|
  {
    if acts != [] {
      var before, a := acts[..|acts| - 1], acts[|acts| - 1];
      assert before + [a] == acts;
      SplitLast(Sys(baseline, []), before, a);
      RunEarned(baseline, before);
      StepEarned(baseline, before, a);
    }
  }

  lemma {:induction false} SplitLast(s: Sys, acts: seq<Action>, a: Action)
    requires Feasible(s, acts + [a])
    ensures Feasible(s, acts) && Enabled(Exec(s, acts), a) && Exec(s, acts + [a]) == Apply(Exec(s, acts), a)
    decreases |acts|
  {
    if acts == [] {
      assert acts + [a] == [a];
    } else {
      assert (acts + [a])[1..] == acts[1..] + [a];
      SplitLast(Apply(s, acts[0]), acts[1..], a);
    }
  }

  lemma StepEarned(baseline: map<int, int>, acts: seq<Action>, a: Action)
    requires Feasible(Sys(baseline, []), acts) && Enabled(Exec(Sys(baseline, []), acts), a)
    requires OrdersEarned(Exec(Sys(baseline, []), acts), acts)
    ensures OrdersEarned(Apply(Exec(Sys(baseline, []), acts), a), acts + [a])
  {
    var s := Exec(Sys(baseline, []), acts);
    var s' := Apply(s, a);
    forall f | 0 <= f < |s'.flows|
      ensures WritesOwn(s'.flows[f]) && (s'.flows[f].order.Some? ==> Earned(acts + [a], f, s'.flows[f].order.value))
    {
      if a.At? && a.f == f {
        FlowEarned(baseline, acts, f, a.step);
      } else if f < |s.flows| && s.flows[f].order.Some? {
        EarnedStays(acts, a, f, s.flows[f].order.value);
      }
    }
  }

  lemma FlowEarned(baseline: map<int, int>, acts: seq<Action>, f: nat, step: Step)
    requires Feasible(Sys(baseline, []), acts) && Enabled(Exec(Sys(baseline, []), acts), At(f, step))
    requires OrdersEarned(Exec(Sys(baseline, []), acts), acts)
    ensures var s := Exec(Sys(baseline, []), acts); var flow' := FlowAfter(s.stock, s.flows[f], step);
            WritesOwn(flow') && (flow'.order.Some? ==> Earned(acts + [At(f, step)], f, flow'.order.value))
  {
    var s := Exec(Sys(baseline, []), acts);
    var flow := s.flows[f];
    StepWritesOwn(s.stock, flow, step);
    if step.Write? {
      WriteEarns(baseline, acts, f, step);
      EarnedStays(acts, At(f, step), f, flow.threads[step.t].pc.status);
    } else if step.CommitOrder? && step.ok {
      assert At(f, CommitOrder(step.t, true)) in acts + [At(f, step)];
    } else if flow.order.Some? {
      EarnedStays(acts, At(f, step), f, flow.order.value);
    }
  }

  /** In every run every status rests on what happened to that very order: PAID on a SUCCESS
      charge, PAYMENT_PENDING on an UNKNOWN one, PAYMENT_FAILED on a FAILED one, CANCELLED on a
      cancellation. */
  lemma StatusesAreEarned(baseline: map<int, int>, acts: seq<Action>, f: nat)
    requires Feasible(Sys(baseline, []), acts) && f < |Exec(Sys(baseline, []), acts).flows|
    requires Exec(Sys(baseline, []), acts).flows[f].order.Some?
    ensures Earned(acts, f, Exec(Sys(baseline, []), acts).flows[f].order.value)
  {
    RunEarned(baseline, acts);
  }

  // ---- what an answer means for the thread that reads it ----

  lemma {:induction false} FinishedForGood(s: Sys, acts: seq<Action>, f: nat, t: ThreadId)
    requires Feasible(s, acts) && f < |s.flows| && t in s.flows[f].threads && s.flows[f].threads[t].pc.Finished?
    ensures forall r :: At(f, Send(t, r)) !in acts
    ensures forall c :: At(f, Pay(t, c)) !in acts
    ensures At(f, Write(t)) !in acts
    decreases |acts|
  {
    if acts != [] {
      FinishedForGood(Apply(s, acts[0]), acts[1..], f, t);
    }
  }

  /** What the answers mean.  A refusal is final: the thread that reads it never sends, charges or
      writes again.  After a 5xx or a timeout it may send the same request once more.  After a
      reserve that went through it goes on to commit the order. */
  lemma AnswersMean(s: Sys, f: nat, t: ThreadId, later: seq<Action>)
    requires Enabled(s, At(f, Read(t))) && Feasible(Apply(s, At(f, Read(t))), later)
    ensures var pc := s.flows[f].threads[t].pc;
            var reply := s.flows[f].requests[pc.request.value].reply;
            && (reply.Rejected4xx? ==>
                  && (forall r :: At(f, Send(t, r)) !in later) && (forall c :: At(f, Pay(t, c)) !in later)
                  && At(f, Write(t)) !in later)
            && (reply.Failed5xx? ==> forall r :: r !in s.flows[f].requests ==>
                  Enabled(Apply(s, At(f, Read(t))), At(f, Send(t, r))))
            && (reply.Fine? ==> forall ok ::
                  Enabled(Apply(s, At(f, Read(t))), At(f, CommitOrder(t, ok))) <==> pc.Reserve?)
            && (reply.Fine? ==> (Enabled(Apply(s, At(f, Read(t))), At(f, Write(t))) <==> pc.Release?))
  {
    var pc := s.flows[f].threads[t].pc;
    if s.flows[f].requests[pc.request.value].reply.Rejected4xx? {
      FinishedForGood(Apply(s, At(f, Read(t))), later, f, t);
    }
  }

  /** A reserve that the stock does not cover changes nothing and is answered with a refusal; one
      that it covers, and every release, is applied and answered fine. */
  lemma ServedAsAllowed(s: Sys, f: nat, r: RequestId)
    requires Enabled(s, At(f, Serve(r))) && Positive(s.flows[f].items)
    ensures var flow, s' := s.flows[f], Apply(s, At(f, Serve(r)));
            if flow.requests[r].kind == Releasing || CanReserve(s.stock, flow.items)
            then s'.flows[f].requests[r].reply == Fine && MovedBy(flow.requests[r].kind, s.stock, flow.items, s'.stock)
            else s'.flows[f].requests[r].reply == Rejected4xx && s'.stock == s.stock
  {
    ItemsMeaning(s.flows[f].requests[r].kind, s.stock, s.flows[f].items);
  }

  /** Giving up after timeouts and 5xx: an unreachable product service leaves no order behind a
      reserve, lets a failed order be written as PAYMENT_FAILED with its stock marked as kept, and
      leaves a cancelled order's status alone. */
  lemma GivingUpMeans(s: Sys, f: nat, t: ThreadId)
    requires Enabled(s, At(f, GiveUp(t)))
    ensures var s' := Apply(s, At(f, GiveUp(t)));
            && s'.flows[f].order == s.flows[f].order
            && (Enabled(s', At(f, Write(t))) <==>
                  s.flows[f].threads[t].pc.Release? && !s.flows[f].threads[t].cancelling)
            && (Enabled(s', At(f, Write(t))) ==>
                  var flow := Apply(s', At(f, Write(t))).flows[f]; flow.order == Some(PAYMENT_FAILED) && flow.unreleased)
  {
  }
}
