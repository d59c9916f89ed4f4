/**
 Exact conservation of stock.  In every run, clean or not, what an order's applied requests took
 is accounted for by its status, by somebody still to account for it, by applied requests whose
 reply was never read, or by one of three kinds of step that lose track of stock.
 */
module Conservation {
  import opened Outcomes
  import opened Orders
  import opened StockRules
  import opened Ledger

  /** Whether an order with this status still has a claim on its stock. */
  function Claim(status: OrderStatus, unreleased: bool): int {
    match status
    case PENDING => 1
    case PAID => 1
    case PAYMENT_PENDING => 1
    case PAYMENT_FAILED => if unreleased then 1 else 0
    case CANCELLED => 0
  }

  function Held(flow: Flow): int {
    if flow.order.Some? then Claim(flow.order.value, flow.unreleased) else 0
  }

  ghost predicate Active(flow: Flow, t: ThreadId) {
    t in flow.threads && !flow.threads[t].pc.Finished?
  }

  ghost predicate Resting(flow: Flow) {
    forall t :: !Active(flow, t)
  }

  /** The thread has heard of a release and is about to write the status that gives up the claim. */
  predicate Freeing(pc: Pc) {
    pc.Settle? && Claim(pc.status, pc.unreleased) == 0
  }

  /** Stock taken for an order that is not committed yet. */
  function Taking(flow: Flow): set<ThreadId> {
    set t | t in flow.threads && flow.threads[t].pc.CommitNew?
  }

  /** Stock given back for an order whose status does not say so yet. */
  function Giving(flow: Flow): set<ThreadId> {
    set t | t in flow.threads && Freeing(flow.threads[t].pc)
  }

  /** Applied requests whose reply nobody has read: somebody still waits, or nobody ever will. */
  function Unread(flow: Flow, kind: Kind): set<RequestId> {
    set r | r in flow.requests && flow.requests[r] == Request(kind, Fine)
  }

  /** The steps that lose track of stock for good. */
  datatype Loss =
    | Orphaned       // the order of a reserve that was heard of is not committed
    | Forgotten      // the status of a release that was heard of is not written
    | Overwritten    // a status is written over an order that has no claim any more

  function LossOf(flow: Flow, step: Step): Option<Loss>
    requires Can(flow, step)
  {
    match step
    case CommitOrder(_, ok) => if ok then None else Some(Orphaned)
    case Crash(t) =>
      if flow.threads[t].pc.CommitNew? then Some(Orphaned)
      else if Freeing(flow.threads[t].pc) then Some(Forgotten)
      else None
    case Write(_) => if Held(flow) == 0 then Some(Overwritten) else None
    case _ => None
  }

  function LostBy(s: Sys, a: Action, f: nat, loss: Loss): nat
    requires Enabled(s, a)
  {
    if a.At? && a.f == f && LossOf(s.flows[f], a.step) == Some(loss) then 1 else 0
  }

  /** How often the run loses track of order f's stock in this way. */
  function Losses(s: Sys, acts: seq<Action>, f: nat, loss: Loss): nat
    requires Feasible(s, acts)
    decreases |acts|
  {
    if acts == [] then 0 else LostBy(s, acts[0], f, loss) + Losses(Apply(s, acts[0]), acts[1..], f, loss)
  }

  /** What the order's applied requests took, beyond what its status claims and what the threads
      in the middle of a commit are about to account for. */
  function Stray(flow: Flow): int {
    flow.reserved - flow.released - Held(flow) - |Taking(flow)| + |Giving(flow)|
  }

  /** The part of it that no unread reply explains. */
  function Gap(flow: Flow): int {
    Stray(flow) - |Unread(flow, Reserving)| + |Unread(flow, Releasing)|
  }

  function Cost(loss: Option<Loss>): int {
    match loss
    case None => 0
    case Some(Orphaned) => 1
    case Some(_) => -1
  }

  /** Only the one creating thread reserves, and only before its order exists. */
  ghost predicate Early(flow: Flow) {
    forall t :: t in flow.threads && (flow.threads[t].pc.Reserve? || flow.threads[t].pc.CommitNew?) ==>
      t == 0 && flow.order == None
  }

  lemma StepEarly(stock: map<int, int>, flow: Flow, step: Step)
    requires Early(flow) && Backed(flow) && Can(flow, step)
    ensures Early(FlowAfter(stock, flow, step))
  {
    if step.Write? {
      assert ThreadBacked(flow, step.t);
    }
  }

  /** A set that changes at most in one element. */
  lemma Recounted<T>(before: set<T>, after: set<T>, x: T)
    requires after == before + {x} || after == before - {x}
    ensures |after| == |before| - (if x in before then 1 else 0) + (if x in after then 1 else 0)
  {
    if (x in before) == (x in after) {
      assert after == before;
    }
  }

  function One(b: bool): nat {
    if b then 1 else 0
  }

  /** Sets that agree except on x. */
  lemma Recount<T>(before: set<T>, after: set<T>, x: T)
    requires forall y :: y != x ==> (y in before <==> y in after)
    ensures |after| == |before| - One(x in before) + One(x in after)
  {
    if x in after {
      assert after == before + {x};
    } else {
      assert after == before - {x};
    }
    Recounted(before, after, x);
  }

  /** Moving one thread changes only its own membership. */
  lemma ThreadCounts(flow: Flow, flow': Flow, t: ThreadId)
    requires t in flow'.threads && flow'.threads == flow.threads[t := flow'.threads[t]]
    ensures |Taking(flow')| == |Taking(flow)| - One(t in flow.threads && flow.threads[t].pc.CommitNew?)
                               + One(flow'.threads[t].pc.CommitNew?)
    ensures |Giving(flow')| == |Giving(flow)| - One(t in flow.threads && Freeing(flow.threads[t].pc))
                               + One(Freeing(flow'.threads[t].pc))
  {
    OtherThreadsCounted(flow, flow', t);
    Recount(Taking(flow), Taking(flow'), t);
    Recount(Giving(flow), Giving(flow'), t);
  }

  lemma OtherThreadsCounted(flow: Flow, flow': Flow, t: ThreadId)
    requires t in flow'.threads && flow'.threads == flow.threads[t := flow'.threads[t]]
    ensures forall u :: u != t ==> (u in Taking(flow) <==> u in Taking(flow')) && (u in Giving(flow) <==> u in Giving(flow'))
  {
    forall u | u != t
      ensures (u in Taking(flow) <==> u in Taking(flow')) && (u in Giving(flow) <==> u in Giving(flow'))
    {
      assert u in flow.threads <==> u in flow'.threads;
      assert u in flow.threads ==> flow'.threads[u] == flow.threads[u];
    }
  }

  predicate Applied(flow: Flow, r: RequestId, kind: Kind) {
    r in flow.requests && flow.requests[r] == Request(kind, Fine)
  }

  /** So does changing one request. */
  lemma RequestCounts(flow: Flow, flow': Flow, r: RequestId, kind: Kind)
    requires flow'.requests - {r} == flow.requests - {r}
    ensures |Unread(flow', kind)| == |Unread(flow, kind)| - One(Applied(flow, r, kind)) + One(Applied(flow', r, kind))
  {
    forall q | q != r ensures q in Unread(flow, kind) <==> q in Unread(flow', kind) {
      OtherRequestSame(flow.requests, flow'.requests, r, q);
    }
    Recount(Unread(flow, kind), Unread(flow', kind), r);
  }

  lemma OtherRequestSame(requests: map<RequestId, Request>, requests': map<RequestId, Request>, r: RequestId, q: RequestId)
    requires requests - {r} == requests' - {r} && q != r
    ensures q in requests <==> q in requests'
    ensures q in requests ==> requests[q] == requests'[q]
  {
    var rest := requests - {r};
    assert q in requests <==> q in rest;
    assert q in requests' <==> q in rest;
    assert q in requests ==> rest[q] == requests[q];
    assert q in requests' ==> rest[q] == requests'[q];
  }

  /** Which request a step touches. */
  function Touched(flow: Flow, step: Step): Option<RequestId>
    requires Can(flow, step)
  {
    match step
    case Send(_, r) => Some(r)
    case Serve(r) => Some(r)
    case ServeNot(r) => Some(r)
    case Read(t) => Some(flow.threads[t].pc.request.value)
    case _ => None
  }

  lemma RequestsAfter(stock: map<int, int>, flow: Flow, step: Step)
    requires Can(flow, step)
    ensures Touched(flow, step) == None ==> FlowAfter(stock, flow, step).requests == flow.requests
    ensures Touched(flow, step).Some? ==>
              FlowAfter(stock, flow, step).requests - {Touched(flow, step).value} == flow.requests - {Touched(flow, step).value}
  {
  }

  lemma ThreadsAfter(stock: map<int, int>, flow: Flow, step: Step)
    requires Can(flow, step)
    ensures step.Serve? || step.ServeNot? ==> FlowAfter(stock, flow, step).threads == flow.threads
    ensures !step.Serve? && !step.ServeNot? ==>
              && step.t in FlowAfter(stock, flow, step).threads
              && FlowAfter(stock, flow, step).threads
                 == flow.threads[step.t := FlowAfter(stock, flow, step).threads[step.t]]
  {
  }

  lemma UnreadAfter(stock: map<int, int>, flow: Flow, step: Step, kind: Kind)
    requires Can(flow, step) && Backed(flow)
    ensures |Unread(FlowAfter(stock, flow, step), kind)| ==
            |Unread(flow, kind)|
            - One(step.Read? && flow.requests[flow.threads[step.t].pc.request.value] == Request(kind, Fine))
            + One(step.Serve? && Ledger.Served(stock, flow, step.r).Changed? && flow.requests[step.r].kind == kind)
  {
    RequestsAfter(stock, flow, step);
    if Touched(flow, step).Some? {
      RequestCounts(flow, FlowAfter(stock, flow, step), Touched(flow, step).value, kind);
    }
  }

  lemma AppliedAfter(stock: map<int, int>, flow: Flow, step: Step)
    requires Can(flow, step)
    ensures FlowAfter(stock, flow, step).reserved - FlowAfter(stock, flow, step).released ==
            flow.reserved - flow.released
            + if step.Serve? && Ledger.Served(stock, flow, step.r).Changed?
              then if flow.requests[step.r].kind == Reserving then 1 else -1
              else 0
  {
  }

  /** What a thread's own step does to what it is about to account for. */
  lemma StrayByThread(stock: map<int, int>, flow: Flow, step: Step)
    requires Can(flow, step) && Backed(flow) && Early(flow) && !step.Serve? && !step.ServeNot?
    ensures Stray(FlowAfter(stock, flow, step)) == Stray(flow) + Cost(LossOf(flow, step))
            + if step.Read? && flow.requests[flow.threads[step.t].pc.request.value].reply.Fine?
              then if flow.requests[flow.threads[step.t].pc.request.value].kind == Reserving then -1 else 1
              else 0
  {
    var flow' := FlowAfter(stock, flow, step);
    ThreadsAfter(stock, flow, step);
    AppliedAfter(stock, flow, step);
    ThreadCounts(flow, flow', step.t);
    if !step.Cancel? {
      assert ThreadBacked(flow, step.t);
    }
  }

  lemma StrayByServe(stock: map<int, int>, flow: Flow, step: Step)
    requires Can(flow, step) && (step.Serve? || step.ServeNot?)
    ensures Stray(FlowAfter(stock, flow, step)) == Stray(flow)
            + if step.Serve? && Ledger.Served(stock, flow, step.r).Changed?
              then if flow.requests[step.r].kind == Reserving then 1 else -1
              else 0
  {
    var flow' := FlowAfter(stock, flow, step);
    ThreadsAfter(stock, flow, step);
    AppliedAfter(stock, flow, step);
    assert Taking(flow') == Taking(flow) && Giving(flow') == Giving(flow) && Held(flow') == Held(flow);
  }

  /** A step changes the gap by what it loses track of, and by nothing else. */
  lemma StepGap(stock: map<int, int>, flow: Flow, step: Step)
    requires Can(flow, step) && Backed(flow) && Early(flow)
    ensures Gap(FlowAfter(stock, flow, step)) == Gap(flow) + Cost(LossOf(flow, step))
  {
    UnreadAfter(stock, flow, step, Reserving);
    UnreadAfter(stock, flow, step, Releasing);
    if step.Serve? || step.ServeNot? {
      StrayByServe(stock, flow, step);
    } else {
      StrayByThread(stock, flow, step);
    }
  }

  /** The net number of reserves the run has lost track of for order f. */
  function NetLoss(s: Sys, acts: seq<Action>, f: nat): int
    requires Feasible(s, acts)
  {
    Losses(s, acts, f, Orphaned) - Losses(s, acts, f, Forgotten) - Losses(s, acts, f, Overwritten)
  }

  ghost predicate Sound(s: Sys) {
    forall f :: 0 <= f < |s.flows| ==> Backed(s.flows[f]) && Early(s.flows[f])
  }

  /** An order that does not exist yet starts without a gap. */
  function GapAt(s: Sys, f: nat): int {
    if f < |s.flows| then Gap(s.flows[f]) else 0
  }

  lemma NewFlowGap(items: seq<Item>)
    ensures Gap(NewFlow(items)) == 0 && Backed(NewFlow(items)) && Early(NewFlow(items))
  {
    var flow := NewFlow(items);
    assert Taking(flow) == {} && Giving(flow) == {} && Unread(flow, Reserving) == {} && Unread(flow, Releasing) == {};
  }

  lemma StepSound(s: Sys, a: Action, f: nat)
    requires Sound(s) && Enabled(s, a)
    ensures Sound(Apply(s, a)) && |Apply(s, a).flows| >= |s.flows|
    ensures GapAt(Apply(s, a), f) == GapAt(s, f) + LostBy(s, a, f, Orphaned) - LostBy(s, a, f, Forgotten)
                                     - LostBy(s, a, f, Overwritten)
  {
    match a
    case Create(items) => NewFlowGap(items);
    case At(g, step) =>
      StepBacked(s.stock, s.flows[g], step);
      StepEarly(s.stock, s.flows[g], step);
      StepGap(s.stock, s.flows[g], step);
  }

  lemma {:induction false} RunGap(s: Sys, acts: seq<Action>, f: nat)
    requires Sound(s) && Feasible(s, acts)
    ensures Sound(Exec(s, acts)) && GapAt(Exec(s, acts), f) == GapAt(s, f) + NetLoss(s, acts, f)
    decreases |acts|
  {
    if acts != [] {
      StepSound(s, acts[0], f);
      RunGap(Apply(s, acts[0]), acts[1..], f);
    }
  }

  /** The books of one order, at every moment of every run: applied reserves minus applied
      releases are what its status claims, plus what is in transit between a reply and a commit,
      plus reserves and minus releases whose reply is unread, plus what the run lost track of. */
  lemma OrderBalance(baseline: map<int, int>, acts: seq<Action>, f: nat)
    requires Feasible(Sys(baseline, []), acts) && f < |Exec(Sys(baseline, []), acts).flows|
    ensures var flow := Exec(Sys(baseline, []), acts).flows[f];
            flow.reserved - flow.released == Held(flow) + |Taking(flow)| - |Giving(flow)| + |Unread(flow, Reserving)|
                                             - |Unread(flow, Releasing)| + NetLoss(Sys(baseline, []), acts, f)
  {
    RunGap(Sys(baseline, []), acts, f);
  }

  /** Exactly when an order at rest is in balance: its applied reserves whose reply nobody read
      and its orphaned reserves are as many as its applied releases whose reply nobody read, its
      forgotten releases and its overwritten statuses. */
  lemma RestingOrderBalance(baseline: map<int, int>, acts: seq<Action>, f: nat)
    requires Feasible(Sys(baseline, []), acts) && f < |Exec(Sys(baseline, []), acts).flows|
    requires Resting(Exec(Sys(baseline, []), acts).flows[f])
    ensures var s0 := Sys(baseline, []); var flow := Exec(s0, acts).flows[f];
            (flow.reserved - flow.released == Held(flow)) <==>
            (|Unread(flow, Reserving)| + Losses(s0, acts, f, Orphaned)
             == |Unread(flow, Releasing)| + Losses(s0, acts, f, Forgotten) + Losses(s0, acts, f, Overwritten))
  {
    OrderBalance(baseline, acts, f);
    var flow := Exec(Sys(baseline, []), acts).flows[f];
    RestingCounts(flow);
  }

  lemma RestingCounts(flow: Flow)
    requires Resting(flow)
    ensures Taking(flow) == {} && Giving(flow) == {}
  {
    assert forall t :: t in flow.threads ==> !Active(flow, t);
  }

  // ---- the whole stock ----

  function HeldSum(flows: seq<Flow>, product: int): int {
    if flows == [] then 0
    else HeldSum(flows[..|flows| - 1], product) + Times(Held(flows[|flows| - 1]), Total(flows[|flows| - 1].items, product))
  }

  /** Units taken or given back that no status accounts for. */
  function Unclaimed(flow: Flow): int {
    flow.reserved - flow.released - Held(flow)
  }

  function UnclaimedSum(flows: seq<Flow>, product: int): int {
    if flows == [] then 0
    else
      UnclaimedSum(flows[..|flows| - 1], product)
      + Times(Unclaimed(flows[|flows| - 1]), Total(flows[|flows| - 1].items, product))
  }

  lemma {:induction false} ClaimedAndUnclaimed(flows: seq<Flow>, product: int)
    ensures TakenBySum(flows, product) == HeldSum(flows, product) + UnclaimedSum(flows, product)
    decreases |flows|
  {
    if flows != [] {
      ClaimedAndUnclaimed(flows[..|flows| - 1], product);
      var flow := flows[|flows| - 1];
      var held, rest, amount := Held(flow), Unclaimed(flow), Total(flow.items, product);
      assert Times(held + rest, amount) == Times(held, amount) + Times(rest, amount);
    }
  }

  lemma {:induction false} NothingUnclaimed(flows: seq<Flow>, product: int)
    requires forall f :: 0 <= f < |flows| ==> Unclaimed(flows[f]) == 0
    ensures UnclaimedSum(flows, product) == 0
    decreases |flows|
  {
    if flows != [] {
      NothingUnclaimed(flows[..|flows| - 1], product);
    }
  }

  /** The order's account over the run is even. */
  ghost predicate Even(s0: Sys, acts: seq<Action>, f: nat)
    requires Feasible(s0, acts) && f < |Exec(s0, acts).flows|
  {
    var flow := Exec(s0, acts).flows[f];
    |Unread(flow, Reserving)| + Losses(s0, acts, f, Orphaned)
    == |Unread(flow, Releasing)| + Losses(s0, acts, f, Forgotten) + Losses(s0, acts, f, Overwritten)
  }

  /** Conservation, in every run.  Stock plus the quantities of the orders that are PENDING, PAID,
      PAYMENT_PENDING, or PAYMENT_FAILED but not released, plus what is unclaimed, is the
      baseline; so it is conserved exactly when the unclaimed quantities cancel.  At rest an
      order leaves nothing unclaimed if and only if its account is even, whatever timed out,
      crashed or overlapped. */
  lemma StockIsConserved(baseline: map<int, int>, acts: seq<Action>, product: int)
    requires Feasible(Sys(baseline, []), acts) && product in baseline
    ensures var s := Exec(Sys(baseline, []), acts);
            && product in s.stock
            && s.stock[product] + HeldSum(s.flows, product) + UnclaimedSum(s.flows, product) == baseline[product]
            && (forall f :: 0 <= f < |s.flows| && Resting(s.flows[f]) ==>
                  (Unclaimed(s.flows[f]) == 0 <==> Even(Sys(baseline, []), acts, f)))
            && ((forall f :: 0 <= f < |s.flows| ==> Resting(s.flows[f]) && Even(Sys(baseline, []), acts, f)) ==>
                  s.stock[product] + HeldSum(s.flows, product) == baseline[product])
  {
    var s0 := Sys(baseline, []);
    var s := Exec(s0, acts);
    StockIsBaselineMinusApplied(baseline, acts, product);
    ClaimedAndUnclaimed(s.flows, product);
    forall f | 0 <= f < |s.flows| && Resting(s.flows[f])
      ensures Unclaimed(s.flows[f]) == 0 <==> Even(s0, acts, f)
    {
      RestingOrderBalance(baseline, acts, f);
    }
    if forall f :: 0 <= f < |s.flows| ==> Resting(s.flows[f]) && Even(s0, acts, f) {
      NothingUnclaimed(s.flows, product);
    }
  }

  // ---- runs that lose track of nothing ----

  /** No crash or failed commit between a reply and the commit that accounts for it, and a
      cancellation starts only when nothing else is at work on the order.  With `heard`, also
      every request that is sent is waited for until its reply is read. */
  ghost predicate Careful(s: Sys, a: Action, heard: bool)
    requires Enabled(s, a)
  {
    a.At? ==>
      var flow := s.flows[a.f];
      match a.step
      case Crash(t) =>
        && !flow.threads[t].pc.CommitNew? && !Freeing(flow.threads[t].pc) && (heard ==> !Waits(flow.threads[t].pc))
      case CommitOrder(_, ok) => ok
      case Cancel(_) => Resting(flow)
      case Timeout(_) => !heard
      case _ => true
  }

  ghost predicate CarefulRun(s: Sys, acts: seq<Action>, heard: bool)
    requires Feasible(s, acts)
    decreases |acts|
  {
    acts == [] || (Careful(s, acts[0], heard) && CarefulRun(Apply(s, acts[0]), acts[1..], heard))
  }

  /** At most one thread is at work on the order, and when it is about to write a status the
      order still has its claim. */
  ghost predicate Orderly(flow: Flow) {
    && (forall t, u :: Active(flow, t) && Active(flow, u) ==> t == u)
    && (forall t :: Active(flow, t) && !flow.threads[t].pc.Reserve? && !flow.threads[t].pc.CommitNew? ==>
          flow.order == Some(PENDING) || flow.order == Some(PAID))
  }

  ghost predicate Awaited(flow: Flow, r: RequestId) {
    exists t :: Active(flow, t) && Waits(flow.threads[t].pc) && flow.threads[t].pc.request.value == r
  }

  ghost predicate AllAwaited(flow: Flow) {
    forall r :: r in flow.requests ==> Awaited(flow, r)
  }

  lemma ActiveAfter(stock: map<int, int>, flow: Flow, step: Step, u: ThreadId)
    requires Can(flow, step) && Active(FlowAfter(stock, flow, step), u)
    ensures Active(flow, u) || (step.Cancel? && step.t == u)
  {
    ThreadsAfter(stock, flow, step);
  }

  lemma StepOrderly(stock: map<int, int>, s: Sys, f: nat, step: Step, heard: bool)
    requires Enabled(s, At(f, step)) && Careful(s, At(f, step), heard) && Orderly(s.flows[f])
    ensures Orderly(FlowAfter(stock, s.flows[f], step))
  {
    var flow, flow' := s.flows[f], FlowAfter(stock, s.flows[f], step);
    forall t, u | Active(flow', t) && Active(flow', u) ensures t == u {
      ActiveAfter(stock, flow, step, t);
      ActiveAfter(stock, flow, step, u);
    }
    if step.Write? {
      WriterRests(stock, flow, step);
    } else {
      forall t | Active(flow', t) && !flow'.threads[t].pc.Reserve? && !flow'.threads[t].pc.CommitNew?
        ensures flow'.order == Some(PENDING) || flow'.order == Some(PAID)
      {
        ActiveAfter(stock, flow, step, t);
      }
    }
  }

  lemma WriterRests(stock: map<int, int>, flow: Flow, step: Step)
    requires Can(flow, step) && step.Write? && Orderly(flow)
    ensures Resting(FlowAfter(stock, flow, step))
  {
    var flow' := FlowAfter(stock, flow, step);
    assert Active(flow, step.t) && flow'.threads[step.t].pc.Finished?;
    forall u ensures !Active(flow', u) {
      if u != step.t {
        assert Active(flow', u) ==> Active(flow, u);
      }
    }
  }

  /** Nothing is lost by a careful step. */
  lemma CarefulLosesNothing(s: Sys, a: Action, heard: bool)
    requires Enabled(s, a) && Careful(s, a, heard) && (a.At? ==> Orderly(s.flows[a.f]))
    ensures a.At? ==> LossOf(s.flows[a.f], a.step) == None
  {
    if a.At? && a.step.Write? {
      assert Active(s.flows[a.f], a.step.t);
    }
  }

  lemma {:induction false} CarefulRunLosesNothing(s: Sys, acts: seq<Action>, heard: bool, f: nat)
    requires Feasible(s, acts) && CarefulRun(s, acts, heard)
    requires forall g :: 0 <= g < |s.flows| ==> Orderly(s.flows[g])
    ensures forall loss :: Losses(s, acts, f, loss) == 0
    decreases |acts|
  {
    if acts != [] {
      CarefulLosesNothing(s, acts[0], heard);
      if acts[0].At? {
        StepOrderly(s.stock, s, acts[0].f, acts[0].step, heard);
      }
      CarefulRunLosesNothing(Apply(s, acts[0]), acts[1..], heard, f);
    }
  }

  /** With timeouts, late requests and crashes while waiting, but nothing lost between a reply
      and its commit and no overlapping cancellation, an order at rest is in balance if and only
      if as many reserves as releases were applied whose reply nobody read. */
  lemma CarefulBalance(baseline: map<int, int>, acts: seq<Action>, f: nat)
    requires Feasible(Sys(baseline, []), acts) && CarefulRun(Sys(baseline, []), acts, false)
    requires f < |Exec(Sys(baseline, []), acts).flows| && Resting(Exec(Sys(baseline, []), acts).flows[f])
    ensures var flow := Exec(Sys(baseline, []), acts).flows[f];
            Unclaimed(flow) == 0 <==> |Unread(flow, Reserving)| == |Unread(flow, Releasing)|
  {
    RestingOrderBalance(baseline, acts, f);
    CarefulRunLosesNothing(Sys(baseline, []), acts, false, f);
  }

  lemma StepAwaited(stock: map<int, int>, s: Sys, f: nat, step: Step)
    requires Enabled(s, At(f, step)) && Careful(s, At(f, step), true) && AllAwaited(s.flows[f])
    ensures AllAwaited(FlowAfter(stock, s.flows[f], step))
  {
    var flow, flow' := s.flows[f], FlowAfter(stock, s.flows[f], step);
    RequestsAfter(stock, flow, step);
    forall r | r in flow'.requests ensures Awaited(flow', r) {
      if step.Send? && step.r == r {
        assert Active(flow', step.t);
      } else {
        assert r in flow.requests by {
          if Touched(flow, step) == Some(r) {
          } else if Touched(flow, step).Some? {
            OtherRequestSame(flow.requests, flow'.requests, Touched(flow, step).value, r);
          }
        }
        assert Awaited(flow, r);
        var t :| Active(flow, t) && Waits(flow.threads[t].pc) && flow.threads[t].pc.request.value == r;
        assert Active(flow', t);
      }
    }
  }

  lemma {:induction false} RunAwaited(s: Sys, acts: seq<Action>)
    requires Feasible(s, acts) && CarefulRun(s, acts, true)
    requires forall f :: 0 <= f < |s.flows| ==> AllAwaited(s.flows[f])
    ensures forall f :: 0 <= f < |Exec(s, acts).flows| ==> AllAwaited(Exec(s, acts).flows[f])
    decreases |acts|
  {
    if acts != [] {
      if acts[0].At? {
        StepAwaited(s.stock, s, acts[0].f, acts[0].step);
      }
      RunAwaited(Apply(s, acts[0]), acts[1..]);
    }
  }

  /** And when no reply is lost either, stock is conserved whenever no operation is in progress;
      different orders may interleave in any way. */
  lemma CleanRunsConserve(baseline: map<int, int>, acts: seq<Action>, product: int)
    requires Feasible(Sys(baseline, []), acts) && CarefulRun(Sys(baseline, []), acts, true) && product in baseline
    requires forall f :: 0 <= f < |Exec(Sys(baseline, []), acts).flows| ==> Resting(Exec(Sys(baseline, []), acts).flows[f])
    ensures var s := Exec(Sys(baseline, []), acts);
            product in s.stock && s.stock[product] + HeldSum(s.flows, product) == baseline[product]
  {
    var s0 := Sys(baseline, []);
    var s := Exec(s0, acts);
    RunAwaited(s0, acts);
    forall f | 0 <= f < |s.flows| ensures Even(s0, acts, f) {
      CarefulRunLosesNothing(s0, acts, true, f);
      NothingUnread(s.flows[f]);
    }
    StockIsConserved(baseline, acts, product);
  }

  lemma NothingUnread(flow: Flow)
    requires Resting(flow) && AllAwaited(flow)
    ensures Unread(flow, Reserving) == {} && Unread(flow, Releasing) == {}
  {
    assert forall r :: r in flow.requests ==> Awaited(flow, r);
  }

  // ---- runs that are not in balance ----

  lemma {:induction false} OneItem(kind: Kind, stock: map<int, int>, item: Item)
    ensures ApplyItems(kind, stock, [item]) == ApplyOne(kind, stock, item)
  {
    assert [item][..0] == [];
    assert ApplyItems(kind, stock, []) == Changed(stock);
  }

  const Shelf: Sys := Sys(map[7 := 10], [])
  const Basket: seq<Item> := [Item(7, 2)]

  /** The first reserve is applied and its reply is lost. */
  lemma ReplyLost() returns (acts: seq<Action>, s: Sys)
    ensures Feasible(Shelf, acts) && Exec(Shelf, acts) == s
    ensures s == Sys(map[7 := 8], [Flow(Basket, None, false, 1, 0, map[0 := Request(Reserving, Fine)],
                                        map[0 := Thread(false, Reserve(None))])])
  {
    acts, s := [], Shelf;
    acts, s := Then(Shelf, acts, s, Create(Basket));
    acts, s := Then(Shelf, acts, s, At(0, Send(0, 0)));
    OneItem(Reserving, map[7 := 10], Item(7, 2));
    acts, s := Then(Shelf, acts, s, At(0, Serve(0)));
    assert s.stock == map[7 := 8];
    acts, s := Then(Shelf, acts, s, At(0, Timeout(0)));
    assert s.flows[0].requests == map[0 := Request(Reserving, Fine)];
    assert s.flows[0].threads == map[0 := Thread(false, Reserve(None))];
  }

  /** The order as create_order leaves it PAID, after `reserved` applied reserves. */
  function PaidFlow(reserved: nat, requests: map<RequestId, Request>): Flow {
    Flow(Basket, Some(PAID), false, reserved, 0, requests, map[0 := Thread(false, Finished)])
  }

  function Taken(stock: int, reserved: nat, requests: map<RequestId, Request>): Sys {
    Sys(map[7 := stock], [Flow(Basket, None, false, reserved, 0, requests, map[0 := Thread(false, CommitNew)])])
  }

  /** From a reserve that was heard of to the PAID order. */
  lemma GetsPaid(acts0: seq<Action>, s0: Sys, stock: int, reserved: nat, requests: map<RequestId, Request>)
      returns (acts: seq<Action>, s: Sys)
    requires Feasible(Shelf, acts0) && Exec(Shelf, acts0) == s0 && s0 == Taken(stock, reserved, requests)
    ensures Feasible(Shelf, acts) && Exec(Shelf, acts) == s
    ensures s == Sys(map[7 := stock], [PaidFlow(reserved, requests)])
  {
    acts, s := GetsCharged(acts0, s0, stock, reserved, requests);
    acts, s := Then(Shelf, acts, s, At(0, Write(0)));
    assert s.flows[0].threads == map[0 := Thread(false, Finished)];
  }

  lemma GetsCharged(acts0: seq<Action>, s0: Sys, stock: int, reserved: nat, requests: map<RequestId, Request>)
      returns (acts: seq<Action>, s: Sys)
    requires Feasible(Shelf, acts0) && Exec(Shelf, acts0) == s0 && s0 == Taken(stock, reserved, requests)
    ensures Feasible(Shelf, acts) && Exec(Shelf, acts) == s
    ensures s == Sys(map[7 := stock], [Flow(Basket, Some(PENDING), false, reserved, 0, requests,
                                            map[0 := Thread(false, Settle(PAID, false))])])
  {
    acts, s := Then(Shelf, acts0, s0, At(0, CommitOrder(0, true)));
    acts, s := Then(Shelf, acts, s, At(0, Pay(0, SUCCESS)));
    assert s.flows[0].threads == map[0 := Thread(false, Settle(PAID, false))];
  }

  /** The order is reserved for once more. */
  lemma ServedTwice() returns (acts: seq<Action>, s: Sys)
    ensures Feasible(Shelf, acts) && Exec(Shelf, acts) == s
    ensures s == Sys(map[7 := 6], [Flow(Basket, None, false, 2, 0,
                                        map[0 := Request(Reserving, Fine), 1 := Request(Reserving, Fine)],
                                        map[0 := Thread(false, Reserve(Some(1)))])])
  {
    acts, s := ReplyLost();
    acts, s := Then(Shelf, acts, s, At(0, Send(0, 1)));
    assert s.flows[0].requests == map[0 := Request(Reserving, Fine), 1 := Request(Reserving, Underway)];
    OneItem(Reserving, map[7 := 8], Item(7, 2));
    acts, s := Then(Shelf, acts, s, At(0, Serve(1)));
    assert s.stock == map[7 := 6];
    assert s.flows[0].requests == map[0 := Request(Reserving, Fine), 1 := Request(Reserving, Fine)];
    assert s.flows[0].threads == map[0 := Thread(false, Reserve(Some(1)))];
  }

  lemma ReservedTwice() returns (acts: seq<Action>, s: Sys)
    ensures Feasible(Shelf, acts) && Exec(Shelf, acts) == s
    ensures s == Taken(6, 2, map[0 := Request(Reserving, Fine)])
  {
    acts, s := ServedTwice();
    acts, s := Then(Shelf, acts, s, At(0, Read(0)));
    assert s.flows[0].requests == map[0 := Request(Reserving, Fine)];
    assert s.flows[0].threads == map[0 := Thread(false, CommitNew)];
  }

  /** Reserves carry no identity: a lost reply takes the stock of one order twice, for good. */
  lemma LostReplyReservesTwice() returns (acts: seq<Action>)
    ensures Feasible(Shelf, acts)
    ensures var s := Exec(Shelf, acts);
            s.stock == map[7 := 6] && |s.flows| == 1 && s.flows[0].order == Some(PAID) && Resting(s.flows[0])
            && HeldSum(s.flows, 7) == 2 && !Even(Shelf, acts, 0)
  {
    var s: Sys;
    acts, s := ReservedTwice();
    acts, s := GetsPaid(acts, s, 6, 2, map[0 := Request(Reserving, Fine)]);
    assert Basket[..0] == [] && Total(Basket, 7) == 2;
    assert s.flows[..0] == [];
    RestingOrderBalance(map[7 := 10], acts, 0);
  }

  /** A paid order, nothing under way. */
  lemma PaidOrder() returns (acts: seq<Action>, s: Sys)
    ensures Feasible(Shelf, acts) && Exec(Shelf, acts) == s && s == Sys(map[7 := 8], [PaidFlow(1, map[])])
  {
    acts, s := [], Shelf;
    acts, s := Then(Shelf, acts, s, Create(Basket));
    acts, s := Then(Shelf, acts, s, At(0, Send(0, 0)));
    OneItem(Reserving, map[7 := 10], Item(7, 2));
    acts, s := Then(Shelf, acts, s, At(0, Serve(0)));
    assert s.stock == map[7 := 8];
    acts, s := Then(Shelf, acts, s, At(0, Read(0)));
    assert s.flows[0].threads == map[0 := Thread(false, CommitNew)] && s.flows[0].requests == map[];
    acts, s := GetsPaid(acts, s, 8, 1, map[]);
  }

  function Threads(first: Pc, second: Pc): map<ThreadId, Thread> {
    map[0 := Thread(false, Finished), 1 := Thread(true, first), 2 := Thread(true, second)]
  }

  function Cancelling(stock: int, released: nat, requests: map<RequestId, Request>, first: Pc, second: Pc): Sys {
    Sys(map[7 := stock], [Flow(Basket, Some(PAID), false, 1, released, requests, Threads(first, second))])
  }

  lemma Recognise(s: Sys, stock: int, released: nat, requests: map<RequestId, Request>, first: Pc, second: Pc)
    requires s.stock.Keys == {7} && s.stock[7] == stock && |s.flows| == 1
    requires s.flows[0] == Flow(Basket, Some(PAID), false, 1, released, s.flows[0].requests, s.flows[0].threads)
    requires s.flows[0].requests == requests && s.flows[0].threads == Threads(first, second)
    ensures s == Cancelling(stock, released, requests, first, second)
  {
    assert s.stock == map[7 := stock];
  }

  /** Two cancellations of it have both passed the status check. */
  lemma BothChecked() returns (acts: seq<Action>, s: Sys)
    ensures Feasible(Shelf, acts) && Exec(Shelf, acts) == s
    ensures s == Cancelling(8, 0, map[], Release(None), Release(None))
  {
    acts, s := PaidOrder();
    acts, s := Then(Shelf, acts, s, At(0, Cancel(1)));
    acts, s := Then(Shelf, acts, s, At(0, Cancel(2)));
    assert s.flows[0].threads == Threads(Release(None), Release(None));
    Recognise(s, 8, 0, map[], Release(None), Release(None));
  }

  /** And both have sent their requests. */
  lemma BothCancelling() returns (acts: seq<Action>, s: Sys)
    ensures Feasible(Shelf, acts) && Exec(Shelf, acts) == s
    ensures s == Cancelling(8, 0, map[0 := Request(Releasing, Underway), 1 := Request(Releasing, Underway)],
                            Release(Some(0)), Release(Some(1)))
  {
    acts, s := BothChecked();
    acts, s := Then(Shelf, acts, s, At(0, Send(1, 0)));
    assert s.flows[0].threads == Threads(Release(Some(0)), Release(None));
    acts, s := Then(Shelf, acts, s, At(0, Send(2, 1)));
    assert s.flows[0].threads == Threads(Release(Some(0)), Release(Some(1)));
    assert s.flows[0].requests == map[0 := Request(Releasing, Underway), 1 := Request(Releasing, Underway)];
    Recognise(s, 8, 0, s.flows[0].requests, Release(Some(0)), Release(Some(1)));
  }

  /** Both requests are applied. */
  lemma BothReleased() returns (acts: seq<Action>, s: Sys)
    ensures Feasible(Shelf, acts) && Exec(Shelf, acts) == s
    ensures s == Cancelling(12, 2, map[0 := Request(Releasing, Fine), 1 := Request(Releasing, Fine)],
                            Release(Some(0)), Release(Some(1)))
  {
    acts, s := BothCancelling();
    OneItem(Releasing, map[7 := 8], Item(7, 2));
    acts, s := Then(Shelf, acts, s, At(0, Serve(0)));
    assert s.flows[0].requests == map[0 := Request(Releasing, Fine), 1 := Request(Releasing, Underway)];
    Recognise(s, 10, 1, s.flows[0].requests, Release(Some(0)), Release(Some(1)));
    OneItem(Releasing, map[7 := 10], Item(7, 2));
    acts, s := Then(Shelf, acts, s, At(0, Serve(1)));
    assert s.flows[0].requests == map[0 := Request(Releasing, Fine), 1 := Request(Releasing, Fine)];
    Recognise(s, 12, 2, s.flows[0].requests, Release(Some(0)), Release(Some(1)));
  }

  /** Both cancellations have read their answers. */
  lemma BothAnswered() returns (acts: seq<Action>, s: Sys)
    ensures Feasible(Shelf, acts) && Exec(Shelf, acts) == s
    ensures s == Cancelling(12, 2, map[], Settle(CANCELLED, false), Settle(CANCELLED, false))
  {
    acts, s := BothReleased();
    acts, s := Then(Shelf, acts, s, At(0, Read(1)));
    assert s.flows[0].requests == map[1 := Request(Releasing, Fine)];
    assert s.flows[0].threads == Threads(Settle(CANCELLED, false), Release(Some(1)));
    acts, s := Then(Shelf, acts, s, At(0, Read(2)));
    assert s.flows[0].requests == map[];
    assert s.flows[0].threads == Threads(Settle(CANCELLED, false), Settle(CANCELLED, false));
    Recognise(s, 12, 2, map[], Settle(CANCELLED, false), Settle(CANCELLED, false));
  }

  /** cancel_order checks the status without a lock: two cancellations of one order give its
      stock back twice, with no reply lost and nothing crashed. */
  lemma OverlappingCancelsReleaseTwice() returns (acts: seq<Action>)
    ensures Feasible(Shelf, acts)
    ensures var s := Exec(Shelf, acts);
            s.stock == map[7 := 12] && |s.flows| == 1 && s.flows[0].order == Some(CANCELLED) && Resting(s.flows[0])
            && s.flows[0].requests == map[] && NetLoss(Shelf, acts, 0) == -1
  {
    var s: Sys;
    acts, s := BothAnswered();
    acts, s := Then(Shelf, acts, s, At(0, Write(1)));
    acts, s := Then(Shelf, acts, s, At(0, Write(2)));
    assert s.flows[0].threads == Threads(Finished, Finished);
    OrderBalance(map[7 := 10], acts, 0);
    RestingCounts(s.flows[0]);
    assert Unread(s.flows[0], Reserving) == {} && Unread(s.flows[0], Releasing) == {};
  }
}
