/**
 One charge across three processes: the order service asks the payment service, which asks the
 gateway.  Requests may be delayed, answered late or never, and sent again at both hops; every
 process may stop at any point.
 */
module Payments {
  import opened Outcomes
  import opened Orders
  import Clients

  type OrderId = int
  type ChargeId = nat
  type PostId = nat
  type Txn = nat

  /** What the gateway keeps for a key. */
  datatype Stored = Stored(approved: bool, txn: Txn)

  datatype Answer = Charged(result: Stored) | Unavailable | Refused   // 200, 5xx, 4xx

  /** A request at the gateway: looking the key up and storing the result are two separate
      critical sections. */
  datatype Stage = Sent | LookedUp | Answered(answer: Answer)

  datatype Post = Post(key: string, stage: Stage)

  /** `executed` lists every charge really made, with its decision, seen by anybody or not. */
  datatype Gateway = Gateway(store: map<string, Stored>, executed: seq<(string, bool)>, posts: map<PostId, Post>)

  datatype Row = Row(status: Status, txn: Txn)

  /** One run of the payment service's `charge`. */
  datatype Progress =
    | Looking
    | Trying(current: Option<PostId>)
    | Inserting(row: Row)
    | Replied(row: Row)
    | Gone                       // raised, crashed, or answered 5xx

  datatype Charge = Charge(order: OrderId, progress: Progress)

  datatype Service = Service(rows: map<OrderId, Row>, charges: map<ChargeId, Charge>)

  /** Where create_order is with the payment of an order it has committed as PENDING. */
  datatype Paying = Asking(current: Option<ChargeId>) | Decided(status: Status) | Settled

  datatype Order = Order(status: OrderStatus, paying: Paying)

  datatype Sys = Sys(gateway: Gateway, service: Service, orders: map<OrderId, Order>)

  datatype GatewayStep = Lookup(p: PostId) | Fail(p: PostId) | Refuse(p: PostId) | Store(p: PostId, approved: bool, txn: Txn)

  datatype ServiceStep =
    | Look
    | SendPost(p: PostId)
    | StopWaiting
    | Receive(newTxn: Txn)
    | GiveUp(newTxn: Txn)         // breaker open, bulkhead full, or retries exhausted
    | Insert(fault: bool, applied: bool)
    | CrashCharge

  datatype OrderStep =
    | Ask(c: ChargeId)
    | StopAsking                 // timeout, or a 4xx/5xx that is retried
    | Hear
    | Conclude                   // circuit open, bulkhead full or retries exhausted: UNKNOWN
    | Settle
    | Cancel
    | CrashOrder

  datatype Action =
    | AtGateway(g: GatewayStep)
    | AtService(c: ChargeId, step: ServiceStep)
    | AtOrder(o: OrderId, ostep: OrderStep)
    | Place(o: OrderId)
    | PublicCharge(c: ChargeId, o: OrderId)

  function Init(): Sys {
    Sys(Gateway(map[], [], map[]), Service(map[], map[]), map[])
  }

  // ---- the gateway ----

  predicate GatewayCan(g: Gateway, step: GatewayStep) {
    step.p in g.posts &&
    match step
    case Lookup(p) => g.posts[p].stage.Sent?
    case Refuse(p) => g.posts[p].stage.Sent?
    case Fail(p) => g.posts[p].stage.LookedUp?
    case Store(p, _, _) => g.posts[p].stage.LookedUp?
  }

  function GatewayAfter(g: Gateway, step: GatewayStep): Gateway
    requires GatewayCan(g, step)
  {
    var post := g.posts[step.p];
    match step
    case Lookup(p) =>
      if post.key in g.store
      then g.(posts := g.posts[p := post.(stage := Answered(Charged(g.store[post.key])))])
      else g.(posts := g.posts[p := post.(stage := LookedUp)])
    case Refuse(p) => g.(posts := g.posts[p := post.(stage := Answered(Refused))])
    case Fail(p) => g.(posts := g.posts[p := post.(stage := Answered(Unavailable))])
    case Store(p, approved, txn) =>
      Gateway(g.store[post.key := Stored(approved, txn)], g.executed + [(post.key, approved)],
              g.posts[p := post.(stage := Answered(Charged(Stored(approved, txn))))])
  }

  // ---- the payment service ----

  predicate ServiceCan(g: Gateway, charge: Charge, step: ServiceStep) {
    var progress := charge.progress;
    match step
    case Look => progress.Looking?
    case SendPost(p) => progress == Trying(None) && p !in g.posts
    case StopWaiting => progress.Trying? && progress.current.Some?
    case Receive(_) =>
      progress.Trying? && progress.current.Some? && progress.current.value in g.posts
      && g.posts[progress.current.value].stage.Answered?
    case GiveUp(_) => progress == Trying(None)
    case Insert(_, _) => progress.Inserting?
    case CrashCharge => true
  }

  function Progressed(g: Gateway, rows: map<OrderId, Row>, charge: Charge, step: ServiceStep): Progress
    requires ServiceCan(g, charge, step)
  {
    match step
    case Look => if charge.order in rows then Replied(rows[charge.order]) else Trying(None)
    case SendPost(p) => Trying(Some(p))
    case StopWaiting => Trying(None)
    case Receive(newTxn) =>
      (match g.posts[charge.progress.current.value].stage.answer
       case Charged(result) => Inserting(Row(if result.approved then SUCCESS else FAILED, result.txn))
       case Refused => Inserting(Row(FAILED, newTxn))
       case Unavailable => Trying(None))
    case GiveUp(newTxn) => Inserting(Row(UNKNOWN, newTxn))
    case Insert(fault, _) =>
      if fault || charge.order in rows then Gone else Replied(charge.progress.row)
    case CrashCharge => Gone
  }

  /** order_id is unique: an insert finds the row taken, or writes it once and for all. */
  function RowsAfter(g: Gateway, rows: map<OrderId, Row>, charge: Charge, step: ServiceStep): map<OrderId, Row>
    requires ServiceCan(g, charge, step)
  {
    if step.Insert? && charge.order !in rows && (!step.fault || step.applied)
    then rows[charge.order := charge.progress.row]
    else rows
  }

  // ---- the order service ----

  predicate OrderCan(service: Service, order: Order, step: OrderStep) {
    var paying := order.paying;
    match step
    case Ask(c) => paying == Asking(None) && c !in service.charges
    case StopAsking => paying.Asking? && paying.current.Some?
    case Hear =>
      paying.Asking? && paying.current.Some? && paying.current.value in service.charges
      && service.charges[paying.current.value].progress.Replied?
    case Conclude => paying == Asking(None)
    case Settle => paying.Decided?
    case Cancel => Cancellable(order.status)
    case CrashOrder => true
  }

  function OrderAfter(service: Service, order: Order, step: OrderStep): Order
    requires OrderCan(service, order, step)
  {
    match step
    case Ask(c) => order.(paying := Asking(Some(c)))
    case StopAsking => order.(paying := Asking(None))
    case Hear => order.(paying := Decided(service.charges[order.paying.current.value].progress.row.status))
    case Conclude => order.(paying := Decided(UNKNOWN))
    case Settle => Order(StatusFor(order.paying.status), Settled)
    case Cancel => order.(status := CANCELLED)
    case CrashOrder => order.(paying := Settled)
  }

  predicate Enabled(s: Sys, a: Action) {
    match a
    case AtGateway(g) => GatewayCan(s.gateway, g)
    case AtService(c, step) => c in s.service.charges && ServiceCan(s.gateway, s.service.charges[c], step)
    case AtOrder(o, step) => o in s.orders && OrderCan(s.service, s.orders[o], step)
    case Place(o) => o !in s.orders
    case PublicCharge(c, _) => c !in s.service.charges
  }

  function NewCharge(service: Service, c: ChargeId, o: OrderId): Service {
    service.(charges := service.charges[c := Charge(o, Looking)])
  }

  function Apply(s: Sys, a: Action): Sys
    requires Enabled(s, a)
  {
    match a
    case AtGateway(g) => s.(gateway := GatewayAfter(s.gateway, g))
    case AtService(c, step) =>
      var charge := s.service.charges[c];
      var gateway := if step.SendPost?
                     then s.gateway.(posts := s.gateway.posts[step.p := Post(Clients.KeyOf(charge.order), Sent)])
                     else s.gateway;
      Sys(gateway,
          Service(RowsAfter(s.gateway, s.service.rows, charge, step),
                  s.service.charges[c := charge.(progress := Progressed(s.gateway, s.service.rows, charge, step))]),
          s.orders)
    case AtOrder(o, step) =>
      Sys(s.gateway,
          if step.Ask? then NewCharge(s.service, step.c, o) else s.service,
          s.orders[o := OrderAfter(s.service, s.orders[o], step)])
    case Place(o) => s.(orders := s.orders[o := Order(PENDING, Asking(None))])
    case PublicCharge(c, o) => s.(service := NewCharge(s.service, c, o))
  }

  predicate Feasible(s: Sys, acts: seq<Action>)
    decreases |acts|
  {
    acts == [] || (Enabled(s, acts[0]) && Feasible(Apply(s, acts[0]), acts[1..]))
  }

  function Exec(s: Sys, acts: seq<Action>): Sys
    requires Feasible(s, acts)
    decreases |acts|
  {
    if acts == [] then s else Exec(Apply(s, acts[0]), acts[1..])
  }

  lemma {:induction false} Append(s: Sys, acts: seq<Action>, a: Action)
    requires Feasible(s, acts) && Enabled(Exec(s, acts), a)
    ensures Feasible(s, acts + [a]) && Exec(s, acts + [a]) == Apply(Exec(s, acts), a)
    decreases |acts|
  {
    if acts == [] {
      assert acts + [a] == [a];
    } else {
      assert (acts + [a])[1..] == acts[1..] + [a];
      Append(Apply(s, acts[0]), acts[1..], a);
    }
  }

  // ---- agreement, in every run ----

  ghost predicate StatusBacked(rows: map<OrderId, Row>, o: OrderId, order: Order) {
    && (order.status == PAID || order.paying == Decided(SUCCESS) ==> o in rows && rows[o].status == SUCCESS)
    && (order.status == PAYMENT_FAILED || order.paying == Decided(FAILED) ==>
          o in rows && rows[o].status == FAILED)
  }

  ghost predicate ChargeBacked(rows: map<OrderId, Row>, charge: Charge) {
    charge.progress.Replied? ==> charge.order in rows && rows[charge.order] == charge.progress.row
  }

  ghost predicate OwnCharge(service: Service, o: OrderId, order: Order) {
    order.paying.Asking? && order.paying.current.Some? ==>
      order.paying.current.value in service.charges && service.charges[order.paying.current.value].order == o
  }

  ghost predicate Agreed(s: Sys) {
    && (forall c :: c in s.service.charges ==> ChargeBacked(s.service.rows, s.service.charges[c]))
    && (forall o :: o in s.orders ==> StatusBacked(s.service.rows, o, s.orders[o]) && OwnCharge(s.service, o, s.orders[o]))
  }

  /** Rows are write-once. */
  ghost predicate RowsStay(rows: map<OrderId, Row>, rows': map<OrderId, Row>) {
    forall o :: o in rows ==> o in rows' && rows'[o] == rows[o]
  }

  lemma StepAgreed(s: Sys, a: Action)
    requires Agreed(s) && Enabled(s, a)
    ensures Agreed(Apply(s, a)) && RowsStay(s.service.rows, Apply(s, a).service.rows)
  {
    var s' := Apply(s, a);
    assert RowsStay(s.service.rows, s'.service.rows);
    forall c | c in s'.service.charges ensures ChargeBacked(s'.service.rows, s'.service.charges[c]) {
      if c in s.service.charges {
        assert ChargeBacked(s.service.rows, s.service.charges[c]);
      }
    }
    forall o | o in s'.orders
      ensures StatusBacked(s'.service.rows, o, s'.orders[o]) && OwnCharge(s'.service, o, s'.orders[o])
    {
      if o in s.orders {
        assert StatusBacked(s.service.rows, o, s.orders[o]) && OwnCharge(s.service, o, s.orders[o]);
        if a.AtOrder? && a.o == o && a.ostep.Hear? {
          assert ChargeBacked(s.service.rows, s.service.charges[s.orders[o].paying.current.value]);
        }
      }
    }
  }

  lemma {:induction false} RunAgreed(s: Sys, acts: seq<Action>)
    requires Agreed(s) && Feasible(s, acts)
    ensures Agreed(Exec(s, acts)) && RowsStay(s.service.rows, Exec(s, acts).service.rows)
    decreases |acts|
  {
    if acts != [] {
      StepAgreed(s, acts[0]);
      RunAgreed(Apply(s, acts[0]), acts[1..]);
    }
  }

  /** Payment agreement, in every interleaving of concurrent charges: the row of an order, once
      written, is there for good, and every successful response for the order, at whatever
      time, carries that row's status and transaction. */
  lemma PaymentAgreement(acts: seq<Action>, later: seq<Action>, c: ChargeId, d: ChargeId)
    requires Feasible(Init(), acts) && Feasible(Exec(Init(), acts), later)
    requires var s := Exec(Init(), acts).service; c in s.charges && s.charges[c].progress.Replied?
    requires var s' := Exec(Exec(Init(), acts), later).service; d in s'.charges && s'.charges[d].progress.Replied?
    requires Exec(Init(), acts).service.charges[c].order == Exec(Exec(Init(), acts), later).service.charges[d].order
    ensures var s, s' := Exec(Init(), acts).service, Exec(Exec(Init(), acts), later).service;
            && s.charges[c].order in s.rows && s.charges[c].order in s'.rows
            && s.charges[c].progress.row == s'.charges[d].progress.row == s'.rows[s.charges[c].order]
  {
    RunAgreed(Init(), acts);
    RunAgreed(Exec(Init(), acts), later);
    var s, s' := Exec(Init(), acts), Exec(Exec(Init(), acts), later);
    assert ChargeBacked(s.service.rows, s.service.charges[c]);
    assert ChargeBacked(s'.service.rows, s'.service.charges[d]);
  }

  /** An order is only ever PAID on a SUCCESS row, and PAYMENT_FAILED on a FAILED row. */
  lemma OrderStatusIsBacked(acts: seq<Action>, o: OrderId)
    requires Feasible(Init(), acts) && o in Exec(Init(), acts).orders
    ensures var s := Exec(Init(), acts);
            && (s.orders[o].status == PAID ==> o in s.service.rows && s.service.rows[o].status == SUCCESS)
            && (s.orders[o].status == PAYMENT_FAILED ==> o in s.service.rows && s.service.rows[o].status == FAILED)
  {
    RunAgreed(Init(), acts);
    assert StatusBacked(Exec(Init(), acts).service.rows, o, Exec(Init(), acts).orders[o]);
  }

  // ---- a FAILED order was never approved, given an atomic gateway that does not refuse ----

  /** A key is handled atomically: no request looks a key up while another one for the same key
      has looked it up and not yet stored or failed; and no chargeable key is answered 4xx. */
  ghost predicate Atomic(s: Sys, a: Action)
    requires Enabled(s, a)
  {
    a.AtGateway? ==>
      && !a.g.Refuse?
      && (a.g.Lookup? ==> forall q :: q in s.gateway.posts && s.gateway.posts[q].stage.LookedUp? ==>
                            s.gateway.posts[q].key != s.gateway.posts[a.g.p].key)
  }

  ghost predicate AtomicRun(s: Sys, acts: seq<Action>)
    requires Feasible(s, acts)
    decreases |acts|
  {
    acts == [] || (Atomic(s, acts[0]) && AtomicRun(Apply(s, acts[0]), acts[1..]))
  }

  /** Every executed charge is the one in the store, and it is executed once. */
  ghost predicate StoreIsTruth(g: Gateway) {
    && (forall i :: 0 <= i < |g.executed| ==>
          g.executed[i].0 in g.store && g.store[g.executed[i].0].approved == g.executed[i].1)
    && (forall i, j :: 0 <= i < j < |g.executed| ==> g.executed[i].0 != g.executed[j].0)
    && (forall p :: p in g.posts && g.posts[p].stage.LookedUp? ==> g.posts[p].key !in g.store)
    && (forall p, q ::
          (p in g.posts && q in g.posts && g.posts[p].stage.LookedUp? && g.posts[q].stage.LookedUp?
           && g.posts[p].key == g.posts[q].key)
          ==> p == q)
  }

  ghost predicate AnswersTrue(g: Gateway) {
    forall p :: p in g.posts && g.posts[p].stage.Answered? ==>
      && !g.posts[p].stage.answer.Refused?
      && (g.posts[p].stage.answer.Charged? ==>
            g.posts[p].key in g.store && g.store[g.posts[p].key] == g.posts[p].stage.answer.result)
  }

  ghost predicate RowTrue(g: Gateway, o: OrderId, row: Row) {
    row.status != UNKNOWN ==>
      Clients.KeyOf(o) in g.store && g.store[Clients.KeyOf(o)] == Stored(row.status == SUCCESS, row.txn)
  }

  ghost predicate ChargeTrue(g: Gateway, charge: Charge) {
    && (charge.progress.Trying? && charge.progress.current.Some? ==>
          charge.progress.current.value in g.posts
          && g.posts[charge.progress.current.value].key == Clients.KeyOf(charge.order))
    && (charge.progress.Inserting? ==> RowTrue(g, charge.order, charge.progress.row))
  }

  ghost predicate Honest(s: Sys) {
    && StoreIsTruth(s.gateway) && AnswersTrue(s.gateway)
    && (forall o :: o in s.service.rows ==> RowTrue(s.gateway, o, s.service.rows[o]))
    && (forall c :: c in s.service.charges ==> ChargeTrue(s.gateway, s.service.charges[c]))
  }

  /** The gateway keeps what it has stored and the keys of its requests. */
  ghost predicate GatewayStays(g: Gateway, g': Gateway) {
    && (forall k :: k in g.store ==> k in g'.store && g'.store[k] == g.store[k])
    && (forall p :: p in g.posts ==> p in g'.posts && g'.posts[p].key == g.posts[p].key)
  }

  lemma GatewayHonest(s: Sys, a: Action)
    requires Honest(s) && Enabled(s, a) && Atomic(s, a)
    ensures StoreIsTruth(Apply(s, a).gateway) && GatewayStays(s.gateway, Apply(s, a).gateway)
  {
    if a.AtGateway? {
      StoreStepHonest(s, a.g);
    } else if !(a.AtService? && a.step.SendPost?) {
      assert Apply(s, a).gateway == s.gateway;
    }
  }

  lemma StoreStepHonest(s: Sys, step: GatewayStep)
    requires StoreIsTruth(s.gateway) && Enabled(s, AtGateway(step)) && Atomic(s, AtGateway(step))
    ensures StoreIsTruth(GatewayAfter(s.gateway, step)) && GatewayStays(s.gateway, GatewayAfter(s.gateway, step))
  {
  }

  lemma AnswersHonest(s: Sys, a: Action)
    requires Honest(s) && Enabled(s, a) && Atomic(s, a)
    ensures AnswersTrue(Apply(s, a).gateway)
  {
    GatewayHonest(s, a);
  }

  lemma ChargeHonest(s: Sys, a: Action, c: ChargeId)
    requires Honest(s) && Enabled(s, a) && Atomic(s, a) && c in Apply(s, a).service.charges
    ensures ChargeTrue(Apply(s, a).gateway, Apply(s, a).service.charges[c])
  {
    GatewayHonest(s, a);
    if c in s.service.charges {
      assert ChargeTrue(s.gateway, s.service.charges[c]);
    }
  }

  lemma RowHonest(s: Sys, a: Action, o: OrderId)
    requires Honest(s) && Enabled(s, a) && Atomic(s, a) && o in Apply(s, a).service.rows
    ensures RowTrue(Apply(s, a).gateway, o, Apply(s, a).service.rows[o])
  {
    GatewayHonest(s, a);
    if o in s.service.rows {
      assert RowTrue(s.gateway, o, s.service.rows[o]);
    } else {
      assert ChargeTrue(s.gateway, s.service.charges[a.c]);
    }
  }

  lemma {:induction false} RunHonest(s: Sys, acts: seq<Action>)
    requires Honest(s) && Feasible(s, acts) && AtomicRun(s, acts)
    ensures Honest(Exec(s, acts))
    decreases |acts|
  {
    if acts != [] {
      var s' := Apply(s, acts[0]);
      GatewayHonest(s, acts[0]);
      AnswersHonest(s, acts[0]);
      forall c | c in s'.service.charges ensures ChargeTrue(s'.gateway, s'.service.charges[c]) {
        ChargeHonest(s, acts[0], c);
      }
      forall o | o in s'.service.rows ensures RowTrue(s'.gateway, o, s'.service.rows[o]) {
        RowHonest(s, acts[0], o);
      }
      RunHonest(s', acts[1..]);
    }
  }

  /** A definite response is the gateway's own: its decision and its transaction are those stored
      under the order's key. */
  lemma ResponsesAreTheGateways(acts: seq<Action>, c: ChargeId)
    requires Feasible(Init(), acts) && AtomicRun(Init(), acts)
    requires var s := Exec(Init(), acts).service;
             c in s.charges && s.charges[c].progress.Replied? && s.charges[c].progress.row.status != UNKNOWN
    ensures var s := Exec(Init(), acts); var charge := s.service.charges[c];
            && Clients.KeyOf(charge.order) in s.gateway.store
            && s.gateway.store[Clients.KeyOf(charge.order)].approved == (charge.progress.row.status == SUCCESS)
            && s.gateway.store[Clients.KeyOf(charge.order)].txn == charge.progress.row.txn
  {
    RunAgreed(Init(), acts);
    RunHonest(Init(), acts);
    var s := Exec(Init(), acts);
    assert ChargeBacked(s.service.rows, s.service.charges[c]);
    assert RowTrue(s.gateway, s.service.charges[c].order, s.service.charges[c].progress.row);
  }

  // ---- when an order that has its row can still be approved ----

  ghost predicate Approved(g: Gateway, key: string) {
    exists i :: 0 <= i < |g.executed| && g.executed[i] == (key, true)
  }

  /** However the run goes on, and whatever the gateway does, no approved charge is executed
      under the order's key. */
  ghost predicate NeverApproved(s: Sys, o: OrderId) {
    forall later :: Feasible(s, later) ==> !Approved(Exec(s, later).gateway, Clients.KeyOf(o))
  }

  ghost predicate NoneAt(g: Gateway, key: string, stage: Stage) {
    forall p :: p in g.posts && g.posts[p].key == key ==> g.posts[p].stage != stage
  }

  ghost predicate NoneTrying(service: Service, o: OrderId) {
    forall c :: c in service.charges && service.charges[c].order == o ==> !service.charges[c].progress.Trying?
  }

  /** Nothing has been approved, no request under the key stands between its lookup and its
      store, and the key is either stored or has no request that could still be looked up. */
  ghost predicate Closed(s: Sys, o: OrderId) {
    var key := Clients.KeyOf(o);
    && !Approved(s.gateway, key) && NoneAt(s.gateway, key, LookedUp)
    && (key in s.gateway.store || (NoneAt(s.gateway, key, Sent) && NoneTrying(s.service, o)))
  }

  lemma GatewayStepClosed(s: Sys, step: GatewayStep, o: OrderId)
    requires Closed(s, o) && o in s.service.rows && Enabled(s, AtGateway(step))
    ensures Closed(Apply(s, AtGateway(step)), o)
  {
    var g, g' := s.gateway, GatewayAfter(s.gateway, step);
    forall i | 0 <= i < |g'.executed| ensures g'.executed[i] != (Clients.KeyOf(o), true) {
      assert i < |g.executed| ==> g'.executed[i] == g.executed[i];
    }
  }

  lemma ServiceStepClosed(s: Sys, c: ChargeId, step: ServiceStep, o: OrderId)
    requires Closed(s, o) && o in s.service.rows && Enabled(s, AtService(c, step))
    ensures Closed(Apply(s, AtService(c, step)), o) && o in Apply(s, AtService(c, step)).service.rows
  {
    var s' := Apply(s, AtService(c, step));
    var order := s.service.charges[c].order;
    assert s'.gateway.executed == s.gateway.executed && s'.gateway.store == s.gateway.store;
    if order != o && Clients.KeyOf(order) == Clients.KeyOf(o) {
      Clients.KeysDistinct(order, o);
    }
  }

  lemma StepClosed(s: Sys, a: Action, o: OrderId)
    requires Closed(s, o) && o in s.service.rows && Enabled(s, a)
    ensures Closed(Apply(s, a), o) && o in Apply(s, a).service.rows
  {
    match a
    case AtGateway(step) => GatewayStepClosed(s, step, o);
    case AtService(c, step) => ServiceStepClosed(s, c, step, o);
    case _ => assert Apply(s, a).gateway == s.gateway;
  }

  lemma {:induction false} RunClosed(s: Sys, acts: seq<Action>, o: OrderId)
    requires Closed(s, o) && o in s.service.rows && Feasible(s, acts)
    ensures Closed(Exec(s, acts), o)
    decreases |acts|
  {
    if acts != [] {
      StepClosed(s, acts[0], o);
      RunClosed(Apply(s, acts[0]), acts[1..], o);
    }
  }

  /** A request between its lookup and its store can still be approved. */
  lemma StoresApproval(start: Sys, acts: seq<Action>, s: Sys, o: OrderId, p: PostId)
    requires Feasible(start, acts) && Exec(start, acts) == s
    requires p in s.gateway.posts && s.gateway.posts[p] == Post(Clients.KeyOf(o), LookedUp)
    ensures !NeverApproved(start, o)
  {
    var a := AtGateway(Store(p, true, 0));
    Append(start, acts, a);
    var executed := Apply(s, a).gateway.executed;
    assert executed[|s.gateway.executed|] == (Clients.KeyOf(o), true);
  }

  /** So can one whose key is not stored yet. */
  lemma LooksUpThenStores(start: Sys, acts: seq<Action>, s: Sys, o: OrderId, p: PostId)
    requires Feasible(start, acts) && Exec(start, acts) == s && Clients.KeyOf(o) !in s.gateway.store
    requires p in s.gateway.posts && s.gateway.posts[p] == Post(Clients.KeyOf(o), Sent)
    ensures !NeverApproved(start, o)
  {
    Append(start, acts, AtGateway(Lookup(p)));
    StoresApproval(start, acts + [AtGateway(Lookup(p))], Apply(s, AtGateway(Lookup(p))), o, p);
  }

  /** And a charge that is still trying can send one more. */
  lemma SendsAgain(start: Sys, acts: seq<Action>, s: Sys, o: OrderId, c: ChargeId)
    requires Feasible(start, acts) && Exec(start, acts) == s && Clients.KeyOf(o) !in s.gateway.store
    requires c in s.service.charges && s.service.charges[c] == Charge(o, Trying(None))
    ensures !NeverApproved(start, o)
  {
    var p := Unused(s.gateway.posts.Keys);
    var a := AtService(c, SendPost(p));
    Append(start, acts, a);
    LooksUpThenStores(start, acts + [a], Apply(s, a), o, p);
  }

  lemma TriesAgain(s: Sys, o: OrderId, c: ChargeId)
    requires Clients.KeyOf(o) !in s.gateway.store
    requires c in s.service.charges && s.service.charges[c].order == o && s.service.charges[c].progress.Trying?
    ensures !NeverApproved(s, o)
  {
    if s.service.charges[c].progress == Trying(None) {
      SendsAgain(s, [], s, o, c);
    } else {
      var a := AtService(c, StopWaiting);
      Append(s, [], a);
      SendsAgain(s, [] + [a], Apply(s, a), o, c);
    }
  }

  /** Exactly when an order that has its payment row can never be approved any more: for the
      gateway as it is, without any assumption about it. */
  lemma NeverApprovedExactlyWhenClosed(s: Sys, o: OrderId)
    requires o in s.service.rows
    ensures NeverApproved(s, o) <==> Closed(s, o)
  {
    var key := Clients.KeyOf(o);
    if Closed(s, o) {
      forall later | Feasible(s, later) ensures !Approved(Exec(s, later).gateway, key) {
        RunClosed(s, later, o);
      }
    } else if Approved(s.gateway, key) {
      assert Feasible(s, []) && Exec(s, []) == s;
    } else if p :| p in s.gateway.posts && s.gateway.posts[p] == Post(key, LookedUp) {
      StoresApproval(s, [], s, o, p);
    } else if p :| p in s.gateway.posts && s.gateway.posts[p] == Post(key, Sent) {
      LooksUpThenStores(s, [], s, o, p);
    } else {
      var c :| c in s.service.charges && s.service.charges[c].order == o && s.service.charges[c].progress.Trying?;
      TriesAgain(s, o, c);
    }
  }

  /** An honest state with a FAILED row is closed: the key is stored, as declined. */
  lemma HonestFailureIsClosed(s: Sys, o: OrderId)
    requires Honest(s) && o in s.service.rows && s.service.rows[o].status == FAILED
    ensures Closed(s, o)
  {
    var key := Clients.KeyOf(o);
    assert RowTrue(s.gateway, o, s.service.rows[o]);
    assert key in s.gateway.store && !s.gateway.store[key].approved;
    forall i | 0 <= i < |s.gateway.executed| ensures s.gateway.executed[i] != (key, true) {
      assert s.gateway.executed[i].0 in s.gateway.store;
    }
  }

  /** An order that ended PAYMENT_FAILED, the one outcome that gives its stock back, has not
      been approved at the gateway and never will be, whatever requests are still under way and
      however the gateway behaves from then on. */
  lemma FailedOrderIsNeverCharged(acts: seq<Action>, later: seq<Action>, o: OrderId)
    requires Feasible(Init(), acts) && AtomicRun(Init(), acts)
    requires Feasible(Exec(Init(), acts), later)
    requires o in Exec(Init(), acts).orders && Exec(Init(), acts).orders[o].status == PAYMENT_FAILED
    ensures forall i :: 0 <= i < |Exec(Exec(Init(), acts), later).gateway.executed| ==>
              Exec(Exec(Init(), acts), later).gateway.executed[i] != (Clients.KeyOf(o), true)
  {
    OrderStatusIsBacked(acts, o);
    RunHonest(Init(), acts);
    HonestFailureIsClosed(Exec(Init(), acts), o);
    NeverApprovedExactlyWhenClosed(Exec(Init(), acts), o);
    assert !Approved(Exec(Exec(Init(), acts), later).gateway, Clients.KeyOf(o));
  }

  /** Charge once: across all retries, delays and hops the gateway executes at most one charge
      per order, and a PAID order's charge is an approved one. */
  lemma ChargedOnce(acts: seq<Action>, o: OrderId)
    requires Feasible(Init(), acts) && AtomicRun(Init(), acts) && o in Exec(Init(), acts).orders
    ensures var g := Exec(Init(), acts).gateway;
            && (forall i, j ::
                  (0 <= i < |g.executed| && 0 <= j < |g.executed| && g.executed[i].0 == g.executed[j].0 == Clients.KeyOf(o))
                  ==> i == j)
            && (Exec(Init(), acts).orders[o].status == PAID ==>
                  Clients.KeyOf(o) in g.store && g.store[Clients.KeyOf(o)].approved)
  {
    RunHonest(Init(), acts);
    OrderStatusIsBacked(acts, o);
    var s := Exec(Init(), acts);
    if s.orders[o].status == PAID {
      assert RowTrue(s.gateway, o, s.service.rows[o]);
    }
  }

  // ---- without the assumption ----

  ghost predicate NoRefusal(acts: seq<Action>) {
    forall i :: 0 <= i < |acts| && acts[i].AtGateway? ==> !acts[i].g.Refuse?
  }

  lemma Then(acts: seq<Action>, s: Sys, a: Action) returns (acts': seq<Action>, s': Sys)
    requires Feasible(Init(), acts) && Exec(Init(), acts) == s && Enabled(s, a)
    requires NoRefusal(acts) && (a.AtGateway? ==> !a.g.Refuse?)
    ensures acts' == acts + [a] && s' == Apply(s, a)
    ensures Feasible(Init(), acts') && Exec(Init(), acts') == s' && NoRefusal(acts')
  {
    Append(Init(), acts, a);
    acts', s' := acts + [a], Apply(s, a);
  }

  /** Only request 0 is ever looked up, so no two lookups of a key overlap. */
  ghost predicate OneLookup(acts: seq<Action>) {
    forall i :: 0 <= i < |acts| && acts[i].AtGateway? && acts[i].g.Lookup? ==> acts[i].g.p == 0
  }

  /** Order 1 asks for its charge; the request reaches the gateway and has been looked up. */
  lemma OneRequestLookedUp() returns (acts: seq<Action>, s: Sys)
    ensures Feasible(Init(), acts) && Exec(Init(), acts) == s && NoRefusal(acts) && OneLookup(acts)
    ensures s == Sys(Gateway(map[], [], map[0 := Post(Clients.KeyOf(1), LookedUp)]),
                     Service(map[], map[0 := Charge(1, Trying(Some(0)))]),
                     map[1 := Order(PENDING, Asking(Some(0)))])
  {
    acts, s := [], Init();
    acts, s := Then(acts, s, Place(1));
    acts, s := Then(acts, s, AtOrder(1, Ask(0)));
    acts, s := Then(acts, s, AtService(0, Look));
    acts, s := Then(acts, s, AtService(0, SendPost(0)));
    acts, s := Then(acts, s, AtGateway(Lookup(0)));
    assert s.gateway.posts == map[0 := Post(Clients.KeyOf(1), LookedUp)];
    assert s.service.charges == map[0 := Charge(1, Trying(Some(0)))];
    assert s.orders == map[1 := Order(PENDING, Asking(Some(0)))];
  }

  /** It times out and asks again; the second request is looked up before the first is stored. */
  lemma TwoRequestsLookedUp() returns (acts: seq<Action>, s: Sys)
    ensures Feasible(Init(), acts) && Exec(Init(), acts) == s && NoRefusal(acts)
    ensures s == Sys(Gateway(map[], [], map[0 := Post(Clients.KeyOf(1), LookedUp), 1 := Post(Clients.KeyOf(1), LookedUp)]),
                     Service(map[], map[0 := Charge(1, Trying(Some(0))), 1 := Charge(1, Trying(Some(1)))]),
                     map[1 := Order(PENDING, Asking(Some(1)))])
  {
    acts, s := OneRequestLookedUp();
    acts, s := Then(acts, s, AtOrder(1, StopAsking));
    acts, s := Then(acts, s, AtOrder(1, Ask(1)));
    acts, s := Then(acts, s, AtService(1, Look));
    acts, s := Then(acts, s, AtService(1, SendPost(1)));
    acts, s := Then(acts, s, AtGateway(Lookup(1)));
    assert s.gateway.posts == map[0 := Post(Clients.KeyOf(1), LookedUp), 1 := Post(Clients.KeyOf(1), LookedUp)];
    assert s.service.charges == map[0 := Charge(1, Trying(Some(0))), 1 := Charge(1, Trying(Some(1)))];
    assert s.orders == map[1 := Order(PENDING, Asking(Some(1)))];
  }

  /** The stand-in gateway does not handle a key atomically, and then an order can end
      PAYMENT_FAILED although its charge was executed and approved. */
  lemma RacingLookupsChargeAFailedOrder() returns (acts: seq<Action>)
    ensures Feasible(Init(), acts) && 1 in Exec(Init(), acts).orders
    ensures Exec(Init(), acts).orders[1].status == PAYMENT_FAILED
    ensures Exec(Init(), acts).gateway.executed == [(Clients.KeyOf(1), true), (Clients.KeyOf(1), false)]
    ensures NoRefusal(acts)
  {
    var s: Sys;
    acts, s := TwoRequestsLookedUp();
    acts, s := Then(acts, s, AtGateway(Store(0, true, 10)));
    acts, s := Then(acts, s, AtGateway(Store(1, false, 11)));
    acts, s := Then(acts, s, AtService(1, Receive(0)));
    assert s.service.charges[1] == Charge(1, Inserting(Row(FAILED, 11)));
    acts, s := Then(acts, s, AtService(1, Insert(false, false)));
    acts, s := Then(acts, s, AtOrder(1, Hear));
    acts, s := Then(acts, s, AtOrder(1, Settle));
  }

  /** One executed and approved charge whose answer nobody has read; the charge may try again. */
  lemma ApprovedUnread() returns (acts: seq<Action>, s: Sys)
    ensures Feasible(Init(), acts) && Exec(Init(), acts) == s && NoRefusal(acts) && OneLookup(acts)
    ensures s == Sys(Gateway(map[Clients.KeyOf(1) := Stored(true, 10)], [(Clients.KeyOf(1), true)],
                             map[0 := Post(Clients.KeyOf(1), Answered(Charged(Stored(true, 10))))]),
                     Service(map[], map[0 := Charge(1, Trying(None))]),
                     map[1 := Order(PENDING, Asking(Some(0)))])
  {
    acts, s := OneRequestLookedUp();
    acts, s := Then(acts, s, AtGateway(Store(0, true, 10)));
    acts, s := Then(acts, s, AtService(0, StopWaiting));
    assert s.gateway.posts == map[0 := Post(Clients.KeyOf(1), Answered(Charged(Stored(true, 10))))];
    assert s.service.charges == map[0 := Charge(1, Trying(None))];
  }

  /** The only refusal of the run is action k, and only request 0 is ever looked up. */
  ghost predicate RefusesOnce(acts: seq<Action>, k: nat) {
    && OneLookup(acts) && k < |acts| && acts[k] == AtGateway(Refuse(1))
    && forall i :: 0 <= i < |acts| && i != k && acts[i].AtGateway? ==> !acts[i].g.Refuse?
  }

  /** The second attempt is refused, and the charge is about to write FAILED. */
  lemma ApprovedThenRefused() returns (acts: seq<Action>, s: Sys, k: nat)
    ensures Feasible(Init(), acts) && Exec(Init(), acts) == s && RefusesOnce(acts, k)
    ensures s.gateway.executed == [(Clients.KeyOf(1), true)]
    ensures s.service == Service(map[], map[0 := Charge(1, Inserting(Row(FAILED, 11)))])
    ensures s.orders == map[1 := Order(PENDING, Asking(Some(0)))]
  {
    acts, s := ApprovedUnread();
    acts, s := Next(acts, s, AtService(0, SendPost(1)));
    k := |acts|;
    acts, s := Next(acts, s, AtGateway(Refuse(1)));
    assert s.service.charges[0] == Charge(1, Trying(Some(1)));
    acts, s := Next(acts, s, AtService(0, Receive(11)));
    assert s.service.charges == map[0 := Charge(1, Inserting(Row(FAILED, 11)))];
  }

  /** A 4xx is read as FAILED, even when an earlier attempt under the key was approved: with one
      lookup in all, one refusal is enough to end an approved order as PAYMENT_FAILED. */
  lemma RefusalChargesAFailedOrder() returns (acts: seq<Action>, k: nat)
    ensures Feasible(Init(), acts) && RefusesOnce(acts, k) && 1 in Exec(Init(), acts).orders
    ensures Exec(Init(), acts).orders[1].status == PAYMENT_FAILED
    ensures Exec(Init(), acts).gateway.executed == [(Clients.KeyOf(1), true)]
  {
    var s: Sys;
    acts, s, k := ApprovedThenRefused();
    acts, s := Next(acts, s, AtService(0, Insert(false, false)));
    assert s.service.charges[0] == Charge(1, Replied(Row(FAILED, 11)));
    acts, s := Next(acts, s, AtOrder(1, Hear));
    acts, s := Next(acts, s, AtOrder(1, Settle));
  }

  lemma Next(acts: seq<Action>, s: Sys, a: Action) returns (acts': seq<Action>, s': Sys)
    requires Feasible(Init(), acts) && Exec(Init(), acts) == s && Enabled(s, a)
    ensures acts' == acts + [a] && s' == Apply(s, a)
    ensures Feasible(Init(), acts') && Exec(Init(), acts') == s'
  {
    Append(Init(), acts, a);
    acts', s' := acts + [a], Apply(s, a);
  }

  /** Order 1 has been charged, and its thread has heard so. */
  lemma HeardSuccess() returns (acts: seq<Action>, s: Sys)
    ensures Feasible(Init(), acts) && Exec(Init(), acts) == s
    ensures 1 in s.orders && s.orders[1] == Order(PENDING, Decided(SUCCESS))
  {
    acts, s := OneRequestLookedUp();
    acts, s := Next(acts, s, AtGateway(Store(0, true, 10)));
    acts, s := Next(acts, s, AtService(0, Receive(11)));
    assert s.service.charges[0] == Charge(1, Inserting(Row(SUCCESS, 10)));
    acts, s := Next(acts, s, AtService(0, Insert(false, false)));
    assert s.service.charges[0] == Charge(1, Replied(Row(SUCCESS, 10)));
    acts, s := Next(acts, s, AtOrder(1, Hear));
  }

  /** A cancellation takes no lock, so the payment's own write overwrites it: an order that was
      CANCELLED, its stock given back, ends PAID. */
  lemma CancellationIsOverwritten() returns (acts: seq<Action>, s: Sys)
    ensures Feasible(Init(), acts) && Exec(Init(), acts) == s
    ensures 1 in s.orders && s.orders[1].status == CANCELLED && Enabled(s, AtOrder(1, Settle))
    ensures Apply(s, AtOrder(1, Settle)).orders[1].status == PAID
  {
    acts, s := HeardSuccess();
    acts, s := Next(acts, s, AtOrder(1, Cancel));
  }
}
