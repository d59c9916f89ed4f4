/**
 The order-events pipeline as one state machine: the main queue and its dead-letter queue,
 the `processed_events` rows, the Redis keys in front of them, any number of worker
 processes and any number of operators running a redrive.

 Every action is one step that the code performs atomically (one SQS call, one Redis
 command, one commit, one handler call).  Each remote call may be applied or not, and its
 reply may arrive or not; a worker or an operator may crash between any two actions; a
 message that is still on the main queue may be delivered again at any time.
 */
module EventSystem {
  type EventId = nat
  type MsgId = nat
  type WorkerId = nat
  type OperatorId = nat

  datatype Handler = Notification | Email | Analytics | Search

  const HANDLERS: seq<Handler> := [Notification, Email, Analytics, Search]
  const MAX_RECEIVES := 5
  const BATCH := 10

  /** What `_parse` makes of a message body. */
  datatype Body = Parsed(event: EventId) | Unparseable(raw: string)

  datatype Message = Message(body: Body, receives: nat)

  /** A copy of a message in the hands of a consumer. */
  datatype Delivery = Delivery(id: MsgId, body: Body)

  /** One run of `process_event`: the set it read as already done, the loop index and the
      handlers that failed so far. */
  datatype Pass = Pass(msg: MsgId, event: EventId, done: set<Handler>, next: nat, outstanding: seq<Handler>)

  /** Where a worker is inside `_handle_message`: each phase names the next action. */
  datatype Phase =
    | Ready
    | Parking(msg: MsgId, body: Body)            // poison: send it to the DLQ
    | Parked(msg: MsgId, body: Body)             // poison: delete it from the main queue
    | Claiming(msg: MsgId, event: EventId)       // acquire_lease
    | Reading(msg: MsgId, event: EventId)        // completed_handlers: read the cached set
    | Querying(msg: MsgId, event: EventId)       // completed_handlers: read the rows
    | Seeding(msg: MsgId, event: EventId, found: set<Handler>) // completed_handlers: refresh the cache
    | Looping(pass: Pass)                        // head of the handler loop
    | Recording(pass: Pass)                      // handler returned: commit its row
    | Fetching(pass: Pass)                       // row is there: read the cached set
    | Storing(pass: Pass, handlers: set<Handler>) // write the cached set back
    | Releasing(pass: Pass)                      // something outstanding: release_lease
    | Deleting(pass: Pass)                       // nothing outstanding: delete the message

  datatype Worker = Worker(batch: seq<Delivery>, phase: Phase)

  /** A redrive: the messages in hand; `sent` says that the first one is already on the
      main queue and only its removal from the DLQ is left. */
  datatype Operator = Operator(batch: seq<Delivery>, sent: bool)

  /** The services every actor shares: SQS, the Order database, Redis; and the ghost counters
      of completed handler calls and of calls whose record was cut short. */
  datatype Shared = Shared(
    nextId: MsgId,
    main: map<MsgId, Message>,
    dlq: map<MsgId, Body>,
    accepted: set<Body>,
    rows: set<(EventId, Handler)>,
    cache: map<EventId, set<Handler>>,
    snapshots: set<(EventId, set<Handler>)>,
    leases: set<EventId>,
    calls: map<(EventId, Handler), nat>,
    cuts: map<(EventId, Handler), nat>)

  datatype Sys = Sys(shared: Shared, workers: map<WorkerId, Worker>, operators: map<OperatorId, Operator>)

  /** One atomic step of a worker on the message in hand.  `fault` is an error raised to the
      worker, `applied` says whether the service nevertheless did what it was asked. */
  datatype Step =
    | Take
    | Park(applied: bool, acked: bool)
    | Drop(applied: bool, acked: bool)
    | Claim(fault: bool, applied: bool)
    | ReadDone(fault: bool)
    | Query(fault: bool)
    | Seed(applied: bool)
    | Skip
    | Call(ok: bool)
    | Commit(fault: bool, applied: bool)
    | Fetch(fault: bool)
    | Store(applied: bool)
    | Finish
    | Release(applied: bool)
    | Delete(applied: bool, acked: bool)

  datatype Action =
    | Publish(body: Body)
    | Exhaust(msg: MsgId)
    | Poll(w: WorkerId, msgs: seq<MsgId>)
    | Work(w: WorkerId, step: Step)
    | Crash(w: WorkerId)
    | LeaseExpire(event: EventId)
    | Evict(event: EventId)
    | Restore(event: EventId, handlers: set<Handler>)
    | Collect(o: OperatorId, msgs: seq<MsgId>)
    | Resend(o: OperatorId, applied: bool, acked: bool)
    | Remove(o: OperatorId, applied: bool, acked: bool)
    | OperatorCrash(o: OperatorId)

  function Init(workers: set<WorkerId>, operators: set<OperatorId>): Sys {
    Sys(Shared(0, map[], map[], {}, {}, map[], {}, {}, map[], map[]),
        map w | w in workers :: Worker([], Ready),
        map o | o in operators :: Operator([], false))
  }

  function RowsOf(sh: Shared, e: EventId): set<Handler> {
    set r | r in sh.rows && r.0 == e :: r.1
  }

  predicate AllRecorded(sh: Shared, e: EventId) {
    forall h :: h in HANDLERS ==> (e, h) in sh.rows
  }

  function Count(counts: map<(EventId, Handler), nat>, key: (EventId, Handler)): nat {
    if key in counts then counts[key] else 0
  }

  /** The handler the pass is at, as the key of its row. */
  function Key(p: Pass): (EventId, Handler)
    requires p.next < |HANDLERS|
  {
    (p.event, HANDLERS[p.next])
  }

  function Add(sh: Shared, body: Body): Shared {
    sh.(main := sh.main[sh.nextId := Message(body, 0)], nextId := sh.nextId + 1)
  }

  function Bury(sh: Shared, body: Body): Shared {
    sh.(dlq := sh.dlq[sh.nextId := body], nextId := sh.nextId + 1)
  }

  function Put(sh: Shared, e: EventId, handlers: set<Handler>): Shared {
    sh.(cache := sh.cache[e := handlers], snapshots := sh.snapshots + {(e, handlers)})
  }

  /** A pass that had already completed a handler call, but had not yet made it visible in
      the done set, is charged to that handler when it is cut short. */
  function Cut(sh: Shared, phase: Phase): Shared {
    if (phase.Recording? || phase.Fetching? || phase.Storing?) && phase.pass.next < |HANDLERS| then
      sh.(cuts := sh.cuts[Key(phase.pass) := Count(sh.cuts, Key(phase.pass)) + 1])
    else sh
  }

  predicate CanStep(worker: Worker, step: Step) {
    var phase := worker.phase;
    match step
    case Take => phase.Ready? && worker.batch != []
    case Park(applied, acked) => phase.Parking? && (acked ==> applied)
    case Drop(applied, acked) => phase.Parked? && (acked ==> applied)
    case Claim(_, _) => phase.Claiming?
    case ReadDone(_) => phase.Reading?
    case Query(_) => phase.Querying?
    case Seed(_) => phase.Seeding?
    case Skip => phase.Looping? && phase.pass.next < |HANDLERS| && HANDLERS[phase.pass.next] in phase.pass.done
    case Call(_) => phase.Looping? && phase.pass.next < |HANDLERS| && HANDLERS[phase.pass.next] !in phase.pass.done
    case Commit(_, _) => phase.Recording? && phase.pass.next < |HANDLERS|
    case Fetch(_) => phase.Fetching? && phase.pass.next < |HANDLERS|
    case Store(_) => phase.Storing?
    case Finish => phase.Looping? && phase.pass.next >= |HANDLERS|
    case Release(_) => phase.Releasing?
    case Delete(applied, acked) => phase.Deleting? && (acked ==> applied)
  }

  /** What the step does to the shared services. */
  function Effect(sh: Shared, worker: Worker, step: Step): Shared
    requires CanStep(worker, step)
  {
    var phase := worker.phase;
    match step
    case Park(applied, _) => if applied then Bury(sh, phase.body) else sh
    case Drop(applied, _) => if applied then sh.(main := sh.main - {phase.msg}) else sh
    case Claim(fault, applied) => if fault && !applied then sh else sh.(leases := sh.leases + {phase.event})
    case Seed(applied) => if applied then Put(sh, phase.event, phase.found) else sh
    case Call(ok) =>
      if ok then sh.(calls := sh.calls[Key(phase.pass) := Count(sh.calls, Key(phase.pass)) + 1]) else sh
    case Commit(fault, applied) =>
      var sh1 := if fault && !applied then sh else sh.(rows := sh.rows + {Key(phase.pass)});
      if fault then Cut(sh1, phase) else sh1
    case Store(applied) => if applied then Put(sh, phase.pass.event, phase.handlers) else sh
    case Release(applied) => if applied then sh.(leases := sh.leases - {phase.pass.event}) else sh
    case Delete(applied, _) => if applied then sh.(main := sh.main - {phase.pass.msg}) else sh
    case _ => sh
  }

  /** Handler `pass.next` is dealt with: go on with the next one. */
  function Advance(pass: Pass): Phase {
    Looping(pass.(next := pass.next + 1))
  }

  /** The phase the worker is in after the step (app/worker.py, app/core/idempotency.py). */
  function Next(sh: Shared, worker: Worker, step: Step): Phase
    requires CanStep(worker, step)
  {
    var phase := worker.phase;
    match step
    case Take =>
      var d := worker.batch[0];
      if d.body.Parsed? then Claiming(d.id, d.body.event) else Parking(d.id, d.body)
    case Park(_, acked) => if acked then Parked(phase.msg, phase.body) else Ready
    case Drop(_, _) => Ready
    case Claim(fault, _) =>
      if !fault && phase.event in sh.leases then Ready else Reading(phase.msg, phase.event)
    case ReadDone(fault) =>
      if !fault && phase.event in sh.cache
      then Looping(Pass(phase.msg, phase.event, sh.cache[phase.event], 0, []))
      else Querying(phase.msg, phase.event)
    case Query(fault) =>
      var found := RowsOf(sh, phase.event);
      if fault then Ready
      else if found != {} then Seeding(phase.msg, phase.event, found)
      else Looping(Pass(phase.msg, phase.event, {}, 0, []))
    case Seed(_) => Looping(Pass(phase.msg, phase.event, phase.found, 0, []))
    case Skip => Advance(phase.pass)
    case Call(ok) =>
      if ok then Recording(phase.pass)
      else Advance(phase.pass.(outstanding := phase.pass.outstanding + [HANDLERS[phase.pass.next]]))
    case Commit(fault, _) => if fault then Ready else Fetching(phase.pass)
    case Fetch(fault) =>
      var cached := if !fault && phase.pass.event in sh.cache then sh.cache[phase.pass.event] else {};
      Storing(phase.pass, cached + {HANDLERS[phase.pass.next]})
    case Store(_) => Advance(phase.pass)
    case Finish => if phase.pass.outstanding != [] then Releasing(phase.pass) else Deleting(phase.pass)
    case Release(_) => Ready
    case Delete(_, _) => Ready
  }

  predicate Distinct(msgs: seq<MsgId>) {
    forall i, j :: 0 <= i < j < |msgs| ==> msgs[i] != msgs[j]
  }

  predicate Enabled(s: Sys, a: Action) {
    match a
    case Publish(_) => true
    case Exhaust(m) => m in s.shared.main && s.shared.main[m].receives >= MAX_RECEIVES
    case Poll(w, msgs) =>
      && w in s.workers && s.workers[w] == Worker([], Ready)
      && |msgs| <= BATCH && Distinct(msgs)
      && forall m :: m in msgs ==> m in s.shared.main && s.shared.main[m].receives < MAX_RECEIVES
    case Work(w, step) => w in s.workers && CanStep(s.workers[w], step)
    case Crash(w) => w in s.workers
    case LeaseExpire(_) => true
    case Evict(_) => true
    case Restore(e, hs) => (e, hs) in s.shared.snapshots
    case Collect(o, msgs) =>
      && o in s.operators && s.operators[o] == Operator([], false)
      && |msgs| <= BATCH && Distinct(msgs) && forall m :: m in msgs ==> m in s.shared.dlq
    case Resend(o, applied, acked) =>
      o in s.operators && s.operators[o].batch != [] && !s.operators[o].sent && (acked ==> applied)
    case Remove(o, applied, acked) =>
      o in s.operators && s.operators[o].batch != [] && s.operators[o].sent && (acked ==> applied)
    case OperatorCrash(o) => o in s.operators
  }

  function Deliveries(sh: Shared, msgs: seq<MsgId>): (ds: seq<Delivery>)
    requires forall m :: m in msgs ==> m in sh.main
    ensures |ds| == |msgs|
    ensures forall i :: 0 <= i < |ds| ==> ds[i] == Delivery(msgs[i], sh.main[msgs[i]].body)
  {
    seq(|msgs|, i requires 0 <= i < |msgs| => Delivery(msgs[i], sh.main[msgs[i]].body))
  }

  function DlqDeliveries(sh: Shared, msgs: seq<MsgId>): (ds: seq<Delivery>)
    requires forall m :: m in msgs ==> m in sh.dlq
    ensures |ds| == |msgs|
    ensures forall i :: 0 <= i < |ds| ==> ds[i] == Delivery(msgs[i], sh.dlq[msgs[i]])
  {
    seq(|msgs|, i requires 0 <= i < |msgs| => Delivery(msgs[i], sh.dlq[msgs[i]]))
  }

  /** A delivery hides nothing here: it only counts the receives SQS compares with its limit. */
  function Received(sh: Shared, msgs: seq<MsgId>): Shared {
    sh.(main := map m | m in sh.main ::
                  if m in msgs then sh.main[m].(receives := sh.main[m].receives + 1) else sh.main[m])
  }

  /** What any action does to the shared services. */
  function SharedAfter(s: Sys, a: Action): Shared
    requires Enabled(s, a)
  {
    var sh := s.shared;
    match a
    case Publish(b) => Add(sh, b).(accepted := sh.accepted + {b})
    case Exhaust(m) => sh.(main := sh.main - {m}, dlq := sh.dlq[m := sh.main[m].body])
    case Poll(w, msgs) => Received(sh, msgs)
    case Work(w, step) => Effect(sh, s.workers[w], step)
    case Crash(w) => Cut(sh, s.workers[w].phase)
    case LeaseExpire(e) => sh.(leases := sh.leases - {e})
    case Evict(e) => sh.(cache := sh.cache - {e})
    case Restore(e, hs) => sh.(cache := sh.cache[e := hs])
    case Resend(o, applied, _) => if applied then Add(sh, s.operators[o].batch[0].body) else sh
    case Remove(o, applied, _) => if applied then sh.(dlq := sh.dlq - {s.operators[o].batch[0].id}) else sh
    case _ => sh
  }

  function WorkersAfter(s: Sys, a: Action): map<WorkerId, Worker>
    requires Enabled(s, a)
  {
    match a
    case Poll(w, msgs) => s.workers[w := Worker(Deliveries(s.shared, msgs), Ready)]
    case Work(w, step) =>
      var worker := s.workers[w];
      s.workers[w := Worker(if step.Take? then worker.batch[1..] else worker.batch, Next(s.shared, worker, step))]
    case Crash(w) => s.workers[w := Worker([], Ready)]
    case _ => s.workers
  }

  function OperatorsAfter(s: Sys, a: Action): map<OperatorId, Operator>
    requires Enabled(s, a)
  {
    match a
    case Collect(o, msgs) => s.operators[o := Operator(DlqDeliveries(s.shared, msgs), false)]
    case Resend(o, _, acked) =>
      var op := s.operators[o];
      s.operators[o := if acked then op.(sent := true) else Operator(op.batch[1..], false)]
    case Remove(o, _, acked) => s.operators[o := Operator(if acked then s.operators[o].batch[1..] else [], false)]
    case OperatorCrash(o) => s.operators[o := Operator([], false)]
    case _ => s.operators
  }

  function Apply(s: Sys, a: Action): Sys
    requires Enabled(s, a)
  {
    Sys(SharedAfter(s, a), WorkersAfter(s, a), OperatorsAfter(s, a))
  }

  /** The action sequence can be performed from `s`, one action after the other. */
  predicate Feasible(s: Sys, acts: seq<Action>)
    decreases |acts|, 0
  {
    acts == [] || (Feasible(s, acts[..|acts| - 1]) && Enabled(Exec(s, acts[..|acts| - 1]), acts[|acts| - 1]))
  }

  /** The state at the end of a feasible action sequence. */
  function Exec(s: Sys, acts: seq<Action>): Sys
    requires Feasible(s, acts)
    decreases |acts|, 1
  {
    if acts == [] then s else Apply(Exec(s, acts[..|acts| - 1]), acts[|acts| - 1])
  }
}
