/**
 What every run of the order-events pipeline keeps: no accepted event and no unparseable
 body is lost, the cached done set never runs ahead of the rows, and every row was preceded
 by a completed handler call.
 */
module EventSafety {
  import opened EventSystem

  /** Every handler of the set has a durable row for the event. */
  ghost predicate Within(sh: Shared, e: EventId, handlers: set<Handler>) {
    forall h :: h in handlers ==> (e, h) in sh.rows
  }

  /** A consumer's copy agrees with the main queue, if the message is still there. */
  ghost predicate Known(sh: Shared, id: MsgId, body: Body) {
    id < sh.nextId && (id in sh.main ==> sh.main[id].body == body)
  }

  ghost predicate KnownDead(sh: Shared, id: MsgId, body: Body) {
    id < sh.nextId && id !in sh.main && (id in sh.dlq ==> sh.dlq[id] == body)
  }

  ghost predicate PassOk(sh: Shared, p: Pass) {
    && Known(sh, p.msg, Parsed(p.event))
    && Within(sh, p.event, p.done)
    && p.next <= |HANDLERS|
    && forall j :: 0 <= j < p.next ==> (p.event, HANDLERS[j]) in sh.rows || HANDLERS[j] in p.outstanding
  }

  /** What a worker in this phase may rely on, whatever the others do. */
  ghost predicate PhaseOk(sh: Shared, phase: Phase) {
    match phase
    case Ready => true
    case Parking(m, b) => Known(sh, m, b) && b.Unparseable?
    case Parked(m, b) => Known(sh, m, b) && b.Unparseable?
    case Claiming(m, e) => Known(sh, m, Parsed(e))
    case Reading(m, e) => Known(sh, m, Parsed(e))
    case Querying(m, e) => Known(sh, m, Parsed(e))
    case Seeding(m, e, found) => Known(sh, m, Parsed(e)) && Within(sh, e, found)
    case Looping(p) => PassOk(sh, p)
    case Recording(p) => PassOk(sh, p) && p.next < |HANDLERS| && Count(sh.calls, Key(p)) >= 1
    case Fetching(p) => PassOk(sh, p) && p.next < |HANDLERS| && Key(p) in sh.rows
    case Storing(p, hs) =>
      PassOk(sh, p) && p.next < |HANDLERS| && Key(p) in sh.rows && Within(sh, p.event, hs)
    case Releasing(p) => PassOk(sh, p)
    case Deleting(p) => PassOk(sh, p) && AllRecorded(sh, p.event)
  }

  ghost predicate WorkerOk(sh: Shared, worker: Worker) {
    && (forall i :: 0 <= i < |worker.batch| ==> Known(sh, worker.batch[i].id, worker.batch[i].body))
    && PhaseOk(sh, worker.phase)
  }

  ghost predicate OperatorOk(sh: Shared, op: Operator) {
    && (forall i :: 0 <= i < |op.batch| ==> KnownDead(sh, op.batch[i].id, op.batch[i].body))
    && (op.sent ==> op.batch != [])
  }

  /** Message ids are never reused, and a message is in one queue at a time. */
  ghost predicate IdsOk(sh: Shared) {
    && (forall m :: m in sh.main ==> m < sh.nextId)
    && (forall m :: m in sh.dlq ==> m < sh.nextId && m !in sh.main)
  }

  /** The done set Redis holds, now or in any snapshot it may come back with, is a subset of
      the rows. */
  ghost predicate CacheBehindRows(sh: Shared) {
    && (forall e :: e in sh.cache ==> Within(sh, e, sh.cache[e]))
    && (forall p :: p in sh.snapshots ==> Within(sh, p.0, p.1))
  }

  /** A row is only ever written after a handler call that returned. */
  ghost predicate RowsAfterCalls(sh: Shared) {
    forall key :: key in sh.rows ==> Count(sh.calls, key) >= 1
  }

  ghost predicate SharedOk(sh: Shared) {
    IdsOk(sh) && CacheBehindRows(sh) && RowsAfterCalls(sh)
  }

  ghost predicate ActorsOk(s: Sys) {
    && SharedOk(s.shared)
    && (forall w :: w in s.workers ==> WorkerOk(s.shared, s.workers[w]))
    && (forall o :: o in s.operators ==> OperatorOk(s.shared, s.operators[o]))
  }

  /** A step only ever adds rows and completed calls, keeps ids fresh and never moves an id
      back to the main queue; that is all another actor needs to keep its own facts. */
  ghost predicate Grows(sh: Shared, sh': Shared) {
    QueuesGrow(sh, sh') && RecordsGrow(sh, sh')
  }

  ghost predicate RecordsGrow(sh: Shared, sh': Shared) {
    sh.rows <= sh'.rows && forall key :: Count(sh.calls, key) <= Count(sh'.calls, key)
  }

  ghost predicate QueuesGrow(sh: Shared, sh': Shared) {
    && sh.nextId <= sh'.nextId
    && (forall m :: m in sh'.main && m < sh.nextId ==> m in sh.main && sh'.main[m].body == sh.main[m].body)
    && (forall m :: m in sh'.dlq && m < sh.nextId ==>
          (m in sh.dlq && sh'.dlq[m] == sh.dlq[m]) || (m in sh.main && sh.main[m].body == sh'.dlq[m]))
  }

  lemma EffectRecords(sh: Shared, worker: Worker, step: Step)
    requires CanStep(worker, step)
    ensures RecordsGrow(sh, Effect(sh, worker, step))
  {
    if step.Call? && step.ok {
      assert Effect(sh, worker, step).rows == sh.rows;
    } else {
      assert Effect(sh, worker, step).calls == sh.calls;
    }
  }

  lemma EffectQueues(sh: Shared, worker: Worker, step: Step)
    requires CanStep(worker, step) && IdsOk(sh)
    ensures QueuesGrow(sh, Effect(sh, worker, step))
  {
    if !step.Park? && !step.Drop? && !step.Delete? {
      assert Effect(sh, worker, step).main == sh.main && Effect(sh, worker, step).dlq == sh.dlq;
    }
  }

  lemma EffectGrows(sh: Shared, worker: Worker, step: Step)
    requires CanStep(worker, step) && SharedOk(sh)
    ensures Grows(sh, Effect(sh, worker, step))
  {
    EffectRecords(sh, worker, step);
    EffectQueues(sh, worker, step);
  }

  lemma StepGrows(s: Sys, a: Action)
    requires Enabled(s, a) && SharedOk(s.shared)
    ensures Grows(s.shared, SharedAfter(s, a))
  {
    if a.Work? {
      EffectGrows(s.shared, s.workers[a.w], a.step);
    }
  }

  lemma EffectCache(sh: Shared, worker: Worker, step: Step)
    requires CanStep(worker, step) && CacheBehindRows(sh) && WorkerOk(sh, worker)
    ensures CacheBehindRows(Effect(sh, worker, step))
  {
    var sh' := Effect(sh, worker, step);
    assert forall e, hs :: Within(sh, e, hs) && sh.rows <= sh'.rows ==> Within(sh', e, hs);
  }

  lemma EffectSharedOk(sh: Shared, worker: Worker, step: Step)
    requires CanStep(worker, step) && SharedOk(sh) && WorkerOk(sh, worker)
    ensures SharedOk(Effect(sh, worker, step))
  {
    EffectCache(sh, worker, step);
    EffectGrows(sh, worker, step);
    if step.Commit? {
      assert Count(sh.calls, Key(worker.phase.pass)) >= 1;
    }
  }

  lemma PhaseKept(sh: Shared, sh': Shared, phase: Phase)
    requires Grows(sh, sh') && PhaseOk(sh, phase)
    ensures PhaseOk(sh', phase)
  {
  }

  lemma WorkerKept(sh: Shared, sh': Shared, worker: Worker)
    requires Grows(sh, sh') && WorkerOk(sh, worker)
    ensures WorkerOk(sh', worker)
  {
    PhaseKept(sh, sh', worker.phase);
  }

  lemma OperatorKept(sh: Shared, sh': Shared, op: Operator)
    requires Grows(sh, sh') && OperatorOk(sh, op)
    ensures OperatorOk(sh', op)
  {
  }

  lemma NextOk(sh: Shared, worker: Worker, step: Step)
    requires CanStep(worker, step) && SharedOk(sh) && WorkerOk(sh, worker)
    ensures PhaseOk(Effect(sh, worker, step), Next(sh, worker, step))
  {
    EffectGrows(sh, worker, step);
    PhaseKept(sh, Effect(sh, worker, step), worker.phase);
  }

  lemma SharedKept(s: Sys, a: Action)
    requires Enabled(s, a) && ActorsOk(s)
    ensures SharedOk(SharedAfter(s, a))
  {
    match a
    case Work(w, step) =>
      assert WorkerOk(s.shared, s.workers[w]);
      EffectSharedOk(s.shared, s.workers[w], step);
    case Remove(_, _, _) =>
    case Resend(_, _, _) =>
    case _ =>
  }

  lemma WorkersKept(s: Sys, a: Action, w: WorkerId)
    requires Enabled(s, a) && ActorsOk(s) && w in s.workers
    ensures WorkerOk(SharedAfter(s, a), WorkersAfter(s, a)[w])
  {
    StepGrows(s, a);
    var sh' := SharedAfter(s, a);
    WorkerKept(s.shared, sh', s.workers[w]);
    if a.Work? && a.w == w {
      assert WorkerOk(s.shared, s.workers[w]);
      NextOk(s.shared, s.workers[w], a.step);
    }
  }

  lemma OperatorsKept(s: Sys, a: Action, o: OperatorId)
    requires Enabled(s, a) && ActorsOk(s) && o in s.operators
    ensures OperatorOk(SharedAfter(s, a), OperatorsAfter(s, a)[o])
  {
    StepGrows(s, a);
    OperatorKept(s.shared, SharedAfter(s, a), s.operators[o]);
    assert OperatorOk(s.shared, s.operators[o]);
  }

  lemma ActorsKept(s: Sys, a: Action)
    requires Enabled(s, a) && ActorsOk(s)
    ensures ActorsOk(Apply(s, a))
  {
    SharedKept(s, a);
    forall w | w in s.workers ensures WorkerOk(SharedAfter(s, a), WorkersAfter(s, a)[w]) {
      WorkersKept(s, a, w);
    }
    forall o | o in s.operators ensures OperatorOk(SharedAfter(s, a), OperatorsAfter(s, a)[o]) {
      OperatorsKept(s, a, o);
    }
  }

  /** Some worker has parked a copy of this message in the DLQ and is about to delete it. */
  ghost predicate Dropping(s: Sys, m: MsgId) {
    exists w :: w in s.workers && s.workers[w].phase.Parked? && s.workers[w].phase.msg == m
  }

  /** Some operator has sent a copy of this DLQ message and is about to delete it. */
  ghost predicate Removing(s: Sys, m: MsgId) {
    exists o :: o in s.operators && s.operators[o].sent && s.operators[o].batch != [] && s.operators[o].batch[0].id == m
  }

  ghost predicate OnMain(s: Sys, b: Body, m: MsgId) {
    m in s.shared.main && s.shared.main[m].body == b && !Dropping(s, m)
  }

  ghost predicate OnDlq(s: Sys, b: Body, m: MsgId) {
    m in s.shared.dlq && s.shared.dlq[m] == b && !Removing(s, m)
  }

  /** The body is finished, or a copy of it that nobody is about to delete sits in one of
      the two queues. */
  ghost predicate Kept(s: Sys, b: Body) {
    || (b.Parsed? && AllRecorded(s.shared, b.event))
    || (exists m :: OnMain(s, b, m))
    || (exists m :: OnDlq(s, b, m))
  }

  /** The three ways a copy can leave the main queue. */
  ghost predicate LeavesMain(s: Sys, a: Action, m: MsgId)
    requires Enabled(s, a)
  {
    || (a.Exhaust? && a.msg == m)
    || (a.Work? && a.step.Drop? && s.workers[a.w].phase.msg == m)
    || (a.Work? && a.step.Delete? && s.workers[a.w].phase.pass.msg == m)
  }

  lemma EffectOnMain(sh: Shared, worker: Worker, step: Step, m: MsgId)
    requires CanStep(worker, step) && m in sh.main
    requires !(step.Drop? && worker.phase.msg == m) && !(step.Delete? && worker.phase.pass.msg == m)
    ensures m in Effect(sh, worker, step).main && Effect(sh, worker, step).main[m].body == sh.main[m].body
  {
    if !step.Drop? && !step.Delete? {
      assert Effect(sh, worker, step).main == sh.main;
    }
  }

  lemma StaysOnMain(s: Sys, a: Action, m: MsgId)
    requires Enabled(s, a) && IdsOk(s.shared) && m in s.shared.main && !LeavesMain(s, a, m)
    ensures m in SharedAfter(s, a).main && SharedAfter(s, a).main[m].body == s.shared.main[m].body
  {
    if a.Work? {
      EffectOnMain(s.shared, s.workers[a.w], a.step, m);
    }
  }

  /** A worker is about to drop a message only after it parked it. */
  lemma DroppingBegins(s: Sys, a: Action, m: MsgId)
    requires Enabled(s, a) && Dropping(Apply(s, a), m) && !Dropping(s, m)
    ensures a.Work? && a.step.Park? && a.step.acked && s.workers[a.w].phase.msg == m
  {
    var workers' := Apply(s, a).workers;
    forall w | w in workers' && !(a.Work? && a.w == w)
      ensures w in s.workers && (workers'[w] == s.workers[w] || workers'[w].phase.Ready?)
    {
    }
    assert exists w :: w in workers' && workers'[w].phase.Parked? && workers'[w].phase.msg == m;
  }

  /** An operator is about to remove a message only after it sent it back. */
  lemma RemovingBegins(s: Sys, a: Action, m: MsgId)
    requires Enabled(s, a) && Removing(Apply(s, a), m) && !Removing(s, m)
    ensures a.Resend? && a.acked && s.operators[a.o].batch[0].id == m
  {
    var operators' := Apply(s, a).operators;
    forall o | o in operators' && !(a.Resend? && a.o == o)
      ensures o in s.operators && (operators'[o] == s.operators[o] || !operators'[o].sent)
    {
    }
    assert exists o :: o in operators' && operators'[o].sent && operators'[o].batch != [] && operators'[o].batch[0].id == m;
  }

  /** Nobody has a hand on an id that is not in use yet, or is still on the main queue. */
  lemma NotRemoving(s: Sys, m: MsgId)
    requires ActorsOk(s) && (m >= s.shared.nextId || m in s.shared.main)
    ensures !Removing(s, m)
  {
    forall o | o in s.operators && s.operators[o].batch != [] ensures s.operators[o].batch[0].id != m {
      assert OperatorOk(s.shared, s.operators[o]);
    }
  }

  lemma NotDropping(s: Sys, m: MsgId)
    requires ActorsOk(s) && m >= s.shared.nextId
    ensures !Dropping(s, m)
  {
    forall w | w in s.workers && s.workers[w].phase.Parked? ensures s.workers[w].phase.msg != m {
      assert WorkerOk(s.shared, s.workers[w]);
    }
  }

  lemma ExhaustedMoves(s: Sys, b: Body, m: MsgId)
    requires Enabled(s, Exhaust(m)) && ActorsOk(s) && OnMain(s, b, m)
    ensures OnDlq(Apply(s, Exhaust(m)), b, m)
  {
    NotRemoving(s, m);
    if Removing(Apply(s, Exhaust(m)), m) {
      RemovingBegins(s, Exhaust(m), m);
    }
  }

  /** The park that lets the worker drop the copy has put another one on the DLQ. */
  lemma ParkedCopy(s: Sys, a: Action, b: Body, m: MsgId)
    requires Enabled(s, a) && ActorsOk(s) && OnMain(s, b, m)
    requires a.Work? && a.step.Park? && a.step.acked && s.workers[a.w].phase.msg == m
    ensures OnDlq(Apply(s, a), b, s.shared.nextId)
  {
    assert WorkerOk(s.shared, s.workers[a.w]);
    NotRemoving(s, s.shared.nextId);
    if Removing(Apply(s, a), s.shared.nextId) {
      RemovingBegins(s, a, s.shared.nextId);
    }
  }

  /** A copy on the main queue that nobody is deleting survives every step, moves to the DLQ,
      is replaced by the copy just parked there, or belonged to a finished event. */
  lemma MainCopyKept(s: Sys, a: Action, b: Body, m: MsgId)
    requires Enabled(s, a) && ActorsOk(s) && OnMain(s, b, m)
    ensures Kept(Apply(s, a), b)
  {
    if a.Exhaust? && a.msg == m {
      ExhaustedMoves(s, b, m);
    } else if a.Work? && a.step.Delete? && s.workers[a.w].phase.pass.msg == m {
      assert WorkerOk(s.shared, s.workers[a.w]);
      StepGrows(s, a);
    } else if Dropping(Apply(s, a), m) {
      DroppingBegins(s, a, m);
      ParkedCopy(s, a, b, m);
    } else {
      assert a.Work? && a.step.Drop? ==> s.workers[a.w].phase.msg != m;
      StaysOnMain(s, a, m);
      assert OnMain(Apply(s, a), b, m);
    }
  }

  lemma EffectOnDlq(sh: Shared, worker: Worker, step: Step, m: MsgId)
    requires CanStep(worker, step) && IdsOk(sh) && m in sh.dlq
    ensures m in Effect(sh, worker, step).dlq && Effect(sh, worker, step).dlq[m] == sh.dlq[m]
  {
    if !step.Park? {
      assert Effect(sh, worker, step).dlq == sh.dlq;
    }
  }

  lemma StaysOnDlq(s: Sys, a: Action, m: MsgId)
    requires Enabled(s, a) && IdsOk(s.shared) && m in s.shared.dlq
    requires !(a.Remove? && s.operators[a.o].batch[0].id == m)
    ensures m in SharedAfter(s, a).dlq && SharedAfter(s, a).dlq[m] == s.shared.dlq[m]
  {
    if a.Work? {
      EffectOnDlq(s.shared, s.workers[a.w], a.step, m);
    }
  }

  /** The send that lets the operator remove the copy has put another one on the main queue. */
  lemma ResentCopy(s: Sys, a: Action, b: Body, m: MsgId)
    requires Enabled(s, a) && ActorsOk(s) && OnDlq(s, b, m)
    requires a.Resend? && a.acked && s.operators[a.o].batch[0].id == m
    ensures OnMain(Apply(s, a), b, s.shared.nextId)
  {
    assert OperatorOk(s.shared, s.operators[a.o]);
    NotDropping(s, s.shared.nextId);
    if Dropping(Apply(s, a), s.shared.nextId) {
      DroppingBegins(s, a, s.shared.nextId);
    }
  }

  /** The same for a copy on the DLQ: it survives, or an operator has just put a copy back on
      the main queue. */
  lemma DlqCopyKept(s: Sys, a: Action, b: Body, m: MsgId)
    requires Enabled(s, a) && ActorsOk(s) && OnDlq(s, b, m)
    ensures Kept(Apply(s, a), b)
  {
    if Removing(Apply(s, a), m) {
      RemovingBegins(s, a, m);
      ResentCopy(s, a, b, m);
    } else {
      assert a.Remove? ==> s.operators[a.o].batch[0].id != m;
      StaysOnDlq(s, a, m);
      assert OnDlq(Apply(s, a), b, m);
    }
  }

  lemma StepKeeps(s: Sys, a: Action, b: Body)
    requires Enabled(s, a) && ActorsOk(s) && Kept(s, b)
    ensures Kept(Apply(s, a), b)
  {
    if b.Parsed? && AllRecorded(s.shared, b.event) {
      StepGrows(s, a);
    } else if m :| OnMain(s, b, m) {
      MainCopyKept(s, a, b, m);
    } else {
      var m :| OnDlq(s, b, m);
      DlqCopyKept(s, a, b, m);
    }
  }

  lemma PublishKeeps(s: Sys, b: Body)
    requires ActorsOk(s)
    ensures Kept(Apply(s, Publish(b)), b)
  {
    NotDropping(s, s.shared.nextId);
    if Dropping(Apply(s, Publish(b)), s.shared.nextId) {
      DroppingBegins(s, Publish(b), s.shared.nextId);
    }
    assert OnMain(Apply(s, Publish(b)), b, s.shared.nextId);
  }

  ghost predicate Inv(s: Sys) {
    ActorsOk(s) && forall b :: b in s.shared.accepted ==> Kept(s, b)
  }

  lemma EffectAccepts(sh: Shared, worker: Worker, step: Step)
    requires CanStep(worker, step)
    ensures Effect(sh, worker, step).accepted == sh.accepted
  {
  }

  /** A body is accepted by publishing it, and in no other way. */
  lemma AcceptedByPublish(s: Sys, a: Action, b: Body)
    requires Enabled(s, a) && b in SharedAfter(s, a).accepted && b !in s.shared.accepted
    ensures a == Publish(b)
  {
    if a.Work? {
      EffectAccepts(s.shared, s.workers[a.w], a.step);
    }
  }

  lemma StepInv(s: Sys, a: Action)
    requires Enabled(s, a) && Inv(s)
    ensures Inv(Apply(s, a))
  {
    ActorsKept(s, a);
    forall b | b in Apply(s, a).shared.accepted ensures Kept(Apply(s, a), b) {
      if b in s.shared.accepted {
        StepKeeps(s, a, b);
      } else {
        AcceptedByPublish(s, a, b);
        PublishKeeps(s, b);
      }
    }
  }

  lemma {:induction false} RunInv(workers: set<WorkerId>, operators: set<OperatorId>, acts: seq<Action>)
    requires Feasible(Init(workers, operators), acts)
    ensures Inv(Exec(Init(workers, operators), acts))
    decreases |acts|
  {
    var s0 := Init(workers, operators);
    if acts != [] {
      RunInv(workers, operators, acts[..|acts| - 1]);
      StepInv(Exec(s0, acts[..|acts| - 1]), acts[|acts| - 1]);
    }
  }

  /** No loss.  In every run of any workers and operators, with redeliveries, crashes, lost
      replies, moves to the DLQ, redrives and Redis faults, every accepted event is on the
      main queue, on the DLQ, or has a row for every handler; and an accepted body that does
      not parse is on one of the two queues. */
  lemma NoEventLost(workers: set<WorkerId>, operators: set<OperatorId>, acts: seq<Action>, b: Body)
    requires Feasible(Init(workers, operators), acts)
    requires b in Exec(Init(workers, operators), acts).shared.accepted
    ensures var sh := Exec(Init(workers, operators), acts).shared;
            || (b.Parsed? && AllRecorded(sh, b.event))
            || (exists m :: m in sh.main && sh.main[m].body == b)
            || (exists m :: m in sh.dlq && sh.dlq[m] == b)
  {
    RunInv(workers, operators, acts);
    var s := Exec(Init(workers, operators), acts);
    assert Kept(s, b);
    if m :| OnMain(s, b, m) {
      assert m in s.shared.main && s.shared.main[m].body == b;
    } else if m :| OnDlq(s, b, m) {
      assert m in s.shared.dlq && s.shared.dlq[m] == b;
    }
  }

  /** The done set a worker can read never names a handler without a row, so no handler is
      skipped without one; and every row was preceded by a completed call of its handler. */
  lemma DoneSetIsBacked(workers: set<WorkerId>, operators: set<OperatorId>, acts: seq<Action>,
                        e: EventId, h: Handler)
    requires Feasible(Init(workers, operators), acts)
    ensures var sh := Exec(Init(workers, operators), acts).shared;
            && (e in sh.cache && h in sh.cache[e] ==> (e, h) in sh.rows)
            && ((e, h) in sh.rows ==> Count(sh.calls, (e, h)) >= 1)
  {
    RunInv(workers, operators, acts);
    var sh := Exec(Init(workers, operators), acts).shared;
    assert e in sh.cache ==> Within(sh, e, sh.cache[e]);
  }
}
