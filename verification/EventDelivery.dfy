/**
 What becomes of one message: how often it can be delivered, and that a message taken off a queue
 stays off it.
 */
module EventDelivery {
  import opened EventSystem
  import EventSafety
  import EventWorker

  /** How often the run has delivered message m. */
  function Delivered(acts: seq<Action>, m: MsgId): nat {
    if acts == [] then 0
    else
      var last := acts[|acts| - 1];
      Delivered(acts[..|acts| - 1], m) + if last.Poll? && m in last.msgs then 1 else 0
  }

  /** The receive count of a message is the number of its deliveries. */
  ghost predicate Counted(sh: Shared, acts: seq<Action>, m: MsgId) {
    && (m in sh.main ==> sh.main[m].receives == Delivered(acts, m))
    && (m >= sh.nextId ==> Delivered(acts, m) == 0)
    && Delivered(acts, m) <= MAX_RECEIVES
  }

  lemma EffectReceives(sh: Shared, worker: Worker, step: Step, m: MsgId)
    requires CanStep(worker, step) && m in Effect(sh, worker, step).main && m in sh.main
    ensures Effect(sh, worker, step).main[m].receives == sh.main[m].receives
  {
    if !step.Drop? && !step.Delete? {
      assert Effect(sh, worker, step).main == sh.main;
    }
  }

  lemma EffectIsOld(sh: Shared, worker: Worker, step: Step, m: MsgId)
    requires CanStep(worker, step) && m in Effect(sh, worker, step).main
    ensures m in sh.main
  {
    if !step.Drop? && !step.Delete? {
      assert Effect(sh, worker, step).main == sh.main;
    }
  }

  function Delivers(a: Action, m: MsgId): nat {
    if a.Poll? && m in a.msgs then 1 else 0
  }

  lemma WorkReceives(s: Sys, w: WorkerId, step: Step, m: MsgId)
    requires Enabled(s, Work(w, step)) && m in SharedAfter(s, Work(w, step)).main
    ensures m in s.shared.main && SharedAfter(s, Work(w, step)).main[m].receives == s.shared.main[m].receives
  {
    EffectIsOld(s.shared, s.workers[w], step, m);
    EffectReceives(s.shared, s.workers[w], step, m);
  }

  /** Only a delivery counts, and a message starts uncounted. */
  lemma StepReceives(s: Sys, a: Action, m: MsgId)
    requires Enabled(s, a) && EventSafety.SharedOk(s.shared) && m in SharedAfter(s, a).main
    ensures m in s.shared.main ==> SharedAfter(s, a).main[m].receives == s.shared.main[m].receives + Delivers(a, m)
    ensures m !in s.shared.main ==> m >= s.shared.nextId && SharedAfter(s, a).main[m].receives == 0 && Delivers(a, m) == 0
  {
    if a.Work? {
      WorkReceives(s, a.w, a.step, m);
    }
  }

  lemma StepCounted(s: Sys, acts: seq<Action>, a: Action, m: MsgId)
    requires Enabled(s, a) && EventSafety.SharedOk(s.shared) && Counted(s.shared, acts, m)
    ensures Counted(SharedAfter(s, a), acts + [a], m)
  {
    var acts' := acts + [a];
    assert acts'[..|acts'| - 1] == acts;
    assert Delivered(acts', m) == Delivered(acts, m) + Delivers(a, m);
    EventSafety.StepGrows(s, a);
    if m in SharedAfter(s, a).main {
      StepReceives(s, a, m);
    }
    assert Delivers(a, m) == 1 ==> m in s.shared.main && s.shared.main[m].receives < MAX_RECEIVES;
  }

  lemma {:induction false} RunCounted(workers: set<WorkerId>, operators: set<OperatorId>, acts: seq<Action>, m: MsgId)
    requires Feasible(Init(workers, operators), acts)
    ensures Counted(Exec(Init(workers, operators), acts).shared, acts, m)
    decreases |acts|
  {
    var s0 := Init(workers, operators);
    if acts != [] {
      var before, last := acts[..|acts| - 1], acts[|acts| - 1];
      RunCounted(workers, operators, before, m);
      EventSafety.RunInv(workers, operators, before);
      StepCounted(Exec(s0, before), before, last, m);
      assert before + [last] == acts;
    }
  }

  /** A message is delivered at most MAX_RECEIVES times, however often it is left undone, and the
      queue moves it to the DLQ on its own only after exactly that many deliveries. */
  lemma DeliveredAtMost(workers: set<WorkerId>, operators: set<OperatorId>, acts: seq<Action>, m: MsgId)
    requires Feasible(Init(workers, operators), acts)
    ensures Delivered(acts, m) <= MAX_RECEIVES
    ensures Enabled(Exec(Init(workers, operators), acts), Exhaust(m)) <==>
            m in Exec(Init(workers, operators), acts).shared.main && Delivered(acts, m) == MAX_RECEIVES
  {
    RunCounted(workers, operators, acts, m);
  }

  /** An id that is in use and not on the main queue. */
  ghost predicate Gone(sh: Shared, m: MsgId) {
    m < sh.nextId && m !in sh.main
  }

  lemma {:induction false} GoneForGood(workers: set<WorkerId>, operators: set<OperatorId>, acts: seq<Action>, n: nat,
                                       m: MsgId)
    requires Feasible(Init(workers, operators), acts) && n <= |acts| && Feasible(Init(workers, operators), acts[..n])
    requires Gone(Exec(Init(workers, operators), acts[..n]).shared, m)
    ensures Gone(Exec(Init(workers, operators), acts).shared, m)
    ensures m !in Exec(Init(workers, operators), acts[..n]).shared.dlq ==>
              m !in Exec(Init(workers, operators), acts).shared.dlq
    decreases |acts|
  {
    if n == |acts| {
      assert acts[..n] == acts;
    } else {
      var before, last := acts[..|acts| - 1], acts[|acts| - 1];
      assert before[..n] == acts[..n];
      GoneForGood(workers, operators, before, n, m);
      EventSafety.RunInv(workers, operators, before);
      EventSafety.StepGrows(Exec(Init(workers, operators), before), last);
    }
  }

  /** The message that an applied delete of the worker is about. */
  ghost predicate Deletes(s: Sys, a: Action, m: MsgId) {
    a.Work? && a.w in s.workers &&
    ((a.step.Delete? && a.step.applied && s.workers[a.w].phase.Deleting? && s.workers[a.w].phase.pass.msg == m)
     || (a.step.Drop? && a.step.applied && s.workers[a.w].phase.Parked? && s.workers[a.w].phase.msg == m))
  }

  lemma DeleteTakesOff(s: Sys, a: Action, m: MsgId)
    requires Enabled(s, a) && EventSafety.ActorsOk(s) && Deletes(s, a, m)
    ensures Gone(SharedAfter(s, a), m)
  {
    assert EventSafety.WorkerOk(s.shared, s.workers[a.w]);
  }

  /** Action n of a run, taken by itself. */
  lemma StepOfRun(s0: Sys, acts: seq<Action>, n: nat)
    requires Feasible(s0, acts) && n < |acts|
    ensures Feasible(s0, acts[..n]) && Feasible(s0, acts[..n + 1]) && Enabled(Exec(s0, acts[..n]), acts[n])
    ensures Exec(s0, acts[..n + 1]) == Apply(Exec(s0, acts[..n]), acts[n])
  {
    EventWorker.FeasiblePrefix(s0, acts, n + 1);
    assert acts[..n + 1][..n] == acts[..n];
  }

  /** Once a delete of a message was applied, the message is on the main queue never again: it is
      not delivered any more, whatever its receipt was. */
  lemma DeletedForGood(workers: set<WorkerId>, operators: set<OperatorId>, acts: seq<Action>, n: nat, m: MsgId)
    requires Feasible(Init(workers, operators), acts) && n < |acts|
    requires Feasible(Init(workers, operators), acts[..n]) && Deletes(Exec(Init(workers, operators), acts[..n]), acts[n], m)
    ensures m !in Exec(Init(workers, operators), acts).shared.main
  {
    var s0 := Init(workers, operators);
    StepOfRun(s0, acts, n);
    EventSafety.RunInv(workers, operators, acts[..n]);
    DeleteTakesOff(Exec(s0, acts[..n]), acts[n], m);
    GoneForGood(workers, operators, acts, n + 1, m);
  }

  lemma RemoveTakesOff(s: Sys, o: OperatorId, acked: bool)
    requires Enabled(s, Remove(o, true, acked)) && EventSafety.ActorsOk(s)
    ensures Gone(SharedAfter(s, Remove(o, true, acked)), s.operators[o].batch[0].id)
    ensures s.operators[o].batch[0].id !in SharedAfter(s, Remove(o, true, acked)).dlq
  {
    assert EventSafety.OperatorOk(s.shared, s.operators[o]);
  }

  /** Once an operator's removal was applied, the message is in neither queue under its id. */
  lemma RemovedForGood(workers: set<WorkerId>, operators: set<OperatorId>, acts: seq<Action>, n: nat, o: OperatorId,
                       acked: bool) returns (m: MsgId)
    requires Feasible(Init(workers, operators), acts) && n < |acts| && acts[n] == Remove(o, true, acked)
    ensures Feasible(Init(workers, operators), acts[..n]) && IsFirst(Exec(Init(workers, operators), acts[..n]), o, m)
    ensures m !in Exec(Init(workers, operators), acts).shared.dlq && m !in Exec(Init(workers, operators), acts).shared.main
  {
    var s0 := Init(workers, operators);
    StepOfRun(s0, acts, n);
    EventSafety.RunInv(workers, operators, acts[..n]);
    var s := Exec(s0, acts[..n]);
    m := s.operators[o].batch[0].id;
    RemoveTakesOff(s, o, acked);
    GoneForGood(workers, operators, acts, n + 1, m);
  }

  /** The first message in the operator's hands. */
  ghost predicate IsFirst(s: Sys, o: OperatorId, m: MsgId) {
    o in s.operators && s.operators[o].batch != [] && s.operators[o].batch[0].id == m
  }

  /** Every side effect has its handler, once. */
  lemma EveryHandlerOnce()
    ensures (forall h: Handler :: h in HANDLERS) && forall i, j :: 0 <= i < j < |HANDLERS| ==> HANDLERS[i] != HANDLERS[j]
  {
    assert HANDLERS[0] == Notification && HANDLERS[1] == Email && HANDLERS[2] == Analytics && HANDLERS[3] == Search;
    forall h: Handler ensures h in HANDLERS {
      match h
      case Notification => assert HANDLERS[0] == h;
      case Email => assert HANDLERS[1] == h;
      case Analytics => assert HANDLERS[2] == h;
      case Search => assert HANDLERS[3] == h;
    }
  }

  /** What was published has been accepted. */
  lemma {:induction false} PublishedIsAccepted(workers: set<WorkerId>, operators: set<OperatorId>, acts: seq<Action>,
                                               b: Body)
    requires Feasible(Init(workers, operators), acts) && Publish(b) in acts
    ensures b in Exec(Init(workers, operators), acts).shared.accepted
    decreases |acts|
  {
    var before, last := acts[..|acts| - 1], acts[|acts| - 1];
    assert acts == before + [last];
    if Publish(b) in before {
      PublishedIsAccepted(workers, operators, before, b);
      AcceptedStays(Exec(Init(workers, operators), before), last);
    }
  }

  lemma AcceptedStays(s: Sys, a: Action)
    requires Enabled(s, a)
    ensures s.shared.accepted <= SharedAfter(s, a).accepted
  {
    if a.Work? {
      EventSafety.EffectAccepts(s.shared, s.workers[a.w], a.step);
    }
  }

  /** No loss, in terms of the run alone: every body that was ever published is on a queue or, if
      it parses, has a row for every one of the four handlers. */
  lemma PublishedIsNeverLost(workers: set<WorkerId>, operators: set<OperatorId>, acts: seq<Action>, b: Body)
    requires Feasible(Init(workers, operators), acts) && Publish(b) in acts
    ensures var sh := Exec(Init(workers, operators), acts).shared;
            || (b.Parsed? && forall h: Handler :: (b.event, h) in sh.rows)
            || (exists m :: m in sh.main && sh.main[m].body == b)
            || (exists m :: m in sh.dlq && sh.dlq[m] == b)
  {
    PublishedIsAccepted(workers, operators, acts, b);
    EventSafety.NoEventLost(workers, operators, acts, b);
    EveryHandlerOnce();
  }

  /** An error from the insert does not tell whether the row is there. */
  lemma CommitErrorsAreAmbiguous(s: Sys, w: WorkerId, p: Pass)
    requires w in s.workers && s.workers[w].phase == Recording(p) && p.next < |HANDLERS|
    ensures Enabled(s, Work(w, Commit(true, true))) && Enabled(s, Work(w, Commit(true, false)))
    ensures Key(p) in Apply(s, Work(w, Commit(true, true))).shared.rows
    ensures Apply(s, Work(w, Commit(true, false))).shared.rows == s.shared.rows
    ensures Apply(s, Work(w, Commit(true, true))).workers[w].phase.Ready?
  {
  }
}
