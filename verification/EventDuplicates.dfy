/**
 How often a handler can run twice for one event.

 The durable rows do not prevent it: the handler runs before its row is inserted, and a
 record rebuilds a missing done set from nothing.  With a Redis that keeps the event's keys and
 a lease that outlasts the passes it guards, a handler completes at most once more than the
 number of times a pass was cut short between that handler's return and its appearance in
 the done set.
 */
module EventDuplicates {
  import opened EventSystem
  import EventSafety

  /** The worker is inside process_event, from its first read to its last step. */
  ghost predicate IsPass(phase: Phase) {
    !phase.Ready? && !phase.Parking? && !phase.Parked? && !phase.Claiming?
  }

  ghost function EventOf(phase: Phase): EventId
    requires IsPass(phase)
  {
    if phase.Reading? || phase.Querying? || phase.Seeding? then phase.event else phase.pass.event
  }

  ghost predicate InPass(phase: Phase, e: EventId) {
    IsPass(phase) && EventOf(phase) == e
  }

  ghost predicate Busy(s: Sys, e: EventId) {
    exists w :: w in s.workers && InPass(s.workers[w].phase, e)
  }

  /** The worker is at work on a message of this event. */
  ghost predicate On(phase: Phase, e: EventId) {
    InPass(phase, e) || (phase.Claiming? && phase.event == e)
  }

  /** Redis does what this step asks of it, as far as the event's lease and done set depend on it.
      Reads of the done set and releases of the lease may fail. */
  ghost predicate KeepsKeys(sh: Shared, step: Step, e: EventId) {
    match step
    case Claim(fault, applied) => fault ==> applied && e !in sh.leases
    case Seed(applied) => applied || e in sh.cache
    case Fetch(fault) => fault ==> e !in sh.cache
    case Store(applied) => applied
    case _ => true
  }

  /** Redis keeps the keys of this one event, except that a lease nobody works under may expire.
      Everything may happen to the other events, and crashes, database errors, redeliveries and
      redrives to this one too. */
  ghost predicate Reliable(s: Sys, a: Action, e: EventId) {
    match a
    case Work(w, step) => w in s.workers && On(s.workers[w].phase, e) ==> KeepsKeys(s.shared, step, e)
    case LeaseExpire(x) => x == e ==> !Busy(s, e)
    case Evict(x) => x != e
    case Restore(x, _) => x != e
    case _ => true
  }

  ghost predicate ReliableRun(s: Sys, acts: seq<Action>, e: EventId)
    requires Feasible(s, acts)
    decreases |acts|
  {
    acts == []
    || (ReliableRun(s, acts[..|acts| - 1], e) && Reliable(Exec(s, acts[..|acts| - 1]), acts[|acts| - 1], e))
  }

  /** What a pass that starts now would find done. */
  ghost predicate Shows(sh: Shared, e: EventId, h: Handler) {
    if e in sh.cache then h in sh.cache[e] else (e, h) in sh.rows
  }

  ghost predicate NoRows(sh: Shared, e: EventId) {
    forall h :: (e, h) !in sh.rows
  }

  ghost predicate OnlyRow(sh: Shared, e: EventId, h: Handler) {
    forall h' :: (e, h') in sh.rows <==> h' == h
  }

  /** The handlers this pass still has to run are not shown as done. */
  ghost predicate AheadUnseen(sh: Shared, p: Pass, first: nat) {
    forall j :: first <= j < |HANDLERS| && HANDLERS[j] !in p.done ==> !Shows(sh, p.event, HANDLERS[j])
  }

  ghost predicate PhaseFresh(sh: Shared, phase: Phase) {
    match phase
    case Seeding(_, e, found) => forall h :: h in found <==> (e, h) in sh.rows
    case Looping(p) => (p.event !in sh.cache ==> NoRows(sh, p.event)) && AheadUnseen(sh, p, p.next)
    case Recording(p) =>
      && p.next < |HANDLERS| && HANDLERS[p.next] !in p.done
      && (p.event !in sh.cache ==> NoRows(sh, p.event)) && AheadUnseen(sh, p, p.next)
    case Fetching(p) =>
      && p.next < |HANDLERS|
      && (p.event !in sh.cache ==> OnlyRow(sh, p.event, HANDLERS[p.next])) && AheadUnseen(sh, p, p.next + 1)
    case Storing(p, hs) =>
      && p.next < |HANDLERS|
      && hs == (if p.event in sh.cache then sh.cache[p.event] else {}) + {HANDLERS[p.next]}
      && (p.event !in sh.cache ==> OnlyRow(sh, p.event, HANDLERS[p.next])) && AheadUnseen(sh, p, p.next + 1)
    case _ => true
  }

  /** The worker has completed this handler for this event and not yet shown it. */
  ghost predicate Holds(phase: Phase, e: EventId, h: Handler) {
    (phase.Recording? || phase.Fetching? || phase.Storing?) && phase.pass.next < |HANDLERS| && Key(phase.pass) == (e, h)
  }

  ghost predicate Credited(s: Sys, e: EventId, h: Handler) {
    Shows(s.shared, e, h) || exists w :: w in s.workers && Holds(s.workers[w].phase, e, h)
  }

  ghost predicate Bounded(s: Sys, e: EventId, h: Handler) {
    Count(s.shared.calls, (e, h)) <= Count(s.shared.cuts, (e, h)) + if Credited(s, e, h) then 1 else 0
  }

  /** Passes of the event exclude each other, by the lease each of them holds. */
  ghost predicate Exclusive(s: Sys, e: EventId) {
    && (forall w :: w in s.workers && InPass(s.workers[w].phase, e) ==> e in s.shared.leases)
    && (forall w, w' ::
          (w in s.workers && w' in s.workers && InPass(s.workers[w].phase, e) && InPass(s.workers[w'].phase, e))
          ==> w == w')
  }

  /** The passes of the event exclude each other and know what is done. */
  ghost predicate PassesOk(s: Sys, e: EventId) {
    && Exclusive(s, e)
    && (forall w :: w in s.workers && InPass(s.workers[w].phase, e) ==> PhaseFresh(s.shared, s.workers[w].phase))
  }

  ghost predicate Inv(s: Sys, e: EventId) {
    PassesOk(s, e) && forall h :: Bounded(s, e, h)
  }

  /** A pass begins only by winning the lease. */
  lemma PassBegins(s: Sys, a: Action, w: WorkerId, e: EventId)
    requires Enabled(s, a) && Reliable(s, a, e) && w in s.workers && InPass(WorkersAfter(s, a)[w].phase, e)
    ensures InPass(s.workers[w].phase, e)
            || (a.Work? && a.w == w && a.step.Claim? && e !in s.shared.leases && e in SharedAfter(s, a).leases
                && WorkersAfter(s, a)[w].phase.Reading?)
  {
  }

  lemma EffectLeases(sh: Shared, worker: Worker, step: Step, e: EventId)
    requires CanStep(worker, step) && e in sh.leases && e !in Effect(sh, worker, step).leases
    ensures step.Release? && InPass(worker.phase, e) && !IsPass(Next(sh, worker, step))
  {
  }

  /** A lease goes away only when nobody works under it, or when its own pass ends. */
  lemma LeaseEnds(s: Sys, a: Action, e: EventId)
    requires Enabled(s, a) && Reliable(s, a, e) && e in s.shared.leases && e !in SharedAfter(s, a).leases
    ensures !Busy(s, e)
            || (a.Work? && a.step.Release? && InPass(s.workers[a.w].phase, e) && !IsPass(WorkersAfter(s, a)[a.w].phase))
  {
    if a.Work? {
      EffectLeases(s.shared, s.workers[a.w], a.step, e);
    }
  }

  lemma ExclusiveKept(s: Sys, a: Action, e: EventId)
    requires Enabled(s, a) && Reliable(s, a, e) && Exclusive(s, e)
    ensures Exclusive(Apply(s, a), e)
  {
    var s' := Apply(s, a);
    forall w | w in s'.workers && InPass(s'.workers[w].phase, e) ensures e in s'.shared.leases {
      PassBegins(s, a, w, e);
      if e in s.shared.leases && e !in s'.shared.leases {
        LeaseEnds(s, a, e);
      }
    }
    forall w, w' | w in s'.workers && w' in s'.workers
                   && InPass(s'.workers[w].phase, e) && InPass(s'.workers[w'].phase, e)
      ensures w == w'
    {
      PassBegins(s, a, w, e);
      PassBegins(s, a, w', e);
    }
  }

  /** The step leaves the rows and the done set of the event as they are. */
  ghost predicate SameRecord(sh: Shared, sh': Shared, e: EventId) {
    && (e in sh.cache <==> e in sh'.cache)
    && (e in sh.cache ==> sh.cache[e] == sh'.cache[e])
    && (forall h :: (e, h) in sh.rows <==> (e, h) in sh'.rows)
  }

  lemma EffectFrame(sh: Shared, worker: Worker, step: Step, e: EventId)
    requires CanStep(worker, step)
    ensures SameRecord(sh, Effect(sh, worker, step), e)
            || (InPass(worker.phase, e) && (step.Seed? || step.Commit? || step.Store?))
  {
    if !step.Seed? && !step.Commit? && !step.Store? {
      assert Effect(sh, worker, step).rows == sh.rows && Effect(sh, worker, step).cache == sh.cache;
    }
  }

  /** Only a worker inside a pass of the event touches its rows and its done set. */
  lemma RecordFrame(s: Sys, a: Action, e: EventId)
    requires Enabled(s, a) && Reliable(s, a, e)
    ensures SameRecord(s.shared, SharedAfter(s, a), e)
            || (a.Work? && InPass(s.workers[a.w].phase, e) && (a.step.Seed? || a.step.Commit? || a.step.Store?))
  {
    if a.Work? {
      EffectFrame(s.shared, s.workers[a.w], a.step, e);
    } else {
      assert SharedAfter(s, a).rows == s.shared.rows;
    }
  }

  lemma PhaseFrame(sh: Shared, sh': Shared, phase: Phase, e: EventId)
    requires PhaseFresh(sh, phase) && InPass(phase, e) && SameRecord(sh, sh', e)
    ensures PhaseFresh(sh', phase)
  {
  }

  /** The done set is never ahead of the rows (EventSafety proves it of every run). */
  ghost predicate Behind(sh: Shared, e: EventId) {
    e in sh.cache ==> forall h :: h in sh.cache[e] ==> (e, h) in sh.rows
  }

  lemma NextFresh(sh: Shared, worker: Worker, step: Step, e: EventId)
    requires CanStep(worker, step) && KeepsKeys(sh, step, e) && Behind(sh, e)
    requires InPass(worker.phase, e) && PhaseFresh(sh, worker.phase) && InPass(Next(sh, worker, step), e)
    ensures PhaseFresh(Effect(sh, worker, step), Next(sh, worker, step))
  {
    if step.Query? {
      RowsOfMeaning(sh, e);
    }
  }

  lemma RowsOfMeaning(sh: Shared, e: EventId)
    ensures forall h :: h in RowsOf(sh, e) <==> (e, h) in sh.rows
  {
    forall h | (e, h) in sh.rows ensures h in RowsOf(sh, e) {
      var r := (e, h);
      assert r in sh.rows && r.0 == e && r.1 == h;
    }
  }

  lemma FreshKept(s: Sys, a: Action, w: WorkerId, e: EventId)
    requires Enabled(s, a) && Reliable(s, a, e) && PassesOk(s, e) && Behind(s.shared, e)
    requires w in s.workers && InPass(WorkersAfter(s, a)[w].phase, e)
    ensures PhaseFresh(SharedAfter(s, a), WorkersAfter(s, a)[w].phase)
  {
    PassBegins(s, a, w, e);
    var phase := s.workers[w].phase;
    if InPass(phase, e) {
      assert PhaseFresh(s.shared, phase);
      if a.Work? && a.w == w {
        NextFresh(s.shared, s.workers[w], a.step, e);
      } else {
        RecordFrame(s, a, e);
        PhaseFrame(s.shared, SharedAfter(s, a), phase, e);
      }
    }
  }

  lemma PassesKept(s: Sys, a: Action, e: EventId)
    requires Enabled(s, a) && Reliable(s, a, e) && PassesOk(s, e) && Behind(s.shared, e)
    ensures PassesOk(Apply(s, a), e)
  {
    ExclusiveKept(s, a, e);
    forall w | w in Apply(s, a).workers && InPass(Apply(s, a).workers[w].phase, e)
      ensures PhaseFresh(Apply(s, a).shared, Apply(s, a).workers[w].phase)
    {
      FreshKept(s, a, w, e);
    }
  }

  /** The action completes a call of this handler for this event. */
  ghost predicate Completes(s: Sys, a: Action, e: EventId, h: Handler)
    requires Enabled(s, a)
  {
    a.Work? && a.step == Call(true) && Key(s.workers[a.w].phase.pass) == (e, h)
  }

  /** The action cuts a pass short that holds an unshown completion of this handler. */
  ghost predicate CutsShort(s: Sys, a: Action, e: EventId, h: Handler)
    requires Enabled(s, a)
  {
    ((a.Work? && a.step.Commit? && a.step.fault) || a.Crash?) && Holds(s.workers[a.w].phase, e, h)
  }

  lemma EffectCalls(sh: Shared, worker: Worker, step: Step)
    requires CanStep(worker, step) && !step.Call?
    ensures Effect(sh, worker, step).calls == sh.calls
  {
  }

  lemma EffectCuts(sh: Shared, worker: Worker, step: Step)
    requires CanStep(worker, step) && !step.Commit?
    ensures Effect(sh, worker, step).cuts == sh.cuts
  {
  }

  /** Counters move only where a call completes or a pass is cut short. */
  lemma CountsFrame(s: Sys, a: Action, e: EventId, h: Handler)
    requires Enabled(s, a)
    ensures Count(SharedAfter(s, a).calls, (e, h)) ==
            Count(s.shared.calls, (e, h)) + if Completes(s, a, e, h) then 1 else 0
    ensures Count(SharedAfter(s, a).cuts, (e, h)) ==
            Count(s.shared.cuts, (e, h)) + if CutsShort(s, a, e, h) then 1 else 0
  {
    if a.Work? {
      if !a.step.Call? {
        EffectCalls(s.shared, s.workers[a.w], a.step);
      }
      if !a.step.Commit? {
        EffectCuts(s.shared, s.workers[a.w], a.step);
      }
    }
  }

  /** What is shown as done stays shown. */
  lemma ShownKept(s: Sys, a: Action, e: EventId, h: Handler)
    requires Enabled(s, a) && Reliable(s, a, e) && PassesOk(s, e) && Behind(s.shared, e) && Shows(s.shared, e, h)
    ensures Shows(SharedAfter(s, a), e, h)
  {
    RecordFrame(s, a, e);
    if a.Work? && InPass(s.workers[a.w].phase, e) {
      assert PhaseFresh(s.shared, s.workers[a.w].phase);
      StepShows(s.shared, s.workers[a.w], a.step, e, h);
    }
  }

  lemma StepShows(sh: Shared, worker: Worker, step: Step, e: EventId, h: Handler)
    requires CanStep(worker, step) && KeepsKeys(sh, step, e) && Behind(sh, e)
    requires InPass(worker.phase, e) && PhaseFresh(sh, worker.phase) && Shows(sh, e, h)
    ensures Shows(Effect(sh, worker, step), e, h)
  {
    EffectFrame(sh, worker, step, e);
  }

  /** The worker that holds a completion keeps it until it is shown or the pass is cut short. */
  lemma NextHolds(sh: Shared, worker: Worker, step: Step, e: EventId, h: Handler)
    requires CanStep(worker, step) && KeepsKeys(sh, step, e) && PhaseFresh(sh, worker.phase) && Holds(worker.phase, e, h)
    ensures Holds(Next(sh, worker, step), e, h) || (step.Commit? && step.fault) || Shows(Effect(sh, worker, step), e, h)
  {
  }

  /** Credit is only lost together with a cut. */
  lemma CreditKept(s: Sys, a: Action, e: EventId, h: Handler)
    requires Enabled(s, a) && Reliable(s, a, e) && PassesOk(s, e) && Behind(s.shared, e) && Credited(s, e, h)
    ensures Credited(Apply(s, a), e, h)
            || CutsShort(s, a, e, h)
  {
    if Shows(s.shared, e, h) {
      ShownKept(s, a, e, h);
    } else {
      var w :| w in s.workers && Holds(s.workers[w].phase, e, h);
      assert InPass(s.workers[w].phase, e) && PhaseFresh(s.shared, s.workers[w].phase);
      if a.Work? && a.w == w {
        NextHolds(s.shared, s.workers[w], a.step, e, h);
        assert Apply(s, a).workers[w].phase == Next(s.shared, s.workers[w], a.step);
      } else if !(a.Crash? && a.w == w) {
        assert Apply(s, a).workers[w] == s.workers[w];
      }
    }
  }

  /** A handler that is shown as done is not called. */
  lemma CompletesUnseen(s: Sys, a: Action, e: EventId, h: Handler)
    requires Enabled(s, a) && PassesOk(s, e) && Completes(s, a, e, h)
    ensures !Shows(s.shared, e, h) && InPass(s.workers[a.w].phase, e)
  {
    var phase := s.workers[a.w].phase;
    assert PhaseFresh(s.shared, phase) && HANDLERS[phase.pass.next] == h;
  }

  lemma BoundKept(s: Sys, a: Action, e: EventId, h: Handler)
    requires Enabled(s, a) && Reliable(s, a, e) && Inv(s, e) && Behind(s.shared, e)
    ensures Bounded(Apply(s, a), e, h)
  {
    assert Bounded(s, e, h);
    CountsFrame(s, a, e, h);
    if Completes(s, a, e, h) {
      CompletesUnseen(s, a, e, h);
      forall w | w in s.workers ensures !Holds(s.workers[w].phase, e, h) {
        assert InPass(s.workers[w].phase, e) ==> w == a.w;
      }
      assert Holds(Apply(s, a).workers[a.w].phase, e, h);
    } else if Credited(s, e, h) {
      CreditKept(s, a, e, h);
    }
  }

  lemma ReachedBehind(workers: set<WorkerId>, operators: set<OperatorId>, acts: seq<Action>, e: EventId)
    requires Feasible(Init(workers, operators), acts)
    ensures Behind(Exec(Init(workers, operators), acts).shared, e)
  {
    forall h ensures var sh := Exec(Init(workers, operators), acts).shared;
                     e in sh.cache && h in sh.cache[e] ==> (e, h) in sh.rows {
      EventSafety.DoneSetIsBacked(workers, operators, acts, e, h);
    }
  }

  lemma {:induction false} RunInv(workers: set<WorkerId>, operators: set<OperatorId>, acts: seq<Action>, e: EventId)
    requires Feasible(Init(workers, operators), acts) && ReliableRun(Init(workers, operators), acts, e)
    ensures Inv(Exec(Init(workers, operators), acts), e)
    decreases |acts|
  {
    var s0 := Init(workers, operators);
    if acts != [] {
      var s, a := Exec(s0, acts[..|acts| - 1]), acts[|acts| - 1];
      RunInv(workers, operators, acts[..|acts| - 1], e);
      ReachedBehind(workers, operators, acts[..|acts| - 1], e);
      PassesKept(s, a, e);
      forall h ensures Bounded(Apply(s, a), e, h) {
        BoundKept(s, a, e, h);
      }
    }
  }

  /** Bounded duplication: completed calls of a handler for an event are at most one plus the
      number of times a pass was cut short while it held that handler's unshown completion. */
  lemma DuplicatesBounded(workers: set<WorkerId>, operators: set<OperatorId>, acts: seq<Action>,
                          e: EventId, h: Handler)
    requires Feasible(Init(workers, operators), acts) && ReliableRun(Init(workers, operators), acts, e)
    ensures var sh := Exec(Init(workers, operators), acts).shared;
            Count(sh.calls, (e, h)) <= 1 + Count(sh.cuts, (e, h))
  {
    RunInv(workers, operators, acts, e);
    assert Bounded(Exec(Init(workers, operators), acts), e, h);
  }

  /** Two passes of an event never run at the same time while Redis is reliable for it. */
  lemma PassesExclude(workers: set<WorkerId>, operators: set<OperatorId>, acts: seq<Action>,
                      w: WorkerId, w': WorkerId, e: EventId)
    requires Feasible(Init(workers, operators), acts) && ReliableRun(Init(workers, operators), acts, e)
    requires var s := Exec(Init(workers, operators), acts);
             && w in s.workers && InPass(s.workers[w].phase, e)
             && w' in s.workers && InPass(s.workers[w'].phase, e)
    ensures w == w'
  {
    RunInv(workers, operators, acts, e);
  }
}
