/**
 When a handler whose row is there runs again.  With a Redis that is reliable from now on it does
 so exactly when the event has a cached done set that does not name it, and one evicted key is
 enough to get there.
 */
module EventReruns {
  import opened EventSystem
  import opened EventDuplicates
  import EventSafety

  // ---- a shown handler does not run again ----

  lemma NotBusyPassesOk(s: Sys, e: EventId)
    requires !Busy(s, e)
    ensures PassesOk(s, e)
  {
    assert forall w :: w in s.workers ==> !InPass(s.workers[w].phase, e);
  }

  lemma InvBehind(s: Sys, e: EventId)
    requires EventSafety.Inv(s)
    ensures Behind(s.shared, e)
  {
    assert e in s.shared.cache ==> EventSafety.Within(s.shared, e, s.shared.cache[e]);
  }

  lemma {:induction false} ShownStaysDone(s: Sys, later: seq<Action>, e: EventId, h: Handler)
    requires EventSafety.Inv(s) && PassesOk(s, e) && Shows(s.shared, e, h)
    requires Feasible(s, later) && ReliableRun(s, later, e)
    ensures EventSafety.Inv(Exec(s, later)) && PassesOk(Exec(s, later), e) && Shows(Exec(s, later).shared, e, h)
    ensures Count(Exec(s, later).shared.calls, (e, h)) == Count(s.shared.calls, (e, h))
    decreases |later|
  {
    if later != [] {
      var s', a := Exec(s, later[..|later| - 1]), later[|later| - 1];
      ShownStaysDone(s, later[..|later| - 1], e, h);
      InvBehind(s', e);
      EventSafety.StepInv(s', a);
      PassesKept(s', a, e);
      ShownKept(s', a, e, h);
      CountsFrame(s', a, e, h);
      if Completes(s', a, e, h) {
        CompletesUnseen(s', a, e, h);
      }
    }
  }

  // ---- a hidden one can ----

  /** From s the run `later`, reliable for the event, leads to s'. */
  ghost predicate Leads(s: Sys, later: seq<Action>, s': Sys, e: EventId) {
    Feasible(s, later) && ReliableRun(s, later, e) && Exec(s, later) == s'
  }

  lemma Goes(s: Sys, later: seq<Action>, s': Sys, e: EventId, a: Action) returns (later': seq<Action>, s'': Sys)
    requires Leads(s, later, s', e) && Enabled(s', a) && Reliable(s', a, e)
    ensures Leads(s, later', s'', e) && s'' == Apply(s', a)
  {
    Extend(s, later, a);
    later', s'' := later + [a], Apply(s', a);
    assert later'[..|later'| - 1] == later;
  }

  /** The counts and the done set of the event are as they were. */
  ghost predicate SameCounts(s: Sys, s': Sys, e: EventId) {
    && s'.shared.calls == s.shared.calls && s'.shared.cuts == s.shared.cuts
    && e in s.shared.cache && e in s'.shared.cache && s'.shared.cache[e] == s.shared.cache[e]
  }

  ghost predicate Stands(s: Sys, w: WorkerId, phase: Phase) {
    w in s.workers && s.workers[w] == Worker([], phase)
  }

  /** The event is published once more, under the same id, with its lease free. */
  lemma Republished(s: Sys, w: WorkerId, e: EventId) returns (later: seq<Action>, s': Sys)
    requires Stands(s, w, Ready) && !Busy(s, e) && e in s.shared.cache
    ensures Leads(s, later, s', e) && SameCounts(s, s', e) && Stands(s', w, Ready)
    ensures e !in s'.shared.leases
    ensures s.shared.nextId in s'.shared.main && s'.shared.main[s.shared.nextId] == Message(Parsed(e), 0)
  {
    later, s' := Goes(s, [], s, e, LeaseExpire(e));
    later, s' := Goes(s, later, s', e, Publish(Parsed(e)));
  }

  /** An idle worker receives it. */
  lemma Delivered(s: Sys, w: WorkerId, e: EventId) returns (later: seq<Action>, s': Sys)
    requires Stands(s, w, Ready) && !Busy(s, e) && e in s.shared.cache
    ensures Leads(s, later, s', e) && SameCounts(s, s', e) && e !in s'.shared.leases
    ensures w in s'.workers && s'.workers[w] == Worker([Delivery(s.shared.nextId, Parsed(e))], Ready)
  {
    later, s' := Republished(s, w, e);
    later, s' := Goes(s, later, s', e, Poll(w, [s.shared.nextId]));
  }

  /** It wins the lease and reads the done set. */
  lemma PassStarts(s: Sys, w: WorkerId, e: EventId) returns (later: seq<Action>, s': Sys)
    requires Stands(s, w, Ready) && !Busy(s, e) && e in s.shared.cache
    ensures Leads(s, later, s', e) && SameCounts(s, s', e)
    ensures Stands(s', w, Looping(Pass(s.shared.nextId, e, s.shared.cache[e], 0, [])))
  {
    later, s' := Delivered(s, w, e);
    later, s' := Goes(s, later, s', e, Work(w, Take));
    later, s' := Goes(s, later, s', e, Work(w, Claim(false, false)));
    assert Stands(s', w, Reading(s.shared.nextId, e));
    later, s' := Goes(s, later, s', e, Work(w, ReadDone(false)));
  }

  /** One handler is skipped, or called in vain. */
  lemma PassesOne(s: Sys, later0: seq<Action>, s0: Sys, w: WorkerId, e: EventId, p: Pass)
      returns (later: seq<Action>, s': Sys, p': Pass)
    requires Leads(s, later0, s0, e) && SameCounts(s, s0, e) && Stands(s0, w, Looping(p))
    requires p.event == e && p.next < |HANDLERS|
    ensures Leads(s, later, s', e) && SameCounts(s, s', e) && Stands(s', w, Looping(p'))
    ensures p'.event == e && p'.done == p.done && p'.next == p.next + 1
  {
    var step := if HANDLERS[p.next] in p.done then Skip else Call(false);
    later, s' := Goes(s, later0, s0, e, Work(w, step));
    p' := s'.workers[w].phase.pass;
  }

  /** And so on up to handler n. */
  lemma {:induction false} PassesMany(s: Sys, w: WorkerId, e: EventId, n: nat)
      returns (later: seq<Action>, s': Sys, p: Pass)
    requires Stands(s, w, Ready) && !Busy(s, e) && e in s.shared.cache && n <= |HANDLERS|
    ensures Leads(s, later, s', e) && SameCounts(s, s', e) && Stands(s', w, Looping(p))
    ensures p.event == e && p.done == s.shared.cache[e] && p.next == n
    decreases n
  {
    if n == 0 {
      later, s' := PassStarts(s, w, e);
      p := s'.workers[w].phase.pass;
    } else {
      later, s', p := PassesMany(s, w, e, n - 1);
      later, s', p := PassesOne(s, later, s', w, e, p);
    }
  }

  lemma HiddenCanRerun(s: Sys, w: WorkerId, e: EventId, h: Handler) returns (later: seq<Action>)
    requires Stands(s, w, Ready) && !Busy(s, e) && e in s.shared.cache && h !in s.shared.cache[e]
    ensures Feasible(s, later) && ReliableRun(s, later, e)
    ensures Count(Exec(s, later).shared.calls, (e, h)) == Count(s.shared.calls, (e, h)) + 1
    ensures Exec(s, later).shared.cuts == s.shared.cuts
  {
    var n := match h case Notification => 0 case Email => 1 case Analytics => 2 case Search => 3;
    assert HANDLERS[n] == h;
    var s', p;
    later, s', p := PassesMany(s, w, e, n);
    later, s' := Goes(s, later, s', e, Work(w, Call(true)));
  }

  ghost predicate CanRerun(s: Sys, e: EventId, h: Handler) {
    exists later :: Feasible(s, later) && ReliableRun(s, later, e)
                    && Count(Exec(s, later).shared.calls, (e, h)) > Count(s.shared.calls, (e, h))
                    && Exec(s, later).shared.cuts == s.shared.cuts
  }

  /** Exactly when a recorded handler can run again although Redis is reliable from now on and no
      pass is cut short: the event has a done set and the handler is not in it.  If it is, or if
      there is no done set at all, it never completes again, cuts or not. */
  lemma RerunsExactlyWhenHidden(workers: set<WorkerId>, operators: set<OperatorId>, acts: seq<Action>,
                                w: WorkerId, e: EventId, h: Handler)
    requires Feasible(Init(workers, operators), acts)
    requires var s := Exec(Init(workers, operators), acts);
             Stands(s, w, Ready) && !Busy(s, e) && (e, h) in s.shared.rows
    ensures var s := Exec(Init(workers, operators), acts);
            && (CanRerun(s, e, h) <==> e in s.shared.cache && h !in s.shared.cache[e])
            && (!CanRerun(s, e, h) ==>
                  forall later :: Feasible(s, later) && ReliableRun(s, later, e) ==>
                    Count(Exec(s, later).shared.calls, (e, h)) == Count(s.shared.calls, (e, h)))
  {
    var s := Exec(Init(workers, operators), acts);
    EventSafety.RunInv(workers, operators, acts);
    NotBusyPassesOk(s, e);
    if e in s.shared.cache && h !in s.shared.cache[e] {
      var later := HiddenCanRerun(s, w, e, h);
    } else {
      forall later | Feasible(s, later) && ReliableRun(s, later, e)
        ensures Count(Exec(s, later).shared.calls, (e, h)) == Count(s.shared.calls, (e, h))
      {
        ShownStaysDone(s, later, e, h);
      }
    }
  }

  // ---- a run that gets there ----

  /** No remote call fails in this action, and nothing is dropped. */
  ghost predicate Faultless(a: Action) {
    match a
    case Work(_, Claim(fault, _)) => !fault
    case Work(_, ReadDone(fault)) => !fault
    case Work(_, Seed(applied)) => applied
    case Work(_, Fetch(fault)) => !fault
    case Work(_, Store(applied)) => applied
    case Work(_, Release(applied)) => applied
    case Evict(_) => false
    case Restore(_, _) => false
    case _ => true
  }

  lemma Extend(s0: Sys, acts: seq<Action>, a: Action)
    requires Feasible(s0, acts) && Enabled(Exec(s0, acts), a)
    ensures Feasible(s0, acts + [a]) && Exec(s0, acts + [a]) == Apply(Exec(s0, acts), a)
  {
    assert (acts + [a])[..|acts + [a]| - 1] == acts;
  }

  /** A single worker, and nobody else, in a run that has come to this point. */
  ghost predicate Alone(s0: Sys, acts: seq<Action>, sh: Shared, worker: Worker) {
    && Feasible(s0, acts)
    && Exec(s0, acts) == Sys(sh, map[0 := worker], map[])
    && forall i :: 0 <= i < |acts| && i != 10 ==> Faultless(acts[i]) && !acts[i].Crash? && !acts[i].LeaseExpire?
  }

  const Nothing: Shared := Shared(0, map[], map[], {}, {}, map[], {}, {}, map[], map[])

  lemma Works(s0: Sys, acts: seq<Action>, sh: Shared, worker: Worker, step: Step)
      returns (acts': seq<Action>, sh': Shared, worker': Worker)
    requires Alone(s0, acts, sh, worker) && CanStep(worker, step) && Faultless(Work(0, step))
    ensures acts' == acts + [Work(0, step)]
    ensures sh' == Effect(sh, worker, step)
    ensures worker' == Worker(if step.Take? then worker.batch[1..] else worker.batch, Next(sh, worker, step))
    ensures Alone(s0, acts', sh', worker')
  {
    var s := Sys(sh, map[0 := worker], map[]);
    Extend(s0, acts, Work(0, step));
    acts' := acts + [Work(0, step)];
    var s' := Apply(s, Work(0, step));
    sh', worker' := s'.shared, s'.workers[0];
    assert s'.workers == map[0 := worker'];
  }

  lemma OneReceived(sh: Shared, n: nat)
    requires sh.main == map[0 := Message(Parsed(7), n)]
    ensures Received(sh, [0]) == sh.(main := map[0 := Message(Parsed(7), n + 1)])
  {
    var main' := Received(sh, [0]).main;
    assert main'.Keys == {0} && main'[0] == Message(Parsed(7), n + 1);
    assert main' == map[0 := Message(Parsed(7), n + 1)];
  }

  /** The worker receives message 0, which has been delivered once already or not at all. */
  lemma Receives(s0: Sys, acts: seq<Action>, sh: Shared, n: nat) returns (acts': seq<Action>, sh': Shared, worker': Worker)
    requires Alone(s0, acts, sh, Worker([], Ready)) && sh.main == map[0 := Message(Parsed(7), n)] && n < MAX_RECEIVES
    ensures acts' == acts + [Poll(0, [0])]
    ensures sh' == sh.(main := map[0 := Message(Parsed(7), n + 1)])
    ensures worker' == Worker([Delivery(0, Parsed(7))], Ready)
    ensures Alone(s0, acts', sh', worker')
  {
    var a := Poll(0, [0]);
    var s := Sys(sh, map[0 := Worker([], Ready)], map[]);
    assert Enabled(s, a);
    Extend(s0, acts, a);
    acts' := acts + [a];
    sh', worker' := sh.(main := map[0 := Message(Parsed(7), n + 1)]), Worker([Delivery(0, Parsed(7))], Ready);
    OneReceived(sh, n);
    assert Deliveries(sh, [0]) == [Delivery(0, Parsed(7))];
    assert Apply(s, a).workers == map[0 := worker'];
  }

  lemma Starts(s0: Sys) returns (acts: seq<Action>, sh: Shared)
    requires s0.shared == Nothing && s0.workers == map[0 := Worker([], Ready)] && s0.operators == map[]
    ensures |acts| == 1 && Alone(s0, acts, sh, Worker([], Ready))
    ensures sh == Shared(1, map[0 := Message(Parsed(7), 0)], map[], {Parsed(7)}, {}, map[], {}, {}, map[], map[])
  {
    assert Feasible(s0, []) && Exec(s0, []) == s0;
    Extend(s0, [], Publish(Parsed(7)));
    acts := [] + [Publish(Parsed(7))];
    sh := Exec(s0, acts).shared;
  }

  /** A worker has the lease of event 7. */
  lemma FirstClaim(s0: Sys) returns (acts: seq<Action>, sh: Shared)
    requires s0.shared == Nothing && s0.workers == map[0 := Worker([], Ready)] && s0.operators == map[]
    ensures |acts| == 4 && Alone(s0, acts, sh, Worker([], Reading(0, 7)))
    ensures sh == Shared(1, map[0 := Message(Parsed(7), 1)], map[], {Parsed(7)}, {}, map[], {}, {7}, map[], map[])
  {
    var worker: Worker;
    acts, sh := Starts(s0);
    acts, sh, worker := Receives(s0, acts, sh, 0);
    acts, sh, worker := Works(s0, acts, sh, worker, Take);
    acts, sh, worker := Works(s0, acts, sh, worker, Claim(false, false));
  }

  /** The first pass of event 7 finds nothing done. */
  lemma FirstPassStarts(s0: Sys) returns (acts: seq<Action>, sh: Shared, worker: Worker)
    requires s0.shared == Nothing && s0.workers == map[0 := Worker([], Ready)] && s0.operators == map[]
    ensures |acts| == 6 && Alone(s0, acts, sh, worker) && worker == Worker([], Looping(Pass(0, 7, {}, 0, [])))
    ensures sh == Shared(1, map[0 := Message(Parsed(7), 1)], map[], {Parsed(7)}, {}, map[], {}, {7}, map[], map[])
  {
    acts, sh := FirstClaim(s0);
    acts, sh, worker := Works(s0, acts, sh, Worker([], Reading(0, 7)), ReadDone(false));
    assert worker == Worker([], Querying(0, 7)) && RowsOf(sh, 7) == {};
    acts, sh, worker := Works(s0, acts, sh, worker, Query(false));
  }

  /** The next handler runs and gets its row. */
  lemma Runs(s0: Sys, acts0: seq<Action>, sh0: Shared, worker0: Worker, p: Pass)
      returns (acts: seq<Action>, sh: Shared, worker: Worker)
    requires Alone(s0, acts0, sh0, worker0) && worker0 == Worker([], Looping(p))
    requires p.next < |HANDLERS| && HANDLERS[p.next] !in p.done
    ensures |acts| == |acts0| + 2 && acts0 <= acts && Alone(s0, acts, sh, worker) && worker == Worker([], Fetching(p))
    ensures sh.main == sh0.main && sh.cuts == sh0.cuts && sh.leases == sh0.leases && sh.cache == sh0.cache
    ensures sh.calls == sh0.calls[Key(p) := Count(sh0.calls, Key(p)) + 1] && sh.rows == sh0.rows + {Key(p)}
  {
    acts, sh, worker := Works(s0, acts0, sh0, worker0, Call(true));
    assert worker.phase == Recording(p);
    acts, sh, worker := Works(s0, acts, sh, worker, Commit(false, false));
  }

  /** The next handler runs and is recorded while the event has no cached done set. */
  lemma RunsAndRecords(s0: Sys, acts0: seq<Action>, sh0: Shared, worker0: Worker, p: Pass)
      returns (acts: seq<Action>, sh: Shared, worker: Worker)
    requires Alone(s0, acts0, sh0, worker0) && worker0 == Worker([], Looping(p))
    requires p.next < |HANDLERS| && HANDLERS[p.next] !in p.done && p.event !in sh0.cache
    ensures |acts| == |acts0| + 4 && acts0 <= acts && Alone(s0, acts, sh, worker) && worker == Worker([], Advance(p))
    ensures sh.main == sh0.main && sh.cuts == sh0.cuts && sh.leases == sh0.leases
    ensures sh.calls == sh0.calls[Key(p) := Count(sh0.calls, Key(p)) + 1]
    ensures sh.rows == sh0.rows + {Key(p)} && sh.cache == sh0.cache[p.event := {HANDLERS[p.next]}]
  {
    acts, sh, worker := Runs(s0, acts0, sh0, worker0, p);
    acts, sh, worker := Works(s0, acts, sh, worker, Fetch(false));
    assert worker.phase.handlers == {HANDLERS[p.next]};
    acts, sh, worker := Works(s0, acts, sh, worker, Store(true));
  }

  lemma Forgets(s0: Sys, acts: seq<Action>, sh: Shared, worker: Worker) returns (acts': seq<Action>, sh': Shared)
    requires |acts| == 10 && Alone(s0, acts, sh, worker)
    ensures acts' == acts + [Evict(7)] && sh' == sh.(cache := sh.cache - {7}) && Alone(s0, acts', sh', worker)
  {
    Extend(s0, acts, Evict(7));
    acts', sh' := acts + [Evict(7)], sh.(cache := sh.cache - {7});
  }

  /** The last two handlers fail, and the pass ends with them outstanding. */
  lemma TheRestFails(s0: Sys, acts0: seq<Action>, sh0: Shared, worker0: Worker)
      returns (acts: seq<Action>, sh: Shared, worker: Worker)
    requires Alone(s0, acts0, sh0, worker0) && worker0 == Worker([], Looping(Pass(0, 7, {}, 2, [])))
    ensures acts0 <= acts && Alone(s0, acts, sh, worker) && worker == Worker([], Ready)
    ensures sh == sh0.(leases := sh0.leases - {7})
  {
    acts, sh, worker := Works(s0, acts0, sh0, worker0, Call(false));
    acts, sh, worker := Works(s0, acts, sh, worker, Call(false));
    assert worker.phase.pass.outstanding == [Analytics, Search];
    acts, sh, worker := Works(s0, acts, sh, worker, Finish);
    acts, sh, worker := Works(s0, acts, sh, worker, Release(true));
  }

  /** The next delivery believes the cached set. */
  lemma SecondPassStarts(s0: Sys, acts0: seq<Action>, sh0: Shared) returns (acts: seq<Action>, sh: Shared, worker: Worker)
    requires Alone(s0, acts0, sh0, Worker([], Ready)) && sh0.main == map[0 := Message(Parsed(7), 1)]
    requires sh0.cache == map[7 := {Email}] && sh0.leases == {}
    ensures acts0 <= acts && Alone(s0, acts, sh, worker) && worker == Worker([], Looping(Pass(0, 7, {Email}, 0, [])))
    ensures sh.rows == sh0.rows && sh.cuts == sh0.cuts && sh.calls == sh0.calls
  {
    acts, sh, worker := Receives(s0, acts0, sh0, 1);
    acts, sh, worker := Works(s0, acts, sh, worker, Take);
    acts, sh, worker := Works(s0, acts, sh, worker, Claim(false, false));
    assert worker == Worker([], Reading(0, 7)) && sh.cache == sh0.cache;
    acts, sh, worker := Works(s0, acts, sh, worker, ReadDone(false));
  }

  /** So it runs Notification once more. */
  lemma SecondPassReruns(s0: Sys, acts0: seq<Action>, sh0: Shared) returns (acts: seq<Action>, sh: Shared, worker: Worker)
    requires Alone(s0, acts0, sh0, Worker([], Ready)) && sh0.main == map[0 := Message(Parsed(7), 1)]
    requires sh0.cache == map[7 := {Email}] && sh0.leases == {}
    ensures acts0 <= acts && Alone(s0, acts, sh, worker)
    ensures sh.rows == sh0.rows && sh.cuts == sh0.cuts
    ensures sh.calls == sh0.calls[(7, Notification) := Count(sh0.calls, (7, Notification)) + 1]
  {
    acts, sh, worker := SecondPassStarts(s0, acts0, sh0);
    acts, sh, worker := Works(s0, acts, sh, worker, Call(true));
  }

  /** One evicted key is enough to run a recorded handler again: the record of the next
      handler rebuilds the done set from nothing, and the next pass believes it.  Nothing was
      cut short in this run. */
  lemma EvictionRerunsARecordedHandler() returns (acts: seq<Action>)
    ensures Feasible(Init({0}, {}), acts)
    ensures |acts| > 10 && acts[10] == Evict(7)
    ensures forall i :: 0 <= i < |acts| && i != 10 ==> Faultless(acts[i]) && !acts[i].Crash? && !acts[i].LeaseExpire?
    ensures var sh := Exec(Init({0}, {}), acts).shared;
            (7, Notification) in sh.rows && Count(sh.calls, (7, Notification)) == 2 && sh.cuts == map[]
  {
    var s0 := Init({0}, {});
    assert s0.workers == map[0 := Worker([], Ready)] && s0.operators == map[];
    var acts0, sh0, worker0 := FirstPassStarts(s0);
    var acts1, sh1, worker1 := RunsAndRecords(s0, acts0, sh0, worker0, Pass(0, 7, {}, 0, []));
    var acts2, sh2 := Forgets(s0, acts1, sh1, worker1);
    var acts3, sh3, worker3 := RunsAndRecords(s0, acts2, sh2, worker1, Pass(0, 7, {}, 1, []));
    assert sh3.cache == map[7 := {Email}];
    var acts4, sh4, worker4 := TheRestFails(s0, acts3, sh3, worker3);
    var sh: Shared;
    var worker: Worker;
    acts, sh, worker := SecondPassReruns(s0, acts4, sh4);
    assert acts[10] == acts2[10];
  }
}
