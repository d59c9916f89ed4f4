/**
 The worker process and the redrive as the programs they are: each remote call is one action
 of the order-events pipeline, and between any two of them every other worker, operator,
 publisher and fault may act.
 */
module EventWorker {
  import opened Outcomes
  import opened EventSystem
  import EventSafety
  import EventDuplicates

  ghost predicate ByWorker(a: Action, w: WorkerId) {
    (a.Poll? || a.Work? || a.Crash?) && a.w == w
  }

  ghost predicate ByOperator(a: Action, o: OperatorId) {
    (a.Collect? || a.Resend? || a.Remove? || a.OperatorCrash?) && a.o == o
  }

  lemma FeasiblePrefix(s0: Sys, acts: seq<Action>, n: nat)
    requires Feasible(s0, acts) && n <= |acts|
    ensures Feasible(s0, acts[..n])
    decreases |acts|
  {
    if n < |acts| {
      assert acts[..|acts| - 1][..n] == acts[..n];
      FeasiblePrefix(s0, acts[..|acts| - 1], n);
    } else {
      assert acts[..n] == acts;
    }
  }

  /** What others do leaves a worker where it is. */
  lemma {:induction false} OthersLeaveWorker(s0: Sys, acts: seq<Action>, n: nat, w: WorkerId)
    requires Feasible(s0, acts) && n <= |acts| && forall i :: n <= i < |acts| ==> !ByWorker(acts[i], w)
    ensures Feasible(s0, acts[..n])
    ensures w in Exec(s0, acts[..n]).workers ==>
              w in Exec(s0, acts).workers && Exec(s0, acts).workers[w] == Exec(s0, acts[..n]).workers[w]
    decreases |acts|
  {
    FeasiblePrefix(s0, acts, n);
    if n == |acts| {
      assert acts[..n] == acts;
    } else {
      assert acts[..|acts| - 1][..n] == acts[..n];
      OthersLeaveWorker(s0, acts[..|acts| - 1], n, w);
      assert !ByWorker(acts[|acts| - 1], w);
    }
  }

  /** Rows are never taken back. */
  lemma StepKeepsRows(s: Sys, a: Action)
    requires Enabled(s, a)
    ensures s.shared.rows <= SharedAfter(s, a).rows
  {
    if a.Work? {
      EventSafety.EffectRecords(s.shared, s.workers[a.w], a.step);
    }
  }

  lemma {:induction false} RowsStay(s0: Sys, acts: seq<Action>, n: nat)
    requires Feasible(s0, acts) && n <= |acts|
    ensures Feasible(s0, acts[..n]) && Exec(s0, acts[..n]).shared.rows <= Exec(s0, acts).shared.rows
    decreases |acts|
  {
    FeasiblePrefix(s0, acts, n);
    if n == |acts| {
      assert acts[..n] == acts;
    } else {
      assert acts[..|acts| - 1][..n] == acts[..n];
      RowsStay(s0, acts[..|acts| - 1], n);
      StepKeepsRows(Exec(s0, acts[..|acts| - 1]), acts[|acts| - 1]);
    }
  }

  /** The steps that the worker takes from action n on, and what they are not. */
  ghost predicate NoDelete(acts: seq<Action>, n: nat, w: WorkerId) {
    forall i :: n <= i < |acts| && acts[i].Work? && acts[i].w == w ==> !acts[i].step.Delete?
  }

  /** The receive of a poll that handed n messages to the worker. */
  ghost predicate Polls(a: Action, w: WorkerId, n: nat) {
    a.Poll? && a.w == w && |a.msgs| == n
  }

  ghost predicate DropsAfterPark(acts: seq<Action>, n: nat, w: WorkerId) {
    forall i :: n <= i < |acts| && acts[i].Work? && acts[i].w == w && acts[i].step.Drop? ==>
      exists j :: n <= j < i && acts[j] == Work(w, Park(true, true))
  }

  /** What others do leaves an operator where it is. */
  lemma {:induction false} OthersLeaveOperator(s0: Sys, acts: seq<Action>, n: nat, o: OperatorId)
    requires Feasible(s0, acts) && n <= |acts| && forall i :: n <= i < |acts| ==> !ByOperator(acts[i], o)
    ensures Feasible(s0, acts[..n])
    ensures o in Exec(s0, acts[..n]).operators ==>
              o in Exec(s0, acts).operators && Exec(s0, acts).operators[o] == Exec(s0, acts[..n]).operators[o]
    decreases |acts|
  {
    FeasiblePrefix(s0, acts, n);
    if n == |acts| {
      assert acts[..n] == acts;
    } else {
      assert acts[..|acts| - 1][..n] == acts[..n];
      OthersLeaveOperator(s0, acts[..|acts| - 1], n, o);
      assert !ByOperator(acts[|acts| - 1], o);
    }
  }

  /** Redrive bookkeeping: deletions the DLQ confirmed to this operator, and sends that failed. */
  ghost function Removals(acts: seq<Action>, o: OperatorId): nat {
    if acts == [] then 0
    else Removals(acts[..|acts| - 1], o) + if acts[|acts| - 1] == Remove(o, true, true) then 1 else 0
  }

  ghost function FailedSends(acts: seq<Action>, o: OperatorId): nat {
    if acts == [] then 0
    else FailedSends(acts[..|acts| - 1], o)
         + if acts[|acts| - 1].Resend? && acts[|acts| - 1].o == o && !acts[|acts| - 1].acked then 1 else 0
  }

  lemma OneMoreCounted(acts: seq<Action>, a: Action, o: OperatorId)
    ensures Removals(acts + [a], o) == Removals(acts, o) + if a == Remove(o, true, true) then 1 else 0
    ensures FailedSends(acts + [a], o) == FailedSends(acts, o) + if a.Resend? && a.o == o && !a.acked then 1 else 0
  {
    assert (acts + [a])[..|acts + [a]| - 1] == acts;
  }

  lemma {:induction false} OthersDoNotCount(acts: seq<Action>, n: nat, o: OperatorId)
    requires n <= |acts| && forall i :: n <= i < |acts| ==> !ByOperator(acts[i], o)
    ensures Removals(acts, o) == Removals(acts[..n], o) && FailedSends(acts, o) == FailedSends(acts[..n], o)
    decreases |acts|
  {
    if n == |acts| {
      assert acts[..n] == acts;
    } else {
      assert acts[..|acts| - 1][..n] == acts[..n];
      OthersDoNotCount(acts[..|acts| - 1], n, o);
    }
  }

  /** The one step of an operator after which a removal is due is an acknowledged send. */
  lemma SentByResend(s: Sys, a: Action, o: OperatorId)
    requires Enabled(s, a) && ByOperator(a, o) && o in OperatorsAfter(s, a) && OperatorsAfter(s, a)[o].sent
    ensures a == Resend(o, true, true)
    ensures OperatorsAfter(s, a)[o].batch != []
    ensures s.shared.nextId in SharedAfter(s, a).main
            && SharedAfter(s, a).main[s.shared.nextId].body == OperatorsAfter(s, a)[o].batch[0].body
  {
  }

  lemma OtherStepLeavesOperator(s: Sys, a: Action, o: OperatorId)
    requires Enabled(s, a) && !ByOperator(a, o)
    ensures o in OperatorsAfter(s, a) <==> o in s.operators
    ensures o in s.operators ==> OperatorsAfter(s, a)[o] == s.operators[o]
  {
  }

  /** The first message in the operator's hands has a copy on the main queue. */
  ghost predicate HasFirst(sh: Shared, op: Operator) {
    op.batch != [] && exists m :: m in sh.main && sh.main[m].body == op.batch[0].body
  }

  lemma {:induction false} ResentFirst(s0: Sys, acts: seq<Action>, o: OperatorId) returns (j: nat)
    requires Feasible(s0, acts) && (o in s0.operators ==> !s0.operators[o].sent)
    requires o in Exec(s0, acts).operators && Exec(s0, acts).operators[o].sent
    ensures j < |acts| && acts[j] == Resend(o, true, true) && Feasible(s0, acts[..j + 1])
    ensures HasFirst(Exec(s0, acts[..j + 1]).shared, Exec(s0, acts).operators[o])
    ensures forall i :: j < i < |acts| ==> !ByOperator(acts[i], o)
    decreases |acts|
  {
    assert acts != [];
    var before, last := acts[..|acts| - 1], acts[|acts| - 1];
    if ByOperator(last, o) {
      j := |acts| - 1;
      assert acts[..j + 1] == acts;
      SentByResend(Exec(s0, before), last, o);
      assert HasFirst(Exec(s0, acts).shared, Exec(s0, acts).operators[o]);
    } else {
      OtherStepLeavesOperator(Exec(s0, before), last, o);
      j := ResentFirst(s0, before, o);
      assert before[..j + 1] == acts[..j + 1];
    }
  }

  /** Send first, delete after: whenever an operator is about to delete a message from the
      DLQ, that operator's latest action was the acknowledged send of the same message, which
      put its body on the main queue. */
  lemma RemovedOnlyAfterResent(workers: set<WorkerId>, operators: set<OperatorId>, acts: seq<Action>, o: OperatorId)
      returns (j: nat)
    requires Feasible(Init(workers, operators), acts)
    requires o in Exec(Init(workers, operators), acts).operators && Exec(Init(workers, operators), acts).operators[o].sent
    ensures j < |acts| && acts[j] == Resend(o, true, true) && Feasible(Init(workers, operators), acts[..j + 1])
    ensures HasFirst(Exec(Init(workers, operators), acts[..j + 1]).shared, Exec(Init(workers, operators), acts).operators[o])
    ensures forall i :: j < i < |acts| ==> !ByOperator(acts[i], o)
  {
    j := ResentFirst(Init(workers, operators), acts, o);
  }

  class Cluster {
    ghost const workerIds: set<WorkerId>
    ghost const operatorIds: set<OperatorId>
    ghost var trace: seq<Action>
    var sys: Sys

    /** The state is the one the recorded run leads to. */
    ghost predicate Valid()
      reads this
    {
      Feasible(Init(workerIds, operatorIds), trace) && sys == Exec(Init(workerIds, operatorIds), trace)
    }

    method Do(a: Action)
      requires Valid() && Enabled(sys, a)
      modifies this
      ensures Valid() && trace == old(trace) + [a] && sys == Apply(old(sys), a)
    {
      trace := trace + [a];
      sys := Apply(sys, a);
      assert trace[..|trace| - 1] == old(trace);
    }

    /** Everybody else may take any number of steps.  The body takes none; callers only know
        the contract, which allows all of them. */
    method InterfereWith(w: WorkerId)
      requires Valid()
      modifies this
      ensures Valid() && old(trace) <= trace
      ensures forall i :: |old(trace)| <= i < |trace| ==> !ByWorker(trace[i], w)
    {
    }

    method InterfereWithOperator(o: OperatorId)
      requires Valid()
      modifies this
      ensures Valid() && old(trace) <= trace
      ensures forall i :: |old(trace)| <= i < |trace| ==> !ByOperator(trace[i], o)
    {
    }

    /** The worker's next step, after any interference. */
    method Advance(w: WorkerId)
      requires Valid() && w in sys.workers
      modifies this
      ensures Valid() && old(trace) <= trace
      ensures w in sys.workers && sys.workers[w] == old(sys.workers[w])
      ensures old(sys.shared.rows) <= sys.shared.rows
      ensures forall i :: |old(trace)| <= i < |trace| ==> !ByWorker(trace[i], w)
    {
      ghost var n := |trace|;
      InterfereWith(w);
      OthersLeaveWorker(Init(workerIds, operatorIds), trace, n, w);
      RowsStay(Init(workerIds, operatorIds), trace, n);
      assert trace[..n] == old(trace);
    }

    method AdvanceOperator(o: OperatorId)
      requires Valid() && o in sys.operators
      modifies this
      ensures Valid() && old(trace) <= trace
      ensures o in sys.operators && sys.operators[o] == old(sys.operators[o])
      ensures Removals(trace, o) == Removals(old(trace), o) && FailedSends(trace, o) == FailedSends(old(trace), o)
    {
      ghost var n := |trace|;
      InterfereWithOperator(o);
      OthersLeaveOperator(Init(workerIds, operatorIds), trace, n, o);
      OthersDoNotCount(trace, n, o);
      assert trace[..n] == old(trace);
    }

    /** completed_handlers: the cached set if it can be read, otherwise the rows.  Whatever comes
        back names only handlers that have their row. */
    method CompletedHandlers(w: WorkerId, m: MsgId, e: EventId) returns (r: Result<set<Handler>>)
      requires Valid() && w in sys.workers && sys.workers[w].phase == Reading(m, e)
      modifies this
      ensures Valid() && old(trace) <= trace && w in sys.workers
      ensures sys.workers[w] ==
              old(sys.workers[w]).(phase := if r.Ok? then Looping(Pass(m, e, r.value, 0, [])) else Ready)
      ensures r.Ok? ==> forall h :: h in r.value ==> (e, h) in sys.shared.rows
    {
      Advance(w);
      var redisFault: bool := *;
      var cached := if !redisFault && e in sys.shared.cache then Some(sys.shared.cache[e]) else None;
      Do(Work(w, ReadDone(redisFault)));
      if cached.Some? {
        WorkerFacts(w);
        return Ok(cached.value);
      }
      r := QueryRows(w, m, e);
    }

    /** The second half of completed_handlers: ask the database, and refresh the cached set
        unless there is nothing to put there.  The answer has every row there was at the call and
        none that is not there at the return. */
    method QueryRows(w: WorkerId, m: MsgId, e: EventId) returns (r: Result<set<Handler>>)
      requires Valid() && w in sys.workers && sys.workers[w].phase == Querying(m, e)
      modifies this
      ensures Valid() && old(trace) <= trace && w in sys.workers
      ensures sys.workers[w] ==
              old(sys.workers[w]).(phase := if r.Ok? then Looping(Pass(m, e, r.value, 0, [])) else Ready)
      ensures r.Ok? ==> forall h :: (e, h) in old(sys.shared.rows) ==> h in r.value
      ensures r.Ok? ==> forall h :: h in r.value ==> (e, h) in sys.shared.rows
    {
      Advance(w);
      var dbFault: bool := *;
      var handlers := RowsOf(sys.shared, e);
      EventDuplicates.RowsOfMeaning(sys.shared, e);
      Do(Work(w, Query(dbFault)));
      if dbFault {
        return Raised;
      }
      if handlers != {} {
        SeedDoneSet(w, m, e, handlers);
      }
      WorkerFacts(w);
      return Ok(handlers);
    }

    /** _refresh_cache after a query. */
    method SeedDoneSet(w: WorkerId, m: MsgId, e: EventId, handlers: set<Handler>)
      requires Valid() && w in sys.workers && sys.workers[w].phase == Seeding(m, e, handlers)
      modifies this
      ensures Valid() && old(trace) <= trace && w in sys.workers
      ensures sys.workers[w] == old(sys.workers[w]).(phase := Looping(Pass(m, e, handlers, 0, [])))
    {
      Advance(w);
      var applied: bool := *;
      Do(Work(w, Seed(applied)));
    }

    /** What EventSafety proves of a worker in every run, for this one. */
    lemma WorkerFacts(w: WorkerId)
      requires Valid() && w in sys.workers
      ensures EventSafety.WorkerOk(sys.shared, sys.workers[w])
      ensures EventSafety.CacheBehindRows(sys.shared)
    {
      EventSafety.RunInv(workerIds, operatorIds, trace);
    }

    /** The second half of record_handler_done, called with the row in place: bring the cached set
        up to date.  If the write gets through, the set names the handler, and still names nothing
        without a row. */
    method RefreshDoneSet(w: WorkerId, p: Pass) returns (ghost stored: bool)
      requires Valid() && w in sys.workers && sys.workers[w].phase == Fetching(p) && p.next < |HANDLERS|
      requires Key(p) in sys.shared.rows
      modifies this
      ensures Valid() && old(trace) <= trace && w in sys.workers
      ensures sys.workers[w] == old(sys.workers[w]).(phase := EventSystem.Advance(p))
      ensures Key(p) in sys.shared.rows
      ensures stored ==> p.event in sys.shared.cache && HANDLERS[p.next] in sys.shared.cache[p.event]
                         && forall h :: h in sys.shared.cache[p.event] ==> (p.event, h) in sys.shared.rows
    {
      Advance(w);
      var redisFault: bool := *;
      var cached := if !redisFault && p.event in sys.shared.cache then sys.shared.cache[p.event] else {};
      var handlers := cached + {HANDLERS[p.next]};
      Do(Work(w, Fetch(redisFault)));
      assert sys.workers[w].phase == Storing(p, handlers) && Key(p) in sys.shared.rows;
      stored := StoreDoneSet(w, p, handlers);
    }

    method StoreDoneSet(w: WorkerId, p: Pass, handlers: set<Handler>) returns (ghost stored: bool)
      requires Valid() && w in sys.workers && sys.workers[w].phase == Storing(p, handlers)
      modifies this
      ensures Valid() && old(trace) <= trace && w in sys.workers
      ensures sys.workers[w] == old(sys.workers[w]).(phase := EventSystem.Advance(p))
      ensures old(sys.shared.rows) <= sys.shared.rows
      ensures stored ==> p.event in sys.shared.cache && sys.shared.cache[p.event] == handlers
                         && EventSafety.Within(sys.shared, p.event, handlers)
    {
      Advance(w);
      var applied: bool := *;
      stored := applied;
      Do(Work(w, Store(applied)));
      WorkerFacts(w);
    }

    /** record_handler_done: the row first, the cached set after it.  If it returns, the row is
        there, whoever inserted it. */
    method RecordHandlerDone(w: WorkerId, p: Pass) returns (r: Result<()>)
      requires Valid() && w in sys.workers && sys.workers[w].phase == Recording(p) && p.next < |HANDLERS|
      modifies this
      ensures Valid() && old(trace) <= trace && w in sys.workers
      ensures sys.workers[w] ==
              old(sys.workers[w]).(phase := if r.Ok? then EventSystem.Advance(p) else Ready)
      ensures r.Ok? ==> Key(p) in sys.shared.rows
    {
      Advance(w);
      var dbFault: bool, committed: bool := *, *;
      Do(Work(w, Commit(dbFault, committed)));
      if dbFault {
        return Raised;
      }
      assert Key(p) in sys.shared.rows;
      var _ := RefreshDoneSet(w, p);
      return Ok(());
    }

    /** One turn of process_event's loop: skip the handler, or call it through its retry ladder
        and record it.  `failed` says that it is left outstanding; a handler that is not has its
        row. */
    method RunHandler(w: WorkerId, p: Pass) returns (r: Result<()>, failed: bool)
      requires Valid() && w in sys.workers && sys.workers[w].phase == Looping(p) && p.next < |HANDLERS|
      modifies this
      ensures Valid() && old(trace) <= trace && w in sys.workers
      ensures failed ==> HANDLERS[p.next] !in p.done && r.Ok?
      ensures r.Ok? && !failed ==> Key(p) in sys.shared.rows
      ensures sys.workers[w] == old(sys.workers[w]).(phase :=
                if r.Raised? then Ready
                else EventSystem.Advance(p.(outstanding := p.outstanding + if failed then [HANDLERS[p.next]] else [])))
    {
      r, failed := Ok(()), false;
      assert p.(outstanding := p.outstanding + []) == p;
      Advance(w);
      if HANDLERS[p.next] in p.done {
        WorkerFacts(w);
        assert Key(p) in sys.shared.rows;
        Do(Work(w, Skip));
        return;
      }
      var returned: bool := *;   // the retry ladder around one handler returned, or was exhausted
      Do(Work(w, Call(returned)));
      if returned {
        r := RecordHandlerDone(w, p);
      } else {
        failed := true;
      }
    }

    /** process_event: run every handler that is not yet done, each on its own. */
    method ProcessEvent(w: WorkerId, m: MsgId, e: EventId)
        returns (r: Result<seq<Handler>>, ghost done: set<Handler>)
      requires Valid() && w in sys.workers && sys.workers[w].phase == Reading(m, e)
      modifies this
      ensures Valid() && old(trace) <= trace && w in sys.workers
      ensures r.Ok? ==> sys.workers[w] == old(sys.workers[w]).(phase := Looping(Pass(m, e, done, |HANDLERS|, r.value)))
      ensures r.Raised? ==> sys.workers[w] == old(sys.workers[w]).(phase := Ready)
      ensures r.Ok? ==> forall h :: h in HANDLERS && h !in r.value ==> (e, h) in sys.shared.rows
      ensures r.Ok? ==> forall h :: h in r.value ==> h !in done
    {
      var alreadyDone := CompletedHandlers(w, m, e);
      if alreadyDone.Raised? {
        return Raised, {};
      }
      done := alreadyDone.value;
      var outstanding: seq<Handler> := [];
      for i := 0 to |HANDLERS|
        invariant Valid() && old(trace) <= trace && w in sys.workers
        invariant sys.workers[w] == old(sys.workers[w]).(phase := Looping(Pass(m, e, done, i, outstanding)))
        invariant done == alreadyDone.value
        invariant forall h :: h in outstanding ==> h !in done
      {
        var ran, failed := RunHandler(w, Pass(m, e, alreadyDone.value, i, outstanding));
        if ran.Raised? {
          return Raised, done;
        }
        outstanding := outstanding + if failed then [HANDLERS[i]] else [];
      }
      WorkerFacts(w);
      return Ok(outstanding), done;
    }

    /** _handle_message for the first message of the batch.  An exception anywhere leaves the
        message to be delivered again; `returned` says that none was raised.  A poison message is
        then gone, and so is one whose handlers have all been dealt with. */
    method HandleMessage(w: WorkerId) returns (returned: bool, ghost outstanding: Option<seq<Handler>>)
      requires Valid() && w in sys.workers && sys.workers[w].phase == Ready && sys.workers[w].batch != []
      modifies this
      ensures Valid() && old(trace) <= trace && w in sys.workers
      ensures sys.workers[w] == Worker(old(sys.workers[w].batch)[1..], Ready)
      ensures var message := old(sys.workers[w].batch)[0];
              && (message.body.Unparseable? && returned ==> message.id !in sys.shared.main)
              && (message.body.Parsed? && outstanding == Some([]) ==>
                    AllRecorded(sys.shared, message.body.event) && (returned ==> message.id !in sys.shared.main))
    {
      var message := sys.workers[w].batch[0];
      Do(Work(w, Take));
      if message.body.Unparseable? {
        returned := HandlePoison(w, message);
        outstanding := None;
      } else {
        returned, outstanding := HandleEvent(w, message.id, message.body.event);
      }
    }

    /** A body that cannot parse: to the DLQ first, off the main queue only after that.  The
        worker deletes it only once its park was confirmed, and with no confirmation it stops. */
    method HandlePoison(w: WorkerId, message: Delivery) returns (returned: bool)
      requires Valid() && w in sys.workers && sys.workers[w].phase == Parking(message.id, message.body)
      modifies this
      ensures Valid() && old(trace) <= trace && w in sys.workers
      ensures sys.workers[w] == old(sys.workers[w]).(phase := Ready)
      ensures DropsAfterPark(trace, |old(trace)|, w)
      ensures returned ==> exists j :: |old(trace)| <= j < |trace| && trace[j] == Work(w, Park(true, true))
      ensures returned ==> message.id !in sys.shared.main
    {
      Advance(w);
      var parked: bool, acked: bool := *, *;
      acked := acked && parked;
      ghost var j := |trace|;
      Do(Work(w, Park(parked, acked)));
      if !acked {
        return false;
      }
      assert trace[j] == Work(w, Park(true, true));
      returned := DropParked(w, message);
      assert trace[j] == Work(w, Park(true, true));
    }

    method DropParked(w: WorkerId, message: Delivery) returns (returned: bool)
      requires Valid() && w in sys.workers && sys.workers[w].phase == Parked(message.id, message.body)
      modifies this
      ensures Valid() && old(trace) <= trace && w in sys.workers
      ensures sys.workers[w] == old(sys.workers[w]).(phase := Ready)
      ensures returned ==> message.id !in sys.shared.main
    {
      Advance(w);
      var deleted: bool, acked: bool := *, *;
      acked := acked && deleted;
      Do(Work(w, Drop(deleted, acked)));
      return acked;
    }

    /** acquire_lease: an unreachable Redis grants the claim. */
    method AcquireLease(w: WorkerId, m: MsgId, e: EventId) returns (claimed: bool, ghost unreachable: bool)
      requires Valid() && w in sys.workers && sys.workers[w].phase == Claiming(m, e)
      modifies this
      ensures Valid() && old(trace) <= trace && w in sys.workers
      ensures sys.workers[w] == old(sys.workers[w]).(phase := if claimed then Reading(m, e) else Ready)
      ensures !claimed ==> e in sys.shared.leases
      ensures claimed ==> e in sys.shared.leases || unreachable
      ensures unreachable ==> claimed
    {
      Advance(w);
      var redisFault: bool, applied: bool := *, *;
      unreachable := redisFault;
      claimed := redisFault || e !in sys.shared.leases;
      Do(Work(w, Claim(redisFault, applied)));
    }

    /** delete_message, reached only when every handler has its row; once it has returned the
        message is off the queue. */
    method DeleteMessage(w: WorkerId, ghost p: Pass) returns (returned: bool)
      requires Valid() && w in sys.workers && sys.workers[w].phase == Deleting(p)
      modifies this
      ensures Valid() && old(trace) <= trace && w in sys.workers
      ensures sys.workers[w] == old(sys.workers[w]).(phase := Ready)
      ensures AllRecorded(sys.shared, p.event)
      ensures returned ==> p.msg !in sys.shared.main
    {
      Advance(w);
      WorkerFacts(w);
      assert AllRecorded(sys.shared, p.event);
      var deleted: bool, acked: bool := *, *;
      acked := acked && deleted;
      Do(Work(w, Delete(deleted, acked)));
      return acked;
    }

    /** What follows process_event: give the lease up while handlers are outstanding and leave the
        message where it is, otherwise delete the message.  `released` says that the release got
        through. */
    method SettleMessage(w: WorkerId, ghost p: Pass, outstanding: seq<Handler>)
        returns (returned: bool, ghost released: bool)
      requires Valid() && w in sys.workers && sys.workers[w].phase == Looping(p) && p.next == |HANDLERS|
      requires p.outstanding == outstanding
      modifies this
      ensures Valid() && old(trace) <= trace && w in sys.workers
      ensures sys.workers[w] == old(sys.workers[w]).(phase := Ready)
      ensures outstanding == [] ==> AllRecorded(sys.shared, p.event) && (returned ==> p.msg !in sys.shared.main)
      ensures outstanding != [] ==> returned && NoDelete(trace, |old(trace)|, w)
      ensures outstanding != [] && released ==> p.event !in sys.shared.leases
    {
      Do(Work(w, Finish));
      if outstanding == [] {
        returned := DeleteMessage(w, p);
        return returned, false;
      }
      Advance(w);
      var reached: bool := *;
      Do(Work(w, Release(reached)));
      return true, reached;
    }

    /** A body that parses: skipped while somebody else has the lease, run otherwise.
        `outstanding` is what process_event returned, if it did; with nothing outstanding a
        normal return means that the event is done and its message gone. */
    method HandleEvent(w: WorkerId, m: MsgId, e: EventId) returns (returned: bool, ghost outstanding: Option<seq<Handler>>)
      requires Valid() && w in sys.workers && sys.workers[w].phase == Claiming(m, e)
      modifies this
      ensures Valid() && old(trace) <= trace && w in sys.workers
      ensures sys.workers[w] == old(sys.workers[w]).(phase := Ready)
      ensures outstanding == Some([]) ==> AllRecorded(sys.shared, e) && (returned ==> m !in sys.shared.main)
    {
      outstanding := None;
      var claimed;
      ghost var unreachable;
      claimed, unreachable := AcquireLease(w, m, e);
      if !claimed {
        return true, outstanding;
      }
      var outcome, done := ProcessEvent(w, m, e);
      if outcome.Raised? {
        return false, outstanding;
      }
      outstanding := Some(outcome.value);
      ghost var pass := Pass(m, e, done, |HANDLERS|, outcome.value);
      ghost var released;
      returned, released := SettleMessage(w, pass, outcome.value);
    }

    /** poll_once: receive one batch and handle each message; whatever one of them raises, the
        others are handled all the same. */
    method PollOnce(w: WorkerId, maxMessages: nat) returns (received: nat)
      requires Valid() && w in sys.workers && sys.workers[w] == Worker([], Ready) && maxMessages <= BATCH
      modifies this
      ensures Valid() && old(trace) <= trace && w in sys.workers
      ensures sys.workers[w] == Worker([], Ready) && received <= maxMessages
      ensures exists i :: |old(trace)| <= i < |trace| && Polls(trace[i], w, received)
    {
      received := Receive(w, maxMessages);
      ghost var i :| |old(trace)| <= i < |trace| && Polls(trace[i], w, received);
      for handled := 0 to received
        invariant Valid() && old(trace) <= trace && w in sys.workers
        invariant sys.workers[w].phase == Ready && |sys.workers[w].batch| == received - handled
        invariant |old(trace)| <= i < |trace| && Polls(trace[i], w, received)
      {
        Advance(w);
        var _, _ := HandleMessage(w);
      }
      assert sys.workers[w].batch == [];
    }

    /** receive_message; nothing, if the call fails. */
    method Receive(w: WorkerId, maxMessages: nat) returns (received: nat)
      requires Valid() && w in sys.workers && sys.workers[w] == Worker([], Ready) && maxMessages <= BATCH
      modifies this
      ensures Valid() && old(trace) <= trace && w in sys.workers
      ensures sys.workers[w].phase == Ready && |sys.workers[w].batch| == received <= maxMessages
      ensures exists i :: |old(trace)| <= i < |trace| && Polls(trace[i], w, received)
    {
      Advance(w);
      var msgs: seq<MsgId> := *;      // what SQS chooses to deliver
      if !(|msgs| <= maxMessages && Distinct(msgs)
           && forall m :: m in msgs ==> m in sys.shared.main && sys.shared.main[m].receives < MAX_RECEIVES) {
        msgs := [];
      }
      ghost var i := |trace|;
      Do(Poll(w, msgs));
      received := |msgs|;
      assert Polls(trace[i], w, received);
    }

    /** redrive: move up to `maxMessages` messages from the DLQ back to the main queue.  On a
        normal return `moved` is what the DLQ confirmed as deleted and `failed` what could not
        be sent; it never handles more than it was asked to. */
    method Redrive(o: OperatorId, maxMessages: int) returns (r: Result<(nat, nat)>)
      requires Valid() && o in sys.operators && sys.operators[o] == Operator([], false)
      modifies this
      ensures Valid() && old(trace) <= trace && o in sys.operators && sys.operators[o] == Operator([], false)
      ensures r.Ok? ==> r.value.0 == 0 == r.value.1 || r.value.0 + r.value.1 <= maxMessages
      ensures r.Ok? ==> r.value.0 + r.value.1 >= maxMessages
                        || exists i :: |old(trace)| <= i < |trace| && trace[i] == Collect(o, [])
      ensures r.Ok? ==> Removals(trace, o) == Removals(old(trace), o) + r.value.0
      ensures r.Ok? ==> FailedSends(trace, o) == FailedSends(old(trace), o) + r.value.1
      ensures Removals(trace, o) + FailedSends(trace, o)
              <= Removals(old(trace), o) + FailedSends(old(trace), o) + if maxMessages < 0 then 0 else maxMessages
    {
      var moved: nat, failed: nat := 0, 0;
      while moved + failed < maxMessages
        invariant Valid() && old(trace) <= trace
        invariant o in sys.operators && sys.operators[o] == Operator([], false)
        invariant moved == 0 == failed || moved + failed <= maxMessages
        invariant Removals(trace, o) == Removals(old(trace), o) + moved
        invariant FailedSends(trace, o) == FailedSends(old(trace), o) + failed
        decreases maxMessages - moved - failed
      {
        var limit := if 10 < maxMessages - moved - failed then 10 else maxMessages - moved - failed;
        var messages := ReceiveFromDlq(o, limit);
        if messages.Raised? {
          return Raised;
        }
        if messages.value == 0 {
          break;
        }
        var m, f, all := MoveBatch(o, messages.value);
        moved, failed := moved + m, failed + f;
        if !all {
          return Raised;
        }
      }
      return Ok((moved, failed));
    }

    /** One receive on the DLQ: it raises, or it hands over at most `limit` of its messages. */
    method ReceiveFromDlq(o: OperatorId, limit: nat) returns (r: Result<nat>)
      requires Valid() && o in sys.operators && sys.operators[o] == Operator([], false) && limit <= BATCH
      modifies this
      ensures Valid() && old(trace) <= trace && o in sys.operators
      ensures r.Raised? ==> sys.operators[o] == Operator([], false)
      ensures r.Ok? ==> |sys.operators[o].batch| == r.value <= limit && !sys.operators[o].sent
      ensures r == Ok(0) ==> exists i :: |old(trace)| <= i < |trace| && trace[i] == Collect(o, [])
      ensures Removals(trace, o) == Removals(old(trace), o) && FailedSends(trace, o) == FailedSends(old(trace), o)
    {
      AdvanceOperator(o);
      var raised: bool := *;
      if raised {
        return Raised;
      }
      var msgs: seq<MsgId> := *;
      if !(|msgs| <= limit && Distinct(msgs) && forall m :: m in msgs ==> m in sys.shared.dlq) {
        msgs := [];
      }
      OneMoreCounted(trace, Collect(o, msgs), o);
      ghost var i := |trace|;
      Do(Collect(o, msgs));
      assert trace[i] == Collect(o, msgs);
      return Ok(|msgs|);
    }

    /** The for loop of redrive over one batch; `all` is false if a delete raised. */
    method MoveBatch(o: OperatorId, n: nat) returns (moved: nat, failed: nat, all: bool)
      requires Valid() && o in sys.operators && |sys.operators[o].batch| == n && !sys.operators[o].sent
      modifies this
      ensures Valid() && old(trace) <= trace && o in sys.operators && sys.operators[o] == Operator([], false)
      ensures moved + failed <= n && (all ==> moved + failed == n)
      ensures Removals(trace, o) == Removals(old(trace), o) + moved
      ensures FailedSends(trace, o) == FailedSends(old(trace), o) + failed
    {
      moved, failed, all := 0, 0, true;
      for i := 0 to n
        invariant Valid() && old(trace) <= trace && o in sys.operators
        invariant |sys.operators[o].batch| == n - i && !sys.operators[o].sent
        invariant moved + failed == i && all
        invariant Removals(trace, o) == Removals(old(trace), o) + moved
        invariant FailedSends(trace, o) == FailedSends(old(trace), o) + failed
      {
        var sent := SendBack(o);
        if !sent {
          failed := failed + 1;
          continue;
        }
        var deleted := DeleteSent(o);
        if !deleted {
          all := false;
          return;
        }
        moved := moved + 1;
      }
      assert sys.operators[o].batch == [];
    }

    /** One send of the loop: the first message in hand goes to the main queue, or is given up. */
    method SendBack(o: OperatorId) returns (sent: bool)
      requires Valid() && o in sys.operators && sys.operators[o].batch != [] && !sys.operators[o].sent
      modifies this
      ensures Valid() && old(trace) <= trace && o in sys.operators
      ensures sys.operators[o] == if sent then old(sys.operators[o]).(sent := true)
                                  else Operator(old(sys.operators[o].batch)[1..], false)
      ensures Removals(trace, o) == Removals(old(trace), o)
      ensures FailedSends(trace, o) == FailedSends(old(trace), o) + if sent then 0 else 1
    {
      AdvanceOperator(o);
      var applied: bool, acked: bool := *, *;
      acked := acked && applied;
      OneMoreCounted(trace, Resend(o, applied, acked), o);
      Do(Resend(o, applied, acked));
      return acked;
    }

    /** One delete of the loop: the message just sent leaves the DLQ, or the redrive stops. */
    method DeleteSent(o: OperatorId) returns (deleted: bool)
      requires Valid() && o in sys.operators && sys.operators[o].batch != [] && sys.operators[o].sent
      modifies this
      ensures Valid() && old(trace) <= trace && o in sys.operators
      ensures sys.operators[o] == Operator(if deleted then old(sys.operators[o].batch)[1..] else [], false)
      ensures Removals(trace, o) == Removals(old(trace), o) + if deleted then 1 else 0
      ensures FailedSends(trace, o) == FailedSends(old(trace), o)
      ensures deleted ==> old(sys.operators[o].batch)[0].id !in sys.shared.dlq
    {
      AdvanceOperator(o);
      var applied: bool, acked: bool := *, *;
      acked := acked && applied;
      OneMoreCounted(trace, Remove(o, applied, acked), o);
      Do(Remove(o, applied, acked));
      return acked;
    }
  }
}
