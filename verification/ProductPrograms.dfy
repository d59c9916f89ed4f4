/**
 The product service's cached read and its update, one action of the cache system at a time,
 and the database read they rest on: a bounded retry, then the primary.
 */
module ProductPrograms {
  import opened Outcomes
  import opened ProductCache
  import Retry

  // ---- reading a database that may be failing over ----

  /** What one query comes to.  A database error is an OperationalError or another DBAPIError,
      says whether its connection was invalidated, and has a message, here in lower case. */
  datatype Query<+T> =
    | Rows(value: T)
    | DbError(operational: bool, invalidated: bool, message: string)
    | OtherError

  predicate Contains(text: string, part: string) {
    part <= text || (text != [] && Contains(text[1..], part))
  }

  ghost predicate Occurs(text: string, part: string) {
    exists i :: 0 <= i <= |text| && part <= text[i..]
  }

  /** The part occurs in the text, somewhere. */
  lemma {:induction false} ContainsMeaning(text: string, part: string)
    ensures Contains(text, part) <==> Occurs(text, part)
    decreases |text|
  {
    if part <= text {
      assert text[0..] == text;
    } else if text != [] {
      ContainsMeaning(text[1..], part);
      if i :| 0 <= i <= |text[1..]| && part <= text[1..][i..] {
        assert text[1..][i..] == text[i + 1..];
      }
      if i :| 0 <= i <= |text| && part <= text[i..] {
        assert i != 0 by {
          assert text[0..] == text;
        }
        assert text[1..][i - 1..] == text[i..];
      }
    } else {
      assert text[0..] == text;
    }
  }

  const Needles: seq<string> :=
    ["connection", "could not connect", "server closed", "timeout", "refused", "getaddrinfo", "name or service not known",
     "network", "ssl"]

  predicate MentionsConnection(message: string) {
    exists i :: 0 <= i < |Needles| && Contains(message, Needles[i])
  }

  /** with_read_retry tries again only after these. */
  function ClassifyQuery<T>(q: Query<T>): Retry.Class {
    match q
    case Rows(_) => Retry.Answer
    case DbError(operational, invalidated, _) => if operational || invalidated then Retry.Transient else Retry.Fatal
    case OtherError => Retry.Fatal
  }

  /** _is_replica_connection_error, for an exception the fallback has caught. */
  predicate ReplicaDown<T>(q: Query<T>) {
    q.DbError? && ((q.operational && q.invalidated) || MentionsConnection(q.message))
  }

  /** The failures for which the primary is asked: an invalidated connection, or any database error
      whose message speaks of the connection in one of these words. */
  ghost predicate SpeaksOfConnection(message: string) {
    || Occurs(message, "connection")
    || Occurs(message, "could not connect")
    || Occurs(message, "server closed")
    || Occurs(message, "timeout")
    || Occurs(message, "refused")
    || Occurs(message, "getaddrinfo")
    || Occurs(message, "name or service not known")
    || Occurs(message, "network")
    || Occurs(message, "ssl")
  }

  lemma ReplicaDownMeaning<T>(q: Query<T>)
    ensures ReplicaDown(q) <==>
            q.DbError? && ((q.operational && q.invalidated) || SpeaksOfConnection(q.message))
  {
    if q.DbError? {
      forall i | 0 <= i < |Needles| ensures Contains(q.message, Needles[i]) <==> Occurs(q.message, Needles[i]) {
        ContainsMeaning(q.message, Needles[i]);
      }
      NeedlesAre(q.message);
    }
  }

  lemma NeedlesAre(message: string)
    requires forall i :: 0 <= i < |Needles| ==> (Contains(message, Needles[i]) <==> Occurs(message, Needles[i]))
    ensures MentionsConnection(message) <==> SpeaksOfConnection(message)
  {
    assert Needles[0] == "connection" && Needles[1] == "could not connect" && Needles[2] == "server closed";
    assert Needles[3] == "timeout" && Needles[4] == "refused" && Needles[5] == "getaddrinfo";
    assert Needles[6] == "name or service not known" && Needles[7] == "network" && Needles[8] == "ssl";
    assert |Needles| == 9;
    if SpeaksOfConnection(message) {
      assert exists i :: 0 <= i < |Needles| && Occurs(message, Needles[i]);
    }
  }

  /** with_read_retry: max(1, attempts) queries at most, and the last one's result or exception
      whatever it is; it waits a fifth of a second longer after each failure. */
  method WithReadRetry<T(0)>(port: Retry.Port<(), Query<T>>, attempts: int)
      returns (last: Query<T>, sleeps: seq<real>, ghost calls: seq<((), Query<T>)>)
    modifies port
    ensures port.log == old(port.log) + calls
    ensures calls != [] && last == calls[|calls| - 1].1
    ensures Retry.Consumed(ClassifyQuery, if attempts < 1 then 1 else attempts, calls)
    ensures forall i :: 0 <= i < |calls| - 1 ==> calls[i].1.DbError? && (calls[i].1.operational || calls[i].1.invalidated)
    ensures |calls| < attempts ==> !(last.DbError? && (last.operational || last.invalidated))
    ensures |sleeps| == |calls| - 1 && forall i :: 0 <= i < |sleeps| ==> sleeps[i] == 0.2 * (i + 1) as real
  {
    var budget := if attempts < 1 then 1 else attempts;
    sleeps, calls := [], [];
    var attempt := 1;
    while true
      invariant 1 <= attempt <= budget && |calls| == attempt - 1 == |sleeps| && port.log == old(port.log) + calls
      invariant forall i :: 0 <= i < |calls| ==> ClassifyQuery(calls[i].1) == Retry.Transient
      invariant forall i :: 0 <= i < |sleeps| ==> sleeps[i] == 0.2 * (i + 1) as real
      decreases budget - attempt
    {
      last := port.Invoke(());
      calls := calls + [((), last)];
      if ClassifyQuery(last) != Retry.Transient || attempt >= budget {
        return;
      }
      sleeps := sleeps + [0.2 * attempt as real];
      attempt := attempt + 1;
    }
  }

  /** _read_with_primary_fallback: the primary is asked exactly when the replica's last answer
      is a connection failure, and once; everything else is what the replica said. */
  method ReadWithFallback<T(0)>(replica: Retry.Port<(), Query<T>>, primary: Retry.Port<(), Query<T>>, attempts: int)
      returns (result: Query<T>, ghost calls: seq<((), Query<T>)>)
    requires replica != primary
    modifies replica, primary
    ensures replica.log == old(replica.log) + calls && calls != []
    ensures Retry.Consumed(ClassifyQuery, if attempts < 1 then 1 else attempts, calls)
    ensures var last := calls[|calls| - 1].1;
            if ReplicaDown(last) then primary.log == old(primary.log) + [((), result)]
            else result == last && primary.log == old(primary.log)
  {
    var sleeps;
    result, sleeps, calls := WithReadRetry(replica, attempts);
    if ReplicaDown(result) {
      result := primary.Invoke(());
    }
  }

  // ---- the two operations ----

  lemma {:induction false} Split(s: Sys, a: seq<Action>, b: seq<Action>)
    requires Feasible(s, a + b)
    ensures Feasible(s, a) && Feasible(Exec(s, a), b) && Exec(s, a + b) == Exec(Exec(s, a), b)
    decreases |a|
  {
    if a == [] {
      assert a + b == b;
    } else {
      assert (a + b)[1..] == a[1..] + b;
      Split(Apply(s, a[0]), a[1..], b);
    }
  }

  predicate By(a: Action, r: ReaderId) {
    (a.Begin? || a.Get? || a.Load? || a.FailLoad? || a.Fill?) && a.r == r
  }

  /** Rows are only added, and a product that exists stays. */
  lemma {:induction false} OthersKeep(s: Sys, acts: seq<Action>, r: ReaderId)
    requires Feasible(s, acts) && forall i :: 0 <= i < |acts| ==> !By(acts[i], r)
    ensures r in Exec(s, acts).readers <==> r in s.readers
    ensures r in s.readers ==> Exec(s, acts).readers[r] == s.readers[r]
    ensures s.history <= Exec(s, acts).history && Exec(s, acts).baseTtl == s.baseTtl && s.now <= Exec(s, acts).now
    ensures forall k :: |s.history| <= k < |Exec(s, acts).history| ==> Exec(s, acts).history[k].row.Some?
    decreases |acts|
  {
    if acts != [] {
      OthersKeep(Apply(s, acts[0]), acts[1..], r);
    }
  }

  /** `_jittered_ttl`. */
  method JitteredTtl(baseTtl: int) returns (ttl: int)
    ensures -Jitter(baseTtl) <= ttl - baseTtl <= Jitter(baseTtl)
  {
    var jitter := Jitter(baseTtl);
    var drawn: int := *;
    if !(-jitter <= drawn <= jitter) {
      drawn := 0;
    }
    ttl := baseTtl + drawn;
  }

  class Catalogue {
    var sys: Sys
    ghost var start: Option<Body>
    ghost var trace: seq<Action>

    ghost predicate Valid()
      reads this
    {
      && Feasible(Init(sys.baseTtl, start), trace) && sys == Exec(Init(sys.baseTtl, start), trace)
      && Genuine(sys)
    }

    method Do(a: Action)
      requires Valid() && Enabled(sys, a)
      modifies `sys, `trace
      ensures Valid() && trace == old(trace) + [a] && sys == Apply(old(sys), a)
    {
      StepGenuine(sys, a);
      Append(Init(sys.baseTtl, start), trace, a);
      trace := trace + [a];
      sys := Apply(sys, a);
    }

    /** Everybody else acts; the body takes no step, callers only know the contract. */
    method Others(r: ReaderId)
      requires Valid()
      modifies `sys, `trace
      ensures Valid() && old(trace) <= trace && sys.baseTtl == old(sys).baseTtl
      ensures forall i :: |old(trace)| <= i < |trace| ==> !By(trace[i], r)
    {
    }

    method Await(r: ReaderId)
      requires Valid()
      modifies `sys, `trace
      ensures Valid() && old(trace) <= trace
      ensures r in sys.readers <==> r in old(sys).readers
      ensures r in sys.readers ==> sys.readers[r] == old(sys).readers[r]
      ensures old(sys).history <= sys.history && sys.baseTtl == old(sys).baseTtl && old(sys).now <= sys.now
      ensures forall k :: |old(sys).history| <= k < |sys.history| ==> sys.history[k].row.Some?
    {
      ghost var before, was := trace, sys;
      Others(r);
      assert trace == before + trace[|before|..];
      Split(Init(sys.baseTtl, start), before, trace[|before|..]);
      OthersKeep(was, trace[|before|..], r);
    }

    /** get_product for a reader that begins now.  A body comes with an entry of the log; "not
        found" means that some database had no such row yet. */
    method GetProduct() returns (r: ReaderId, reply: Reply)
      requires Valid()
      modifies `sys, `trace
      ensures Valid() && old(trace) <= trace && r !in old(sys).readers
      ensures r in sys.readers && sys.readers[r] == Finished(reply)
      ensures reply.Served? ==>
                && sys.log != [] && sys.log[|sys.log| - 1].body == reply.body && sys.log[|sys.log| - 1].at == sys.now
                && Held(sys.history, reply.body)
      ensures reply.NotFound? ==> exists k :: 0 <= k < |sys.history| && sys.history[k].row == None
    {
      r := NewId(sys.readers.Keys);
      Do(Begin(r));
      Await(r);
      var fault: bool := *;
      var hit := !fault && Alive(sys);
      var cached := if hit then sys.cache.value.body else "";
      Do(Get(r, fault));
      if hit {
        return r, Served(cached);
      }
      reply := LoadAndFill(r);
    }

    /** The miss path: read a database, then offer the row to the cache and serve it. */
    method LoadAndFill(r: ReaderId) returns (reply: Reply)
      requires Valid() && r in sys.readers && sys.readers[r].Missed?
      modifies `sys, `trace
      ensures Valid() && old(trace) <= trace && r in sys.readers && sys.readers[r] == Finished(reply)
      ensures reply.Served? ==>
                && sys.log != [] && sys.log[|sys.log| - 1].body == reply.body && sys.log[|sys.log| - 1].at == sys.now
                && Held(sys.history, reply.body)
      ensures reply.NotFound? ==> exists k :: 0 <= k < |sys.history| && sys.history[k].row == None
    {
      Await(r);
      var unreadable: bool, primary: bool := *, *;
      if unreadable {
        Do(FailLoad(r));
        return Broken;
      }
      var row := Row(sys, primary);
      Do(Load(r, primary));
      if row == None {
        assert sys.history[if primary then |sys.history| - 1 else sys.replica].row == None;
        return NotFound;
      }
      FillCache(r, row.value);
      return Served(row.value);
    }

    /** cache_set_json, and the answer goes out whatever became of it. */
    method FillCache(r: ReaderId, body: Body)
      requires Valid() && r in sys.readers && sys.readers[r].Loaded? && sys.readers[r].body == body
      modifies `sys, `trace
      ensures Valid() && old(trace) <= trace && r in sys.readers && sys.readers[r] == Finished(Served(body))
      ensures sys.log != [] && sys.log[|sys.log| - 1] == Serve(body, sys.now, None) && Held(sys.history, body)
    {
      Await(r);
      var lost: bool := *;
      var ttl := JitteredTtl(sys.baseTtl);
      Do(Fill(r, ttl - sys.baseTtl, lost));
    }

    /** update_product: not found, or the edited row is committed as version `n` and then the
        delete is sent.  If it arrives, later reads are guaranteed to see the update exactly
        when no reader and no replica can still bring an older row back. */
    method UpdateProduct(edit: Body -> Body) returns (updated: Option<Body>, ghost n: nat, ghost deleted: bool)
      requires Valid() && sys.baseTtl >= 0
      modifies `sys, `trace
      ensures Valid() && old(trace) <= trace && old(sys).history <= sys.history
      ensures updated == None <==> old(sys).history[|old(sys).history| - 1].row == None
      ensures updated == None ==> sys == old(sys)
      ensures updated.Some? ==>
                && |old(sys).history| <= n < |sys.history| && sys.history[n].row == updated
                && sys.history[n - 1].row.Some? && updated.value == edit(sys.history[n - 1].row.value)
      ensures updated.Some? && deleted ==> (Guaranteed(sys, n) <==> LoadsFresh(sys, n) && ReplicaFresh(sys, n))
    {
      n, deleted := 0, false;
      var row := sys.history[|sys.history| - 1].row;
      if row == None {
        return None, n, deleted;
      }
      var body;
      body, n := CommitEdit(edit);
      updated := Some(body);
      deleted := DropKey(n);
    }

    /** The write: others may have changed the row since it was read. */
    method CommitEdit(edit: Body -> Body) returns (body: Body, ghost n: nat)
      requires Valid() && sys.history[|sys.history| - 1].row.Some?
      modifies `sys, `trace
      ensures Valid() && old(trace) <= trace && old(sys).history <= sys.history && sys.baseTtl == old(sys).baseTtl
      ensures |old(sys).history| <= n < |sys.history| && sys.history[n].row == Some(body)
      ensures sys.history[n - 1].row.Some? && body == edit(sys.history[n - 1].row.value)
    {
      var me := NewId(sys.readers.Keys);
      Await(me);
      n := |sys.history|;
      body := edit(sys.history[|sys.history| - 1].row.value);
      Do(Commit(body));
    }

    /** cache_delete: it may not get through, and nobody is told. */
    method DropKey(ghost n: nat) returns (ghost deleted: bool)
      requires Valid() && sys.baseTtl >= 0 && n < |sys.history|
      modifies `sys, `trace
      ensures Valid() && old(trace) <= trace && old(sys).history <= sys.history
      ensures deleted ==> (Guaranteed(sys, n) <==> LoadsFresh(sys, n) && ReplicaFresh(sys, n))
    {
      var me := NewId(sys.readers.Keys);
      Await(me);
      var lost: bool := *;
      deleted := !lost;
      if !lost {
        Do(Drop);
        FreshExactlyWhenSettled(sys, n);
      }
    }
  }
}
