/**
 Cache-aside reads of one product: concurrent readers and writers, a primary, a replica that
 lags behind it, and a cache entry that expires and may be lost.  `history` lists every row
 the primary has committed; the replica stands somewhere in it.
 */
module ProductCache {
  import opened Outcomes
  import Clients

  type ReaderId = nat
  type Body = string

  datatype Version = Version(row: Option<Body>, since: real)

  datatype Entry = Entry(body: Body, setAt: real, ttl: int)

  datatype Reply = Served(body: Body) | NotFound | Broken

  /** A run of get_product.  Loaded means read from a database and not yet offered to the cache. */
  datatype Pc = Started | Missed | Loaded(body: Body, at: real) | Finished(reply: Reply)

  datatype Serve = Serve(body: Body, at: real, cachedAt: Option<real>)

  datatype Sys = Sys(baseTtl: int, now: real, history: seq<Version>, replica: nat, cache: Option<Entry>,
                     readers: map<ReaderId, Pc>, log: seq<Serve>)

  datatype Action =
    | Begin(r: ReaderId)
    | Get(r: ReaderId, fault: bool)
    | Load(r: ReaderId, primary: bool)
    | FailLoad(r: ReaderId)
    | Fill(r: ReaderId, jitter: int, lost: bool)
    | Commit(body: Body)
    | Drop                         // a delete that reaches the cache, or an eviction
    | CatchUp(k: nat)
    | Tick(dt: real)

  /** What `_jittered_ttl` may add or take away. */
  function Jitter(baseTtl: int): (jitter: int)
    ensures jitter >= 1 && (baseTtl < 20 ==> jitter == 1)
    ensures baseTtl >= 10 ==> 10 * jitter <= baseTtl < 10 * jitter + 10
  {
    if baseTtl / 10 >= 1 then baseTtl / 10 else 1
  }

  function Init(baseTtl: int, row: Option<Body>): Sys {
    Sys(baseTtl, 0.0, [Version(row, 0.0)], 0, None, map[], [])
  }

  predicate Alive(s: Sys) {
    s.cache.Some? && s.now < s.cache.value.setAt + s.cache.value.ttl as real
  }

  predicate Enabled(s: Sys, a: Action) {
    match a
    case Begin(r) => r !in s.readers
    case Get(r, _) => r in s.readers && s.readers[r].Started?
    case Load(r, _) => r in s.readers && s.readers[r].Missed? && |s.history| > 0 && s.replica < |s.history|
    case FailLoad(r) => r in s.readers && s.readers[r].Missed?
    case Fill(r, jitter, _) => r in s.readers && s.readers[r].Loaded? && -Jitter(s.baseTtl) <= jitter <= Jitter(s.baseTtl)
    case Commit(_) => true
    case Drop => true
    case CatchUp(k) => s.replica <= k < |s.history|
    case Tick(dt) => dt >= 0.0
  }

  /** The row a load sees. */
  function Row(s: Sys, primary: bool): Option<Body>
    requires |s.history| > 0 && s.replica < |s.history|
  {
    if primary then s.history[|s.history| - 1].row else s.history[s.replica].row
  }

  function Serving(s: Sys, r: ReaderId, body: Body, cachedAt: Option<real>): Sys {
    s.(readers := s.readers[r := Finished(Served(body))], log := s.log + [Serve(body, s.now, cachedAt)])
  }

  function Apply(s: Sys, a: Action): Sys
    requires Enabled(s, a)
  {
    match a
    case Begin(r) => s.(readers := s.readers[r := Started])
    case Get(r, fault) =>
      if !fault && Alive(s) then Serving(s, r, s.cache.value.body, Some(s.cache.value.setAt))
      else s.(readers := s.readers[r := Missed])
    case Load(r, primary) =>
      if Row(s, primary) == None then s.(readers := s.readers[r := Finished(NotFound)])
      else s.(readers := s.readers[r := Loaded(Row(s, primary).value, s.now)])
    case FailLoad(r) => s.(readers := s.readers[r := Finished(Broken)])
    case Fill(r, jitter, lost) =>
      var served := Serving(s, r, s.readers[r].body, None);
      // Redis refuses an expiry that is not positive, and the error is swallowed
      if lost || s.baseTtl + jitter <= 0 then served
      else served.(cache := Some(Entry(s.readers[r].body, s.now, s.baseTtl + jitter)))
    case Commit(body) => s.(history := s.history + [Version(Some(body), s.now)])
    case Drop => s.(cache := None)
    case CatchUp(k) => s.(replica := k)
    case Tick(dt) => s.(now := s.now + dt)
  }

  predicate Feasible(s: Sys, acts: seq<Action>)
    decreases |acts|
  {
    acts == [] || (Enabled(s, acts[0]) && Feasible(Apply(s, acts[0]), acts[1..]))
  }

  function Exec(s: Sys, acts: seq<Action>): Sys
    requires Feasible(s, acts)
    decreases |acts|
  {
    if acts == [] then s else Exec(Apply(s, acts[0]), acts[1..])
  }

  // ---- everything served was a committed row, in every run ----

  /** The row was in place at time `t` or later, at the primary. */
  ghost predicate InPlace(history: seq<Version>, row: Option<Body>, t: real) {
    exists k :: 0 <= k < |history| && history[k].row == row && (k + 1 == |history| || history[k + 1].since >= t)
  }

  ghost predicate Held(history: seq<Version>, body: Body) {
    exists k :: 0 <= k < |history| && history[k].row == Some(body)
  }

  ghost predicate Chronicle(s: Sys) {
    && s.replica < |s.history|
    && (forall k :: 0 <= k < |s.history| ==> s.history[k].since <= s.now)
    && (forall j, k :: 0 <= j < k < |s.history| ==> s.history[j].since <= s.history[k].since)
  }

  ghost predicate Genuine(s: Sys) {
    && Chronicle(s)
    && (s.cache.Some? ==> Held(s.history, s.cache.value.body) && s.cache.value.setAt <= s.now
                          && s.cache.value.ttl <= s.baseTtl + Jitter(s.baseTtl))
    && (forall r :: r in s.readers && s.readers[r].Loaded? ==> Held(s.history, s.readers[r].body))
    && (forall i :: 0 <= i < |s.log| ==> GenuineServe(s, s.log[i]))
  }

  ghost predicate GenuineServe(s: Sys, serve: Serve) {
    && Held(s.history, serve.body) && serve.at <= s.now
    && (serve.cachedAt.Some? ==>
          serve.cachedAt.value <= serve.at < serve.cachedAt.value + (s.baseTtl + Jitter(s.baseTtl)) as real)
  }

  lemma HeldStays(s: Sys, a: Action, body: Body)
    requires Enabled(s, a) && Held(s.history, body)
    ensures Held(Apply(s, a).history, body)
  {
    var k :| 0 <= k < |s.history| && s.history[k].row == Some(body);
    assert Apply(s, a).history[k].row == Some(body);
  }

  lemma StepGenuine(s: Sys, a: Action)
    requires Genuine(s) && Enabled(s, a)
    ensures Genuine(Apply(s, a)) && Apply(s, a).baseTtl == s.baseTtl
  {
    var s' := Apply(s, a);
    ClocksAgree(s, a);
    forall body | Held(s.history, body) ensures Held(s'.history, body) {
      HeldStays(s, a, body);
    }
    LoadsGenuine(s, a);
    forall i | 0 <= i < |s'.log| ensures GenuineServe(s', s'.log[i]) {
      assert i < |s.log| ==> GenuineServe(s, s.log[i]);
    }
  }

  lemma LoadsGenuine(s: Sys, a: Action)
    requires Genuine(s) && Enabled(s, a)
    ensures forall r :: r in Apply(s, a).readers && Apply(s, a).readers[r].Loaded? ==>
              Held(s.history, Apply(s, a).readers[r].body)
  {
    if a.Load? {
      var k := if a.primary then |s.history| - 1 else s.replica;
      assert s.history[k].row == Row(s, a.primary);
    }
  }

  lemma {:induction false} RunGenuine(s: Sys, acts: seq<Action>)
    requires Genuine(s) && Feasible(s, acts)
    ensures Genuine(Exec(s, acts)) && Exec(s, acts).baseTtl == s.baseTtl
    decreases |acts|
  {
    if acts != [] {
      StepGenuine(s, acts[0]);
      RunGenuine(Apply(s, acts[0]), acts[1..]);
    }
  }

  /** In every run every body served is a row the primary had committed by then, and one served
      from the cache was put there less than ttl + max(1, ttl / 10) seconds before. */
  lemma ServedBodiesAreGenuine(baseTtl: int, row: Option<Body>, acts: seq<Action>, i: nat)
    requires Feasible(Init(baseTtl, row), acts) && i < |Exec(Init(baseTtl, row), acts).log|
    ensures var s := Exec(Init(baseTtl, row), acts);
            && Held(s.history, s.log[i].body)
            && (s.log[i].cachedAt.Some? ==>
                  0.0 <= s.log[i].at - s.log[i].cachedAt.value < (baseTtl + Jitter(baseTtl)) as real)
  {
    RunGenuine(Init(baseTtl, row), acts);
    assert GenuineServe(Exec(Init(baseTtl, row), acts), Exec(Init(baseTtl, row), acts).log[i]);
  }

  // ---- how stale a served body can be ----

  /** The replica is at most `lag` behind when it is read, and a reader takes at most `delay`
      from its load to its write to the cache. */
  ghost predicate Timely(s: Sys, a: Action, lag: real, delay: real)
    requires Enabled(s, a)
  {
    match a
    case Load(_, primary) =>
      primary || s.replica + 1 >= |s.history| || s.history[s.replica + 1].since >= s.now - lag
    case Fill(r, _, _) => s.now - s.readers[r].at <= delay
    case _ => true
  }

  ghost predicate TimelyRun(s: Sys, acts: seq<Action>, lag: real, delay: real)
    requires Feasible(s, acts)
    decreases |acts|
  {
    acts == [] || (Timely(s, acts[0], lag, delay) && TimelyRun(Apply(s, acts[0]), acts[1..], lag, delay))
  }

  function LongestTtl(baseTtl: int): real {
    if baseTtl + Jitter(baseTtl) > 0 then (baseTtl + Jitter(baseTtl)) as real else 0.0
  }

  ghost predicate Current(s: Sys, body: Body, t: real) {
    InPlace(s.history, Some(body), t)
  }

  ghost predicate Bounded(s: Sys, lag: real, delay: real) {
    && Chronicle(s)
    && (s.cache.Some? ==> Current(s, s.cache.value.body, s.cache.value.setAt - lag - delay) && s.cache.value.setAt <= s.now
                          && s.cache.value.ttl <= s.baseTtl + Jitter(s.baseTtl))
    && (forall r :: r in s.readers && s.readers[r].Loaded? ==>
          Current(s, s.readers[r].body, s.readers[r].at - lag) && s.readers[r].at <= s.now)
    && (forall i :: 0 <= i < |s.log| ==>
          Current(s, s.log[i].body, s.log[i].at - lag - delay - LongestTtl(s.baseTtl)) && s.log[i].at <= s.now)
  }

  lemma InPlaceStays(s: Sys, a: Action, row: Option<Body>, t: real)
    requires Enabled(s, a) && InPlace(s.history, row, t) && t <= s.now
    ensures InPlace(Apply(s, a).history, row, t)
  {
    var k :| 0 <= k < |s.history| && s.history[k].row == row && (k + 1 == |s.history| || s.history[k + 1].since >= t);
    var history' := Apply(s, a).history;
    assert history'[k].row == row;
    assert k + 1 == |history'| || history'[k + 1].since >= t;
  }

  lemma InPlaceEarlier(history: seq<Version>, row: Option<Body>, t: real, earlier: real)
    requires InPlace(history, row, t) && earlier <= t
    ensures InPlace(history, row, earlier)
  {
    var k :| 0 <= k < |history| && history[k].row == row && (k + 1 == |history| || history[k + 1].since >= t);
    assert history[k].row == row;
  }

  lemma LoadBounded(s: Sys, r: ReaderId, primary: bool, lag: real)
    requires Chronicle(s) && Enabled(s, Load(r, primary)) && Timely(s, Load(r, primary), lag, 0.0) && lag >= 0.0
    ensures InPlace(s.history, Row(s, primary), s.now - lag)
  {
    assert s.history[if primary then |s.history| - 1 else s.replica].row == Row(s, primary);
  }

  lemma LogBounded(s: Sys, a: Action, lag: real, delay: real)
    requires Bounded(s, lag, delay) && Enabled(s, a) && Timely(s, a, lag, delay) && lag >= 0.0 && delay >= 0.0
    requires |Apply(s, a).log| > |s.log|
    ensures var last := Apply(s, a).log[|s.log|];
            Current(Apply(s, a), last.body, last.at - lag - delay - LongestTtl(s.baseTtl))
  {
    if a.Get? {
      InPlaceEarlier(s.history, Some(s.cache.value.body), s.cache.value.setAt - lag - delay,
                     s.now - lag - delay - LongestTtl(s.baseTtl));
    } else {
      InPlaceEarlier(s.history, Some(s.readers[a.r].body), s.readers[a.r].at - lag,
                     s.now - lag - delay - LongestTtl(s.baseTtl));
    }
  }

  lemma CacheBounded(s: Sys, a: Action, lag: real, delay: real)
    requires Bounded(s, lag, delay) && Enabled(s, a) && Timely(s, a, lag, delay) && lag >= 0.0 && delay >= 0.0
    ensures var c := Apply(s, a).cache;
            c.Some? ==> Current(Apply(s, a), c.value.body, c.value.setAt - lag - delay)
  {
    var s' := Apply(s, a);
    if s'.cache == s.cache {
      if s.cache.Some? {
        InPlaceStays(s, a, Some(s.cache.value.body), s.cache.value.setAt - lag - delay);
      }
    } else if a.Fill? {
      InPlaceEarlier(s.history, Some(s.readers[a.r].body), s.readers[a.r].at - lag, s.now - lag - delay);
    }
  }

  lemma ReaderBounded(s: Sys, a: Action, lag: real, delay: real, r: ReaderId)
    requires Bounded(s, lag, delay) && Enabled(s, a) && Timely(s, a, lag, delay) && lag >= 0.0 && delay >= 0.0
    requires r in Apply(s, a).readers && Apply(s, a).readers[r].Loaded?
    ensures var pc := Apply(s, a).readers[r];
            Current(Apply(s, a), pc.body, pc.at - lag) && pc.at <= Apply(s, a).now
  {
    if r in s.readers && Apply(s, a).readers[r] == s.readers[r] {
      InPlaceStays(s, a, Some(s.readers[r].body), s.readers[r].at - lag);
    } else {
      LoadBounded(s, r, a.primary, lag);
    }
  }

  lemma ServeBounded(s: Sys, a: Action, lag: real, delay: real, i: nat)
    requires Bounded(s, lag, delay) && Enabled(s, a) && Timely(s, a, lag, delay) && lag >= 0.0 && delay >= 0.0
    requires i < |Apply(s, a).log|
    ensures var serve := Apply(s, a).log[i];
            Current(Apply(s, a), serve.body, serve.at - lag - delay - LongestTtl(s.baseTtl)) && serve.at <= Apply(s, a).now
  {
    if i < |s.log| {
      InPlaceStays(s, a, Some(s.log[i].body), s.log[i].at - lag - delay - LongestTtl(s.baseTtl));
    } else {
      LogBounded(s, a, lag, delay);
    }
  }

  lemma StepBounded(s: Sys, a: Action, lag: real, delay: real)
    requires Bounded(s, lag, delay) && Enabled(s, a) && Timely(s, a, lag, delay) && lag >= 0.0 && delay >= 0.0
    ensures Bounded(Apply(s, a), lag, delay)
  {
    var s' := Apply(s, a);
    CacheBounded(s, a, lag, delay);
    forall r | r in s'.readers && s'.readers[r].Loaded?
      ensures Current(s', s'.readers[r].body, s'.readers[r].at - lag) && s'.readers[r].at <= s'.now
    {
      ReaderBounded(s, a, lag, delay, r);
    }
    forall i | 0 <= i < |s'.log|
      ensures Current(s', s'.log[i].body, s'.log[i].at - lag - delay - LongestTtl(s.baseTtl)) && s'.log[i].at <= s'.now
    {
      ServeBounded(s, a, lag, delay, i);
    }
    ClocksAgree(s, a);
  }

  lemma ClocksAgree(s: Sys, a: Action)
    requires Chronicle(s) && Enabled(s, a)
    requires s.cache.Some? ==> s.cache.value.setAt <= s.now && s.cache.value.ttl <= s.baseTtl + Jitter(s.baseTtl)
    ensures var s' := Apply(s, a);
            && Chronicle(s') && s'.baseTtl == s.baseTtl
            && (s'.cache.Some? ==> s'.cache.value.setAt <= s'.now && s'.cache.value.ttl <= s.baseTtl + Jitter(s.baseTtl))
  {
  }

  lemma {:induction false} RunBounded(s: Sys, acts: seq<Action>, lag: real, delay: real)
    requires Bounded(s, lag, delay) && Feasible(s, acts) && TimelyRun(s, acts, lag, delay) && lag >= 0.0 && delay >= 0.0
    ensures Bounded(Exec(s, acts), lag, delay) && Exec(s, acts).baseTtl == s.baseTtl
    decreases |acts|
  {
    if acts != [] {
      StepBounded(s, acts[0], lag, delay);
      RunBounded(Apply(s, acts[0]), acts[1..], lag, delay);
    }
  }

  /** Bounded staleness: whatever is cached, lost, evicted or raced, a served body was still the
      primary's row at some moment in the last lag + delay + longest ttl seconds. */
  lemma StalenessIsBounded(baseTtl: int, row: Option<Body>, acts: seq<Action>, lag: real, delay: real, i: nat)
    requires Feasible(Init(baseTtl, row), acts) && TimelyRun(Init(baseTtl, row), acts, lag, delay)
    requires lag >= 0.0 && delay >= 0.0 && i < |Exec(Init(baseTtl, row), acts).log|
    ensures var s := Exec(Init(baseTtl, row), acts);
            InPlace(s.history, Some(s.log[i].body), s.log[i].at - (lag + delay + LongestTtl(baseTtl)))
  {
    RunBounded(Init(baseTtl, row), acts, lag, delay);
    var s := Exec(Init(baseTtl, row), acts);
    assert Current(s, s.log[i].body, s.log[i].at - lag - delay - LongestTtl(s.baseTtl));
  }

  // ---- when an update is seen by every later read ----

  ghost predicate Fresh(history: seq<Version>, n: nat, row: Option<Body>) {
    exists k :: n <= k < |history| && history[k].row == row
  }

  ghost predicate ReplyFresh(history: seq<Version>, n: nat, reply: Reply) {
    match reply
    case Served(body) => Fresh(history, n, Some(body))
    case NotFound => Fresh(history, n, None)
    case Broken => true
  }

  /** No reader that starts from now on, however things go, answers with a row older than
      version `n`. */
  ghost predicate Guaranteed(s: Sys, n: nat) {
    forall acts, r: ReaderId ::
      Feasible(s, acts) && r !in s.readers && r in Exec(s, acts).readers && Exec(s, acts).readers[r].Finished?
      ==> ReplyFresh(Exec(s, acts).history, n, Exec(s, acts).readers[r].reply)
  }

  ghost predicate LoadsFresh(s: Sys, n: nat) {
    forall r :: r in s.readers && s.readers[r].Loaded? ==> Fresh(s.history, n, Some(s.readers[r].body))
  }

  ghost predicate ReplicaFresh(s: Sys, n: nat) {
    forall k :: s.replica <= k < |s.history| ==> Fresh(s.history, n, s.history[k].row)
  }

  /** Nothing older than version `n` is cached, is on its way into the cache, or can still be
      read from the replica. */
  ghost predicate Settled(s: Sys, n: nat) {
    (Alive(s) ==> Fresh(s.history, n, Some(s.cache.value.body))) && LoadsFresh(s, n) && ReplicaFresh(s, n)
  }

  /** The replies of the readers that are not in `known` are fresh. */
  ghost predicate NewRepliesFresh(s: Sys, known: map<ReaderId, Pc>, n: nat) {
    forall r :: r in s.readers && r !in known && s.readers[r].Finished? ==> ReplyFresh(s.history, n, s.readers[r].reply)
  }

  lemma FreshStays(s: Sys, a: Action, n: nat, row: Option<Body>)
    requires Enabled(s, a) && Fresh(s.history, n, row)
    ensures Fresh(Apply(s, a).history, n, row)
  {
    var k :| n <= k < |s.history| && s.history[k].row == row;
    assert Apply(s, a).history[k].row == row;
  }

  lemma RowFresh(s: Sys, n: nat, primary: bool)
    requires Chronicle(s) && Settled(s, n)
    ensures Fresh(s.history, n, Row(s, primary))
  {
    assert Fresh(s.history, n, s.history[if primary then |s.history| - 1 else s.replica].row);
  }

  lemma ReplicaStaysFresh(s: Sys, a: Action, n: nat)
    requires Chronicle(s) && n < |s.history| && ReplicaFresh(s, n) && Enabled(s, a)
    ensures ReplicaFresh(Apply(s, a), n)
  {
    var s' := Apply(s, a);
    forall k | s'.replica <= k < |s'.history| ensures Fresh(s'.history, n, s'.history[k].row) {
      if k < |s.history| {
        FreshStays(s, a, n, s.history[k].row);
      }
    }
  }

  lemma LoadsStayFresh(s: Sys, a: Action, n: nat)
    requires Chronicle(s) && Settled(s, n) && Enabled(s, a)
    ensures LoadsFresh(Apply(s, a), n)
  {
    var s' := Apply(s, a);
    forall r | r in s'.readers && s'.readers[r].Loaded? ensures Fresh(s'.history, n, Some(s'.readers[r].body)) {
      if r in s.readers && s'.readers[r] == s.readers[r] {
        FreshStays(s, a, n, Some(s.readers[r].body));
      } else {
        RowFresh(s, n, a.primary);
      }
    }
  }

  lemma CacheStaysFresh(s: Sys, a: Action, n: nat)
    requires Settled(s, n) && Enabled(s, a) && Alive(Apply(s, a))
    ensures Fresh(Apply(s, a).history, n, Some(Apply(s, a).cache.value.body))
  {
    if a.Fill? && Apply(s, a).cache != s.cache {
      FreshStays(s, a, n, Some(s.readers[a.r].body));
    } else {
      FreshStays(s, a, n, Some(s.cache.value.body));
    }
  }

  lemma RepliesStayFresh(s: Sys, a: Action, n: nat, known: map<ReaderId, Pc>)
    requires Chronicle(s) && Settled(s, n) && Enabled(s, a) && NewRepliesFresh(s, known, n) && known.Keys <= s.readers.Keys
    ensures NewRepliesFresh(Apply(s, a), known, n) && known.Keys <= Apply(s, a).readers.Keys
  {
    var s' := Apply(s, a);
    forall r | r in s'.readers && r !in known && s'.readers[r].Finished?
      ensures ReplyFresh(s'.history, n, s'.readers[r].reply)
    {
      ReplyStaysFresh(s, a, n, known, r);
    }
  }

  lemma ReplyStaysFresh(s: Sys, a: Action, n: nat, known: map<ReaderId, Pc>, r: ReaderId)
    requires Chronicle(s) && Settled(s, n) && Enabled(s, a) && NewRepliesFresh(s, known, n) && known.Keys <= s.readers.Keys
    requires r in Apply(s, a).readers && r !in known && Apply(s, a).readers[r].Finished?
    ensures ReplyFresh(Apply(s, a).history, n, Apply(s, a).readers[r].reply)
  {
    if r in s.readers && s.readers[r].Finished? {
      var reply := s.readers[r].reply;
      assert ReplyFresh(s.history, n, reply);
      if !reply.Broken? {
        FreshStays(s, a, n, if reply.Served? then Some(reply.body) else None);
      }
    } else if a.Load? {
      RowFresh(s, n, a.primary);
    }
  }

  lemma StepSettled(s: Sys, a: Action, n: nat, known: map<ReaderId, Pc>)
    requires Chronicle(s) && n < |s.history| && Settled(s, n) && Enabled(s, a)
    requires NewRepliesFresh(s, known, n) && known.Keys <= s.readers.Keys
    ensures Chronicle(Apply(s, a)) && Settled(Apply(s, a), n) && n < |Apply(s, a).history|
    ensures NewRepliesFresh(Apply(s, a), known, n) && known.Keys <= Apply(s, a).readers.Keys
  {
    ReplicaStaysFresh(s, a, n);
    LoadsStayFresh(s, a, n);
    if Alive(Apply(s, a)) {
      CacheStaysFresh(s, a, n);
    }
    RepliesStayFresh(s, a, n, known);
  }

  lemma {:induction false} RunSettled(s: Sys, acts: seq<Action>, n: nat, known: map<ReaderId, Pc>)
    requires Chronicle(s) && n < |s.history| && Settled(s, n) && Feasible(s, acts)
    requires NewRepliesFresh(s, known, n) && known.Keys <= s.readers.Keys
    ensures NewRepliesFresh(Exec(s, acts), known, n)
    decreases |acts|
  {
    if acts != [] {
      StepSettled(s, acts[0], n, known);
      RunSettled(Apply(s, acts[0]), acts[1..], n, known);
    }
  }

  lemma {:induction false} Append(s: Sys, acts: seq<Action>, a: Action)
    requires Feasible(s, acts) && Enabled(Exec(s, acts), a)
    ensures Feasible(s, acts + [a]) && Exec(s, acts + [a]) == Apply(Exec(s, acts), a)
    decreases |acts|
  {
    if acts == [] {
      assert acts + [a] == [a];
    } else {
      assert (acts + [a])[1..] == acts[1..] + [a];
      Append(Apply(s, acts[0]), acts[1..], a);
    }
  }

  lemma Then(start: Sys, acts: seq<Action>, s: Sys, a: Action) returns (acts': seq<Action>, s': Sys)
    requires Feasible(start, acts) && Exec(start, acts) == s && Enabled(s, a)
    ensures acts' == acts + [a] && s' == Apply(s, a)
    ensures Feasible(start, acts') && Exec(start, acts') == s'
  {
    Append(start, acts, a);
    acts', s' := acts + [a], Apply(s, a);
  }

  /** A stale entry is served to the next reader. */
  lemma StaleEntryIsServed(start: Sys, acts: seq<Action>, s: Sys, n: nat, r: ReaderId)
    requires Feasible(start, acts) && Exec(start, acts) == s && Alive(s) && r !in start.readers && r !in s.readers
    requires !Fresh(s.history, n, Some(s.cache.value.body))
    ensures !Guaranteed(start, n)
  {
    var acts', s' := Then(start, acts, s, Begin(r));
    acts', s' := Then(start, acts', s', Get(r, false));
    assert s'.readers[r] == Finished(Served(s.cache.value.body));
  }

  /** A reader on its way with a stale row puts it back after the delete. */
  lemma StaleLoadIsServed(s: Sys, n: nat, slow: ReaderId)
    requires slow in s.readers && s.readers[slow].Loaded? && s.baseTtl >= 0
    requires !Fresh(s.history, n, Some(s.readers[slow].body))
    ensures !Guaranteed(s, n)
  {
    var r := Unused(s.readers.Keys);
    var acts, s' := Then(s, [], s, Fill(slow, Jitter(s.baseTtl), false));
    StaleEntryIsServed(s, acts, s', n, r);
  }

  /** A reader that misses is sent to the replica while it still shows a stale row. */
  lemma StaleReplicaIsServed(s: Sys, n: nat, k: nat)
    requires s.replica <= k < |s.history| && !Fresh(s.history, n, s.history[k].row)
    ensures !Guaranteed(s, n)
  {
    var r := Unused(s.readers.Keys);
    var acts, s' := Then(s, [], s, CatchUp(k));
    acts, s' := Then(s, acts, s', Begin(r));
    acts, s' := Then(s, acts, s', Get(r, true));
    acts, s' := Then(s, acts, s', Load(r, false));
    if s.history[k].row == None {
      assert s'.readers[r] == Finished(NotFound);
    } else {
      acts, s' := Then(s, acts, s', Fill(r, 0, true));
      assert s'.readers[r] == Finished(Served(s.history[k].row.value));
    }
  }

  /** Every later read is at least as new as version `n` exactly when nothing older is cached,
      on its way into the cache, or still to be passed by the replica. */
  lemma FreshExactlyWhenSettled(s: Sys, n: nat)
    requires Chronicle(s) && n < |s.history| && s.baseTtl >= 0
    ensures Guaranteed(s, n) <==> Settled(s, n)
  {
    if Settled(s, n) {
      forall acts, r: ReaderId |
        Feasible(s, acts) && r !in s.readers && r in Exec(s, acts).readers && Exec(s, acts).readers[r].Finished?
        ensures ReplyFresh(Exec(s, acts).history, n, Exec(s, acts).readers[r].reply)
      {
        RunSettled(s, acts, n, s.readers);
      }
    } else if Alive(s) && !Fresh(s.history, n, Some(s.cache.value.body)) {
      var r := Unused(s.readers.Keys);
      StaleEntryIsServed(s, [], s, n, r);
    } else if !LoadsFresh(s, n) {
      var slow :| slow in s.readers && s.readers[slow].Loaded? && !Fresh(s.history, n, Some(s.readers[slow].body));
      StaleLoadIsServed(s, n, slow);
    } else {
      var k :| s.replica <= k < |s.history| && !Fresh(s.history, n, s.history[k].row);
      StaleReplicaIsServed(s, n, k);
    }
  }

  /** What the delete after an update's commit buys: the guarantee holds if and only if, at that
      moment, no reader is holding an older row and the replica has none left to show. */
  lemma DeleteGuarantees(s: Sys, n: nat)
    requires Chronicle(s) && n < |s.history| && s.baseTtl >= 0
    ensures Guaranteed(Apply(s, Drop), n) <==> LoadsFresh(s, n) && ReplicaFresh(s, n)
  {
    var s' := Apply(s, Drop);
    FreshExactlyWhenSettled(s', n);
    assert LoadsFresh(s', n) <==> LoadsFresh(s, n);
    assert ReplicaFresh(s', n) <==> ReplicaFresh(s, n);
  }

  /** The race is reachable, even without a replica: a reader loads, an update commits and
      deletes, the reader fills, and the next read is stale. */
  lemma RefillAfterUpdate() returns (acts: seq<Action>, s: Sys)
    ensures Feasible(Init(60, Some("old")), acts) && Exec(Init(60, Some("old")), acts) == s
    ensures s.history == [Version(Some("old"), 0.0), Version(Some("new"), 0.0)] && s.cache == None && s.replica == 1
    ensures !Guaranteed(s, 1)
  {
    var start := Init(60, Some("old"));
    acts, s := Then(start, [], start, Begin(0));
    acts, s := Then(start, acts, s, Get(0, false));
    acts, s := Then(start, acts, s, Load(0, true));
    acts, s := Then(start, acts, s, Commit("new"));
    acts, s := Then(start, acts, s, CatchUp(1));
    acts, s := Then(start, acts, s, Drop);
    assert s.readers[0] == Loaded("old", 0.0);
    assert "old"[0] != "new"[0];
    StaleLoadIsServed(s, 1, 0);
  }

  /** Deleting before the commit, as the stock functions do, guarantees nothing.  From any state
      in which the product exists, the delete followed by a commit of anything new can end with
      the old row cached, although every reader that began in between has finished and the replica
      has caught up. */
  lemma DeleteBeforeCommitGuaranteesNothing(s: Sys, body: Body) returns (acts: seq<Action>, s': Sys)
    requires Chronicle(s) && s.baseTtl >= 0 && s.history[|s.history| - 1].row.Some?
    requires s.history[|s.history| - 1].row != Some(body)
    ensures |acts| == 7 && acts[0] == Drop && acts[5] == Commit(body)
    ensures Feasible(s, acts) && Exec(s, acts) == s'
    ensures s'.history == s.history + [Version(Some(body), s.now)] && s'.replica == |s.history|
    ensures forall r :: r in s'.readers && s'.readers[r].Loaded? ==> r in s.readers && s'.readers[r] == s.readers[r]
    ensures !Guaranteed(s', |s.history|)
  {
    var r := Unused(s.readers.Keys);
    var before := s.history[|s.history| - 1].row.value;
    acts, s' := Then(s, [], s, Drop);
    acts, s' := Then(s, acts, s', Begin(r));
    acts, s' := Then(s, acts, s', Get(r, false));
    acts, s' := Then(s, acts, s', Load(r, true));
    assert s'.readers[r] == Loaded(before, s.now);
    acts, s' := Then(s, acts, s', Fill(r, Jitter(s.baseTtl), false));
    assert Alive(s') && s'.cache.value.body == before;
    acts, s' := Then(s, acts, s', Commit(body));
    acts, s' := Then(s, acts, s', CatchUp(|s.history|));
    var next := Unused(s'.readers.Keys);
    assert s'.history[|s.history|].row == Some(body);
    StaleEntryIsServed(s', [], s', |s.history|, next);
  }

  /** Cache keys of different products never collide. */
  function KeyOf(product: int): string {
    "product:" + Clients.Decimal(product)
  }

  lemma KeyReads()
    ensures KeyOf(7) == "product:7"
  {
  }

  lemma KeysDistinct(a: int, b: int)
    requires KeyOf(a) == KeyOf(b)
    ensures a == b
  {
    assert Clients.Decimal(a) == KeyOf(a)[8..] && Clients.Decimal(b) == KeyOf(b)[8..];
    Clients.DecimalInjective(a, b);
  }
}
