/**
 The breaker shared by threads: which calls are outstanding when the trial flag is set, and
 how many calls a dead dependency still receives.
 */
module BreakerLoad {
  import opened Breaker

  type ThreadId = nat

  /** The breaker's history, and for each thread inside a call the index of the attempt that
      let it in. */
  datatype Sys = Sys(history: seq<Event>, running: map<ThreadId, nat>)

  datatype Action =
    | Enter(thread: ThreadId, at: real)
    | Leave(thread: ThreadId, ok: bool, at: real)
    | Look(at: real)

  ghost predicate Enabled(s: Sys, a: Action) {
    && Until(s.history, a.at)
    && (a.Enter? ==> a.thread !in s.running)
    && (a.Leave? ==> a.thread in s.running)
  }

  ghost function Apply(lim: Limits, s: Sys, a: Action): Sys
    requires Enabled(s, a)
  {
    match a
    case Enter(t, at) =>
      Sys(s.history + [Attempt(at)],
          if Admits(lim, s.history, at) then s.running[t := |s.history|] else s.running)
    case Leave(t, ok, at) => Sys(s.history + [if ok then Success(at) else Failure(at)], s.running - {t})
    case Look(at) => Sys(s.history + [Probe(at)], s.running)
  }

  ghost predicate Feasible(lim: Limits, acts: seq<Action>)
    decreases |acts|, 0
  {
    acts == [] || (Feasible(lim, acts[..|acts| - 1]) && Enabled(Exec(lim, acts[..|acts| - 1]), acts[|acts| - 1]))
  }

  ghost function Exec(lim: Limits, acts: seq<Action>): Sys
    requires Feasible(lim, acts)
    decreases |acts|, 1
  {
    if acts == [] then Sys([], map[]) else Apply(lim, Exec(lim, acts[..|acts| - 1]), acts[|acts| - 1])
  }

  ghost predicate AdmittedAt(lim: Limits, h: seq<Event>, i: nat) {
    i < |h| && h[i].Attempt? && Admits(lim, h[..i], h[i].at)
  }

  /** The thread's call is the trial of the episode that is still open. */
  ghost predicate OpenTrial(lim: Limits, s: Sys, t: ThreadId) {
    && t in s.running && TrialAt(lim, s.history, s.running[t])
    && forall k :: s.running[t] < k < |s.history| ==> !Completion(s.history[k])
  }

  ghost predicate Inv(lim: Limits, s: Sys) {
    && (forall t :: t in s.running ==> AdmittedAt(lim, s.history, s.running[t]))
    && (forall t, u :: t in s.running && u in s.running && s.running[t] == s.running[u] ==> t == u)
    && (TrialOut(lim, s.history) <==> exists t :: OpenTrial(lim, s, t))
  }

  lemma TrialAtPrefix(lim: Limits, h: seq<Event>, g: seq<Event>, i: nat)
    requires i < |h|
    ensures TrialAt(lim, h + g, i) == TrialAt(lim, h, i)
    ensures AdmittedAt(lim, h + g, i) == AdmittedAt(lim, h, i)
  {
    assert (h + g)[..i] == h[..i];
  }

  /** Every action adds one event to the history. */
  lemma Extended(lim: Limits, s: Sys, a: Action) returns (e: Event)
    requires Enabled(s, a)
    ensures Apply(lim, s, a).history == s.history + [e] && e.at == a.at
    ensures Completion(e) <==> a.Leave?
    ensures e.Attempt? <==> a.Enter?
  {
    e := Last(Apply(lim, s, a).history);
  }

  lemma StepAdmitted(lim: Limits, s: Sys, a: Action, t: ThreadId)
    requires Enabled(s, a) && Inv(lim, s) && t in Apply(lim, s, a).running
    ensures AdmittedAt(lim, Apply(lim, s, a).history, Apply(lim, s, a).running[t])
  {
    var e := Extended(lim, s, a);
    var s' := Apply(lim, s, a);
    if t in s.running && s'.running[t] == s.running[t] {
      TrialAtPrefix(lim, s.history, [e], s.running[t]);
    } else {
      assert s'.history[..|s.history|] == s.history;
    }
  }

  lemma OpenTrialKept(lim: Limits, s: Sys, a: Action, t: ThreadId)
    requires Enabled(s, a) && Inv(lim, s) && t in s.running && !a.Leave?
    ensures OpenTrial(lim, Apply(lim, s, a), t) <==> OpenTrial(lim, s, t)
  {
    var e := Extended(lim, s, a);
    assert AdmittedAt(lim, s.history, s.running[t]);
    TrialAtPrefix(lim, s.history, [e], s.running[t]);
    var h' := Apply(lim, s, a).history;
    assert h'[|s.history|] == e;
    assert forall k :: 0 <= k < |s.history| ==> h'[k] == s.history[k];
  }

  /** The flag after an action that is not a completion. */
  lemma StepTrial(lim: Limits, s: Sys, a: Action)
    requires Enabled(s, a) && Inv(lim, s) && !a.Leave?
    ensures TrialOut(lim, Apply(lim, s, a).history) <==> exists t :: OpenTrial(lim, Apply(lim, s, a), t)
  {
    var e := Extended(lim, s, a);
    var s' := Apply(lim, s, a);
    Step(lim, s.history, e);
    if t :| OpenTrial(lim, s, t) {
      OpenTrialKept(lim, s, a, t);
    } else if a.Enter? && TrialOut(lim, s'.history) {
      assert s'.history[..|s.history|] == s.history;
      assert OpenTrial(lim, s', a.thread);
    }
    if t :| OpenTrial(lim, s', t) {
      if t in s.running {
        OpenTrialKept(lim, s, a, t);
      } else {
        assert s'.history[..|s.history|] == s.history;
      }
    }
  }

  lemma StepInv(lim: Limits, s: Sys, a: Action)
    requires Enabled(s, a) && Inv(lim, s)
    ensures Inv(lim, Apply(lim, s, a))
  {
    var s' := Apply(lim, s, a);
    forall t | t in s'.running ensures AdmittedAt(lim, s'.history, s'.running[t]) {
      StepAdmitted(lim, s, a, t);
    }
    assert forall t :: t in s.running ==> AdmittedAt(lim, s.history, s.running[t]);
    var e := Extended(lim, s, a);
    if a.Leave? {
      Step(lim, s.history, e);
      forall t ensures !OpenTrial(lim, s', t) {
        if t in s'.running {
          assert s'.history[|s.history|] == e && s'.running[t] < |s.history|;
        }
      }
    } else {
      StepTrial(lim, s, a);
    }
  }

  lemma {:induction false} RunInv(lim: Limits, acts: seq<Action>)
    requires Feasible(lim, acts)
    ensures Inv(lim, Exec(lim, acts))
    decreases |acts|
  {
    if acts != [] {
      RunInv(lim, acts[..|acts| - 1]);
      StepInv(lim, Exec(lim, acts[..|acts| - 1]), acts[|acts| - 1]);
    }
  }

  /** In every interleaving the trial flag is set exactly while the one call admitted in the
      open episode is outstanding, so the end of that call always takes it away. */
  lemma TrialFlagIsExact(lim: Limits, acts: seq<Action>)
    requires Feasible(lim, acts)
    ensures var s := Exec(lim, acts);
            && (TrialOut(lim, s.history) <==> exists t :: OpenTrial(lim, s, t))
            && (forall t, u :: OpenTrial(lim, s, t) && OpenTrial(lim, s, u) ==> t == u)
            && (forall t, ok, at :: t in s.running && Until(s.history, at) ==>
                  !TrialOut(lim, Apply(lim, s, Leave(t, ok, at)).history))
  {
    RunInv(lim, acts);
    var s := Exec(lim, acts);
    forall t, u | OpenTrial(lim, s, t) && OpenTrial(lim, s, u) ensures t == u {
      var i, j := s.running[t], s.running[u];
      if i < j {
        OneTrialPerEpisode(lim, s.history, i, j);
      } else if j < i {
        OneTrialPerEpisode(lim, s.history, j, i);
      }
    }
    forall t, ok, at | t in s.running && Until(s.history, at)
      ensures !TrialOut(lim, Apply(lim, s, Leave(t, ok, at)).history)
    {
      Step(lim, s.history, if ok then Success(at) else Failure(at));
    }
  }

  /** Calls inside: admissions minus completions. */
  function Outstanding(lim: Limits, h: seq<Event>): int {
    if h == [] then 0
    else Outstanding(lim, Prev(h))
         + (if Last(h).Attempt? && Admits(lim, Prev(h), Last(h).at) then 1
            else if Last(h).Success? || Last(h).Failure? then -1 else 0)
  }

  /** At most c calls are ever inside at once, and only admitted calls complete. */
  ghost predicate AtMost(lim: Limits, h: seq<Event>, c: nat) {
    0 <= Outstanding(lim, h) <= c && (h == [] || AtMost(lim, Prev(h), c))
  }

  /** At most c threads are inside at every point of the run. */
  ghost predicate Crowd(lim: Limits, acts: seq<Action>, c: nat)
    requires Feasible(lim, acts)
    decreases |acts|
  {
    |Exec(lim, acts).running| <= c && (acts == [] || Crowd(lim, acts[..|acts| - 1], c))
  }

  /** Threads that never exceed c at a time produce such a history. */
  lemma {:induction false} ThreadsAtMost(lim: Limits, acts: seq<Action>, c: nat)
    requires Feasible(lim, acts) && Crowd(lim, acts, c)
    ensures Outstanding(lim, Exec(lim, acts).history) == |Exec(lim, acts).running|
    ensures AtMost(lim, Exec(lim, acts).history, c)
    decreases |acts|
  {
    if acts != [] {
      var before, a := acts[..|acts| - 1], acts[|acts| - 1];
      ThreadsAtMost(lim, before, c);
      OneMoreAction(lim, Exec(lim, before), a);
    }
  }

  lemma OneMoreAction(lim: Limits, s: Sys, a: Action)
    requires Enabled(s, a) && Outstanding(lim, s.history) == |s.running|
    ensures Outstanding(lim, Apply(lim, s, a).history) == |Apply(lim, s, a).running|
    ensures Prev(Apply(lim, s, a).history) == s.history
  {
    var s' := Apply(lim, s, a);
    var e := Extended(lim, s, a);
    assert Prev(s'.history) == s.history && Last(s'.history) == e;
    if a.Leave? {
      assert s.running.Keys == s'.running.Keys + {a.thread};
    } else if a.Enter? && Admits(lim, s.history, a.at) {
      assert s'.running.Keys == s.running.Keys + {a.thread};
    }
  }

  /** No success and no reset from index n on. */
  ghost predicate Dead(h: seq<Event>, n: nat) {
    forall i :: n <= i < |h| ==> !Clears(h[i])
  }

  /** Calls let through from index n on, while CLOSED and as HALF_OPEN trials. */
  function Closed(lim: Limits, h: seq<Event>, n: nat): nat {
    if |h| <= n then 0
    else Closed(lim, Prev(h), n) + if Last(h).Attempt? && ModeAt(lim, Prev(h), Last(h).at) == CLOSED then 1 else 0
  }

  function Trials(lim: Limits, h: seq<Event>, n: nat): nat {
    if |h| <= n then 0
    else Trials(lim, Prev(h), n)
         + if Last(h).Attempt? && ModeAt(lim, Prev(h), Last(h).at) == HALF_OPEN && !TrialOut(lim, Prev(h)) then 1 else 0
  }

  lemma TrailingGrows(h: seq<Event>, n: nat)
    requires n <= |h| && Dead(h, n)
    ensures Trailing(h) >= Trailing(h[..n])
    decreases |h|
  {
    if n < |h| {
      assert Prev(h)[..n] == h[..n];
      TrailingGrows(Prev(h), n);
    } else {
      assert h[..n] == h;
    }
  }

  /** While the dependency is dead, fewer than threshold failures let at most
      threshold + c - 1 calls through the closed breaker. */
  lemma {:induction false} ClosedBounded(lim: Limits, h: seq<Event>, n: nat, c: nat)
    requires n <= |h| && Dead(h, n) && AtMost(lim, h, c)
    ensures Outstanding(lim, h) == Outstanding(lim, h[..n]) + Closed(lim, h, n) + Trials(lim, h, n)
                                   - (Trailing(h) - Trailing(h[..n]))
    ensures 0 <= Outstanding(lim, h[..n])
    ensures Closed(lim, h, n) == 0
            || (Trailing(h[..n]) < Needed(lim) && Closed(lim, h, n) <= Needed(lim) + c - 1)
    decreases |h|
  {
    if n == |h| {
      assert h[..n] == h;
    } else {
      assert Prev(h)[..n] == h[..n];
      ClosedBounded(lim, Prev(h), n, c);
      TrailingGrows(Prev(h), n);
    }
  }

  /** Slack of one trial if the window starts with the breaker already tripped. */
  function Slack(lim: Limits, g: seq<Event>): nat {
    if Trailing(g) >= Needed(lim) then 1 else 0
  }

  /** Trials beyond the slack. */
  function Spaced(lim: Limits, h: seq<Event>, n: nat): nat
    requires n <= |h|
  {
    if Trials(lim, h, n) <= Slack(lim, h[..n]) then 0 else Trials(lim, h, n) - Slack(lim, h[..n])
  }

  /** k recovery times, one after the other. */
  function Span(k: nat, recovery: real): real {
    if k == 0 then 0.0 else Span(k - 1, recovery) + recovery
  }

  lemma {:induction false} SpanIsProduct(k: nat, recovery: real)
    ensures Span(k, recovery) == k as real * recovery
  {
    if k > 0 {
      SpanIsProduct(k - 1, recovery);
      assert (k - 1) as real * recovery + recovery == k as real * recovery;
    }
  }

  /** Trials are at least the recovery time apart while nothing succeeds. */
  lemma {:induction false} TrialsSpaced(lim: Limits, h: seq<Event>, n: nat, start: real, now: real)
    requires n <= |h| && Dead(h, n) && Until(h, now) && start <= now
    requires forall i :: n <= i < |h| ==> start <= h[i].at
    ensures Span(Spaced(lim, h, n), lim.recovery) <= now - start
    ensures !TrialOut(lim, h) && Trailing(h) >= Needed(lim) && Trials(lim, h, n) >= Slack(lim, h[..n]) ==>
              LastFailure(h) >= start + Span(Spaced(lim, h, n), lim.recovery)
    decreases |h|
  {
    if n == |h| {
      assert h[..n] == h;
    } else {
      assert Prev(h)[..n] == h[..n];
      TrialsSpaced(lim, Prev(h), n, start, Last(h).at);
    }
  }

  lemma FloorBound(k: nat, t: real, r: real)
    requires r > 0.0 && k as real * r <= t
    ensures k <= (t / r).Floor
  {
    assert k as real * r / r == k as real;
    assert k as real <= t / r;
  }

  lemma SpansWithin(k: nat, t: real, recovery: real)
    requires recovery > 0.0 && Span(k, recovery) <= t
    ensures k <= (t / recovery).Floor
  {
    SpanIsProduct(k, recovery);
    FloorBound(k, t, recovery);
  }

  lemma TrialsBounded(lim: Limits, h: seq<Event>, n: nat, start: real, now: real)
    requires n <= |h| && Dead(h, n) && Until(h, now) && lim.recovery > 0.0
    requires start <= now && forall i :: n <= i < |h| ==> start <= h[i].at
    ensures Trials(lim, h, n) <= Slack(lim, h[..n]) + ((now - start) / lim.recovery).Floor
  {
    var k := Spaced(lim, h, n);
    TrialsSpaced(lim, h, n, start, now);
    SpansWithin(k, now - start, lim.recovery);
  }

  /** Bounded load on a dead dependency.  Over any window of a run in which nothing succeeds,
      with at most c calls inside at a time, at most threshold + c - 1 + floor(T / recovery)
      calls are let through; a single caller (c = 1) gets threshold + floor(T / recovery). */
  lemma DeadDependencyLoad(lim: Limits, h: seq<Event>, n: nat, c: nat, start: real, now: real)
    requires n <= |h| && Dead(h, n) && Until(h, now) && AtMost(lim, h, c) && c >= 1 && lim.recovery > 0.0
    requires start <= now && forall i :: n <= i < |h| ==> start <= h[i].at
    ensures Closed(lim, h, n) + Trials(lim, h, n)
            <= (if lim.threshold < 1 then 1 else lim.threshold) + c - 1 + ((now - start) / lim.recovery).Floor
  {
    TrialsBounded(lim, h, n, start, now);
    ClosedBounded(lim, h, n, c);
  }

  /** An admission is of one of the two kinds, so the bound above counts all of them. */
  lemma {:induction false} AdmissionsAreCounted(lim: Limits, h: seq<Event>)
    requires forall i :: 0 <= i < |h| ==> !Completion(h[i]) || h[i].Failure?
    ensures Outstanding(lim, h) == Closed(lim, h, 0) + Trials(lim, h, 0) - Trailing(h)
    decreases |h|
  {
    if h != [] {
      AdmissionsAreCounted(lim, Prev(h));
    }
  }

  lemma {:induction false} TrailingHasLast(h: seq<Event>) returns (j: nat)
    requires Trailing(h) > 0
    ensures LastFailureAt(h, j) && LastFailure(h) == h[j].at
    decreases |h|
  {
    if Last(h).Failure? {
      j := |h| - 1;
    } else {
      j := TrailingHasLast(Prev(h));
    }
  }

  /** Any call of a run that is let through with the threshold reached starts at least the
      recovery time after the last failure that was counted before it. */
  lemma AdmissionWaitsForRecovery(lim: Limits, h: seq<Event>, i: nat) returns (j: nat)
    requires AdmittedAt(lim, h, i) && Trailing(h[..i]) >= 1 && Trailing(h[..i]) >= lim.threshold
    ensures j < i && LastFailureAt(h[..i], j) && h[i].at - h[j].at >= lim.recovery
  {
    j := TrailingHasLast(h[..i]);
  }

  // ---- requests on the wire ----

  /** What the attempts from index n on sent, `sent[i]` being what the attempt at i did. */
  function Requests(h: seq<Event>, n: nat, sent: map<nat, nat>): nat
    decreases |h|
  {
    if |h| <= n then 0
    else
      Requests(Prev(h), n, sent) + if Last(h).Attempt? && (|h| - 1) in sent then sent[|h| - 1] else 0
  }

  /** A refused attempt sends nothing, an admitted one at most `attempts` requests (the contract
      of Clients.BreakerCall). */
  ghost predicate Retried(lim: Limits, h: seq<Event>, n: nat, sent: map<nat, nat>, attempts: nat) {
    forall i :: n <= i < |h| && h[i].Attempt? && i in sent ==>
      sent[i] <= if Admits(lim, h[..i], h[i].at) then attempts else 0
  }

  lemma {:induction false} RequestsPerAdmission(lim: Limits, h: seq<Event>, n: nat, sent: map<nat, nat>, attempts: nat)
    requires Retried(lim, h, n, sent, attempts)
    ensures Requests(h, n, sent) <= attempts * (Closed(lim, h, n) + Trials(lim, h, n))
    decreases |h|
  {
    if n < |h| {
      forall i | n <= i < |Prev(h)| && Prev(h)[i].Attempt? && i in sent
        ensures sent[i] <= if Admits(lim, Prev(h)[..i], Prev(h)[i].at) then attempts else 0
      {
        assert Prev(h)[..i] == h[..i] && Prev(h)[i] == h[i];
      }
      RequestsPerAdmission(lim, Prev(h), n, sent, attempts);
      assert h[..|h| - 1] == Prev(h);
      OneMoreAdmission(attempts, Closed(lim, Prev(h), n) + Trials(lim, Prev(h), n));
    }
  }

  lemma OneMoreAdmission(attempts: nat, k: nat)
    ensures attempts * (k + 1) == attempts * k + attempts
  {
  }

  /** Bounded load on the wire: over any window in which nothing succeeds, with at most c calls
      inside at a time, a dead dependency receives at most attempts times
      threshold + c - 1 + floor(T / recovery) requests. */
  lemma DeadDependencyRequests(lim: Limits, h: seq<Event>, n: nat, c: nat, start: real, now: real,
                               sent: map<nat, nat>, attempts: nat)
    requires n <= |h| && Dead(h, n) && Until(h, now) && AtMost(lim, h, c) && c >= 1 && lim.recovery > 0.0
    requires start <= now && forall i :: n <= i < |h| ==> start <= h[i].at
    requires Retried(lim, h, n, sent, attempts)
    ensures Requests(h, n, sent)
            <= attempts * ((if lim.threshold < 1 then 1 else lim.threshold) + c - 1 + ((now - start) / lim.recovery).Floor)
  {
    var bound := Needed(lim) + c - 1 + ((now - start) / lim.recovery).Floor;
    DeadDependencyLoad(lim, h, n, c, start, now);
    RequestsPerAdmission(lim, h, n, sent, attempts);
    MoreTimes(attempts, Closed(lim, h, n) + Trials(lim, h, n), bound);
  }

  lemma MoreTimes(attempts: nat, x: int, y: int)
    requires x <= y
    ensures attempts * x <= attempts * y
  {
  }
}
