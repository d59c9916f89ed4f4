/**
 The circuit breaker.  Its observable behaviour is a pure function of the history of what
 happened to it; the four stored fields, updated lazily and under a lock, are proved to
 represent exactly that function.
 */
module Breaker {
  /** One atomic step on the breaker, with the reading of its monotonic clock. */
  datatype Event =
    | Attempt(at: real)   // _before_call
    | Success(at: real)   // _on_success
    | Failure(at: real)   // _on_failure
    | Probe(at: real)     // the state property
    | Reset(at: real)     // reset

  datatype Mode = CLOSED | OPEN | HALF_OPEN

  datatype Limits = Limits(threshold: int, recovery: real)

  /** A failure is compared with the threshold after it has been counted, so a threshold
      below one acts like one. */
  function Needed(lim: Limits): (n: nat)
    ensures lim.threshold >= 1 ==> n == lim.threshold
    ensures lim.threshold < 1 ==> n == 1
  {
    if lim.threshold < 1 then 1 else lim.threshold
  }

  function Prev(h: seq<Event>): seq<Event>
    requires h != []
  {
    h[..|h| - 1]
  }

  function Last(h: seq<Event>): Event
    requires h != []
  {
    h[|h| - 1]
  }

  predicate Clears(e: Event) {
    e.Success? || e.Reset?
  }

  predicate Completion(e: Event) {
    Clears(e) || e.Failure?
  }

  /** Failures since the last success. */
  function Trailing(h: seq<Event>): nat {
    if h == [] then 0
    else if Clears(Last(h)) then 0
    else Trailing(Prev(h)) + if Last(h).Failure? then 1 else 0
  }

  /** When the last failure was counted. */
  function LastFailure(h: seq<Event>): real {
    if h == [] then 0.0 else if Last(h).Failure? then Last(h).at else LastFailure(Prev(h))
  }

  function ModeAt(lim: Limits, h: seq<Event>, now: real): Mode {
    if Trailing(h) < Needed(lim) then CLOSED
    else if now - LastFailure(h) >= lim.recovery then HALF_OPEN
    else OPEN
  }

  /** A call was let through in HALF_OPEN and nothing has completed since. */
  predicate TrialOut(lim: Limits, h: seq<Event>) {
    h != [] && !Completion(Last(h)) &&
    (TrialOut(lim, Prev(h)) || (Last(h).Attempt? && ModeAt(lim, Prev(h), Last(h).at) == HALF_OPEN))
  }

  /** Whether an attempt is let through. */
  predicate Admits(lim: Limits, h: seq<Event>, now: real) {
    ModeAt(lim, h, now) == CLOSED || (ModeAt(lim, h, now) == HALF_OPEN && !TrialOut(lim, h))
  }

  /** The readings in the history never go back, and none lies in the future. */
  ghost predicate Until(h: seq<Event>, now: real) {
    h == [] || (Last(h).at <= now && Until(Prev(h), Last(h).at))
  }

  /** What one more event does to everything that is read off the history. */
  lemma Step(lim: Limits, h: seq<Event>, e: Event)
    ensures Prev(h + [e]) == h && Last(h + [e]) == e
    ensures Trailing(h + [e]) == if Clears(e) then 0 else if e.Failure? then Trailing(h) + 1 else Trailing(h)
    ensures LastFailure(h + [e]) == if e.Failure? then e.at else LastFailure(h)
    ensures TrialOut(lim, h + [e]) ==
            (!Completion(e) && (TrialOut(lim, h) || (e.Attempt? && ModeAt(lim, h, e.at) == HALF_OPEN)))
    ensures Until(h, e.at) ==> Until(h + [e], e.at)
  {
    assert Prev(h + [e]) == h;
  }

  // ---- the same, read off the history without recursion ----

  predicate ClearedAfter(h: seq<Event>, i: nat) {
    exists j :: i < j < |h| && Clears(h[j])
  }

  /** The failures that no success and no reset has followed. */
  function StandingFailures(h: seq<Event>): set<nat> {
    set i: nat | i < |h| && h[i].Failure? && !ClearedAfter(h, i)
  }

  lemma {:induction false} TrailingCounts(h: seq<Event>)
    ensures Trailing(h) == |StandingFailures(h)|
    decreases |h|
  {
    if h == [] {
      assert StandingFailures(h) == {};
    } else {
      TrailingCounts(Prev(h));
      StandingAfter(Prev(h), Last(h));
      assert Prev(h) + [Last(h)] == h;
    }
  }

  lemma ClearedLater(h: seq<Event>, e: Event, i: nat)
    requires i < |h|
    ensures ClearedAfter(h + [e], i) <==> ClearedAfter(h, i) || Clears(e)
  {
    var h' := h + [e];
    assert h'[|h|] == e;
    if ClearedAfter(h, i) {
      var j :| i < j < |h| && Clears(h[j]);
      assert Clears(h'[j]);
    }
  }

  lemma StandingMembers(h: seq<Event>, e: Event, i: nat)
    ensures i in StandingFailures(h + [e]) <==> (i in StandingFailures(h) && !Clears(e)) || (i == |h| && e.Failure?)
  {
    if i < |h| {
      ClearedLater(h, e, i);
    }
  }

  lemma StandingAfter(h: seq<Event>, e: Event)
    ensures |StandingFailures(h + [e])| == if Clears(e) then 0 else |StandingFailures(h)| + if e.Failure? then 1 else 0
  {
    var was, now := StandingFailures(h), StandingFailures(h + [e]);
    forall i: nat ensures i in now <==> (i in was && !Clears(e)) || (i == |h| && e.Failure?) {
      StandingMembers(h, e, i);
    }
    OneMoreStands(was, now, |h|, Clears(e), e.Failure?);
  }

  lemma OneMoreStands(was: set<nat>, now: set<nat>, n: nat, cleared: bool, failed: bool)
    requires n !in was && !(cleared && failed)
    requires forall i: nat :: i in now <==> (i in was && !cleared) || (i == n && failed)
    ensures |now| == if cleared then 0 else |was| + if failed then 1 else 0
  {
    if cleared {
      assert now == {};
    } else if failed {
      assert now == was + {n};
    } else {
      assert now == was;
    }
  }

  /** The last failure, which nothing has cleared since. */
  ghost predicate LastFailureAt(h: seq<Event>, j: nat) {
    j < |h| && h[j].Failure? && forall k :: j < k < |h| ==> !h[k].Failure? && !Clears(h[k])
  }

  lemma {:induction false} LastFailureIs(h: seq<Event>, j: nat)
    requires LastFailureAt(h, j)
    ensures LastFailure(h) == h[j].at
    decreases |h|
  {
    if j < |h| - 1 {
      assert LastFailureAt(Prev(h), j);
      LastFailureIs(Prev(h), j);
    }
  }

  /** What the mode means: CLOSED if and only if fewer than max(1, threshold) failures stand, and
      otherwise HALF_OPEN if and only if the recovery time has passed since the last of them. */
  lemma ModeMeaning(lim: Limits, h: seq<Event>, now: real)
    ensures ModeAt(lim, h, now) == CLOSED <==> |StandingFailures(h)| < (if lim.threshold < 1 then 1 else lim.threshold)
    ensures forall j: nat :: LastFailureAt(h, j) && ModeAt(lim, h, now) != CLOSED ==>
              (ModeAt(lim, h, now) == HALF_OPEN <==> now - h[j].at >= lim.recovery)
  {
    TrailingCounts(h);
    forall j: nat | LastFailureAt(h, j) && ModeAt(lim, h, now) != CLOSED
      ensures ModeAt(lim, h, now) == HALF_OPEN <==> now - h[j].at >= lim.recovery
    {
      LastFailureIs(h, j);
    }
  }

  /** A trial is out if and only if some attempt was let through in HALF_OPEN and nothing has
      completed since. */
  lemma {:induction false} TrialOutMeaning(lim: Limits, h: seq<Event>)
    ensures TrialOut(lim, h) <==> exists i: nat :: LetThroughHalfOpen(lim, h, i)
    decreases |h|
  {
    if h != [] {
      TrialOutMeaning(lim, Prev(h));
      assert forall i: nat :: i < |h| - 1 ==> Prev(h)[..i] == h[..i];
      assert h[..|h| - 1] == Prev(h);
      if Completion(Last(h)) {
        assert forall i: nat :: !LetThroughHalfOpen(lim, h, i);
      } else {
        forall i: nat | i < |h| - 1 ensures LetThroughHalfOpen(lim, h, i) <==> LetThroughHalfOpen(lim, Prev(h), i) {
          HalfOpenKept(lim, h, i);
        }
        assert LetThroughHalfOpen(lim, h, |h| - 1) <==> Last(h).Attempt? && ModeAt(lim, Prev(h), Last(h).at) == HALF_OPEN;
      }
    }
  }

  lemma HalfOpenKept(lim: Limits, h: seq<Event>, i: nat)
    requires h != [] && i < |h| - 1 && !Completion(Last(h))
    ensures LetThroughHalfOpen(lim, h, i) <==> LetThroughHalfOpen(lim, Prev(h), i)
  {
    assert Prev(h)[..i] == h[..i];
    assert forall k :: 0 <= k < |h| - 1 ==> Prev(h)[k] == h[k];
  }

  ghost predicate LetThroughHalfOpen(lim: Limits, h: seq<Event>, i: nat) {
    && i < |h| && h[i].Attempt? && ModeAt(lim, h[..i], h[i].at) == HALF_OPEN
    && forall k :: i <= k < |h| ==> !Completion(h[k])
  }

  class CircuitBreaker {
    const failureThreshold: int
    const recoverySeconds: real
    var state: Mode
    var consecutiveFailures: nat
    var openedAt: real
    var halfOpenInFlight: bool
    var now: real               // what its clock reads
    ghost var history: seq<Event>

    ghost function Bounds(): Limits {
      Limits(failureThreshold, recoverySeconds)
    }

    /** The stored fields represent the history. */
    ghost predicate Valid()
      reads this
    {
      && Until(history, now)
      && consecutiveFailures == Trailing(history)
      && (state == CLOSED <==> Trailing(history) < Needed(Bounds()))
      && (state != CLOSED ==> openedAt == LastFailure(history))
      && (state == HALF_OPEN ==> now - openedAt >= recoverySeconds)
      && halfOpenInFlight == TrialOut(Bounds(), history)
      && (halfOpenInFlight ==> state == HALF_OPEN)
    }

    constructor (failureThreshold: int, recoverySeconds: real, now: real)
      ensures Valid() && history == [] && this.now == now
      ensures Bounds() == Limits(failureThreshold, recoverySeconds)
    {
      this.failureThreshold := failureThreshold;
      this.recoverySeconds := recoverySeconds;
      this.now := now;
      state := CLOSED;
      consecutiveFailures := 0;
      openedAt := 0.0;
      halfOpenInFlight := false;
      history := [];
    }

    method MaybeHalfOpen()
      requires Valid()
      modifies `state, `halfOpenInFlight
      ensures Valid() && state == ModeAt(Bounds(), history, now)
    {
      if state == OPEN && now - openedAt >= recoverySeconds {
        state := HALF_OPEN;
        halfOpenInFlight := false;
      }
    }

    /** The `state` property: what a reader sees is the mode of the history. */
    method State() returns (s: Mode)
      requires Valid()
      modifies this
      ensures Valid() && now == old(now) && history == old(history) + [Probe(now)]
      ensures s == ModeAt(Bounds(), old(history), now)
      ensures s == CLOSED <==>
              |StandingFailures(old(history))| < (if failureThreshold < 1 then 1 else failureThreshold)
    {
      ModeMeaning(Bounds(), history, now);
      MaybeHalfOpen();
      s := state;
      Step(Bounds(), history, Probe(now));
      history := history + [Probe(now)];
    }

    /** `_before_call`; false is the CircuitOpenError. */
    method BeforeCall() returns (admitted: bool)
      requires Valid()
      modifies this
      ensures Valid() && now == old(now) && history == old(history) + [Attempt(now)]
      ensures admitted == Admits(Bounds(), old(history), now)
      ensures |StandingFailures(old(history))| < (if failureThreshold < 1 then 1 else failureThreshold) ==> admitted
    {
      ModeMeaning(Bounds(), history, now);
      MaybeHalfOpen();
      admitted := true;
      if state == OPEN {
        admitted := false;
      } else if state == HALF_OPEN {
        if halfOpenInFlight {
          admitted := false;
        } else {
          halfOpenInFlight := true;
        }
      }
      Step(Bounds(), history, Attempt(now));
      history := history + [Attempt(now)];
    }

    method OnSuccess()
      requires Valid()
      modifies this
      ensures Valid() && now == old(now) && history == old(history) + [Success(now)]
      ensures state == CLOSED && consecutiveFailures == 0 && !halfOpenInFlight
    {
      state := CLOSED;
      consecutiveFailures := 0;
      halfOpenInFlight := false;
      Step(Bounds(), history, Success(now));
      history := history + [Success(now)];
    }

    method OnFailure()
      requires Valid()
      modifies this
      ensures Valid() && now == old(now) && history == old(history) + [Failure(now)]
    {
      consecutiveFailures := consecutiveFailures + 1;
      halfOpenInFlight := false;
      var shouldOpen := state == HALF_OPEN || consecutiveFailures >= failureThreshold;
      if shouldOpen && state != OPEN {
        state := OPEN;
        openedAt := now;
      } else if shouldOpen {
        openedAt := now;
      }
      Step(Bounds(), history, Failure(now));
      history := history + [Failure(now)];
    }

    method ForceClosed()
      requires Valid()
      modifies this
      ensures Valid() && now == old(now) && history == old(history) + [Reset(now)]
      ensures state == CLOSED && consecutiveFailures == 0 && !halfOpenInFlight
    {
      state := CLOSED;
      consecutiveFailures := 0;
      halfOpenInFlight := false;
      Step(Bounds(), history, Reset(now));
      history := history + [Reset(now)];
    }

    /** Time passes, at least `seconds`, and other threads use the breaker meanwhile.  The body
        lets only the time pass; callers know no more than the contract. */
    method Elapse(seconds: real)
      requires Valid() && seconds >= 0.0
      modifies this
      ensures Valid() && now >= old(now) + seconds && old(history) <= history
    {
      now := now + seconds;
    }
  }

  /** The history as it would be had nobody ever read the state. */
  function WithoutProbes(h: seq<Event>): seq<Event> {
    if h == [] then []
    else WithoutProbes(Prev(h)) + if Last(h).Probe? then [] else [Last(h)]
  }

  lemma {:induction false} ProbesDropOut(lim: Limits, h: seq<Event>)
    ensures Trailing(WithoutProbes(h)) == Trailing(h) && LastFailure(WithoutProbes(h)) == LastFailure(h)
    ensures TrialOut(lim, WithoutProbes(h)) == TrialOut(lim, h)
    decreases |h|
  {
    if h != [] {
      var before, e := Prev(h), Last(h);
      var kept := WithoutProbes(before);
      ProbesDropOut(lim, before);
      assert before + [e] == h;
      Step(lim, before, e);
      if e.Probe? {
        assert WithoutProbes(h) == kept;
      } else {
        assert WithoutProbes(h) == kept + [e];
        Step(lim, kept, e);
        assert ModeAt(lim, kept, e.at) == ModeAt(lim, before, e.at);
      }
    }
  }

  /** Reading the state never changes a later admission, although the read may store a
      transition: what is admitted, and what is observed, is the same without the reads. */
  lemma ProbesChangeNothing(lim: Limits, h: seq<Event>, now: real)
    ensures ModeAt(lim, WithoutProbes(h), now) == ModeAt(lim, h, now)
    ensures Admits(lim, WithoutProbes(h), now) == Admits(lim, h, now)
  {
    ProbesDropOut(lim, h);
  }

  ghost predicate NoCompletion(h: seq<Event>) {
    forall i :: 0 <= i < |h| ==> !Completion(h[i])
  }

  /** Once a trial is out, the breaker refuses everybody until some call completes; a call
      that never does would leave it refusing for good. */
  lemma {:induction false} RefusedWhileTrialOut(lim: Limits, h: seq<Event>, g: seq<Event>, now: real)
    requires TrialOut(lim, h) && Trailing(h) >= Needed(lim) && NoCompletion(g)
    ensures TrialOut(lim, h + g) && !Admits(lim, h + g, now)
    ensures Trailing(h + g) == Trailing(h)
    decreases |g|
  {
    if g == [] {
      assert h + g == h;
    } else {
      assert Prev(h + g) == h + Prev(g);
      RefusedWhileTrialOut(lim, h, Prev(g), now);
    }
  }

  /** A trial can only be out once the threshold was reached. */
  lemma {:induction false} TrialNeedsFailures(lim: Limits, h: seq<Event>)
    requires TrialOut(lim, h)
    ensures Trailing(h) >= Needed(lim)
    decreases |h|
  {
    if TrialOut(lim, Prev(h)) {
      TrialNeedsFailures(lim, Prev(h));
    }
  }

  /** The attempt at index i was let through as the trial of a HALF_OPEN episode. */
  ghost predicate TrialAt(lim: Limits, h: seq<Event>, i: nat) {
    i < |h| && h[i].Attempt? && ModeAt(lim, h[..i], h[i].at) == HALF_OPEN && !TrialOut(lim, h[..i])
  }

  /** One trial per episode: between two calls let through in HALF_OPEN some call completed. */
  lemma OneTrialPerEpisode(lim: Limits, h: seq<Event>, i: nat, j: nat)
    requires i < j && TrialAt(lim, h, i) && TrialAt(lim, h, j)
    ensures exists k :: i < k < j && Completion(h[k])
  {
    if forall k :: i < k < j ==> !Completion(h[k]) {
      var base, rest := h[..i + 1], h[i + 1..j];
      assert Prev(base) == h[..i];
      assert base + rest == h[..j];
      TrialNeedsFailures(lim, base);
      RefusedWhileTrialOut(lim, base, rest, h[j].at);
    }
  }
}
