/**
 Retry with exponential backoff: the delay ladder, and the loop that calls a dependency
 until it answers, refuses for good, or the budget is spent.
 */
module Retry {
  import opened Outcomes

  function Power(x: real, n: nat): real {
    if n == 0 then 1.0 else x * Power(x, n - 1)
  }

  function Min(x: real, y: real): real {
    if x <= y then x else y
  }

  function Uncapped(i: nat, baseDelay: real, multiplier: real): real {
    baseDelay * Power(multiplier, i)
  }

  /** The i-th delay in closed form. */
  function Rung(i: nat, baseDelay: real, multiplier: real, maxDelay: real): real {
    Min(Uncapped(i, baseDelay, multiplier), maxDelay)
  }

  /** The un-jittered ladder: one delay fewer than attempts, and none for a single attempt or
      for a budget that is not positive. */
  method BackoffDelays(attempts: int, baseDelay: real, multiplier: real, maxDelay: real) returns (delays: seq<real>)
    ensures |delays| == if attempts <= 1 then 0 else attempts - 1
    ensures forall i :: 0 <= i < |delays| ==> delays[i] == Rung(i, baseDelay, multiplier, maxDelay)
  {
    delays := [];
    var delay := baseDelay;
    var rounds := if attempts - 1 > 0 then attempts - 1 else 0;
    for i := 0 to rounds
      invariant |delays| == i && delay == baseDelay * Power(multiplier, i)
      invariant forall j :: 0 <= j < i ==> delays[j] == Rung(j, baseDelay, multiplier, maxDelay)
    {
      delays := delays + [Min(delay, maxDelay)];
      delay := delay * multiplier;
    }
  }

  lemma {:induction false} PowerAtLeastOne(x: real, n: nat)
    requires x >= 1.0
    ensures Power(x, n) >= 1.0
  {
    if n > 0 {
      PowerAtLeastOne(x, n - 1);
      assert x * Power(x, n - 1) >= 1.0 * Power(x, n - 1);
    }
  }

  lemma {:induction false} PowerNotNegative(x: real, n: nat)
    requires x >= 0.0
    ensures Power(x, n) >= 0.0
  {
    if n > 0 {
      PowerNotNegative(x, n - 1);
    }
  }

  lemma RungNotNegative(i: nat, baseDelay: real, multiplier: real, maxDelay: real)
    requires baseDelay >= 0.0 && multiplier >= 0.0 && maxDelay >= 0.0
    ensures 0.0 <= Rung(i, baseDelay, multiplier, maxDelay) <= maxDelay
  {
    PowerNotNegative(multiplier, i);
  }

  lemma ScaledRises(a: real, x: real, y: real, ax: real, ay: real)
    requires a >= 0.0 && x <= y && ax == a * x && ay == a * y
    ensures ax <= ay
  {
  }

  lemma UncappedRises(i: nat, baseDelay: real, multiplier: real)
    requires baseDelay >= 0.0 && multiplier >= 1.0
    ensures Uncapped(i, baseDelay, multiplier) <= Uncapped(i + 1, baseDelay, multiplier)
  {
    var p, q := Power(multiplier, i), Power(multiplier, i + 1);
    PowerAtLeastOne(multiplier, i);
    assert q == p * multiplier;
    ScaledRises(p, 1.0, multiplier, p, q);
    ScaledRises(baseDelay, p, q, Uncapped(i, baseDelay, multiplier), Uncapped(i + 1, baseDelay, multiplier));
  }

  lemma CapKeepsOrder(x: real, y: real, cap: real)
    requires x <= y
    ensures Min(x, cap) <= Min(y, cap) && (Min(x, cap) == cap ==> Min(y, cap) == cap)
  {
  }

  lemma RungRises(i: nat, baseDelay: real, multiplier: real, maxDelay: real)
    requires baseDelay >= 0.0 && multiplier >= 1.0
    ensures Rung(i, baseDelay, multiplier, maxDelay) <= Rung(i + 1, baseDelay, multiplier, maxDelay)
    ensures Rung(i, baseDelay, multiplier, maxDelay) == maxDelay ==> Rung(i + 1, baseDelay, multiplier, maxDelay) == maxDelay
  {
    UncappedRises(i, baseDelay, multiplier);
    CapKeepsOrder(Uncapped(i, baseDelay, multiplier), Uncapped(i + 1, baseDelay, multiplier), maxDelay);
  }

  /** The ladder never goes down when the multiplier is at least one, and it stays flat at the
      cap once it has reached it. */
  lemma {:induction false} LadderRises(i: nat, j: nat, baseDelay: real, multiplier: real, maxDelay: real)
    requires i <= j && baseDelay >= 0.0 && multiplier >= 1.0
    ensures Rung(i, baseDelay, multiplier, maxDelay) <= Rung(j, baseDelay, multiplier, maxDelay)
    ensures Rung(i, baseDelay, multiplier, maxDelay) == maxDelay ==> Rung(j, baseDelay, multiplier, maxDelay) == maxDelay
    decreases j - i
  {
    if i < j {
      LadderRises(i, j - 1, baseDelay, multiplier, maxDelay);
      RungRises(j - 1, baseDelay, multiplier, maxDelay);
    }
  }

  /** What the loop does with one reply of the dependency. */
  datatype Class =
    | Answer      // fn returned
    | Transient   // fn raised an exception listed in retry_on
    | Fatal       // fn raised anything else

  /** How retry_with_backoff ends: with fn's value, with fn's own exception, or with
      RetriesExhausted chained to the last exception. */
  datatype Verdict<R> = Returned(reply: R) | Reraised(reply: R) | Exhausted(cause: Option<R>)

  /** A dependency: each call sends the same request again and gets whatever reply comes. */
  class Port<Q, R(0)> {
    var log: seq<(Q, R)>

    constructor ()
      ensures log == []
    {
      log := [];
    }

    method Invoke(request: Q) returns (reply: R)
      modifies this
      ensures log == old(log) + [(request, reply)]
    {
      reply := *;
      log := log + [(request, reply)];
    }
  }

  /** These are exactly the calls that a budget of `attempts` lets through: all but the last
      failed transiently, and the loop stopped early only because the last did not. */
  ghost predicate Consumed<Q, R>(classify: R -> Class, attempts: int, calls: seq<(Q, R)>) {
    && |calls| <= (if attempts < 0 then 0 else attempts)
    && (forall i :: 0 <= i < |calls| - 1 ==> classify(calls[i].1) == Transient)
    && (|calls| < attempts ==> calls != [] && classify(calls[|calls| - 1].1) != Transient)
  }

  /** How the loop ends, given the calls it made. */
  function VerdictOf<Q, R>(classify: R -> Class, calls: seq<(Q, R)>): Verdict<R> {
    if calls == [] then Exhausted(None)
    else
      var last := calls[|calls| - 1].1;
      match classify(last)
      case Answer => Returned(last)
      case Fatal => Reraised(last)
      case Transient => Exhausted(Some(last))
  }

  function Sum(xs: seq<real>): real {
    if xs == [] then 0.0 else Sum(xs[..|xs| - 1]) + xs[|xs| - 1]
  }

  /** The delays that a budget of `attempts` may sleep for, un-jittered. */
  function Ladder(attempts: int, baseDelay: real, multiplier: real, maxDelay: real): seq<real> {
    seq(if attempts <= 1 then 0 else attempts - 1, i requires 0 <= i => Rung(i, baseDelay, multiplier, maxDelay))
  }

  /** The ladder of four attempts from one second, doubled each time, under a cap of eight. */
  lemma DefaultLadder()
    ensures Ladder(4, 1.0, 2.0, 8.0) == [1.0, 2.0, 4.0]
  {
    assert Power(2.0, 0) == 1.0 && Power(2.0, 1) == 2.0 && Power(2.0, 2) == 4.0;
  }

  /** Each rung is the one before times the multiplier, under the cap; the first is the base. */
  lemma LadderMultiplies(i: nat, baseDelay: real, multiplier: real, maxDelay: real)
    ensures Rung(0, baseDelay, multiplier, maxDelay) == if baseDelay <= maxDelay then baseDelay else maxDelay
    ensures Uncapped(i + 1, baseDelay, multiplier) == Uncapped(i, baseDelay, multiplier) * multiplier
  {
    assert Power(multiplier, 0) == 1.0;
    assert baseDelay * (multiplier * Power(multiplier, i)) == baseDelay * Power(multiplier, i) * multiplier;
  }

  /** Sleeping at most the rungs, from the first on, is sleeping at most their sum. */
  lemma {:induction false} SleepBounded(sleeps: seq<real>, ladder: seq<real>)
    requires |sleeps| <= |ladder|
    requires forall i :: 0 <= i < |sleeps| ==> sleeps[i] <= ladder[i]
    requires forall i :: 0 <= i < |ladder| ==> 0.0 <= ladder[i]
    ensures Sum(sleeps) <= Sum(ladder)
    decreases |ladder|
  {
    if ladder != [] {
      var shorter := ladder[..|ladder| - 1];
      if |sleeps| == |ladder| {
        SleepBounded(sleeps[..|sleeps| - 1], shorter);
      } else {
        SleepBounded(sleeps, shorter);
      }
    }
  }

  /** Sleeps that keep to their rungs never add up to more than the whole ladder. */
  lemma SleepsFitLadder(sleeps: seq<real>, attempts: int, baseDelay: real, multiplier: real, maxDelay: real)
    requires baseDelay >= 0.0 && multiplier >= 0.0 && maxDelay >= 0.0
    requires |sleeps| <= if attempts <= 1 then 0 else attempts - 1
    requires forall i :: 0 <= i < |sleeps| ==> sleeps[i] <= Rung(i, baseDelay, multiplier, maxDelay)
    ensures Sum(sleeps) <= Sum(Ladder(attempts, baseDelay, multiplier, maxDelay))
  {
    var ladder := Ladder(attempts, baseDelay, multiplier, maxDelay);
    forall i | 0 <= i < |ladder| ensures 0.0 <= ladder[i] {
      RungNotNegative(i, baseDelay, multiplier, maxDelay);
    }
    SleepBounded(sleeps, ladder);
  }

  /** retry_with_backoff: which calls are made, how it ends, and how long it sleeps, each time and
      in all. */
  method RetryWithBackoff<Q, R(0)>(port: Port<Q, R>, request: Q, classify: R -> Class, attempts: int,
                                   baseDelay: real, multiplier: real, maxDelay: real, jitter: bool)
      returns (verdict: Verdict<R>, sleeps: seq<real>, ghost calls: seq<(Q, R)>)
    requires baseDelay >= 0.0 && multiplier >= 0.0 && maxDelay >= 0.0
    modifies port
    ensures port.log == old(port.log) + calls
    ensures forall i :: 0 <= i < |calls| ==> calls[i].0 == request
    ensures Consumed(classify, attempts, calls) && verdict == VerdictOf(classify, calls)
    ensures |sleeps| == if calls == [] then 0 else |calls| - 1
    ensures forall i :: 0 <= i < |sleeps| ==> 0.0 <= sleeps[i] <= Rung(i, baseDelay, multiplier, maxDelay)
    ensures !jitter ==> forall i :: 0 <= i < |sleeps| ==> sleeps[i] == Rung(i, baseDelay, multiplier, maxDelay)
    ensures Sum(sleeps) <= Sum(Ladder(attempts, baseDelay, multiplier, maxDelay))
  {
    verdict, sleeps, calls := RetryLoop(port, request, classify, attempts, baseDelay, multiplier, maxDelay, jitter);
    SleepsFitLadder(sleeps, attempts, baseDelay, multiplier, maxDelay);
  }

  /** Its loop. */
  method RetryLoop<Q, R(0)>(port: Port<Q, R>, request: Q, classify: R -> Class, attempts: int,
                            baseDelay: real, multiplier: real, maxDelay: real, jitter: bool)
      returns (verdict: Verdict<R>, sleeps: seq<real>, ghost calls: seq<(Q, R)>)
    requires baseDelay >= 0.0 && multiplier >= 0.0 && maxDelay >= 0.0
    modifies port
    ensures port.log == old(port.log) + calls
    ensures forall i :: 0 <= i < |calls| ==> calls[i].0 == request
    ensures Consumed(classify, attempts, calls) && verdict == VerdictOf(classify, calls)
    ensures |sleeps| == if calls == [] then 0 else |calls| - 1
    ensures forall i :: 0 <= i < |sleeps| ==> 0.0 <= sleeps[i] <= Rung(i, baseDelay, multiplier, maxDelay)
    ensures !jitter ==> forall i :: 0 <= i < |sleeps| ==> sleeps[i] == Rung(i, baseDelay, multiplier, maxDelay)
  {
    var delays := BackoffDelays(attempts, baseDelay, multiplier, maxDelay);
    sleeps, calls := [], [];
    var lastError: Option<R> := None;
    var attempt := 1;
    while attempt <= attempts
      invariant 1 <= attempt && attempt <= (if attempts < 0 then 0 else attempts) + 1
      invariant |calls| == attempt - 1 == |sleeps| && port.log == old(port.log) + calls
      invariant attempts >= 1 ==> attempt <= attempts
      invariant forall i :: 0 <= i < |calls| ==> calls[i].0 == request && classify(calls[i].1) == Transient
      invariant lastError == if calls == [] then None else Some(calls[|calls| - 1].1)
      invariant forall i :: 0 <= i < |sleeps| ==> 0.0 <= sleeps[i] <= Rung(i, baseDelay, multiplier, maxDelay)
      invariant !jitter ==> forall i :: 0 <= i < |sleeps| ==> sleeps[i] == Rung(i, baseDelay, multiplier, maxDelay)
      decreases attempts - attempt
    {
      var reply := port.Invoke(request);
      calls := calls + [(request, reply)];
      if classify(reply) == Answer {
        return Returned(reply), sleeps, calls;
      } else if classify(reply) == Fatal {
        return Reraised(reply), sleeps, calls;
      }
      lastError := Some(reply);
      if attempt == attempts {
        break;
      }
      var delay := delays[attempt - 1];
      RungNotNegative(attempt - 1, baseDelay, multiplier, maxDelay);
      if jitter {
        var drawn: real := *;
        if 0.0 <= drawn <= delay {
          delay := drawn;
        }
      }
      sleeps := sleeps + [delay];
      attempt := attempt + 1;
    }
    verdict := Exhausted(lastError);
  }

  /** How many calls a script of replies lasts: up to the first that is not transient, within
      the budget. */
  function Stop<Q, R>(classify: R -> Class, attempts: int, script: seq<(Q, R)>): nat {
    if attempts <= 0 || script == [] then 0
    else if classify(script[0].1) != Transient then 1
    else 1 + Stop(classify, attempts - 1, script[1..])
  }

  /** Given everything the dependency would reply, the calls the loop makes are determined. */
  lemma {:induction false} ConsumedIsDetermined<Q, R>(classify: R -> Class, attempts: int, script: seq<(Q, R)>, n: nat)
    requires n <= |script| && Consumed(classify, attempts, script[..n])
    ensures n == Stop(classify, attempts, script)
    decreases n
  {
    if n > 0 {
      assert script[..n][0] == script[0];
      if n > 1 {
        var shorter := script[1..][..n - 1];
        assert shorter == script[..n][1..];
        ConsumedIsDetermined(classify, attempts - 1, script[1..], n - 1);
      } else if classify(script[0].1) == Transient {
        assert attempts == 1;
      }
    }
  }
}
