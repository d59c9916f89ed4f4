/**
 The bulkhead: a semaphore of permits and a counter beside it, used by any number of threads
 whose steps interleave freely.
 */
module Bulkheads {
  type ThreadId = nat

  /** Where a thread is inside `call`; a thread that is not listed holds no permit. */
  datatype Place =
    | Acquired   // has a permit, not yet counted
    | Inside     // counted, running fn
    | Leaving    // fn returned or raised, counted out, permit not yet given back

  datatype Sys = Sys(capacity: nat, permits: int, inUse: int, threads: map<ThreadId, Place>)

  datatype Action = Acquire(t: ThreadId) | CountIn(t: ThreadId) | CountOut(t: ThreadId) | Free(t: ThreadId)

  predicate Enabled(s: Sys, a: Action) {
    match a
    case Acquire(t) => t !in s.threads && s.permits > 0
    case CountIn(t) => t in s.threads && s.threads[t] == Acquired
    case CountOut(t) => t in s.threads && s.threads[t] == Inside
    case Free(t) => t in s.threads && s.threads[t] == Leaving
  }

  function Apply(s: Sys, a: Action): Sys
    requires Enabled(s, a)
  {
    match a
    case Acquire(t) => s.(permits := s.permits - 1, threads := s.threads[t := Acquired])
    case CountIn(t) => s.(inUse := s.inUse + 1, threads := s.threads[t := Inside])
    case CountOut(t) => s.(inUse := s.inUse - 1, threads := s.threads[t := Leaving])
    case Free(t) => s.(permits := s.permits + 1, threads := s.threads - {t})
  }

  predicate Feasible(s: Sys, acts: seq<Action>)
    decreases |acts|, 0
  {
    acts == [] || (Feasible(s, acts[..|acts| - 1]) && Enabled(Exec(s, acts[..|acts| - 1]), acts[|acts| - 1]))
  }

  function Exec(s: Sys, acts: seq<Action>): Sys
    requires Feasible(s, acts)
    decreases |acts|, 1
  {
    if acts == [] then s else Apply(Exec(s, acts[..|acts| - 1]), acts[|acts| - 1])
  }

  function Start(capacity: nat): Sys {
    Sys(capacity, capacity, 0, map[])
  }

  function InsideSet(s: Sys): set<ThreadId> {
    set t | t in s.threads && s.threads[t] == Inside
  }

  ghost predicate Inv(s: Sys) {
    s.permits + |s.threads| == s.capacity && s.inUse == |InsideSet(s)|
  }

  /** Holders change by the thread that acquires or frees. */
  lemma HoldersCounted(s: Sys, a: Action)
    requires Enabled(s, a)
    ensures |Apply(s, a).threads| == |s.threads| + if a.Acquire? then 1 else if a.Free? then -1 else 0
  {
    var threads, threads' := s.threads.Keys, Apply(s, a).threads.Keys;
    assert |threads| == |s.threads| && |threads'| == |Apply(s, a).threads|;
    if a.Acquire? {
      assert threads' == threads + {a.t};
    } else if a.Free? {
      assert threads' == threads - {a.t};
    } else {
      assert threads' == threads;
    }
  }

  /** The threads inside change by the thread that is counted in or out. */
  lemma InsideChanges(s: Sys, a: Action)
    requires Enabled(s, a)
    ensures InsideSet(Apply(s, a)) ==
            if a.CountIn? then InsideSet(s) + {a.t} else if a.CountOut? then InsideSet(s) - {a.t} else InsideSet(s)
    ensures a.t in InsideSet(s) <==> a.CountOut?
  {
    var threads, threads' := s.threads, Apply(s, a).threads;
    assert forall t :: t != a.t ==> ((t in threads' && threads'[t] == Inside) <==> (t in threads && threads[t] == Inside));
  }

  lemma InsideCounted(s: Sys, a: Action)
    requires Enabled(s, a)
    ensures |InsideSet(Apply(s, a))| == |InsideSet(s)| + if a.CountIn? then 1 else if a.CountOut? then -1 else 0
  {
    InsideChanges(s, a);
    Resized(InsideSet(s), InsideSet(Apply(s, a)), a.t);
  }

  lemma Resized(before: set<ThreadId>, after: set<ThreadId>, t: ThreadId)
    ensures after == before + {t} && t !in before ==> |after| == |before| + 1
    ensures after == before - {t} && t in before ==> |after| == |before| - 1
  {
  }

  lemma StepInv(s: Sys, a: Action)
    requires Enabled(s, a) && Inv(s)
    ensures Inv(Apply(s, a)) && Apply(s, a).capacity == s.capacity
  {
    HoldersCounted(s, a);
    InsideCounted(s, a);
  }

  lemma {:induction false} RunInv(capacity: nat, acts: seq<Action>)
    requires Feasible(Start(capacity), acts)
    ensures Inv(Exec(Start(capacity), acts)) && Exec(Start(capacity), acts).capacity == capacity
    decreases |acts|
  {
    if acts != [] {
      RunInv(capacity, acts[..|acts| - 1]);
      StepInv(Exec(Start(capacity), acts[..|acts| - 1]), acts[|acts| - 1]);
    } else {
      assert InsideSet(Start(capacity)) == {};
    }
  }

  lemma Subset<T>(a: set<T>, b: set<T>)
    requires a <= b
    ensures |a| <= |b|
  {
    assert b == a + (b - a);
  }

  /** Conservation, in every interleaving: free permits and holders add up to the capacity,
      the counter counts the threads inside and never more than the holders, no more threads
      than the capacity are inside, and giving a permit back never exceeds the bound that the
      bounded semaphore checks. */
  lemma PermitsConserved(capacity: nat, acts: seq<Action>)
    requires Feasible(Start(capacity), acts)
    ensures var s := Exec(Start(capacity), acts);
            && s.permits >= 0 && s.permits + |s.threads| == capacity
            && s.inUse == |InsideSet(s)| && 0 <= s.inUse <= |s.threads| <= capacity
            && forall t: ThreadId :: Enabled(s, Free(t)) ==> s.permits < capacity
  {
    RunInv(capacity, acts);
    var s := Exec(Start(capacity), acts);
    Subset(InsideSet(s), s.threads.Keys);
    assert |s.threads.Keys| == |s.threads|;
    PermitsNeverNegative(capacity, acts);
    forall t: ThreadId | Enabled(s, Free(t)) ensures s.permits < capacity {
      Subset({t}, s.threads.Keys);
    }
  }

  lemma {:induction false} PermitsNeverNegative(capacity: nat, acts: seq<Action>)
    requires Feasible(Start(capacity), acts)
    ensures Exec(Start(capacity), acts).permits >= 0
    decreases |acts|
  {
    if acts != [] {
      PermitsNeverNegative(capacity, acts[..|acts| - 1]);
    }
  }

  function Taken(acts: seq<Action>, t: ThreadId): nat {
    if acts == [] then 0 else Taken(acts[..|acts| - 1], t) + if acts[|acts| - 1] == Acquire(t) then 1 else 0
  }

  function Freed(acts: seq<Action>, t: ThreadId): nat {
    if acts == [] then 0 else Freed(acts[..|acts| - 1], t) + if acts[|acts| - 1] == Free(t) then 1 else 0
  }

  /** No permit is given back twice: each thread has given back every permit it took, except
      the one it holds now. */
  lemma {:induction false} FreedOnce(capacity: nat, acts: seq<Action>, t: ThreadId)
    requires Feasible(Start(capacity), acts)
    ensures Taken(acts, t) == Freed(acts, t) + if t in Exec(Start(capacity), acts).threads then 1 else 0
    decreases |acts|
  {
    if acts != [] {
      FreedOnce(capacity, acts[..|acts| - 1], t);
    }
  }

  lemma FeasiblePrefix(s0: Sys, acts: seq<Action>, n: nat)
    requires Feasible(s0, acts) && n <= |acts|
    ensures Feasible(s0, acts[..n])
    decreases |acts|
  {
    if n < |acts| {
      assert acts[..|acts| - 1][..n] == acts[..n];
      FeasiblePrefix(s0, acts[..|acts| - 1], n);
    } else {
      assert acts[..n] == acts;
    }
  }

  lemma {:induction false} OthersLeaveThread(s0: Sys, acts: seq<Action>, n: nat, t: ThreadId)
    requires Feasible(s0, acts) && n <= |acts| && forall i :: n <= i < |acts| ==> acts[i].t != t
    ensures Feasible(s0, acts[..n])
    ensures t in Exec(s0, acts).threads <==> t in Exec(s0, acts[..n]).threads
    ensures t in Exec(s0, acts).threads ==> Exec(s0, acts).threads[t] == Exec(s0, acts[..n]).threads[t]
    decreases |acts|
  {
    FeasiblePrefix(s0, acts, n);
    if n == |acts| {
      assert acts[..n] == acts;
    } else {
      assert acts[..|acts| - 1][..n] == acts[..n];
      OthersLeaveThread(s0, acts[..|acts| - 1], n, t);
    }
  }

  /** The shared object.  Each of the four steps is atomic; between them the other threads take
      any number of theirs. */
  class Bulkhead {
    const maxConcurrency: nat
    var permits: int
    var inUse: int
    ghost var threads: map<ThreadId, Place>
    ghost var trace: seq<Action>

    ghost function Now(): Sys
      reads this
    {
      Sys(maxConcurrency, permits, inUse, threads)
    }

    ghost predicate Valid()
      reads this
    {
      Feasible(Start(maxConcurrency), trace) && Now() == Exec(Start(maxConcurrency), trace)
    }

    constructor (maxConcurrency: nat)
      ensures Valid() && threads == map[] && this.maxConcurrency == maxConcurrency
    {
      this.maxConcurrency := maxConcurrency;
      permits, inUse, threads, trace := maxConcurrency, 0, map[], [];
    }

    /** The other threads step; the body takes no step, callers only know the contract. */
    method Others(me: ThreadId)
      requires Valid()
      modifies this
      ensures Valid() && old(trace) <= trace
      ensures forall i :: |old(trace)| <= i < |trace| ==> trace[i].t != me
    {
    }

    method Interleave(me: ThreadId)
      requires Valid()
      modifies this
      ensures Valid() && old(trace) <= trace
      ensures me in threads <==> me in old(threads)
      ensures me in threads ==> threads[me] == old(threads)[me]
    {
      ghost var n := |trace|;
      Others(me);
      OthersLeaveThread(Start(maxConcurrency), trace, n, me);
      assert trace[..n] == old(trace);
    }

    lemma Recorded(before: seq<Action>, a: Action)
      requires Feasible(Start(maxConcurrency), before) && Enabled(Exec(Start(maxConcurrency), before), a)
      ensures Feasible(Start(maxConcurrency), before + [a])
      ensures Exec(Start(maxConcurrency), before + [a]) == Apply(Exec(Start(maxConcurrency), before), a)
    {
      assert (before + [a])[..|before + [a]| - 1] == before;
    }

    /** Take a permit and be counted in; false is the BulkheadFullError after a wait that did
        not produce a permit. */
    method Enter(me: ThreadId) returns (entered: bool)
      requires Valid() && me !in threads
      modifies this
      ensures Valid() && old(trace) <= trace
      ensures entered ==> me in threads && threads[me] == Inside
      ensures !entered ==> me !in threads && permits <= 0
    {
      Interleave(me);
      entered := permits > 0;
      if !entered {
        return;
      }
      Recorded(trace, Acquire(me));
      permits, threads, trace := permits - 1, threads[me := Acquired], trace + [Acquire(me)];
      Interleave(me);
      Recorded(trace, CountIn(me));
      inUse, threads, trace := inUse + 1, threads[me := Inside], trace + [CountIn(me)];
    }

    /** The finally block: counted out, permit given back, whatever fn did. */
    method Leave(me: ThreadId)
      requires Valid() && me in threads && threads[me] == Inside
      modifies this
      ensures Valid() && old(trace) <= trace && me !in threads
    {
      Interleave(me);
      Recorded(trace, CountOut(me));
      inUse, threads, trace := inUse - 1, threads[me := Leaving], trace + [CountOut(me)];
      Interleave(me);
      Recorded(trace, Free(me));
      PermitsConserved(maxConcurrency, trace);
      assert Enabled(Now(), Free(me)) && permits < maxConcurrency;   // the bounded semaphore does not raise
      permits, threads, trace := permits + 1, threads - {me}, trace + [Free(me)];
    }
  }
}
