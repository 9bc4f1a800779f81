/**
  The heavy-work gate: a counting semaphore built from a mutex and a condition variable,
  as a step system over any number of threads.

  One step is one mutex or condition-variable operation. `wait` releases the mutex and goes
  to sleep in one step and re-takes the mutex before it returns; it may also return without
  a notification, and a thread that never slept may take the mutex before a woken one does.
*/
module HeavyGate {
  import opened Wrappers

  const HEAVY_WORK_RAM_CAP: nat := 4

  datatype Thread =
    | Outside
    | WantAcquire                // calling acquire, mutex not taken yet
    | InAcquire(slept: bool)     // holds the mutex, about to test permits
    | Asleep                     // inside wait, mutex released
    | Woken                      // wait is returning, mutex not re-taken yet
    | Holding                    // owns a permit, heavy process running
    | WantRelease                // permit being dropped, mutex not taken yet
    | InRelease                  // holds the mutex, permits not yet incremented
    | Incremented                // holds the mutex, about to notify one

  datatype State = State(capacity: nat, permits: nat, mutex: Option<nat>, threads: seq<Thread>)

  datatype Step =
    | Call(t: nat)
    | Lock(t: nat)
    | Check(t: nat)
    | Finish(t: nat)
    | Increment(t: nat)
    | Notify(t: nat, woken: Option<nat>)
    | Spurious(t: nat)

  function New(permits: nat, threads: nat): State
  {
    var cap := if permits < 1 then 1 else permits;
    State(cap, cap, None, seq(threads, _ => Outside))
  }

  /** The process-wide gate, sized from the available parallelism. */
  function Gate(parallelism: nat, threads: nat): State
  {
    New(Min(parallelism, HEAVY_WORK_RAM_CAP), threads)
  }

  predicate Enabled(s: State, e: Step)
  {
    e.t < |s.threads| &&
    match e
    case Call(t) => s.threads[t].Outside?
    case Lock(t) => s.mutex.None? && (s.threads[t].WantAcquire? || s.threads[t].Woken? || s.threads[t].WantRelease?)
    case Check(t) => s.threads[t].InAcquire?
    case Finish(t) => s.threads[t].Holding?
    case Increment(t) => s.threads[t].InRelease?
    case Notify(t, woken) =>
      && s.threads[t].Incremented?
      && (woken.Some? ==> woken.value < |s.threads| && s.threads[woken.value].Asleep?)
      && (woken.None? ==> Asleep !in s.threads)
    case Spurious(t) => s.threads[t].Asleep?
  }

  function Apply(s: State, e: Step): State
    requires Enabled(s, e)
  {
    var me := s.threads[e.t];
    match e
    case Call(t) => s.(threads := s.threads[t := WantAcquire])
    case Lock(t) =>
      s.(mutex := Some(t),
         threads := s.threads[t := if me.WantRelease? then InRelease else InAcquire(me.Woken?)])
    case Check(t) =>
      if s.permits == 0 then s.(mutex := None, threads := s.threads[t := Asleep])
      else s.(mutex := None, permits := s.permits - 1, threads := s.threads[t := Holding])
    case Finish(t) => s.(threads := s.threads[t := WantRelease])
    case Increment(t) => s.(permits := s.permits + 1, threads := s.threads[t := Incremented])
    case Notify(t, woken) =>
      var ts := s.threads[t := Outside];
      s.(mutex := None, threads := if woken.Some? then ts[woken.value := Woken] else ts)
    case Spurious(t) => s.(threads := s.threads[t := Woken])
  }

  ghost predicate Run(s: State, es: seq<Step>, s': State)
    decreases |es|
  {
    if es == [] then s == s'
    else Enabled(s, es[0]) && Run(Apply(s, es[0]), es[1..], s')
  }

  // ---------- counting threads ----------

  function Count(ts: seq<Thread>, p: Thread -> bool): nat
  {
    if ts == [] then 0 else (if p(ts[0]) then 1 else 0) + Count(ts[1..], p)
  }

  lemma {:induction false} CountUpdate(ts: seq<Thread>, i: nat, v: Thread, p: Thread -> bool)
    requires i < |ts|
    ensures Count(ts[i := v], p) == Count(ts, p) - (if p(ts[i]) then 1 else 0) + (if p(v) then 1 else 0)
  {
    if i == 0 {
      assert ts[i := v][1..] == ts[1..];
    } else {
      assert ts[i := v][1..] == ts[1..][i - 1 := v];
      CountUpdate(ts[1..], i - 1, v, p);
    }
  }

  lemma {:induction false} CountWitness(ts: seq<Thread>, p: Thread -> bool)
    ensures Count(ts, p) > 0 <==> exists i :: 0 <= i < |ts| && p(ts[i])
  {
    if ts != [] {
      CountWitness(ts[1..], p);
      if exists i :: 0 <= i < |ts| && p(ts[i]) {
        var i :| 0 <= i < |ts| && p(ts[i]);
        assert i > 0 ==> p(ts[1..][i - 1]);
      }
    }
  }

  predicate OwnsPermit(t: Thread) { t.Holding? || t.WantRelease? || t.InRelease? }

  predicate Rechecking(t: Thread) { t.Woken? || t == InAcquire(true) }

  predicate InMutex(t: Thread) { t.InAcquire? || t.InRelease? || t.Incremented? }

  predicate IsIncremented(t: Thread) { t.Incremented? }

  predicate IsWoken(t: Thread) { t.Woken? }

  function Owners(s: State): nat { Count(s.threads, OwnsPermit) }

  function Woke(s: State): nat { Count(s.threads, Rechecking) }

  function Releasing(s: State): nat { Count(s.threads, IsIncremented) }

  // ---------- the invariant ----------

  ghost predicate Inv(s: State)
  {
    && s.capacity >= 1
    && s.permits + Owners(s) == s.capacity
    && (Asleep in s.threads ==> s.permits <= Woke(s) + Releasing(s))
    && (s.mutex.Some? ==> s.mutex.value < |s.threads|)
    && (forall i :: 0 <= i < |s.threads| ==> (InMutex(s.threads[i]) <==> s.mutex == Some(i)))
  }

  lemma {:induction false} CountIdle(n: nat, p: Thread -> bool)
    requires !p(Outside)
    ensures Count(seq(n, _ => Outside), p) == 0
  {
    if n > 0 {
      assert seq(n, _ => Outside)[1..] == seq(n - 1, _ => Outside);
      CountIdle(n - 1, p);
    }
  }

  lemma NewInv(permits: nat, threads: nat)
    ensures Inv(New(permits, threads))
    ensures New(permits, threads).capacity == if permits < 1 then 1 else permits
  {
    CountIdle(threads, OwnsPermit);
  }

  lemma Moved(ts: seq<Thread>, i: nat, v: Thread)
    requires i < |ts|
    ensures Count(ts[i := v], OwnsPermit)
         == Count(ts, OwnsPermit) - (if OwnsPermit(ts[i]) then 1 else 0) + (if OwnsPermit(v) then 1 else 0)
    ensures Count(ts[i := v], Rechecking)
         == Count(ts, Rechecking) - (if Rechecking(ts[i]) then 1 else 0) + (if Rechecking(v) then 1 else 0)
    ensures Count(ts[i := v], IsIncremented)
         == Count(ts, IsIncremented) - (if ts[i].Incremented? then 1 else 0) + (if v.Incremented? then 1 else 0)
  {
    CountUpdate(ts, i, v, OwnsPermit);
    CountUpdate(ts, i, v, Rechecking);
    CountUpdate(ts, i, v, IsIncremented);
  }

  /** What a step does to the three counts. */
  lemma StepCounts(s: State, e: Step)
    requires Enabled(s, e)
    ensures var s' := Apply(s, e);
            && s'.permits + Owners(s') == s.permits + Owners(s)
            && (s'.permits <= Woke(s') + Releasing(s')
                || s'.permits - Woke(s') - Releasing(s') <= s.permits - Woke(s) - Releasing(s)
                || (e.Notify? && e.woken.None?))
  {
    var ts := s.threads;
    match e {
      case Notify(t, woken) =>
        Moved(ts, t, Outside);
        if woken.Some? {
          Moved(ts[t := Outside], woken.value, Woken);
        }
      case Call(t) => Moved(ts, t, WantAcquire);
      case Lock(t) => Moved(ts, t, if ts[t].WantRelease? then InRelease else InAcquire(ts[t].Woken?));
      case Check(t) => Moved(ts, t, if s.permits == 0 then Asleep else Holding);
      case Finish(t) => Moved(ts, t, WantRelease);
      case Increment(t) => Moved(ts, t, Incremented);
      case Spurious(t) => Moved(ts, t, Woken);
    }
  }

  /** Every step of every thread keeps the invariant. */
  lemma StepInv(s: State, e: Step)
    requires Inv(s) && Enabled(s, e)
    ensures Inv(Apply(s, e)) && Apply(s, e).capacity == s.capacity
  {
    StepCounts(s, e);
    SleepersAfter(s, e);
  }

  /** Who can be asleep after a step. */
  lemma SleepersAfter(s: State, e: Step)
    requires Enabled(s, e)
    ensures Asleep in Apply(s, e).threads ==>
              Asleep in s.threads || (e.Check? && s.permits == 0)
    ensures e.Notify? && e.woken.None? ==> Asleep !in Apply(s, e).threads
  {
    var s' := Apply(s, e);
    if Asleep in s'.threads {
      var i :| 0 <= i < |s'.threads| && s'.threads[i] == Asleep;
      assert s.threads[i] == Asleep || i == e.t;
    }
  }

  lemma {:induction false} RunInv(s: State, es: seq<Step>, s': State)
    requires Inv(s) && Run(s, es, s')
    ensures Inv(s') && s'.capacity == s.capacity
    decreases |es|
  {
    if es != [] {
      StepInv(s, es[0]);
      RunInv(Apply(s, es[0]), es[1..], s');
    }
  }

  // ---------- what a thread does when nothing is in its way ----------

  /** With the mutex free a caller gets a permit if there is one, and goes to sleep if there is none. */
  lemma AloneAcquires(s: State, t: nat)
    requires t < |s.threads| && s.threads[t].Outside? && s.mutex.None?
    ensures Enabled(s, Call(t)) && Enabled(Called(s, t), Lock(t)) && Enabled(Entered(s, t), Check(t))
    ensures Apply(Entered(s, t), Check(t)) ==
              if s.permits > 0 then s.(permits := s.permits - 1, threads := s.threads[t := Holding])
              else s.(threads := s.threads[t := Asleep])
  {
  }

  /** A caller before and after it takes the mutex. */
  function Called(s: State, t: nat): State
    requires t < |s.threads| && s.threads[t].Outside?
  {
    Apply(s, Call(t))
  }

  function Entered(s: State, t: nat): State
    requires t < |s.threads| && s.threads[t].Outside? && s.mutex.None?
  {
    Apply(Called(s, t), Lock(t))
  }

  /** Giving a permit back is four steps; it frees the permit and, if anyone sleeps, wakes the one notified,
      who looks for a permit again. */
  lemma AloneReleases(s: State, t: nat, woken: Option<nat>)
    requires t < |s.threads| && s.threads[t].Holding? && s.mutex.None?
    requires if woken.Some? then woken.value < |s.threads| && s.threads[woken.value].Asleep? else Asleep !in s.threads
    ensures exists s' :: Run(s, [Finish(t), Lock(t), Increment(t), Notify(t, woken)], s')
              && s'.permits == s.permits + 1 && s'.mutex.None?
              && s'.threads == if woken.Some? then s.threads[t := Outside][woken.value := Woken] else s.threads[t := Outside]
  {
    var s1 := Apply(s, Finish(t));
    var s2 := Apply(s1, Lock(t));
    var s3 := Apply(s2, Increment(t));
    assert forall i :: 0 <= i < |s.threads| && i != t ==> s3.threads[i] == s.threads[i];
    assert woken.None? ==> Asleep !in s3.threads;
    var s4 := Apply(s3, Notify(t, woken));
    var es := [Finish(t), Lock(t), Increment(t), Notify(t, woken)];
    assert es[1..] == [Lock(t), Increment(t), Notify(t, woken)] && es[1..][1..] == [Increment(t), Notify(t, woken)];
    assert es[1..][1..][1..] == [Notify(t, woken)] && es[1..][1..][1..][1..] == [];
    assert Run(s3, [Notify(t, woken)], s4);
    assert Run(s2, [Increment(t), Notify(t, woken)], s4);
    assert Run(s1, [Lock(t), Increment(t), Notify(t, woken)], s4);
  }

  /** A thread whose wait returns, notified or not, takes the mutex and tests the permits again. */
  lemma WokenRechecks(s: State, t: nat)
    requires t < |s.threads| && s.threads[t].Asleep? && s.mutex.None?
    ensures Enabled(s, Spurious(t)) && Enabled(Apply(s, Spurious(t)), Lock(t))
    ensures var s' := Apply(Apply(s, Spurious(t)), Lock(t));
            Enabled(s', Check(t)) && Apply(s', Check(t)).threads[t] == if s.permits > 0 then Holding else Asleep
  {
  }

  // ---------- main results ----------

  lemma {:induction false} CountWeaker(ts: seq<Thread>, p: Thread -> bool, q: Thread -> bool)
    requires forall t :: p(t) ==> q(t)
    ensures Count(ts, p) <= Count(ts, q)
  {
    if ts != [] {
      CountWeaker(ts[1..], p, q);
    }
  }

  /** In every reachable state permits and their owners add up to the capacity, so at most
      four heavy processes run at once. */
  lemma HeavyWorkIsBounded(parallelism: nat, threads: nat, es: seq<Step>, s: State)
    requires Run(Gate(parallelism, threads), es, s)
    ensures s.permits + Owners(s) == s.capacity
    ensures s.capacity == if parallelism < 1 then 1 else if parallelism < 4 then parallelism else 4
    ensures Count(s.threads, (t: Thread) => t.Holding?) <= 4
  {
    NewInv(Min(parallelism, HEAVY_WORK_RAM_CAP), threads);
    RunInv(Gate(parallelism, threads), es, s);
    CountWeaker(s.threads, (t: Thread) => t.Holding?, OwnsPermit);
  }

  /** Whenever the mutex is free and some thread sleeps, every free permit already has a woken
      thread on its way to re-check it. */
  lemma NoWakeupIsLost(permits: nat, threads: nat, es: seq<Step>, s: State)
    requires Run(New(permits, threads), es, s)
    requires s.mutex.None? && Asleep in s.threads
    ensures s.permits <= Count(s.threads, IsWoken)
  {
    NewInv(permits, threads);
    RunInv(New(permits, threads), es, s);
    CountWitness(s.threads, IsIncremented);
    NoneInMutex(s.threads);
  }

  lemma {:induction false} NoneInMutex(ts: seq<Thread>)
    requires forall i :: 0 <= i < |ts| ==> !InMutex(ts[i])
    ensures Count(ts, Rechecking) == Count(ts, IsWoken)
  {
    if ts != [] {
      assert !InMutex(ts[0]);
      NoneInMutex(ts[1..]);
    }
  }

  /** The gate never wedges: while any thread is anywhere inside it, some thread can take a
      step that is neither a new call nor a spurious wakeup. */
  lemma NeverWedged(permits: nat, threads: nat, es: seq<Step>, s: State, t: nat)
    requires Run(New(permits, threads), es, s)
    requires t < |s.threads| && !s.threads[t].Outside?
    ensures exists e :: Enabled(s, e) && !e.Call? && !e.Spurious?
  {
    NewInv(permits, threads);
    RunInv(New(permits, threads), es, s);
    if s.mutex.Some? {
      var h := s.mutex.value;
      assert InMutex(s.threads[h]);
      match s.threads[h] {
        case InAcquire(_) => assert Enabled(s, Check(h));
        case InRelease => assert Enabled(s, Increment(h));
        case Incremented =>
          if Asleep in s.threads {
            var u :| 0 <= u < |s.threads| && s.threads[u] == Asleep;
            assert Enabled(s, Notify(h, Some(u)));
          } else {
            assert Enabled(s, Notify(h, None));
          }
      }
    } else if s.threads[t].Asleep? {
      SleeperHasCompany(s, t);
    } else if s.threads[t].Holding? {
      assert Enabled(s, Finish(t));
    } else {
      assert Enabled(s, Lock(t));
    }
  }

  lemma SleeperHasCompany(s: State, t: nat)
    requires Inv(s) && s.mutex.None? && t < |s.threads| && s.threads[t].Asleep?
    ensures exists e :: Enabled(s, e) && !e.Call? && !e.Spurious?
  {
    CountWitness(s.threads, IsIncremented);
    if s.permits > 0 {
      CountWitness(s.threads, Rechecking);
      var u :| 0 <= u < |s.threads| && Rechecking(s.threads[u]);
      assert Enabled(s, Lock(u));
    } else {
      CountWitness(s.threads, OwnsPermit);
      var u :| 0 <= u < |s.threads| && OwnsPermit(s.threads[u]);
      if s.threads[u].Holding? {
        assert Enabled(s, Finish(u));
      } else {
        assert Enabled(s, Lock(u));
      }
    }
  }
}
