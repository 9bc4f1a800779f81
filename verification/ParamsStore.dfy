/**
  The batched write-behind store over the shared parameter file.

  First the store as one thread sees it; then every interleaving of any number of workers calling
  `stage` and `update` with a foreign process that locks, reads and rewrites its own fields. Any
  lock, read or write may fail. Renames are atomic and the file lock is mutual exclusion.
*/
module ParamsStore {
  import opened Wrappers
  import opened ParamsFile

  // ---------- one thread ----------

  datatype Faults = Faults(lock: bool, read: bool, write: bool)

  const NO_FAULTS := Faults(false, false, false)

  class Store {
    var file: Option<File>
    var pending: seq<Staged>
    var lastWrite: int
    var writes: nat          // times the file was replaced
    const flushEvery: int
    ghost var queuedAt: seq<int>   // when each queued outcome was staged

    constructor (file: Option<File>, flushEvery: int, now: int)
      ensures this.file == file && pending == [] && lastWrite == now && this.flushEvery == flushEvery && writes == 0
      ensures Fresh()
    {
      this.file, pending, lastWrite, this.flushEvery, writes := file, [], now, flushEvery, 0;
      queuedAt := [];
    }

    /** Everything a kill would lose was staged within one flush period. */
    ghost predicate Fresh()
      reads this
    {
      && |queuedAt| == |pending|
      && forall i :: 0 <= i < |queuedAt| ==> lastWrite <= queuedAt[i] < lastWrite + flushEvery
    }

    /** What the file would hold if every outcome had been written at once. */
    function Logical(): Ours
      reads this
    {
      ApplyAll(pending, Read(file).ours)
    }

    /** Applies the queue and then `f` to a fresh read, and replaces the file unless nothing
        changed. A failure keeps the queue and the file. */
    method Update(f: Ours -> Ours, now: int, faults: Faults) returns (ok: bool)
      modifies this
      ensures ok <==>
              && !faults.lock && !faults.read
              && (!faults.write || old(file) == Some(File(f(old(Logical())), Read(old(file)).foreign)))
      ensures ok ==> file == Some(File(f(old(Logical())), Read(old(file)).foreign)) && pending == [] && lastWrite == now
      ensures ok ==> writes == old(writes) + if file == old(file) then 0 else 1
      ensures !ok ==> file == old(file) && pending == old(pending) && lastWrite == old(lastWrite) && writes == old(writes)
      ensures queuedAt == if ok then [] else old(queuedAt)
    {
      if faults.lock || faults.read {
        return false;
      }
      var raw := file;
      var w := new Loaded(Read(raw).ours);
      w.ApplyQueue(pending);
      var out := File(f(w.w), Read(raw).foreign);
      if raw != Some(out) {
        if faults.write {
          return false;
        }
        file := Some(out);
        writes := writes + 1;
      }
      pending, queuedAt := [], [];
      lastWrite := now;
      ok := true;
    }

    /** Queues an outcome; at most one flush per `flushEvery`. Whatever the write does, the outcome
        is in the logical content and none other is lost. On a clock that does not go back, a kill
        still loses at most one period unless this flush failed with outcomes already queued. */
    method Stage(s: Staged, now: int, faults: Faults) returns (ok: bool)
      modifies this
      ensures Logical() == Apply(s, old(Logical()))
      ensures now - old(lastWrite) < flushEvery ==> ok && file == old(file) && pending == old(pending) + [s]
      ensures now - old(lastWrite) >= flushEvery ==> lastWrite == now
      ensures pending == [] || pending == old(pending) + [s]
      ensures ok && now - old(lastWrite) >= flushEvery ==> pending == []
      ensures now - old(lastWrite) >= flushEvery && faults == NO_FAULTS ==> ok
      ensures old(Fresh()) && 0 < flushEvery && old(lastWrite) <= now ==>
                (Fresh() <==> now - old(lastWrite) < flushEvery || ok || old(pending) == [])
    {
      pending, queuedAt := pending + [s], queuedAt + [now];
      assert pending[..|pending| - 1] == old(pending);
      if now - lastWrite < flushEvery {
        return true;
      }
      lastWrite := now;
      ok := Update(x => x, now, faults);
    }

    /** The flush of the destructor. */
    method Drop(now: int, faults: Faults)
      modifies this
      ensures Logical() == old(Logical()) && Read(file).foreign == old(Read(file).foreign)
      ensures faults == NO_FAULTS ==> pending == []
    {
      if pending != [] {
        var _ := Update(x => x, now, faults);
      }
    }
  }

  // ---------- every interleaving ----------

  datatype Event = Pushed(s: Staged) | Mutated(f: Ours -> Ours)

  /** The file with every event written at once. */
  function Replay(w: Ours, log: seq<Event>): Ours
  {
    if log == [] then w
    else
      var before := Replay(w, log[..|log| - 1]);
      match log[|log| - 1]
      case Pushed(s) => Apply(s, before)
      case Mutated(f) => f(before)
  }

  datatype Who = Worker(t: nat) | Foreigner

  /** Where a worker is. */
  datatype Pc =
    | Idle
    | Push(s: Staged)                                   // stage: wants the queue
    | Clock                                             // stage: wants the write clock
    | ClockHeld                                         // stage: holds the write clock
    | WantStore(f: Ours -> Ours)                        // update: wants the store mutex
    | WantFlock(f: Ours -> Ours)                        // holds the store, wants the file lock
    | Locked(f: Ours -> Ours)                           // holds both, about to read
    | HaveRead(f: Ours -> Ours, raw: Option<File>)      // wants the queue
    | Queued(f: Ours -> Ours, raw: Option<File>)        // holds the queue too, about to write
    | Written                                           // about to clear the queue
    | Cleared                                           // wants the write clock
    | RelQueue
    | RelFlock
    | RelStore

  datatype ForeignPc = Away | ForeignLocked | ForeignRead(raw: Option<File>) | ForeignWritten

  datatype State = State(
    file: Option<File>, pending: seq<Staged>, log: seq<Event>, foreignLast: nat,
    store: Option<nat>, flock: Option<Who>, queue: Option<nat>, clock: Option<nat>,
    workers: seq<Pc>, foreigner: ForeignPc)

  datatype Step =
    | CallStage(t: nat, s: Staged)
    | CallUpdate(t: nat, f: Ours -> Ours)
    | Go(t: nat, good: bool)             // next step of a worker; `good` resolves its choice
    | ForeignGo(fields: nat)             // next step of the foreign process

  function Init(file: Option<File>, workers: nat): State
  {
    State(file, [], [], Read(file).foreign, None, None, None, None, seq(workers, _ => Idle), Away)
  }

  predicate Enabled(s: State, e: Step)
  {
    match e
    case CallStage(t, _) => t < |s.workers| && s.workers[t].Idle?
    case CallUpdate(t, _) => t < |s.workers| && s.workers[t].Idle?
    case ForeignGo(_) => s.foreigner.Away? ==> s.flock.None?
    case Go(t, good) =>
      t < |s.workers| &&
      match s.workers[t]
      case Idle => false
      case Push(_) => s.queue.None?
      case Clock => s.clock.None?
      case WantStore(_) => s.store.None?
      case WantFlock(_) => good ==> s.flock.None?
      case HaveRead(_, _) => s.queue.None?
      case Cleared => s.clock.None?
      case _ => true
  }

  function At(s: State, t: nat, pc: Pc): State
    requires t < |s.workers|
  {
    s.(workers := s.workers[t := pc])
  }

  function WorkerStep(s: State, t: nat, good: bool): State
    requires Enabled(s, Go(t, good))
  {
    match s.workers[t]
    case Push(o) => At(s, t, Clock).(pending := s.pending + [o], log := s.log + [Pushed(o)])
    case Clock => At(s, t, ClockHeld).(clock := Some(t))
    case ClockHeld => At(s, t, if good then WantStore(x => x) else Idle).(clock := None)
    case WantStore(f) => At(s, t, WantFlock(f)).(store := Some(t))
    case WantFlock(f) => if good then At(s, t, Locked(f)).(flock := Some(Worker(t))) else At(s, t, RelStore)
    case Locked(f) => At(s, t, if good then HaveRead(f, s.file) else RelFlock)
    case HaveRead(f, raw) => At(s, t, Queued(f, raw)).(queue := Some(t))
    case Queued(f, raw) =>
      if good then
        At(s, t, Written).(file := Some(File(f(ApplyAll(s.pending, Read(raw).ours)), Read(raw).foreign)),
                           log := s.log + [Mutated(f)])
      else At(s, t, RelQueue)
    case Written => At(s, t, Cleared).(pending := [])
    case Cleared => At(s, t, RelQueue)
    case RelQueue => At(s, t, RelFlock).(queue := None)
    case RelFlock => At(s, t, RelStore).(flock := None)
    case RelStore => At(s, t, Idle).(store := None)
  }

  function ForeignStep(s: State, fields: nat): State
    requires Enabled(s, ForeignGo(fields))
  {
    match s.foreigner
    case Away => s.(flock := Some(Foreigner), foreigner := ForeignLocked)
    case ForeignLocked => s.(foreigner := ForeignRead(s.file))
    case ForeignRead(raw) =>
      s.(file := Some(File(Read(raw).ours, fields)), foreignLast := fields, foreigner := ForeignWritten)
    case ForeignWritten => s.(flock := None, foreigner := Away)
  }

  function Next(s: State, e: Step): State
    requires Enabled(s, e)
  {
    match e
    case CallStage(t, o) => At(s, t, Push(o))
    case CallUpdate(t, f) => At(s, t, WantStore(f))
    case Go(t, good) => WorkerStep(s, t, good)
    case ForeignGo(fields) => ForeignStep(s, fields)
  }

  ghost predicate Run(s: State, es: seq<Step>, s': State)
    decreases |es|
  {
    if es == [] then s == s' else Enabled(s, es[0]) && Run(Next(s, es[0]), es[1..], s')
  }

  // ---------- who holds what ----------

  predicate HoldsQueue(pc: Pc) { pc.Queued? || pc.Written? || pc.Cleared? || pc.RelQueue? }

  predicate HoldsFlock(pc: Pc) { pc.Locked? || pc.HaveRead? || HoldsQueue(pc) || pc.RelFlock? }

  predicate HoldsStore(pc: Pc) { pc.WantFlock? || HoldsFlock(pc) || pc.RelStore? }

  predicate HoldsClock(pc: Pc) { pc.ClockHeld? }

  /** A lock is held exactly by the worker whose position says so. */
  ghost predicate Owned(holder: Option<nat>, workers: seq<Pc>, holds: Pc -> bool)
  {
    && (forall t :: 0 <= t < |workers| ==> (holds(workers[t]) <==> holder == Some(t)))
    && (holder.Some? ==> holder.value < |workers|)
  }

  function WorkerOf(who: Option<Who>): Option<nat>
  {
    if who.Some? && who.value.Worker? then Some(who.value.t) else None
  }

  ghost predicate LocksAgree(s: State)
  {
    && Owned(s.store, s.workers, HoldsStore)
    && Owned(WorkerOf(s.flock), s.workers, HoldsFlock)
    && Owned(s.queue, s.workers, HoldsQueue)
    && Owned(s.clock, s.workers, HoldsClock)
    && (s.flock == Some(Foreigner) <==> !s.foreigner.Away?)
  }

  /** A worker that moves keeps a lock, takes a free one, or gives its own up. */
  lemma OwnedStep(holder: Option<nat>, workers: seq<Pc>, holds: Pc -> bool, t: nat, pc: Pc, holder': Option<nat>)
    requires Owned(holder, workers, holds) && t < |workers|
    requires || (holds(pc) == holds(workers[t]) && holder' == holder)
             || (holder.None? && holds(pc) && holder' == Some(t))
             || (holds(workers[t]) && !holds(pc) && holder'.None?)
    ensures Owned(holder', workers[t := pc], holds)
  {
  }

  lemma StoreStep(s: State, e: Step)
    requires Owned(s.store, s.workers, HoldsStore) && Enabled(s, e)
    ensures Owned(Next(s, e).store, Next(s, e).workers, HoldsStore)
  {
    if !e.ForeignGo? {
      OwnedStep(s.store, s.workers, HoldsStore, e.t, Next(s, e).workers[e.t], Next(s, e).store);
    }
  }

  lemma FlockStep(s: State, e: Step)
    requires Owned(WorkerOf(s.flock), s.workers, HoldsFlock) && Enabled(s, e)
    requires s.flock == Some(Foreigner) <==> !s.foreigner.Away?
    ensures Owned(WorkerOf(Next(s, e).flock), Next(s, e).workers, HoldsFlock)
    ensures Next(s, e).flock == Some(Foreigner) <==> !Next(s, e).foreigner.Away?
  {
    if !e.ForeignGo? {
      OwnedStep(WorkerOf(s.flock), s.workers, HoldsFlock, e.t, Next(s, e).workers[e.t], WorkerOf(Next(s, e).flock));
    }
  }

  lemma QueueStep(s: State, e: Step)
    requires Owned(s.queue, s.workers, HoldsQueue) && Enabled(s, e)
    ensures Owned(Next(s, e).queue, Next(s, e).workers, HoldsQueue)
  {
    if !e.ForeignGo? {
      OwnedStep(s.queue, s.workers, HoldsQueue, e.t, Next(s, e).workers[e.t], Next(s, e).queue);
    }
  }

  lemma ClockStep(s: State, e: Step)
    requires Owned(s.clock, s.workers, HoldsClock) && Enabled(s, e)
    ensures Owned(Next(s, e).clock, Next(s, e).workers, HoldsClock)
  {
    if !e.ForeignGo? {
      OwnedStep(s.clock, s.workers, HoldsClock, e.t, Next(s, e).workers[e.t], Next(s, e).clock);
    }
  }

  lemma LocksStep(s: State, e: Step)
    requires LocksAgree(s) && Enabled(s, e)
    ensures LocksAgree(Next(s, e))
  {
    StoreStep(s, e);
    FlockStep(s, e);
    QueueStep(s, e);
    ClockStep(s, e);
  }

  /** What was read under the file lock is still what the file holds. */
  ghost predicate ReadsCurrent(s: State)
  {
    && (forall t :: 0 <= t < |s.workers| && (s.workers[t].HaveRead? || s.workers[t].Queued?) ==> s.workers[t].raw == s.file)
    && (s.foreigner.ForeignRead? ==> s.foreigner.raw == s.file)
  }

  lemma ReadsStep(s: State, e: Step)
    requires LocksAgree(s) && ReadsCurrent(s) && Enabled(s, e)
    ensures ReadsCurrent(Next(s, e))
  {
    var s' := Next(s, e);
    if s'.file != s.file {
      forall t | 0 <= t < |s'.workers| && (s'.workers[t].HaveRead? || s'.workers[t].Queued?)
        ensures false
      {
        assert HoldsFlock(s'.workers[t]);
      }
    }
  }

  // ---------- the refinement ----------

  function Pushes(queue: seq<Staged>): seq<Event>
  {
    seq(|queue|, i requires 0 <= i < |queue| => Pushed(queue[i]))
  }

  /** True from the write until the queue is cleared. */
  predicate Applied(s: State)
  {
    s.queue.Some? && s.queue.value < |s.workers| && s.workers[s.queue.value].Written?
  }

  /** The file holds exactly the first events, each applied once and in order; the queue holds
      exactly the outcomes pushed since. While the queue is being cleared the file has them too. */
  ghost predicate Refines(w0: Ours, s: State)
  {
    var n := if Applied(s) then 0 else |s.pending|;
    && Read(s.file).foreign == s.foreignLast
    && n <= |s.log|
    && (!Applied(s) ==> s.log[|s.log| - n..] == Pushes(s.pending))
    && Read(s.file).ours == Replay(w0, s.log[..|s.log| - n])
  }

  ghost predicate Inv(w0: Ours, s: State)
  {
    LocksAgree(s) && ReadsCurrent(s) && Refines(w0, s)
  }

  lemma {:induction false} ReplayPushes(w0: Ours, log: seq<Event>, queue: seq<Staged>)
    ensures Replay(w0, log + Pushes(queue)) == ApplyAll(queue, Replay(w0, log))
  {
    if queue == [] {
      assert log + Pushes(queue) == log;
    } else {
      var front, last := queue[..|queue| - 1], queue[|queue| - 1];
      var all := log + Pushes(queue);
      assert all[..|all| - 1] == log + Pushes(front);
      assert all[|all| - 1] == Pushed(last);
      ReplayPushes(w0, log, front);
    }
  }

  /** At a commit the file, queue and mutation together give the whole log. */
  lemma CommitRefines(w0: Ours, s: State, f: Ours -> Ours)
    requires Refines(w0, s) && !Applied(s)
    ensures f(ApplyAll(s.pending, Read(s.file).ours)) == Replay(w0, s.log + [Mutated(f)])
  {
    var n := |s.log| - |s.pending|;
    ReplayPushes(w0, s.log[..n], s.pending);
    assert s.log[..n] + Pushes(s.pending) == s.log;
    assert (s.log + [Mutated(f)])[..|s.log|] == s.log;
  }

  lemma AppliedMeans(s: State, t: nat)
    requires LocksAgree(s) && t < |s.workers| && HoldsQueue(s.workers[t])
    ensures Applied(s) <==> s.workers[t].Written?
  {
  }

  lemma CommitStep(w0: Ours, s: State, t: nat)
    requires LocksAgree(s) && ReadsCurrent(s) && Refines(w0, s)
    requires t < |s.workers| && s.workers[t].Queued?
    ensures Refines(w0, Next(s, Go(t, true)))
  {
    AppliedMeans(s, t);
    CommitRefines(w0, s, s.workers[t].f);
    var s' := Next(s, Go(t, true));
    assert s'.log[..|s'.log|] == s'.log;
  }

  lemma PushStep(w0: Ours, s: State, t: nat)
    requires Refines(w0, s)
    requires t < |s.workers| && s.workers[t].Push? && s.queue.None?
    ensures Refines(w0, Next(s, Go(t, true)))
  {
    var s' := Next(s, Go(t, true));
    var n := |s.log| - |s.pending|;
    assert s'.log[..n] == s.log[..n];
    assert s'.log[n..] == s.log[n..] + [Pushed(s.workers[t].s)];
    assert Pushes(s'.pending) == Pushes(s.pending) + [Pushed(s.workers[t].s)];
  }

  lemma ClearStep(w0: Ours, s: State, t: nat)
    requires LocksAgree(s) && Refines(w0, s)
    requires t < |s.workers| && s.workers[t].Written?
    ensures Refines(w0, Next(s, Go(t, true)))
  {
    AppliedMeans(s, t);
    var s' := Next(s, Go(t, true));
    assert s'.workers[t].Cleared? && s'.queue == Some(t);
    assert s.log[..|s.log|] == s.log;
  }

  predicate Moves(s: State, e: Step)
  {
    e.Go? && e.t < |s.workers| &&
    (s.workers[e.t].Push? || s.workers[e.t].Written? || (e.good && s.workers[e.t].Queued?))
  }

  /** Every other step leaves queue, log and the calibrator's fields alone. */
  lemma StillStep(s: State, e: Step)
    requires LocksAgree(s) && ReadsCurrent(s) && Enabled(s, e) && !Moves(s, e)
    ensures var s' := Next(s, e);
            s'.pending == s.pending && s'.log == s.log && Read(s'.file).ours == Read(s.file).ours
    ensures Read(s.file).foreign == s.foreignLast ==> Read(Next(s, e).file).foreign == Next(s, e).foreignLast
  {
  }

  lemma StaysApplied(s: State, e: Step)
    requires LocksAgree(s) && Enabled(s, e) && !Moves(s, e) && Applied(s)
    ensures Applied(Next(s, e))
  {
    assert HoldsQueue(s.workers[s.queue.value]);
  }

  lemma WasApplied(s: State, e: Step)
    requires Enabled(s, e) && !Moves(s, e)
    requires LocksAgree(s) && Applied(Next(s, e))
    ensures Applied(s)
  {
    var t := Next(s, e).queue.value;
    assert s.workers[t].Written?;
    assert HoldsQueue(s.workers[t]);
  }

  lemma RefinesStep(w0: Ours, s: State, e: Step)
    requires Inv(w0, s) && Enabled(s, e)
    ensures Refines(w0, Next(s, e))
  {
    if !Moves(s, e) {
      StillStep(s, e);
      if Applied(s) {
        StaysApplied(s, e);
      } else if Applied(Next(s, e)) {
        WasApplied(s, e);
      }
    } else if s.workers[e.t].Push? {
      PushStep(w0, s, e.t);
    } else if s.workers[e.t].Written? {
      ClearStep(w0, s, e.t);
    } else {
      CommitStep(w0, s, e.t);
    }
  }

  lemma StepInv(w0: Ours, s: State, e: Step)
    requires Inv(w0, s) && Enabled(s, e)
    ensures Inv(w0, Next(s, e))
  {
    LocksStep(s, e);
    ReadsStep(s, e);
    RefinesStep(w0, s, e);
  }

  lemma {:induction false} RunInv(w0: Ours, s: State, es: seq<Step>, s': State)
    requires Inv(w0, s) && Run(s, es, s')
    ensures Inv(w0, s')
    decreases |es|
  {
    if es != [] {
      StepInv(w0, s, es[0]);
      RunInv(w0, Next(s, es[0]), es[1..], s');
    }
  }

  lemma InitLocks(s: State)
    requires s.store.None? && s.flock.None? && s.queue.None? && s.clock.None? && s.foreigner.Away?
    requires forall t :: 0 <= t < |s.workers| ==> s.workers[t] == Idle
    ensures LocksAgree(s) && ReadsCurrent(s)
  {
  }

  lemma InitInv(file: Option<File>, workers: nat)
    ensures Inv(Read(file).ours, Init(file, workers))
  {
    var s := Init(file, workers);
    assert forall t :: 0 <= t < |s.workers| ==> s.workers[t] == Idle;
    InitLocks(s);
  }

  // ---------- main results ----------

  /** In every reachable state of every interleaving, the file with the queue applied on top is what
      writing every event at once would have produced, and no foreign write has been reverted. */
  lemma RefinesWriteThrough(file: Option<File>, workers: nat, es: seq<Step>, s: State)
    requires Run(Init(file, workers), es, s)
    ensures Read(s.file).foreign == s.foreignLast
    ensures (if Applied(s) then Read(s.file).ours else ApplyAll(s.pending, Read(s.file).ours))
         == Replay(Read(file).ours, s.log)
    ensures s.pending == [] ==> Read(s.file).ours == Replay(Read(file).ours, s.log)
  {
    var w0 := Read(file).ours;
    InitInv(file, workers);
    RunInv(w0, Init(file, workers), es, s);
    if Applied(s) {
      assert s.log[..|s.log|] == s.log;
    } else {
      var n := |s.log| - |s.pending|;
      ReplayPushes(w0, s.log[..n], s.pending);
      assert s.log[..n] + Pushes(s.pending) == s.log;
    }
  }

  /** Only a commit and a foreign write change the file, and only a commit makes the queue shorter:
      every failing step leaves both as they are. */
  lemma FailuresKeepEverything(s: State, e: Step)
    requires Enabled(s, e)
    requires !(e.Go? && e.good && s.workers[e.t].Queued?) && !(e.ForeignGo? && s.foreigner.ForeignRead?)
    ensures Next(s, e).file == s.file
    ensures !(e.Go? && s.workers[e.t].Written?) ==> s.pending <= Next(s, e).pending
  {
  }

  /** The lock that is last in the order and held belongs to someone who can move. */
  lemma SomeoneMoves(s: State)
    requires LocksAgree(s)
    requires !s.foreigner.Away? || exists t :: 0 <= t < |s.workers| && s.workers[t] != Idle
    ensures exists e :: Enabled(s, e) && (e.Go? || (e.ForeignGo? && !s.foreigner.Away?))
  {
    if s.clock.Some? {
      assert HoldsClock(s.workers[s.clock.value]);
      assert Enabled(s, Go(s.clock.value, true));
    } else if s.queue.Some? {
      assert HoldsQueue(s.workers[s.queue.value]);
      assert Enabled(s, Go(s.queue.value, true));
    } else if s.flock == Some(Foreigner) {
      assert Enabled(s, ForeignGo(0));
    } else if s.flock.Some? {
      assert HoldsFlock(s.workers[WorkerOf(s.flock).value]);
      assert Enabled(s, Go(s.flock.value.t, true));
    } else if s.store.Some? {
      assert HoldsStore(s.workers[s.store.value]);
      assert Enabled(s, Go(s.store.value, true));
    } else {
      var t :| 0 <= t < |s.workers| && s.workers[t] != Idle;
      assert Enabled(s, Go(t, true));
    }
  }

  /** No deadlock: while anyone is inside, some step is enabled that is not a new call. */
  lemma NeverDeadlocks(file: Option<File>, workers: nat, es: seq<Step>, s: State)
    requires Run(Init(file, workers), es, s)
    requires !s.foreigner.Away? || exists t :: 0 <= t < |s.workers| && s.workers[t] != Idle
    ensures exists e :: Enabled(s, e) && (e.Go? || (e.ForeignGo? && !s.foreigner.Away?))
  {
    InitInv(file, workers);
    RunInv(Read(file).ours, Init(file, workers), es, s);
    SomeoneMoves(s);
  }

  // ---------- what a worker does when nothing is in its way ----------

  /** `n` steps of one worker, none of them failing. */
  function Goes(t: nat, n: nat): seq<Step>
  {
    if n == 0 then [] else [Go(t, true)] + Goes(t, n - 1)
  }

  ghost predicate Free(s: State) { s.store.None? && s.flock.None? && s.queue.None? && s.clock.None? }

  lemma GoesOn(s: State, t: nat, n: nat, s': State)
    requires Enabled(s, Go(t, true)) && Run(Next(s, Go(t, true)), Goes(t, n), s')
    ensures Run(s, Goes(t, n + 1), s')
  {
    assert Goes(t, n + 1)[0] == Go(t, true) && Goes(t, n + 1)[1..] == Goes(t, n);
  }

  /** Takes the store and the file lock and reads. */
  lemma AloneReads(s: State, t: nat, f: Ours -> Ours) returns (m: State)
    requires Free(s) && t < |s.workers| && s.workers[t] == WantStore(f)
    ensures m == s.(store := Some(t), flock := Some(Worker(t)), workers := s.workers[t := HaveRead(f, s.file)])
    ensures forall n: nat, s' :: Run(m, Goes(t, n), s') ==> Run(s, Goes(t, n + 3), s')
  {
    var s1 := Next(s, Go(t, true));
    var s2 := Next(s1, Go(t, true));
    m := Next(s2, Go(t, true));
    forall n: nat, s' | Run(m, Goes(t, n), s') ensures Run(s, Goes(t, n + 3), s') {
      GoesOn(s2, t, n, s');
      GoesOn(s1, t, n + 1, s');
      GoesOn(s, t, n + 2, s');
    }
  }

  /** Takes the queue, writes and clears it. */
  lemma AloneWrites(s: State, t: nat, f: Ours -> Ours) returns (m: State)
    requires s.queue.None? && t < |s.workers| && s.workers[t] == HaveRead(f, s.file)
    ensures m == s.(queue := Some(t), pending := [], log := s.log + [Mutated(f)], workers := s.workers[t := Cleared],
                    file := Some(File(f(ApplyAll(s.pending, Read(s.file).ours)), Read(s.file).foreign)))
    ensures forall n: nat, s' :: Run(m, Goes(t, n), s') ==> Run(s, Goes(t, n + 3), s')
  {
    var s1 := Next(s, Go(t, true));
    var s2 := Next(s1, Go(t, true));
    m := Next(s2, Go(t, true));
    forall n: nat, s' | Run(m, Goes(t, n), s') ensures Run(s, Goes(t, n + 3), s') {
      GoesOn(s2, t, n, s');
      GoesOn(s1, t, n + 1, s');
      GoesOn(s, t, n + 2, s');
    }
  }

  /** Gives everything back. */
  lemma AloneLeaves(s: State, t: nat) returns (m: State)
    requires s.clock.None? && t < |s.workers| && s.workers[t] == Cleared
    ensures m == s.(store := None, flock := None, queue := None, workers := s.workers[t := Idle])
    ensures Run(s, Goes(t, 4), m)
  {
    var s1 := Next(s, Go(t, true));
    var s2 := Next(s1, Go(t, true));
    var s3 := Next(s2, Go(t, true));
    m := Next(s3, Go(t, true));
    GoesOn(s3, t, 0, m);
    GoesOn(s2, t, 1, m);
    GoesOn(s1, t, 2, m);
    GoesOn(s, t, 3, m);
  }

  /** An update that nobody interferes with commits: the file gets the mutation of the queue's content and
      keeps the foreign fields, the queue is empty and every lock free. */
  lemma AloneCommits(s: State, t: nat, f: Ours -> Ours)
    requires Free(s) && t < |s.workers| && s.workers[t] == WantStore(f)
    ensures exists s' ::
              && Run(s, Goes(t, 10), s')
              && s'.file == Some(File(f(ApplyAll(s.pending, Read(s.file).ours)), Read(s.file).foreign))
              && s'.pending == [] && Free(s') && s'.workers == s.workers[t := Idle]
  {
    var read := AloneReads(s, t, f);
    var written := AloneWrites(read, t, f);
    var end := AloneLeaves(written, t);
    assert Run(read, Goes(t, 7), end);
  }

  /** An update whose lock, read or write fails gives its locks back and changes nothing else. */
  lemma AnyFaultGivesUp(s: State, t: nat)
    requires t < |s.workers| && (s.workers[t].WantFlock? || s.workers[t].Locked? || s.workers[t].Queued?)
    ensures Enabled(s, Go(t, false))
    ensures Next(s, Go(t, false)) ==
              s.(workers := s.workers[t := if s.workers[t].WantFlock? then RelStore
                                           else if s.workers[t].Locked? then RelFlock else RelQueue])
  {
  }

  /** A foreign write that finds the file lock free commits: its fields on the calibrator's latest content. */
  lemma ForeignCommits(s: State, fields: nat)
    requires s.foreigner.Away? && s.flock.None?
    ensures Enabled(s, ForeignGo(fields))
    ensures var s2 := ForeignStep(ForeignStep(s, fields), fields);
            var s4 := ForeignStep(ForeignStep(s2, fields), fields);
            s4 == s.(file := Some(File(Read(s.file).ours, fields)), foreignLast := fields)
  {
  }

  /** A staged outcome is queued, and then the worker asks for a flush if one is due and is done if not. */
  lemma AloneStages(s: State, t: nat, o: Staged, due: bool)
    requires Free(s) && t < |s.workers| && s.workers[t] == Push(o)
    ensures var s1 := Next(s, Go(t, true));
            && s1.pending == s.pending + [o] && Enabled(s1, Go(t, true))
            && var s2 := Next(s1, Go(t, true));
            && Enabled(s2, Go(t, due))
            && var s3 := Next(s2, Go(t, due));
            && Free(s3) && s3.file == s.file && s3.pending == s.pending + [o]
            && s3.workers[t].WantStore? == due && s3.workers[t].Idle? == !due
            && (due ==> forall w :: s3.workers[t].f(w) == w)
  {
  }
}
