/**
  What the run protocol leaves on file, read off the sequence of its steps: which outcomes survive kills
  in the staging set, what a resumed cycle starts from, and what a promotion puts in the live map.
*/
module RunHistory {
  import opened Wrappers
  import opened ParamsFile
  import opened RunProtocol

  /** The k a step computes for an id, if that is what it does. */
  function OkOf(e: Step, id: Id): Option<real>
  {
    match e
    case BaseOutcome(i, o, _) => if i == id && o.Ok? then Some(o.k) else None
    case SynthOutcome(i, o, _) => if i == id && o.Ok? then Some(o.k) else None
    case FallbackOutcome(i, _, o, _) => if i == id && o.Ok? then Some(o.k) else None
    case _ => None
  }

  /** The id's last k among the steps whose index is in `on`. */
  function LastOk(es: seq<Step>, on: int -> bool, id: Id): Option<real>
  {
    if es == [] then None
    else if on(|es| - 1) && OkOf(es[|es| - 1], id).Some? then OkOf(es[|es| - 1], id)
    else LastOk(es[..|es| - 1], on, id)
  }

  function At(m: map<Id, real>, id: Id): Option<real> { if id in m then Some(m[id]) else None }

  function OrElse(a: Option<real>, b: Option<real>): Option<real> { if a.Some? then a else b }

  const ALL: int -> bool := _ => true

  lemma {:induction false} LastSame(es: seq<Step>, a: int -> bool, b: int -> bool, id: Id)
    requires forall i :: 0 <= i < |es| ==> (a(i) <==> b(i))
    ensures LastOk(es, a, id) == LastOk(es, b, id)
  {
    if es != [] {
      LastSame(es[..|es| - 1], a, b, id);
    }
  }

  /** The last of a run's steps apart. */
  lemma {:induction false} RunSnoc(s: State, es: seq<Step>, s': State) returns (mid: State)
    requires es != [] && Run(s, es, s')
    ensures Run(s, es[..|es| - 1], mid) && Enabled(mid, es[|es| - 1]) && s' == Next(mid, es[|es| - 1])
    decreases |es|
  {
    if |es| == 1 {
      mid := s;
      assert es[1..] == [];
    } else {
      mid := RunSnoc(Next(s, es[0]), es[1..], s');
      assert es[1..][..|es[1..]| - 1] == es[..|es| - 1][1..];
    }
  }

  // ---------- what a promotion puts in the live map ----------

  /** What a cycle resumes: the staged ids of its universe, if the staging set has its window and began in
      the last seven days, and otherwise nothing. */
  lemma ResumesStaged(s: State, e: Step, id: Id)
    requires e.Start? && Enabled(s, e)
    ensures var m := Next(s, e).mem.value;
            && m.resume == m.k && m.done == {} && m.pending == []
            && At(m.resume, id) ==
                 if (exists day :: s.disk.stagedRun == Some(Dated(day, e.window)) && e.today - 7 <= day <= e.today)
                    && (id in e.roster || id in e.synths)
                 then At(s.disk.staged, id) else None
  {
    ResumesExactly(s.disk.stagedRun, e.today, e.window);
    var run := ResolveRunId(s.disk.stagedRun, e.today, e.window);
    assert s.disk.stagedRun == Some(run) ==> s.disk.stagedRun == Some(Dated(run.day, e.window));
  }

  /** While a cycle lasts its map has each id's latest k since the start, and what was resumed. */
  lemma {:induction false} MapSinceStart(s: State, es: seq<Step>, s': State, id: Id)
    requires s.mem.Some? && s.mem.value.k == s.mem.value.resume && Run(s, es, s')
    requires forall i :: 0 <= i < |es| ==> !es[i].Start?
    ensures s'.mem.Some? ==> At(s'.mem.value.k, id) == OrElse(LastOk(es, ALL, id), At(s.mem.value.resume, id))
    decreases |es|
  {
    if es != [] {
      var mid := RunSnoc(s, es, s');
      MapSinceStart(s, es[..|es| - 1], mid, id);
    }
  }

  /** Every promotion and every final write, of any cycle of any run, makes the live map exactly what the
      cycle resumed and the ids it computed a k for, each with its latest. */
  lemma PromotedIsTheCycle(s0: State, start: Step, es: seq<Step>, s: State, e: Step, id: Id)
    requires start.Start? && Enabled(s0, start) && Run(Next(s0, start), es, s)
    requires forall i :: 0 <= i < |es| ==> !es[i].Start?
    requires Enabled(s, e) && (e.Promote? || e.Finish?)
    ensures At(Next(s, e).disk.live, id) == OrElse(LastOk(es, ALL, id), At(Next(s0, start).mem.value.resume, id))
    ensures Next(s, e).disk.calibratedAt == Some(e.now)
  {
    ResumesStaged(s0, start, id);
    MapSinceStart(Next(s0, start), es, s, id);
  }

  // ---------- what survives in the staging set ----------

  /** The steps that write the queue to the file. */
  predicate Drains(e: Step) { e.Flush? || e.Promote? || e.Prefilter? }

  ghost predicate Unkilled(es: seq<Step>, i: nat, p: nat)
    requires p <= |es|
  {
    forall j :: i < j < p ==> !es[j].Kill?
  }

  /** A step after `i`, before any kill, wrote the queue. */
  ghost predicate WrittenAt(es: seq<Step>, i: nat, p: nat)
  {
    i < p < |es| && Drains(es[p]) && Unkilled(es, i, p)
  }

  /** Step `i` reached the file. */
  ghost predicate Durable(es: seq<Step>, i: nat) { exists p :: WrittenAt(es, i, p) }

  /** Step `i` is on file or still queued. */
  ghost predicate Held(es: seq<Step>, i: nat) { Durable(es, i) || Unkilled(es, i, |es|) }

  ghost function OnFile(es: seq<Step>): int -> bool { i => i >= 0 && Durable(es, i) }

  ghost function OnFileOrQueued(es: seq<Step>): int -> bool { i => i >= 0 && Held(es, i) }

  /** The staging set with the queue on top. */
  function Logical(s: State): map<Id, real>
  {
    if s.mem.Some? then ApplyAll(s.mem.value.pending, s.disk).staged else s.disk.staged
  }

  lemma UnkilledSnoc(es: seq<Step>, e: Step, i: nat, p: nat)
    requires p <= |es|
    ensures Unkilled(es + [e], i, p) <==> Unkilled(es, i, p)
    ensures i < |es| ==> (Unkilled(es + [e], i, |es| + 1) <==> Unkilled(es, i, |es|) && !e.Kill?)
  {
    var es' := es + [e];
    assert forall j :: 0 <= j < |es| ==> es'[j] == es[j];
    assert es'[|es|] == e;
  }

  lemma WrittenSnoc(es: seq<Step>, e: Step, i: nat, p: nat)
    requires i < |es|
    ensures WrittenAt(es + [e], i, p) <==> WrittenAt(es, i, p) || (p == |es| && Drains(e) && Unkilled(es, i, |es|))
  {
    if p <= |es| {
      UnkilledSnoc(es, e, i, p);
    }
  }

  lemma DurableSnoc(es: seq<Step>, e: Step, i: nat)
    requires i < |es|
    ensures Durable(es + [e], i) <==> if Drains(e) then Held(es, i) else Durable(es, i)
    ensures Held(es + [e], i) <==> if e.Kill? then Durable(es, i) else Held(es, i)
  {
    forall p: nat
      ensures WrittenAt(es + [e], i, p) <==> WrittenAt(es, i, p) || (p == |es| && Drains(e) && Unkilled(es, i, |es|))
    {
      WrittenSnoc(es, e, i, p);
    }
    UnkilledSnoc(es, e, i, |es|);
    assert WrittenAt(es + [e], i, |es|) <==> Drains(e) && Unkilled(es, i, |es|);
  }

  lemma NotYetDurable(es: seq<Step>, e: Step)
    ensures !Durable(es + [e], |es|) && Held(es + [e], |es|)
  {
    assert forall p :: !WrittenAt(es + [e], |es|, p);
  }

  /** How one more step changes which outcomes count. */
  lemma LastOkSnoc(es: seq<Step>, e: Step, id: Id)
    ensures LastOk(es + [e], OnFile(es + [e]), id) == LastOk(es, if Drains(e) then OnFileOrQueued(es) else OnFile(es), id)
    ensures LastOk(es + [e], OnFileOrQueued(es + [e]), id) ==
            if OkOf(e, id).Some? then OkOf(e, id)
            else LastOk(es, if e.Kill? then OnFile(es) else OnFileOrQueued(es), id)
  {
    var es' := es + [e];
    assert es'[..|es|] == es;
    forall i | 0 <= i < |es|
      ensures OnFile(es')(i) <==> (if Drains(e) then OnFileOrQueued(es) else OnFile(es))(i)
      ensures OnFileOrQueued(es')(i) <==> (if e.Kill? then OnFile(es) else OnFileOrQueued(es))(i)
    {
      DurableSnoc(es, e, i);
    }
    NotYetDurable(es, e);
    LastSame(es, OnFile(es'), if Drains(e) then OnFileOrQueued(es) else OnFile(es), id);
    LastSame(es, OnFileOrQueued(es'), if e.Kill? then OnFile(es) else OnFileOrQueued(es), id);
  }

  lemma LogicalStep(s: State, e: Step, id: Id)
    requires Enabled(s, e) && !e.Finish? && |Next(s, e).epochs| == |s.epochs|
    ensures At(Next(s, e).disk.staged, id) == At(if Drains(e) then Logical(s) else s.disk.staged, id)
    ensures At(Logical(Next(s, e)), id) ==
            if OkOf(e, id).Some? then OkOf(e, id) else At(if e.Kill? then s.disk.staged else Logical(s), id)
  {
    if s.mem.Some? {
      var q := s.mem.value.pending;
      forall x: Staged ensures ApplyAll(q + [x], s.disk) == Apply(x, ApplyAll(q, s.disk)) {
        assert (q + [x])[..|q|] == q;
      }
    }
  }

  /** Across any kills and resumes of an epoch, an id is staged on file with its last k that was written
      before a kill, and with the queue on top with its last k that was written or is still queued; without
      one it keeps what was staged before. Nothing flushed is lost. */
  lemma {:induction false} StagedIsWhatWasFlushed(s: State, es: seq<Step>, s': State, id: Id)
    requires s.mem.None? && s.epochs != [] && Run(s, es, s')
    requires (forall i :: 0 <= i < |es| ==> !es[i].Finish?) && |s'.epochs| == |s.epochs|
    ensures At(s'.disk.staged, id) == OrElse(LastOk(es, OnFile(es), id), At(s.disk.staged, id))
    ensures At(Logical(s'), id) == OrElse(LastOk(es, OnFileOrQueued(es), id), At(s.disk.staged, id))
    decreases |es|
  {
    if es != [] {
      var mid := SameEpochBefore(s, es, s');
      StagedIsWhatWasFlushed(s, es[..|es| - 1], mid, id);
      OneMoreStep(es, mid, At(s.disk.staged, id), id);
    }
  }

  /** The state before the last step of a run within an epoch. */
  lemma SameEpochBefore(s: State, es: seq<Step>, s': State) returns (mid: State)
    requires es != [] && s.epochs != [] && Run(s, es, s')
    requires (forall i :: 0 <= i < |es| ==> !es[i].Finish?) && |s'.epochs| == |s.epochs|
    ensures Run(s, es[..|es| - 1], mid) && Enabled(mid, es[|es| - 1]) && s' == Next(mid, es[|es| - 1])
    ensures |mid.epochs| == |s.epochs|
  {
    mid := RunSnoc(s, es, s');
    StagedSurvives(s, es[..|es| - 1], mid);
    EpochsGrow(mid, es[|es| - 1]);
  }

  ghost predicate Tracked(es: seq<Step>, s: State, before: Option<real>, id: Id)
  {
    && At(s.disk.staged, id) == OrElse(LastOk(es, OnFile(es), id), before)
    && At(Logical(s), id) == OrElse(LastOk(es, OnFileOrQueued(es), id), before)
  }

  lemma OneMoreStep(es: seq<Step>, s: State, before: Option<real>, id: Id)
    requires es != [] && Tracked(es[..|es| - 1], s, before, id)
    requires Enabled(s, es[|es| - 1]) && !es[|es| - 1].Finish? && |Next(s, es[|es| - 1]).epochs| == |s.epochs|
    ensures Tracked(es, Next(s, es[|es| - 1]), before, id)
  {
    LastOkSnoc(es[..|es| - 1], es[|es| - 1], id);
    LogicalStep(s, es[|es| - 1], id);
    assert es == es[..|es| - 1] + [es[|es| - 1]];
  }

  lemma EpochsGrow(s: State, e: Step)
    requires Enabled(s, e)
    ensures |s.epochs| <= |Next(s, e).epochs|
  {
  }

  // ---------- no fit is repeated ----------

  /** The id is not to be computed in this cycle. */
  predicate Settled(s: State, id: Id)
  {
    s.mem.Some? ==> id in s.mem.value.done || id in s.mem.value.resume || id !in s.mem.value.roster
  }

  lemma {:induction false} StaysSettled(s: State, es: seq<Step>, s': State, id: Id)
    requires id in s.disk.staged && Settled(s, id) && Run(s, es, s') && |s'.epochs| == |s.epochs|
    requires forall i :: 0 <= i < |es| ==> !es[i].Finish?
    ensures forall i :: 0 <= i < |es| ==> !(es[i].BaseOutcome? && es[i].id == id)
    decreases |es|
  {
    if es != [] {
      var n := Next(s, es[0]);
      EpochsGrow(s, es[0]);
      StagedSurvives(n, es[1..], s');
      StagedSurvives(s, [es[0]], n);
      StaysSettled(n, es[1..], s', id);
    }
  }

  lemma {:induction false} QueuedIsSettled(s: State, es: seq<Step>, s': State, id: Id, p: nat)
    requires s.mem.Some? && id in s.mem.value.done && id in Logical(s) && Run(s, es, s') && |s'.epochs| == |s.epochs|
    requires forall i :: 0 <= i < |es| ==> !es[i].Finish?
    requires p < |es| && Drains(es[p]) && forall j :: 0 <= j < p ==> !es[j].Kill?
    ensures forall i :: 0 <= i < |es| ==> !(es[i].BaseOutcome? && es[i].id == id)
    decreases |es|
  {
    var n := Next(s, es[0]);
    EpochsGrow(s, es[0]);
    StagedSurvives(n, es[1..], s');
    LogicalStep(s, es[0], id);
    if p == 0 {
      StaysSettled(n, es[1..], s', id);
    } else {
      QueuedIsSettled(n, es[1..], s', id, p - 1);
    }
  }

  /** Partial work is never repeated: once an Ok base fit has been flushed, no later step of the epoch, in
      this cycle or after any kills and resumes, fits that id again. */
  lemma NeverFittedTwice(s: State, e: Step, es: seq<Step>, s': State)
    requires Enabled(s, e) && e.BaseOutcome? && e.o.Ok? && Run(Next(s, e), es, s') && |s'.epochs| == |s.epochs|
    requires forall i :: 0 <= i < |es| ==> !es[i].Finish?
    requires Durable([e] + es, 0)
    ensures forall i :: 0 <= i < |es| ==> !(es[i].BaseOutcome? && es[i].id == e.id)
  {
    LogicalStep(s, e, e.id);
    var p := WrittenLater(e, es);
    QueuedIsSettled(Next(s, e), es, s', e.id, p);
  }

  /** Where among the later steps the first one is written. */
  lemma WrittenLater(e: Step, es: seq<Step>) returns (p: nat)
    requires Durable([e] + es, 0)
    ensures p < |es| && Drains(es[p]) && forall j :: 0 <= j < p ==> !es[j].Kill?
  {
    var q: nat :| WrittenAt([e] + es, 0, q);
    p := q - 1;
    assert ([e] + es)[q] == es[p];
    forall j | 0 <= j < p ensures !es[j].Kill? {
      assert ([e] + es)[j + 1] == es[j];
    }
  }

  // ---------- the end of a run ----------

  /** A finished run is never resumed: its staging set is gone and the next cycle starts empty, in an epoch
      of its own. */
  lemma FinishedIsNotResumed(s: State, now: nat, start: Step)
    requires Enabled(s, Finish(now)) && Enabled(Next(s, Finish(now)), start)
    ensures var done := Next(s, Finish(now)).disk;
            && done.staged == map[] && done.stagedRun.None?
            && (done.lastRun.Some? ==> done.lastRun.value.completed && done.lastRun.value.finishedAt == Some(now))
    ensures var next := Next(Next(s, Finish(now)), start);
            next.mem.value.resume == map[] && |next.epochs| == |s.epochs| + 1
  {
    ResumesStaged(Next(s, Finish(now)), start, 0);
  }

  /** On file a skip never counts as a failure, a failure counts once, and a success clears the count. */
  lemma OutcomeOnFile(w: Ours, id: Id, o: Outcome, counted: bool, now: nat)
    ensures var after := Apply(StageOutcome(id, o, counted, now), w);
            && FailureCount(after, id) == (match o
                 case Ok(_) => 0
                 case Skipped(_) => FailureCount(w, id)
                 case Failed(_) => Min(FailureCount(w, id) + 1, U32_MAX))
            && At(after.staged, id) == OrElse(if o.Ok? then Some(o.k) else None, At(w.staged, id))
            && after.status[id].lastAttempt == Some(now)
  {
    StatusMeaning(StageOutcome(id, o, counted, now), w);
  }

  /** The prefilter marks its ids as skipped and touches no count, no other id and no k. */
  lemma PrefilterOnlySkips(s: State, skips: map<Id, string>, now: nat, id: Id)
    requires Enabled(s, Prefilter(skips, now))
    ensures var before := Drained(s).disk; var after := Next(s, Prefilter(skips, now)).disk;
            && after.live == s.disk.live && after.staged == before.staged
            && (after.lastRun.Some? <==> before.lastRun.Some?)
            && (after.lastRun.Some? ==> after.lastRun.value == before.lastRun.value.(prefiltered := |skips|))
            && FailureCount(after, id) == FailureCount(before, id)
            && (id in skips ==> id in after.status && after.status[id].lastSkip == Some(skips[id]))
            && (id !in skips ==> (id in after.status <==> id in before.status)
                                 && (id in before.status ==> after.status[id] == before.status[id]))
  {
    ApplyAllKeeps(s.mem.value.pending, s.disk);
  }

  // ---------- the history is the run's ----------

  /** The log gains exactly the ks the steps compute, each under the current epoch, and every cycle stays
      listed under the epoch it ran in. */
  lemma HistoryStep(s: State, e: Step, x: Entry, i: nat)
    requires Enabled(s, e) && i < |s.epochs|
    ensures x in Next(s, e).log <==> x in s.log || (x.epoch == Now(s) && OkOf(e, x.id) == Some(x.k))
    ensures |Next(s, e).epochs| >= |s.epochs| && s.epochs[i].cycles <= Next(s, e).epochs[i].cycles
    ensures e.Start? ==> (e.today, e.window) in Next(s, e).epochs[Now(Next(s, e))].cycles
  {
  }

  // ---------- the counters say how much of the roster has a k ----------

  /** During the base pass successes on file and in the queue are the roster ids with a k. */
  ghost predicate Covered(s: State)
  {
    s.mem.Some? && s.mem.value.phase.Base? ==>
      var m := s.mem.value;
      && s.disk.lastRun.Some?
      && m.k.Keys * m.roster <= m.resume.Keys + m.done
      && s.disk.lastRun.value.succeeded + SucceededIn(m.pending) == |m.k.Keys * m.roster|
  }

  lemma SucceededSnoc(q: seq<Staged>, x: Staged)
    ensures SucceededIn(q + [x]) == SucceededIn(q) + if x.counted && x.kOk.Some? then 1 else 0
  {
    assert (q + [x])[..|q|] == q;
  }

  lemma CoveredByOutcome(s: State, e: Step)
    requires Covered(s) && Enabled(s, e) && e.BaseOutcome?
    ensures Covered(Next(s, e))
  {
    var m, m' := s.mem.value, Next(s, e).mem.value;
    SucceededSnoc(m.pending, StageOutcome(e.id, e.o, true, e.now));
    if e.o.Ok? {
      assert m'.k.Keys * m.roster == m.k.Keys * m.roster + {e.id};
      assert e.id !in m.k.Keys * m.roster;
    } else {
      assert m'.k.Keys * m.roster == m.k.Keys * m.roster;
    }
  }

  lemma CoveredStep(s: State, e: Step)
    requires Covered(s) && Enabled(s, e)
    ensures Covered(Next(s, e))
  {
    match e
    case BaseOutcome(_, _, _) => CoveredByOutcome(s, e);
    case Flush =>
      if s.disk.lastRun.Some? {
        ApplyAllCounts(s.mem.value.pending, s.disk);
      }
    case _ =>
  }

  lemma {:induction false} CoveredAlways(s: State, es: seq<Step>, s': State)
    requires Covered(s) && Run(s, es, s')
    ensures Covered(s')
    decreases |es|
  {
    if es != [] {
      CoveredStep(s, es[0]);
      CoveredAlways(Next(s, es[0]), es[1..], s');
    }
  }

  /** At every base promotion of any run the file's success count is the number of roster ids that the live
      map has a k for, also when some of them were resumed. */
  lemma CoverageIsRight(disk: Ours, es: seq<Step>, s: State, now: nat)
    requires Run(Init(disk), es, s) && Enabled(s, Promote(now))
    ensures var after := Next(s, Promote(now)).disk;
            after.lastRun.Some? && after.lastRun.value.succeeded == |after.live.Keys * s.mem.value.roster|
  {
    CoveredAlways(Init(disk), es, s);
    ApplyAllCounts(s.mem.value.pending, s.disk);
  }

  // ---------- a cycle can always be completed ----------

  function Remaining(m: Mem): set<Id> { m.roster - m.resume.Keys - m.done }

  lemma RunCons(s: State, e: Step, es: seq<Step>, s': State)
    requires Enabled(s, e) && Run(Next(s, e), es, s')
    ensures Run(s, [e] + es, s')
  {
    assert ([e] + es)[1..] == es;
  }

  /** From anywhere in the base pass the outcomes still missing lead to the promotion, and it to the end. */
  lemma {:induction false} CanPromote(s: State, now: nat) returns (es: seq<Step>, s': State)
    requires s.epochs != [] && s.mem.Some? && s.mem.value.phase.Base?
    requires s.mem.value.done <= s.mem.value.roster - s.mem.value.resume.Keys
    ensures Run(s, es, s') && Enabled(s', Promote(now)) && Enabled(Next(s', Promote(now)), Finish(now))
    decreases |Remaining(s.mem.value)|
  {
    var m := s.mem.value;
    if Remaining(m) == {} {
      forall id | id in m.roster - m.resume.Keys ensures id in m.done {
        assert id !in Remaining(m);
      }
      assert m.done == m.roster - m.resume.Keys;
      es, s' := [], s;
    } else {
      Inhabited(Remaining(m));
      var id :| id in Remaining(m);
      var e := BaseOutcome(id, Skipped(""), now);
      assert Remaining(Next(s, e).mem.value) == Remaining(m) - {id};
      var rest;
      rest, s' := CanPromote(Next(s, e), now);
      RunCons(s, e, rest, s');
      es := [e] + rest;
    }
  }

  /** A cycle can start whenever none is running, and every cycle that starts can be completed. */
  lemma EveryCycleCanFinish(s: State, start: Step, now: nat)
    requires s.epochs != [] && s.mem.None? && start.Start? && start.roster !! start.synths
    ensures Enabled(s, start)
    ensures exists es, s' ::
              Run(Next(s, start), es, s') && Enabled(s', Promote(now)) && Enabled(Next(s', Promote(now)), Finish(now))
  {
    var es, s' := CanPromote(Next(s, start), now);
  }
}
