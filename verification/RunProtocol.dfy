/**
  One calibration cycle over the parameter file and the cycles that resume it: arm, stage, kill,
  resume, promote, final write. Staged outcomes go through the write-behind queue; a kill loses the
  queue, and any write may fail.

  `epochs` and `log` are history: a new epoch begins whenever a cycle drops the staging set, and the
  log records each Ok outcome under the epoch it was computed in.
*/
module RunProtocol {
  import opened Wrappers
  import opened ParamsFile

  const MAX_RESUME_DAYS := 7

  datatype Outcome = Ok(k: real) | Skipped(reason: string) | Failed(reason: string)

  /** A skip is structural: it carries no error, so it never feeds the failure count. */
  function StageOutcome(id: Id, o: Outcome, counted: bool, now: nat): Staged
  {
    match o
    case Ok(k) => Staged(id, Some(k), None, None, counted, now)
    case Skipped(reason) => Staged(id, None, None, Some(reason), counted, now)
    case Failed(reason) => Staged(id, None, Some(reason), None, counted, now)
  }

  function ResolveRunId(staged: Option<RunId>, today: int, window: nat): RunId
  {
    if staged.Some? && staged.value.Dated? && staged.value.window == window
       && 0 <= today - staged.value.day <= MAX_RESUME_DAYS
    then staged.value
    else Dated(today, window)
  }

  /** A staging set is resumed exactly when it has this window and began in the last seven days; a
      fresh id never collides with the one on file. */
  lemma ResumesExactly(staged: Option<RunId>, today: int, window: nat)
    ensures var id := ResolveRunId(staged, today, window);
            && id.Dated? && id.window == window && 0 <= today - id.day <= MAX_RESUME_DAYS
            && (staged == Some(id) <==>
                exists day :: staged == Some(Dated(day, window)) && today - MAX_RESUME_DAYS <= day <= today)
  {
    if staged.Some? && staged.value.Dated? {
      assert staged == Some(Dated(staged.value.day, staged.value.window));
    }
  }

  function FilterResume(staged: map<Id, real>, roster: set<Id>, synths: set<Id>): map<Id, real>
  {
    map id | id in staged && (id in roster || id in synths) :: staged[id]
  }

  /** The base tally: `renko_k` is the resumed set and this cycle's Ok outcomes, nothing else. */
  method Tally(resume: map<Id, real>, outcomes: seq<(Id, Outcome)>)
    returns (k: map<Id, real>, passed: nat, skipped: nat, failed: nat)
    requires forall i, j :: 0 <= i < j < |outcomes| ==> outcomes[i].0 != outcomes[j].0
    requires forall i :: 0 <= i < |outcomes| ==> outcomes[i].0 !in resume
    ensures forall id :: id in resume ==> id in k && k[id] == resume[id]
    ensures forall i :: 0 <= i < |outcomes| ==>
              (outcomes[i].0 in k <==> outcomes[i].1.Ok?) && (outcomes[i].1.Ok? ==> k[outcomes[i].0] == outcomes[i].1.k)
    ensures forall id :: id in k ==> id in resume || exists i :: 0 <= i < |outcomes| && outcomes[i].0 == id
    ensures passed + skipped + failed == |outcomes| && |k| == |resume| + passed
  {
    k, passed, skipped, failed := resume, 0, 0, 0;
    for n := 0 to |outcomes|
      invariant forall id :: id in resume ==> id in k && k[id] == resume[id]
      invariant forall i :: 0 <= i < n ==>
                  (outcomes[i].0 in k <==> outcomes[i].1.Ok?) && (outcomes[i].1.Ok? ==> k[outcomes[i].0] == outcomes[i].1.k)
      invariant forall id :: id in k ==> id in resume || exists i :: 0 <= i < n && outcomes[i].0 == id
      invariant passed + skipped + failed == n && |k| == |resume| + passed
    {
      var (id, o) := outcomes[n];
      match o
      case Ok(v) =>
        k := k[id := v];
        passed := passed + 1;
      case Skipped(_) => skipped := skipped + 1;
      case Failed(_) => failed := failed + 1;
    }
  }

  // ---------- the protocol ----------

  datatype Phase = Base | Synth

  /** What the running process remembers. `k` is `renko_k`: the resumed set and this cycle's Oks. */
  datatype Mem = Mem(
    roster: set<Id>, synths: set<Id>, resume: map<Id, real>, done: set<Id>,
    k: map<Id, real>, phase: Phase, pending: seq<Staged>)

  datatype Epoch = Epoch(run: Option<RunId>, cycles: set<(int, nat)>)   // days and windows of its cycles

  datatype Entry = Entry(epoch: nat, id: Id, k: real)

  datatype State = State(
    disk: Ours, mem: Option<Mem>, epochs: seq<Epoch>, log: set<Entry>, liveEpoch: Option<nat>)

  datatype Step =
    | Start(today: int, window: nat, roster: set<Id>, synths: set<Id>, now: nat)
    | BaseOutcome(id: Id, o: Outcome, now: nat)
    | SynthOutcome(id: Id, o: Outcome, now: nat)
    | FallbackOutcome(id: Id, leg: Id, o: Outcome, now: nat)
    | Flush
    | Promote(now: nat)
    | Prefilter(skips: map<Id, string>, now: nat)
    | Finish(now: nat)
    | Kill

  function Now(s: State): nat
    requires s.epochs != []
  {
    |s.epochs| - 1
  }

  /** The state a file found on disk starts in: its staging set counts as epoch 0. */
  function Init(disk: Ours): State
  {
    State(disk, None, [Epoch(disk.stagedRun, {})],
          set id | id in disk.staged :: Entry(0, id, disk.staged[id]), None)
  }

  predicate Enabled(s: State, e: Step)
  {
    && s.epochs != []
    && (e.Start? <==> s.mem.None?)
    && match e
       case Start(_, _, roster, synths, _) => roster !! synths
       case BaseOutcome(id, _, _) =>
         s.mem.value.phase.Base? && id in s.mem.value.roster - s.mem.value.resume.Keys - s.mem.value.done
       case SynthOutcome(id, _, _) =>
         s.mem.value.phase.Synth? && id in s.mem.value.synths - s.mem.value.k.Keys
       case FallbackOutcome(id, leg, _, _) =>
         s.mem.value.phase.Synth? && id in s.mem.value.roster - s.mem.value.k.Keys && leg in s.mem.value.k
       case Promote(_) =>
         s.mem.value.phase.Base? && s.mem.value.done == s.mem.value.roster - s.mem.value.resume.Keys
       case Prefilter(skips, _) => s.mem.value.phase.Synth? && skips.Keys <= s.mem.value.synths
       case Finish(_) => s.mem.value.phase.Synth?
       case Flush => true
       case Kill => true
  }

  /** Before any work: keep or drop the staging set, and stamp the run. */
  function Arm(s: State, today: int, window: nat, roster: set<Id>, synths: set<Id>, now: nat): State
    requires s.epochs != []
  {
    var run := ResolveRunId(s.disk.stagedRun, today, window);
    var kept := s.disk.stagedRun == Some(run);
    var resume := if kept then FilterResume(s.disk.staged, roster, synths) else map[];
    var resumed := |resume.Keys * roster|;
    var last := Epoch(Some(run), (if kept then s.epochs[Now(s)].cycles else {}) + {(today, window)});
    s.(disk := s.disk.(staged := if kept then s.disk.staged else map[],
                       stagedRun := Some(run),
                       lastRun := Some(LastRun(run, now, None, |roster|, resumed, resumed, false, 0))),
       mem := Some(Mem(roster, synths, resume, {}, resume, Base, [])),
       epochs := if kept then s.epochs[Now(s) := last] else s.epochs + [last])
  }

  /** A computed outcome is queued; an Ok one also enters the in-memory map. */
  function Record(s: State, m: Mem, id: Id, o: Outcome, counted: bool, now: nat): State
    requires s.epochs != []
  {
    s.(mem := Some(m.(pending := m.pending + [StageOutcome(id, o, counted, now)],
                      k := if o.Ok? then m.k[id := o.k] else m.k)),
       log := if o.Ok? then s.log + {Entry(Now(s), id, o.k)} else s.log)
  }

  /** Every store update drains the queue first. */
  function Drained(s: State): State
    requires s.mem.Some?
  {
    s.(disk := ApplyAll(s.mem.value.pending, s.disk), mem := Some(s.mem.value.(pending := [])))
  }

  function SkipAll(status: map<Id, Status>, skips: map<Id, string>, now: nat): map<Id, Status>
  {
    map id | id in status.Keys + skips.Keys ::
      if id !in skips then status[id]
      else (if id in status then status[id] else NO_STATUS).(lastAttempt := Some(now), lastSkip := Some(skips[id]))
  }

  function Next(s: State, e: Step): State
    requires Enabled(s, e)
  {
    match e
    case Start(today, window, roster, synths, now) => Arm(s, today, window, roster, synths, now)
    case BaseOutcome(id, o, now) => Record(s, s.mem.value.(done := s.mem.value.done + {id}), id, o, true, now)
    case SynthOutcome(id, o, now) => Record(s, s.mem.value, id, o, false, now)
    case FallbackOutcome(id, _, o, now) => Record(s, s.mem.value, id, o, false, now)
    case Flush => Drained(s)
    case Promote(now) =>
      var d := Drained(s);
      d.(disk := d.disk.(live := s.mem.value.k, calibratedAt := Some(now)),
         mem := Some(d.mem.value.(phase := Synth)), liveEpoch := Some(Now(s)))
    case Prefilter(skips, now) =>
      var d := Drained(s);
      d.(disk := d.disk.(status := SkipAll(d.disk.status, skips, now),
                         lastRun := if d.disk.lastRun.None? then None
                                    else Some(d.disk.lastRun.value.(prefiltered := |skips|))))
    case Finish(now) =>
      var d := Drained(s);
      s.(disk := d.disk.(live := s.mem.value.k, calibratedAt := Some(now), staged := map[], stagedRun := None,
                         lastRun := if d.disk.lastRun.None? then None
                                    else Some(d.disk.lastRun.value.(completed := true, finishedAt := Some(now)))),
         mem := None, liveEpoch := Some(Now(s)))
    case Kill => s.(mem := None)
  }

  ghost predicate Run(s: State, es: seq<Step>, s': State)
    decreases |es|
  {
    if es == [] then s == s' else Enabled(s, es[0]) && Run(Next(s, es[0]), es[1..], s')
  }

  // ---------- only Ok outcomes of one epoch ----------

  ghost predicate From(m: map<Id, real>, log: set<Entry>, epoch: nat)
  {
    forall id :: id in m ==> Entry(epoch, id, m[id]) in log
  }

  ghost predicate QueueFrom(q: seq<Staged>, log: set<Entry>, epoch: nat)
  {
    forall i :: 0 <= i < |q| && q[i].kOk.Some? ==> Entry(epoch, q[i].id, q[i].kOk.value) in log
  }

  lemma {:induction false} ApplyAllFrom(q: seq<Staged>, w: Ours, log: set<Entry>, epoch: nat)
    requires From(w.staged, log, epoch) && QueueFrom(q, log, epoch)
    ensures From(ApplyAll(q, w).staged, log, epoch)
  {
    if q != [] {
      ApplyAllFrom(q[..|q| - 1], w, log, epoch);
    }
  }

  lemma {:induction false} ApplyAllKeeps(q: seq<Staged>, w: Ours)
    ensures ApplyAll(q, w).live == w.live && ApplyAll(q, w).stagedRun == w.stagedRun
    ensures w.staged.Keys <= ApplyAll(q, w).staged.Keys
  {
    if q != [] {
      ApplyAllKeeps(q[..|q| - 1], w);
    }
  }

  /** The staging set, the queue, the process and the live map hold only logged Ok outcomes, each of
      them from a single epoch. */
  ghost predicate Sources(live0: map<Id, real>, s: State)
  {
    && s.epochs != []
    && From(s.disk.staged, s.log, Now(s))
    && (s.mem.Some? ==> QueueFrom(s.mem.value.pending, s.log, Now(s)) && From(s.mem.value.k, s.log, Now(s)))
    && (s.liveEpoch.None? ==> s.disk.live == live0)
    && (s.liveEpoch.Some? ==> s.liveEpoch.value <= Now(s) && From(s.disk.live, s.log, s.liveEpoch.value))
  }

  lemma RecordSources(live0: map<Id, real>, s: State, m: Mem, id: Id, o: Outcome, counted: bool, now: nat)
    requires Sources(live0, s) && QueueFrom(m.pending, s.log, Now(s)) && From(m.k, s.log, Now(s))
    ensures Sources(live0, Record(s, m, id, o, counted, now))
  {
  }

  lemma DrainedSources(live0: map<Id, real>, s: State)
    requires Sources(live0, s) && s.mem.Some?
    ensures Sources(live0, Drained(s))
  {
    ApplyAllFrom(s.mem.value.pending, s.disk, s.log, Now(s));
    ApplyAllKeeps(s.mem.value.pending, s.disk);
  }

  lemma SourcesStep(live0: map<Id, real>, s: State, e: Step)
    requires Sources(live0, s) && Enabled(s, e)
    ensures Sources(live0, Next(s, e))
  {
    match e
    case BaseOutcome(id, o, now) =>
      RecordSources(live0, s, s.mem.value.(done := s.mem.value.done + {id}), id, o, true, now);
    case SynthOutcome(id, o, now) => RecordSources(live0, s, s.mem.value, id, o, false, now);
    case FallbackOutcome(id, _, o, now) => RecordSources(live0, s, s.mem.value, id, o, false, now);
    case Start(_, _, _, _, _) =>
    case Kill =>
    case _ => DrainedSources(live0, s);
  }

  // ---------- an epoch is one run id ----------

  /** All cycles of an epoch share its window and began within seven days of its date. */
  ghost predicate EpochFits(ep: Epoch)
  {
    forall c :: c in ep.cycles ==>
      && ep.run.Some? && ep.run.value.Dated? && ep.run.value.window == c.1
      && 0 <= c.0 - ep.run.value.day <= MAX_RESUME_DAYS
  }

  ghost predicate EpochsFit(s: State)
  {
    && s.epochs != []
    && (forall i :: 0 <= i < |s.epochs| ==> EpochFits(s.epochs[i]))
    && (s.disk.stagedRun.Some? ==> s.disk.stagedRun == s.epochs[Now(s)].run)
    && (s.mem.Some? ==> s.disk.stagedRun.Some?)
  }

  lemma CycleFits(ep: Epoch, staged: Option<RunId>, today: int, window: nat)
    requires EpochFits(ep) && (staged.Some? ==> staged == ep.run)
    ensures var run := ResolveRunId(staged, today, window);
            EpochFits(Epoch(Some(run), (if staged == Some(run) then ep.cycles else {}) + {(today, window)}))
  {
    ResumesExactly(staged, today, window);
  }

  lemma ArmFits(s: State, today: int, window: nat, roster: set<Id>, synths: set<Id>, now: nat)
    requires EpochsFit(s)
    ensures EpochsFit(Arm(s, today, window, roster, synths, now))
  {
    CycleFits(s.epochs[Now(s)], s.disk.stagedRun, today, window);
    var s' := Arm(s, today, window, roster, synths, now);
    forall i | 0 <= i < |s'.epochs| ensures EpochFits(s'.epochs[i]) {
      assert i < Now(s') ==> s'.epochs[i] == s.epochs[i];
    }
  }

  lemma EpochsStep(s: State, e: Step)
    requires EpochsFit(s) && Enabled(s, e)
    ensures EpochsFit(Next(s, e))
  {
    if e.Start? {
      ArmFits(s, e.today, e.window, e.roster, e.synths, e.now);
    } else {
      ApplyAllKeeps(s.mem.value.pending, s.disk);
    }
  }

  // ---------- counters ----------

  function CountedIn(q: seq<Staged>): nat
  {
    if q == [] then 0 else CountedIn(q[..|q| - 1]) + if q[|q| - 1].counted then 1 else 0
  }

  function SucceededIn(q: seq<Staged>): nat
  {
    if q == [] then 0
    else SucceededIn(q[..|q| - 1]) + if q[|q| - 1].counted && q[|q| - 1].kOk.Some? then 1 else 0
  }

  lemma {:induction false} ApplyAllCounts(q: seq<Staged>, w: Ours)
    requires w.lastRun.Some?
    ensures var r := w.lastRun.value;
            ApplyAll(q, w).lastRun == Some(r.(attempted := r.attempted + CountedIn(q), succeeded := r.succeeded + SucceededIn(q)))
    ensures SucceededIn(q) <= CountedIn(q)
  {
    if q != [] {
      ApplyAllCounts(q[..|q| - 1], w);
    }
  }

  predicate Ordered(r: LastRun) { r.succeeded <= r.attempted <= r.total }

  function ResumedRoster(m: Mem): set<Id> { m.resume.Keys * m.roster }

  /** Attempts on file and in the queue are the resumed roster ids and the ones done since. */
  ghost predicate Counts(s: State)
  {
    && (s.disk.lastRun.Some? ==> Ordered(s.disk.lastRun.value))
    && (s.mem.Some? ==>
          var m := s.mem.value;
          && s.disk.lastRun.Some?
          && m.done <= m.roster - m.resume.Keys
          && s.disk.lastRun.value.total == |m.roster|
          && s.disk.lastRun.value.attempted + CountedIn(m.pending) == |ResumedRoster(m)| + |m.done|)
  }

  lemma SubsetSize(a: set<Id>, b: set<Id>)
    requires a <= b
    ensures |a| <= |b|
  {
    assert b == a + (b - a);
  }

  lemma RosterSize(m: Mem)
    requires m.done <= m.roster - m.resume.Keys
    ensures |ResumedRoster(m)| + |m.done| <= |m.roster|
    ensures m.done == m.roster - m.resume.Keys ==> |ResumedRoster(m)| + |m.done| == |m.roster|
  {
    assert |ResumedRoster(m) + m.done| == |ResumedRoster(m)| + |m.done|;
    SubsetSize(ResumedRoster(m) + m.done, m.roster);
    if m.done == m.roster - m.resume.Keys {
      assert ResumedRoster(m) + m.done == m.roster;
    }
  }

  lemma CountedSnoc(q: seq<Staged>, s: Staged)
    ensures CountedIn(q + [s]) == CountedIn(q) + if s.counted then 1 else 0
  {
    assert (q + [s])[..|q|] == q;
  }

  lemma DrainedCounts(s: State)
    requires Counts(s) && s.mem.Some?
    ensures Counts(Drained(s))
  {
    ApplyAllCounts(s.mem.value.pending, s.disk);
    RosterSize(s.mem.value);
  }

  lemma ArmCounts(s: State, today: int, window: nat, roster: set<Id>, synths: set<Id>, now: nat)
    requires s.epochs != []
    ensures Counts(Arm(s, today, window, roster, synths, now))
  {
    SubsetSize(ResumedRoster(Arm(s, today, window, roster, synths, now).mem.value), roster);
  }

  lemma RecordCounts(s: State, id: Id, o: Outcome, counted: bool, now: nat)
    requires Counts(s) && s.epochs != [] && s.mem.Some?
    requires counted ==> id in s.mem.value.roster - s.mem.value.resume.Keys - s.mem.value.done
    ensures var m := s.mem.value;
            Counts(Record(s, if counted then m.(done := m.done + {id}) else m, id, o, counted, now))
  {
    CountedSnoc(s.mem.value.pending, StageOutcome(id, o, counted, now));
  }

  lemma CountsStep(s: State, e: Step)
    requires Counts(s) && Enabled(s, e)
    ensures Counts(Next(s, e))
  {
    match e
    case Start(today, window, roster, synths, now) => ArmCounts(s, today, window, roster, synths, now);
    case BaseOutcome(id, o, now) => RecordCounts(s, id, o, true, now);
    case SynthOutcome(id, o, now) => RecordCounts(s, id, o, false, now);
    case FallbackOutcome(id, _, o, now) => RecordCounts(s, id, o, false, now);
    case Kill =>
    case _ => DrainedCounts(s);
  }

  lemma PromotionIsComplete(s: State, now: nat)
    requires Counts(s) && Enabled(s, Promote(now))
    ensures var r := Next(s, Promote(now)).disk.lastRun;
            r.Some? && r.value.attempted == r.value.total
  {
    ApplyAllCounts(s.mem.value.pending, s.disk);
    RosterSize(s.mem.value);
  }

  // ---------- what the process holds ----------

  /** `renko_k` never leaves this cycle's universe and never drops a resumed id. */
  ghost predicate Universe(s: State)
  {
    s.mem.Some? ==>
      var m := s.mem.value;
      m.resume.Keys <= m.k.Keys && m.k.Keys <= m.roster + m.synths
  }

  lemma UniverseStep(s: State, e: Step)
    requires Universe(s) && Enabled(s, e)
    ensures Universe(Next(s, e))
    ensures e.Promote? || e.Finish? ==>
              Next(s, e).disk.live.Keys <= s.mem.value.roster + s.mem.value.synths
              && s.mem.value.resume.Keys <= Next(s, e).disk.live.Keys
  {
  }

  // ---------- main results ----------

  ghost predicate Inv(live0: map<Id, real>, s: State)
  {
    Sources(live0, s) && EpochsFit(s) && Counts(s) && Universe(s)
  }

  lemma {:induction false} RunInv(live0: map<Id, real>, s: State, es: seq<Step>, s': State)
    requires Inv(live0, s) && Run(s, es, s')
    ensures Inv(live0, s')
    decreases |es|
  {
    if es != [] {
      SourcesStep(live0, s, es[0]);
      EpochsStep(s, es[0]);
      CountsStep(s, es[0]);
      UniverseStep(s, es[0]);
      RunInv(live0, Next(s, es[0]), es[1..], s');
    }
  }

  /** Whatever is killed and resumed, however often: the live map is the one found at the start, or
      every k in it is an Ok outcome logged in one epoch, whose cycles all ran the same window within
      seven days of one run id. */
  lemma LiveIsOneRun(disk: Ours, es: seq<Step>, s: State)
    requires disk.lastRun.Some? ==> Ordered(disk.lastRun.value)
    requires Run(Init(disk), es, s)
    ensures s.disk.live == disk.live
         || exists e :: 0 <= e < |s.epochs| && From(s.disk.live, s.log, e) && EpochFits(s.epochs[e])
  {
    RunInv(disk.live, Init(disk), es, s);
    if s.liveEpoch.Some? {
      assert From(s.disk.live, s.log, s.liveEpoch.value) && EpochFits(s.epochs[s.liveEpoch.value]);
    }
  }

  lemma CountsAfter(disk: Ours, es: seq<Step>, s: State)
    requires disk.lastRun.Some? ==> Ordered(disk.lastRun.value)
    requires Run(Init(disk), es, s)
    ensures Counts(s)
  {
    RunInv(disk.live, Init(disk), es, s);
  }

  /** The file's counters are ordered in every state, and complete whenever a base pass is promoted. */
  lemma CountersAlwaysOrdered(disk: Ours, es: seq<Step>, s: State, e: Step)
    requires disk.lastRun.Some? ==> Ordered(disk.lastRun.value)
    requires Run(Init(disk), es, s) && Enabled(s, e)
    ensures s.disk.lastRun.Some? ==>
              s.disk.lastRun.value.succeeded <= s.disk.lastRun.value.attempted <= s.disk.lastRun.value.total
    ensures e.Promote? ==>
              var r := Next(s, e).disk.lastRun;
              r.Some? && r.value.attempted == r.value.total
  {
    CountsAfter(disk, es, s);
    if e.Promote? {
      PromotionIsComplete(s, e.now);
    }
  }

  /** Only a promotion or the final write touches the live map: a run killed before leaves it. */
  lemma {:induction false} KilledBeforePromotion(s: State, es: seq<Step>, s': State)
    requires Run(s, es, s')
    requires forall i :: 0 <= i < |es| ==> !es[i].Promote? && !es[i].Finish?
    ensures s'.disk.live == s.disk.live
    decreases |es|
  {
    if es != [] {
      var n := Next(s, es[0]);
      if s.mem.Some? {
        ApplyAllKeeps(s.mem.value.pending, s.disk);
      }
      assert n.disk.live == s.disk.live;
      KilledBeforePromotion(n, es[1..], s');
    }
  }

  /** Partial work survives: until the final write, an id staged on file stays staged across every
      kill and resume of its epoch. */
  lemma {:induction false} StagedSurvives(s: State, es: seq<Step>, s': State)
    requires Run(s, es, s')
    requires forall i :: 0 <= i < |es| ==> !es[i].Finish?
    ensures |s.epochs| <= |s'.epochs|
    ensures |s'.epochs| == |s.epochs| ==> s.disk.staged.Keys <= s'.disk.staged.Keys
    decreases |es|
  {
    if es != [] {
      var n := Next(s, es[0]);
      if s.mem.Some? {
        ApplyAllKeeps(s.mem.value.pending, s.disk);
      }
      assert |s.epochs| <= |n.epochs|;
      assert |n.epochs| == |s.epochs| ==> s.disk.staged.Keys <= n.disk.staged.Keys;
      StagedSurvives(n, es[1..], s');
    }
  }

  /** A resumed id still in the universe is in the next promoted map, and nothing outside it is. */
  lemma PromotionCoversResume(disk: Ours, es: seq<Step>, s: State, e: Step)
    requires disk.lastRun.Some? ==> Ordered(disk.lastRun.value)
    requires Run(Init(disk), es, s) && Enabled(s, e) && (e.Promote? || e.Finish?)
    ensures var m := s.mem.value;
            m.resume.Keys <= Next(s, e).disk.live.Keys && Next(s, e).disk.live.Keys <= m.roster + m.synths
  {
    RunInv(disk.live, Init(disk), es, s);
    UniverseStep(s, e);
  }
}
