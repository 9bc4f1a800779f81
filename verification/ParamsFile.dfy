/**
  The shared parameter file and one queued per-ticker outcome. `foreign` stands for the fields
  another process owns; everything else is the calibrator's.
*/
module ParamsFile {
  import opened Wrappers

  const U32_MAX: nat := 0xffff_ffff

  type Id = nat

  /** `<start date>-w<window>`, or any other text found in the file. */
  datatype RunId = Dated(day: int, window: nat) | Other(text: string)

  datatype Status = Status(
    lastAttempt: Option<nat>, lastSuccess: Option<nat>, failures: nat,
    lastError: Option<string>, lastSkip: Option<string>)

  datatype LastRun = LastRun(
    runId: RunId, startedAt: nat, finishedAt: Option<nat>, total: nat, attempted: nat, succeeded: nat,
    completed: bool, prefiltered: nat)

  datatype Ours = Ours(
    live: map<Id, real>, calibratedAt: Option<nat>, staged: map<Id, real>, stagedRun: Option<RunId>,
    status: map<Id, Status>, lastRun: Option<LastRun>)

  datatype File = File(ours: Ours, foreign: nat)

  const NO_STATUS := Status(None, None, 0, None, None)

  const EMPTY_FILE := File(Ours(map[], None, map[], None, map[], None), 0)

  /** A missing file reads as the default one. */
  function Read(f: Option<File>): File { if f.Some? then f.value else EMPTY_FILE }

  datatype Staged = Staged(
    id: Id, kOk: Option<real>, err: Option<string>, skip: Option<string>, counted: bool, now: nat)

  function StatusAfter(st: Status, s: Staged): Status
  {
    var tried := st.(lastAttempt := Some(s.now));
    if s.kOk.Some? then Status(Some(s.now), Some(s.now), 0, None, None)
    else if s.skip.Some? then tried.(lastSkip := s.skip)
    else tried.(failures := Min(st.failures + 1, U32_MAX), lastError := s.err)
  }

  function CountedRun(r: LastRun, s: Staged): LastRun
  {
    if !s.counted then r
    else r.(attempted := r.attempted + 1, succeeded := r.succeeded + if s.kOk.Some? then 1 else 0)
  }

  /** The effect of one outcome on the calibrator's fields. */
  function Apply(s: Staged, w: Ours): Ours
  {
    var st := if s.id in w.status then w.status[s.id] else NO_STATUS;
    w.(staged := if s.kOk.Some? then w.staged[s.id := s.kOk.value] else w.staged,
       status := w.status[s.id := StatusAfter(st, s)],
       lastRun := if w.lastRun.Some? then Some(CountedRun(w.lastRun.value, s)) else None)
  }

  function ApplyAll(queue: seq<Staged>, w: Ours): Ours
  {
    if queue == [] then w else Apply(queue[|queue| - 1], ApplyAll(queue[..|queue| - 1], w))
  }

  /** A skipped ticker never looks like a failing one, and a success clears every failure mark. */
  lemma StatusMeaning(s: Staged, w: Ours)
    ensures var before := if s.id in w.status then w.status[s.id] else NO_STATUS;
            var after := Apply(s, w).status[s.id];
            && after.lastAttempt == Some(s.now)
            && (s.kOk.Some? ==> after.lastSuccess == Some(s.now) && after.failures == 0
                                && after.lastError.None? && after.lastSkip.None?)
            && (s.kOk.None? ==> after.lastSuccess == before.lastSuccess)
            && (s.kOk.None? && s.skip.Some? ==>
                  after.failures == before.failures && after.lastSkip == s.skip && after.lastError == before.lastError)
            && (s.kOk.None? && s.skip.None? ==>
                  after.failures == Min(before.failures + 1, U32_MAX) && after.lastError == s.err
                  && after.lastSkip == before.lastSkip)
    ensures forall id :: id != s.id ==>
              (id in Apply(s, w).status <==> id in w.status) && (id in w.status ==> Apply(s, w).status[id] == w.status[id])
    ensures Apply(s, w).live == w.live && Apply(s, w).calibratedAt == w.calibratedAt && Apply(s, w).stagedRun == w.stagedRun
  {
  }

  // ---------- what a whole queue leaves in the staging set ----------

  predicate IsOk(queue: seq<Staged>, i: int, id: Id)
  {
    0 <= i < |queue| && queue[i].id == id && queue[i].kOk.Some?
  }

  /** Whatever else is queued, an id is staged with the k of its last Ok outcome. */
  lemma {:induction false} StagedIsLastOk(queue: seq<Staged>, w: Ours, i: int, id: Id)
    requires IsOk(queue, i, id) && forall j :: i < j ==> !IsOk(queue, j, id)
    ensures id in ApplyAll(queue, w).staged && ApplyAll(queue, w).staged[id] == queue[i].kOk.value
  {
    var front := queue[..|queue| - 1];
    if i < |front| {
      assert forall j :: IsOk(front, j, id) <==> j < |front| && IsOk(queue, j, id);
      StagedIsLastOk(front, w, i, id);
      assert !IsOk(queue, |front|, id);
    }
  }

  /** Without an Ok outcome an id keeps what was staged for it, or nothing. */
  lemma {:induction false} StagedWithoutOk(queue: seq<Staged>, w: Ours, id: Id)
    requires forall j :: !IsOk(queue, j, id)
    ensures id in ApplyAll(queue, w).staged <==> id in w.staged
    ensures id in w.staged ==> ApplyAll(queue, w).staged[id] == w.staged[id]
  {
    if queue != [] {
      var front := queue[..|queue| - 1];
      assert forall j :: IsOk(front, j, id) ==> IsOk(queue, j, id);
      StagedWithoutOk(front, w, id);
      assert !IsOk(queue, |front|, id);
    }
  }

  // ---------- what it leaves in the failure count ----------

  predicate IsFailure(s: Staged, id: Id) { s.id == id && s.kOk.None? && s.skip.None? }

  /** The failures of an id in a part of the queue without a success of it. */
  function Failures(queue: seq<Staged>, id: Id): nat
  {
    if queue == [] then 0 else Failures(queue[..|queue| - 1], id) + if IsFailure(queue[|queue| - 1], id) then 1 else 0
  }

  function FailureCount(w: Ours, id: Id): nat
  {
    if id in w.status then w.status[id].failures else 0
  }

  /** Without a success an id's count grows by its failures alone, up to the cap: skips and other ids'
      outcomes leave it. */
  lemma {:induction false} FailuresAddUp(queue: seq<Staged>, w: Ours, id: Id)
    requires FailureCount(w, id) <= U32_MAX && forall j :: !IsOk(queue, j, id)
    ensures FailureCount(ApplyAll(queue, w), id) == Min(FailureCount(w, id) + Failures(queue, id), U32_MAX)
  {
    if queue != [] {
      var front, last := queue[..|queue| - 1], queue[|queue| - 1];
      assert forall j :: IsOk(front, j, id) ==> IsOk(queue, j, id);
      FailuresAddUp(front, w, id);
      assert !IsOk(queue, |front|, id);
      StatusMeaning(last, ApplyAll(front, w));
    }
  }

  /** From a success on only later failures count. */
  lemma FailuresSinceLastOk(before: seq<Staged>, ok: Staged, since: seq<Staged>, w: Ours)
    requires ok.kOk.Some? && forall j :: !IsOk(since, j, ok.id)
    ensures FailureCount(ApplyAll(before + [ok] + since, w), ok.id) == Min(Failures(since, ok.id), U32_MAX)
  {
    var mid := ApplyAll(before + [ok], w);
    assert (before + [ok])[..|before|] == before;
    StatusMeaning(ok, ApplyAll(before, w));
    FailuresAddUp(since, mid, ok.id);
    ApplyAllConcat(before + [ok], since, w);
  }

  lemma {:induction false} ApplyAllConcat(a: seq<Staged>, b: seq<Staged>, w: Ours)
    ensures ApplyAll(a + b, w) == ApplyAll(b, ApplyAll(a, w))
  {
    if b == [] {
      assert a + b == a;
    } else {
      assert (a + b)[..|a + b| - 1] == a + b[..|b| - 1];
      ApplyAllConcat(a, b[..|b| - 1], w);
    }
  }

  /** The file structure in memory between a read and a write. */
  class Loaded {
    var w: Ours

    constructor (w: Ours)
      ensures this.w == w
    {
      this.w := w;
    }

    method ApplyStaged(s: Staged)
      modifies this
      ensures w == Apply(s, old(w))
    {
      if s.kOk.Some? {
        w := w.(staged := w.staged[s.id := s.kOk.value]);
      }
      var st := if s.id in w.status then w.status[s.id] else NO_STATUS;
      st := st.(lastAttempt := Some(s.now));
      if s.kOk.Some? {
        st := st.(lastSuccess := Some(s.now), failures := 0, lastError := None, lastSkip := None);
      } else if s.skip.Some? {
        st := st.(lastSkip := s.skip);
      } else {
        st := st.(failures := Min(st.failures + 1, U32_MAX), lastError := s.err);
      }
      w := w.(status := w.status[s.id := st]);
      if s.counted && w.lastRun.Some? {
        var r := w.lastRun.value;
        r := r.(attempted := r.attempted + 1);
        if s.kOk.Some? {
          r := r.(succeeded := r.succeeded + 1);
        }
        w := w.(lastRun := Some(r));
      }
    }

    method ApplyQueue(queue: seq<Staged>)
      modifies this
      ensures w == ApplyAll(queue, old(w))
    {
      for n := 0 to |queue|
        invariant w == ApplyAll(queue[..n], old(w))
      {
        assert queue[..n + 1][..n] == queue[..n];
        ApplyStaged(queue[n]);
      }
      assert queue[..|queue|] == queue;
    }
  }
}
