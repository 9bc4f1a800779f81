/**
  Moving shard trees off phantom ids. A file is moved by one atomic rename; the process may be
  killed between any two renames or journal writes and started again. The UTC date is fixed and
  nothing else writes the trees. Files are identities, so a rename moves one and copies none.
*/
module PhantomMigration {
  import opened Wrappers

  datatype Dir = Live(id: nat) | Park(id: nat)

  datatype Slot = Slot(dir: Dir, date: int)

  type Files = map<Slot, nat>

  /** One symbol's tree: from the phantom id to the real one. */
  datatype Job = Job(key: nat, src: nat, dst: nat)

  datatype TreeState = Done | PartialToday

  /** Phantom ids are their own: no two jobs share a source and no source is a destination. */
  predicate Separate(jobs: seq<Job>)
  {
    && (forall i, j :: 0 <= i < j < |jobs| ==> jobs[i].src != jobs[j].src && jobs[i].key != jobs[j].key)
    && (forall i, j :: 0 <= i < |jobs| && 0 <= j < |jobs| ==> jobs[i].src != jobs[j].dst)
  }

  function Dates(files: Files, id: nat): set<int>
  {
    set q | q in files && q.dir == Live(id) :: q.date
  }

  /** The dates that may move: strictly before today. */
  function Movable(files: Files, job: Job, today: int): set<int>
  {
    set q | q in files && q.dir == Live(job.src) && q.date < today :: q.date
  }

  /** Where a date goes: parked when the destination already has it. */
  function Target(files: Files, job: Job, d: int): Slot
  {
    if Slot(Live(job.dst), d) in files then Slot(Park(job.src), d) else Slot(Live(job.dst), d)
  }

  /** One rename. */
  function Move(files: Files, job: Job, d: int): Files
    requires Slot(Live(job.src), d) in files
  {
    var from := Slot(Live(job.src), d);
    (files - {from})[Target(files, job, d) := files[from]]
  }

  lemma MovableAfter(files: Files, job: Job, d: int, today: int)
    requires job.src != job.dst && d in Movable(files, job, today)
    ensures Slot(Live(job.src), d) in files
    ensures Movable(Move(files, job, d), job, today) == Movable(files, job, today) - {d}
  {
    var after := Move(files, job, d);
    forall e
      ensures e in Movable(after, job, today) <==> e in Movable(files, job, today) - {d}
    {
      assert e in Movable(files, job, today) <==> Slot(Live(job.src), e) in files && e < today;
      assert e in Movable(after, job, today) <==> Slot(Live(job.src), e) in after && e < today;
    }
  }

  /** The tree with every movable date moved, in some order. */
  ghost function Finish(files: Files, job: Job, today: int): Files
    requires job.src != job.dst
    decreases |Movable(files, job, today)|
  {
    var left := Movable(files, job, today);
    if left == {} then files
    else
      Inhabited(left);
      var d :| d in left;
      MovableAfter(files, job, d, today);
      Finish(Move(files, job, d), job, today)
  }

  lemma MovesCommute(files: Files, job: Job, d: int, e: int)
    requires job.src != job.dst && d != e
    requires Slot(Live(job.src), d) in files && Slot(Live(job.src), e) in files
    ensures Slot(Live(job.src), e) in Move(files, job, d) && Slot(Live(job.src), d) in Move(files, job, e)
    ensures Move(Move(files, job, d), job, e) == Move(Move(files, job, e), job, d)
  {
  }

  /** The order of the dates does not matter. */
  lemma {:induction false} FinishFromAny(files: Files, job: Job, d: int, today: int)
    requires job.src != job.dst && d in Movable(files, job, today)
    ensures Slot(Live(job.src), d) in files
    ensures Finish(Move(files, job, d), job, today) == Finish(files, job, today)
    decreases |Movable(files, job, today)|
  {
    MovableAfter(files, job, d, today);
    var left := Movable(files, job, today);
    Inhabited(left);
    var e :| e in left && Slot(Live(job.src), e) in files
             && Finish(files, job, today) == Finish(Move(files, job, e), job, today);
    if e != d {
      MovableAfter(files, job, e, today);
      MovesCommute(files, job, d, e);
      FinishFromAny(Move(files, job, e), job, d, today);
      FinishFromAny(Move(files, job, d), job, e, today);
    }
  }

  function Get(files: Files, q: Slot): Option<nat>
  {
    if q in files then Some(files[q]) else None
  }

  /** What slot `q` holds once a tree is finished: a movable date is in the destination, or parked
      if the destination had that date; everything else is as it was. */
  function Placed(files: Files, job: Job, today: int, q: Slot): Option<nat>
  {
    var from := Slot(Live(job.src), q.date);
    if q.date >= today || from !in files then Get(files, q)
    else if q == from then None
    else if q == Target(files, job, q.date) then Some(files[from])
    else Get(files, q)
  }

  /** Moving a movable date takes it to where it is placed, and leaves every other placement. */
  lemma MovePlaces(files: Files, job: Job, d: int, today: int, q: Slot)
    requires job.src != job.dst && Slot(Live(job.src), d) in files && d < today
    ensures Placed(Move(files, job, d), job, today, q) == Placed(files, job, today, q)
  {
  }

  lemma {:induction false} FinishPlaces(files: Files, job: Job, today: int, q: Slot)
    requires job.src != job.dst
    ensures Get(Finish(files, job, today), q) == Placed(files, job, today, q)
    decreases |Movable(files, job, today)|
  {
    var left := Movable(files, job, today);
    if left == {} {
      assert Slot(Live(job.src), q.date) in files ==> q.date >= today || q.date in left;
    } else {
      Inhabited(left);
      var d :| d in left && Slot(Live(job.src), d) in files
               && Finish(files, job, today) == Finish(Move(files, job, d), job, today);
      MovableAfter(files, job, d, today);
      FinishPlaces(Move(files, job, d), job, today, q);
      MovePlaces(files, job, d, today, q);
    }
  }

  /** Every tree finished, in the order of the jobs. */
  ghost function FinishAll(files: Files, jobs: seq<Job>, today: int): Files
    requires forall j :: j in jobs ==> j.src != j.dst
    decreases |jobs|
  {
    if jobs == [] then files
    else
      assert jobs[0] in jobs;
      FinishAll(Finish(files, jobs[0], today), jobs[1..], today)
  }

  lemma SeparateSelf(jobs: seq<Job>)
    requires Separate(jobs)
    ensures forall j :: j in jobs ==> j.src != j.dst
  {
  }

  lemma OthersUntouched(files: Files, job: Job, d: int, other: Job, today: int)
    requires Slot(Live(job.src), d) in files
    requires other.src != job.src && other.src != job.dst
    ensures Movable(Move(files, job, d), other, today) == Movable(files, other, today)
    ensures Dates(Move(files, job, d), other.src) == Dates(files, other.src)
  {
    var after := Move(files, job, d);
    assert forall q: Slot :: q.dir == Live(other.src) ==> (q in after <==> q in files);
  }

  /** A rename that the run makes, with all earlier trees already finished, does not change where
      everything ends up. */
  lemma {:induction false} RenameConverges(files: Files, jobs: seq<Job>, n: nat, d: int, today: int)
    requires Separate(jobs) && n < |jobs|
    requires forall j :: j in jobs ==> j.src != j.dst
    requires forall i :: 0 <= i < n ==> Movable(files, jobs[i], today) == {}
    requires d in Movable(files, jobs[n], today)
    ensures Slot(Live(jobs[n].src), d) in files
    ensures FinishAll(Move(files, jobs[n], d), jobs, today) == FinishAll(files, jobs, today)
    decreases |jobs|
  {
    if n == 0 {
      FinishFromAny(files, jobs[0], d, today);
    } else {
      var rest := jobs[1..];
      assert rest[n - 1] == jobs[n];
      assert forall j :: j in rest ==> j in jobs;
      OthersUntouched(files, jobs[n], d, jobs[0], today);
      assert Finish(files, jobs[0], today) == files;
      assert Finish(Move(files, jobs[n], d), jobs[0], today) == Move(files, jobs[n], d);
      RenameConverges(files, rest, n - 1, d, today);
    }
  }

  lemma {:induction false} NothingToDo(files: Files, jobs: seq<Job>, today: int)
    requires forall j :: j in jobs ==> j.src != j.dst
    requires forall i :: 0 <= i < |jobs| ==> Movable(files, jobs[i], today) == {}
    ensures FinishAll(files, jobs, today) == files
    decreases |jobs|
  {
    if jobs != [] {
      assert forall i :: 0 <= i < |jobs[1..]| ==> jobs[1..][i] == jobs[i + 1];
      NothingToDo(files, jobs[1..], today);
    }
  }

  // ---------- where files may be ----------

  ghost predicate Injective(files: Files)
  {
    forall p, q :: p in files && q in files && files[p] == files[q] ==> p == q
  }

  /** When tree `n` is reached its destination holds date `d`: from the start, or moved there by an
      earlier tree. */
  ghost predicate Taken(files: Files, jobs: seq<Job>, n: nat, d: int, today: int)
    requires n < |jobs|
  {
    || Slot(Live(jobs[n].dst), d) in files
    || exists j :: 0 <= j < n && jobs[j].dst == jobs[n].dst && d in Movable(files, jobs[j], today)
  }

  /** Every date that will have to be parked has its park slot free. */
  ghost predicate FreePark(files: Files, jobs: seq<Job>, today: int)
  {
    forall i, d :: 0 <= i < |jobs| && d in Movable(files, jobs[i], today) && Taken(files, jobs, i, d, today) ==>
      Slot(Park(jobs[i].src), d) !in files
  }

  /** The file that started in slot `q` is still there, or it was movable and is now in its tree's
      destination or parked. */
  ghost predicate Located(start: Files, files: Files, jobs: seq<Job>, today: int, q: Slot)
    requires q in start
  {
    || (q in files && files[q] == start[q])
    || (exists i :: 0 <= i < |jobs| && q.dir == Live(jobs[i].src) && q.date < today
                 && (Holds(files, Slot(Live(jobs[i].dst), q.date), start[q])
                     || Holds(files, Slot(Park(jobs[i].src), q.date), start[q])))
  }

  predicate Holds(files: Files, q: Slot, f: nat)
  {
    q in files && files[q] == f
  }

  ghost predicate Safe(start: Files, files: Files, jobs: seq<Job>, today: int)
  {
    && Injective(files)
    && FreePark(files, jobs, today)
    && (forall q :: q in start ==> Located(start, files, jobs, today, q))
    && (forall q :: q in files ==> exists p :: p in start && start[p] == files[q])
  }

  lemma MoveSafe(start: Files, files: Files, jobs: seq<Job>, n: nat, d: int, today: int)
    requires Separate(jobs) && n < |jobs| && Safe(start, files, jobs, today) && EarlierDone(files, jobs, n, today)
    requires d in Movable(files, jobs[n], today)
    ensures Slot(Live(jobs[n].src), d) in files
    ensures Safe(start, Move(files, jobs[n], d), jobs, today)
  {
    var job := jobs[n];
    var from, to := Slot(Live(job.src), d), Target(files, job, d);
    var after := Move(files, job, d);
    assert from in files && to !in files;
    assert forall q :: q in after <==> (q in files && q != from) || q == to;
    MoveKeepsPark(files, jobs, n, d, today);
    forall q | q in start
      ensures Located(start, after, jobs, today, q)
    {
      MoveKeepsLocated(start, files, jobs, n, d, today, q);
    }
    forall q | q in after
      ensures exists p :: p in start && start[p] == after[q]
    {
      var before := if q == to then from else q;
      assert after[q] == files[before];
    }
  }

  /** The trees before `n` have nothing left to move. */
  ghost predicate EarlierDone(files: Files, jobs: seq<Job>, n: nat, today: int)
    requires n <= |jobs|
  {
    forall i :: 0 <= i < n ==> Movable(files, jobs[i], today) == {}
  }

  /** A rename makes no date of another tree taken that was not going to be. */
  lemma MoveKeepsTaken(files: Files, jobs: seq<Job>, n: nat, d: int, today: int, i: nat, e: int)
    requires Separate(jobs) && n < i < |jobs| && d in Movable(files, jobs[n], today) && d < today
    requires Slot(Live(jobs[n].src), d) in files
    requires Taken(Move(files, jobs[n], d), jobs, i, e, today)
    ensures Taken(files, jobs, i, e, today)
  {
    var after := Move(files, jobs[n], d);
    if Slot(Live(jobs[i].dst), e) in after {
      assert Slot(Live(jobs[i].dst), e) in files || (jobs[n].dst == jobs[i].dst && e == d);
    } else {
      var j :| 0 <= j < i && jobs[j].dst == jobs[i].dst && e in Movable(after, jobs[j], today);
      if j == n {
        MovableAfter(files, jobs[n], d, today);
      } else {
        OthersUntouched(files, jobs[n], d, jobs[j], today);
      }
    }
  }

  lemma MoveKeepsOwnTaken(files: Files, jobs: seq<Job>, n: nat, d: int, today: int, e: int)
    requires Separate(jobs) && n < |jobs| && EarlierDone(files, jobs, n, today) && d in Movable(files, jobs[n], today)
    requires Slot(Live(jobs[n].src), d) in files && e != d
    requires Taken(Move(files, jobs[n], d), jobs, n, e, today)
    ensures Taken(files, jobs, n, e, today)
  {
    forall j | 0 <= j < n
      ensures Movable(Move(files, jobs[n], d), jobs[j], today) == {}
    {
      OthersUntouched(files, jobs[n], d, jobs[j], today);
    }
  }

  lemma MoveKeepsPark(files: Files, jobs: seq<Job>, n: nat, d: int, today: int)
    requires Separate(jobs) && n < |jobs| && FreePark(files, jobs, today) && EarlierDone(files, jobs, n, today)
    requires d in Movable(files, jobs[n], today)
    ensures Slot(Live(jobs[n].src), d) in files && FreePark(Move(files, jobs[n], d), jobs, today)
  {
    var after := Move(files, jobs[n], d);
    MovableAfter(files, jobs[n], d, today);
    forall i, e | 0 <= i < |jobs| && e in Movable(after, jobs[i], today) && Taken(after, jobs, i, e, today)
      ensures Slot(Park(jobs[i].src), e) !in after
    {
      if i == n {
        MoveKeepsOwnTaken(files, jobs, n, d, today, e);
      } else {
        OthersUntouched(files, jobs[n], d, jobs[i], today);
        MoveKeepsTaken(files, jobs, n, d, today, i, e);
      }
    }
  }

  lemma MoveKeepsLocated(start: Files, files: Files, jobs: seq<Job>, n: nat, d: int, today: int, q: Slot)
    requires Separate(jobs) && n < |jobs| && Injective(files) && FreePark(files, jobs, today)
    requires d in Movable(files, jobs[n], today) && q in start && Located(start, files, jobs, today, q)
    ensures Slot(Live(jobs[n].src), d) in files && Located(start, Move(files, jobs[n], d), jobs, today, q)
  {
    var job := jobs[n];
    var from, to := Slot(Live(job.src), d), Target(files, job, d);
    var after := Move(files, job, d);
    assert from in files && to !in files;
    if q in files && files[q] == start[q] {
      if q == from {
        assert Holds(after, to, start[q]);
      } else {
        assert Holds(after, q, start[q]);
      }
    } else {
      var i :| 0 <= i < |jobs| && q.dir == Live(jobs[i].src) && q.date < today
               && (Holds(files, Slot(Live(jobs[i].dst), q.date), start[q])
                   || Holds(files, Slot(Park(jobs[i].src), q.date), start[q]));
      assert Slot(Live(jobs[i].dst), q.date) != from;
      assert Holds(after, Slot(Live(jobs[i].dst), q.date), start[q]) || Holds(after, Slot(Park(jobs[i].src), q.date), start[q]);
    }
  }

  /** In a safe state no destination file has been overwritten and nothing dated today or later has
      moved: only a source slot before today can have lost its file. */
  lemma OnlyOldSourcesMove(start: Files, files: Files, jobs: seq<Job>, today: int, q: Slot)
    requires Safe(start, files, jobs, today) && q in start
    requires q.date >= today || forall i :: 0 <= i < |jobs| ==> q.dir != Live(jobs[i].src)
    ensures q in files && files[q] == start[q]
  {
    assert Located(start, files, jobs, today, q);
  }

  /** Every file exists in exactly one slot. */
  lemma EveryFileInOnePlace(start: Files, files: Files, jobs: seq<Job>, today: int, q: Slot)
    requires Safe(start, files, jobs, today) && q in start
    ensures exists p :: p in files && files[p] == start[q] && p.date == q.date
                     && forall r :: r in files && files[r] == start[q] ==> r == p
  {
    assert Located(start, files, jobs, today, q);
    if q in files && files[q] == start[q] {
    } else {
      var i :| 0 <= i < |jobs| && q.dir == Live(jobs[i].src) && q.date < today
               && (Holds(files, Slot(Live(jobs[i].dst), q.date), start[q])
                   || Holds(files, Slot(Park(jobs[i].src), q.date), start[q]));
      var p := if Holds(files, Slot(Live(jobs[i].dst), q.date), start[q])
               then Slot(Live(jobs[i].dst), q.date) else Slot(Park(jobs[i].src), q.date);
      assert p in files && files[p] == start[q];
    }
  }

  // ---------- when no file is lost ----------

  ghost predicate Survives(files: Files, f: nat)
  {
    exists q :: q in files && files[q] == f
  }

  /** Nothing is overwritten and nothing deleted: every file is still somewhere. */
  ghost predicate LosesNone(files: Files, after: Files)
  {
    forall q :: q in files ==> Survives(after, files[q])
  }

  /** The colliding dates of one tree have their park slots free. */
  ghost predicate HeadFree(files: Files, job: Job, today: int)
  {
    forall d :: d in Movable(files, job, today) && Slot(Live(job.dst), d) in files ==> Slot(Park(job.src), d) !in files
  }

  /** Where the file found in slot `p` of a finished tree was before. */
  function Origin(files: Files, job: Job, today: int, p: Slot): Slot
  {
    var from := Slot(Live(job.src), p.date);
    if p.date < today && from in files && p == Target(files, job, p.date) then from else p
  }

  lemma FinishOrigin(files: Files, job: Job, today: int, p: Slot)
    requires job.src != job.dst && p in Finish(files, job, today)
    ensures var o := Origin(files, job, today, p);
            o in files && files[o] == Finish(files, job, today)[p] && o.date == p.date
    ensures p.dir == Live(job.src) ==> p.date >= today
  {
    FinishPlaces(files, job, today, p);
  }

  lemma FinishNoNew(files: Files, job: Job, today: int, f: nat)
    requires job.src != job.dst && Survives(Finish(files, job, today), f)
    ensures Survives(files, f)
  {
    var p :| p in Finish(files, job, today) && Finish(files, job, today)[p] == f;
    FinishOrigin(files, job, today, p);
    assert files[Origin(files, job, today, p)] == f;
  }

  lemma {:induction false} FinishAllNoNew(files: Files, jobs: seq<Job>, today: int, f: nat)
    requires (forall j :: j in jobs ==> j.src != j.dst) && Survives(FinishAll(files, jobs, today), f)
    ensures Survives(files, f)
    decreases |jobs|
  {
    if jobs != [] {
      assert jobs[0] in jobs;
      FinishAllNoNew(Finish(files, jobs[0], today), jobs[1..], today, f);
      FinishNoNew(files, jobs[0], today, f);
    }
  }

  lemma FinishInjective(files: Files, job: Job, today: int)
    requires job.src != job.dst && Injective(files)
    ensures Injective(Finish(files, job, today))
  {
    var after := Finish(files, job, today);
    forall p, q | p in after && q in after && after[p] == after[q]
      ensures p == q
    {
      FinishOrigin(files, job, today, p);
      FinishOrigin(files, job, today, q);
      assert Origin(files, job, today, p) == Origin(files, job, today, q);
    }
  }

  lemma FinishKeeps(files: Files, job: Job, today: int, q: Slot)
    requires job.src != job.dst && HeadFree(files, job, today) && q in files
    ensures Survives(Finish(files, job, today), files[q])
  {
    var after := Finish(files, job, today);
    var p := if q.dir == Live(job.src) && q.date < today then Target(files, job, q.date) else q;
    FinishPlaces(files, job, today, p);
    if p == q {
      assert q.date < today && Slot(Live(job.src), q.date) in files ==> q.date in Movable(files, job, today);
    }
    assert p in after && after[p] == files[q];
  }

  /** A colliding date overwrites the file in its park slot. */
  lemma FinishLoses(files: Files, job: Job, today: int, d: int)
    requires job.src != job.dst && Injective(files) && d in Movable(files, job, today)
    requires Slot(Live(job.dst), d) in files && Slot(Park(job.src), d) in files
    ensures !Survives(Finish(files, job, today), files[Slot(Park(job.src), d)])
  {
    var after, q := Finish(files, job, today), Slot(Park(job.src), d);
    assert Slot(Live(job.src), d) in files;
    forall p | p in after
      ensures after[p] != files[q]
    {
      FinishOrigin(files, job, today, p);
      assert Origin(files, job, today, p) != q;
    }
  }

  lemma HeadLosesNoneExactly(files: Files, job: Job, today: int)
    requires job.src != job.dst && Injective(files)
    ensures LosesNone(files, Finish(files, job, today)) <==> HeadFree(files, job, today)
  {
    if HeadFree(files, job, today) {
      forall q | q in files ensures Survives(Finish(files, job, today), files[q]) {
        FinishKeeps(files, job, today, q);
      }
    } else {
      var d :| d in Movable(files, job, today) && Slot(Live(job.dst), d) in files && Slot(Park(job.src), d) in files;
      FinishLoses(files, job, today, d);
    }
  }

  /** What finishing the first tree does to what the others see. */
  lemma OthersAfterFirst(files: Files, jobs: seq<Job>, today: int, i: nat)
    requires Separate(jobs) && 0 < i < |jobs|
    ensures jobs[0].src != jobs[0].dst
    ensures Movable(Finish(files, jobs[0], today), jobs[i], today) == Movable(files, jobs[i], today)
    ensures forall d :: Slot(Park(jobs[i].src), d) in Finish(files, jobs[0], today) <==> Slot(Park(jobs[i].src), d) in files
    ensures forall d :: Slot(Live(jobs[i].dst), d) in Finish(files, jobs[0], today) <==>
              Slot(Live(jobs[i].dst), d) in files || (jobs[0].dst == jobs[i].dst && d in Movable(files, jobs[0], today))
  {
    var after := Finish(files, jobs[0], today);
    forall d
      ensures Slot(Live(jobs[i].src), d) in after <==> Slot(Live(jobs[i].src), d) in files
    {
      FinishPlaces(files, jobs[0], today, Slot(Live(jobs[i].src), d));
    }
    SameMovable(files, after, jobs[i], today);
    forall d
      ensures Slot(Park(jobs[i].src), d) in after <==> Slot(Park(jobs[i].src), d) in files
    {
      FinishPlaces(files, jobs[0], today, Slot(Park(jobs[i].src), d));
    }
    forall d
      ensures Slot(Live(jobs[i].dst), d) in after <==>
              Slot(Live(jobs[i].dst), d) in files || (jobs[0].dst == jobs[i].dst && d in Movable(files, jobs[0], today))
    {
      FinishPlaces(files, jobs[0], today, Slot(Live(jobs[i].dst), d));
      MovableSlot(files, jobs[0], today, d);
    }
  }

  lemma MovableSlot(files: Files, job: Job, today: int, d: int)
    ensures d in Movable(files, job, today) <==> Slot(Live(job.src), d) in files && d < today
  {
  }

  lemma SameMovable(files: Files, after: Files, job: Job, today: int)
    requires forall d :: Slot(Live(job.src), d) in after <==> Slot(Live(job.src), d) in files
    ensures Movable(after, job, today) == Movable(files, job, today)
  {
    forall d
      ensures d in Movable(after, job, today) <==> d in Movable(files, job, today)
    {
      MovableSlot(files, job, today, d);
      MovableSlot(after, job, today, d);
    }
  }

  lemma SeparateRest(jobs: seq<Job>)
    requires Separate(jobs) && jobs != []
    ensures Separate(jobs[1..]) && jobs[0].src != jobs[0].dst
  {
  }

  lemma TakenAfterFirst(files: Files, jobs: seq<Job>, today: int, i: nat, d: int)
    requires Separate(jobs) && 0 < i < |jobs| && jobs[0].src != jobs[0].dst
    ensures Taken(Finish(files, jobs[0], today), jobs[1..], i - 1, d, today) <==> Taken(files, jobs, i, d, today)
  {
    var after, rest := Finish(files, jobs[0], today), jobs[1..];
    OthersAfterFirst(files, jobs, today, i);
    forall j | 0 < j < i
      ensures rest[j - 1] == jobs[j] && Movable(after, rest[j - 1], today) == Movable(files, jobs[j], today)
    {
      OthersAfterFirst(files, jobs, today, j);
    }
    if Taken(files, jobs, i, d, today) && Slot(Live(jobs[i].dst), d) !in after {
      var j :| 0 <= j < i && jobs[j].dst == jobs[i].dst && d in Movable(files, jobs[j], today);
      assert rest[j - 1].dst == rest[i - 1].dst && d in Movable(after, rest[j - 1], today);
    }
  }

  /** Free park slots are those of the first tree and then of the rest. */
  lemma FreeParkSplits(files: Files, jobs: seq<Job>, today: int)
    requires Separate(jobs) && jobs != [] && jobs[0].src != jobs[0].dst
    ensures FreePark(files, jobs, today) <==>
            HeadFree(files, jobs[0], today) && FreePark(Finish(files, jobs[0], today), jobs[1..], today)
  {
    var after, rest := Finish(files, jobs[0], today), jobs[1..];
    forall i, d | 0 < i < |jobs|
      ensures d in Movable(files, jobs[i], today) && Taken(files, jobs, i, d, today) <==>
              d in Movable(after, rest[i - 1], today) && Taken(after, rest, i - 1, d, today)
      ensures Slot(Park(jobs[i].src), d) in files <==> Slot(Park(rest[i - 1].src), d) in after
    {
      OthersAfterFirst(files, jobs, today, i);
      TakenAfterFirst(files, jobs, today, i, d);
    }
    FreeParkFromParts(files, after, jobs, today);
  }

  lemma FreeParkFromParts(files: Files, after: Files, jobs: seq<Job>, today: int)
    requires jobs != []
    requires forall i, d :: 0 < i < |jobs| ==>
               (d in Movable(files, jobs[i], today) && Taken(files, jobs, i, d, today) <==>
                d in Movable(after, jobs[1..][i - 1], today) && Taken(after, jobs[1..], i - 1, d, today))
               && (Slot(Park(jobs[i].src), d) in files <==> Slot(Park(jobs[1..][i - 1].src), d) in after)
    ensures FreePark(files, jobs, today) <==> HeadFree(files, jobs[0], today) && FreePark(after, jobs[1..], today)
  {
    var rest := jobs[1..];
    if FreePark(files, jobs, today) {
      forall d | d in Movable(files, jobs[0], today) && Slot(Live(jobs[0].dst), d) in files
        ensures Slot(Park(jobs[0].src), d) !in files
      {
        assert Taken(files, jobs, 0, d, today);
      }
      forall i, d | 0 <= i < |rest| && d in Movable(after, rest[i], today) && Taken(after, rest, i, d, today)
        ensures Slot(Park(rest[i].src), d) !in after
      {
        assert rest[i] == jobs[1..][(i + 1) - 1];
      }
    }
    if HeadFree(files, jobs[0], today) && FreePark(after, rest, today) {
      forall i, d | 0 <= i < |jobs| && d in Movable(files, jobs[i], today) && Taken(files, jobs, i, d, today)
        ensures Slot(Park(jobs[i].src), d) !in files
      {
        if i > 0 {
          assert Taken(after, rest, i - 1, d, today);
        }
      }
    }
  }

  lemma LosesNoneChain(files: Files, mid: Files, after: Files)
    requires forall f :: Survives(after, f) ==> Survives(mid, f)
    ensures LosesNone(files, after) ==> LosesNone(files, mid)
    ensures LosesNone(files, mid) && LosesNone(mid, after) ==> LosesNone(files, after)
  {
    if LosesNone(files, after) {
      forall q | q in files ensures Survives(mid, files[q]) {
        assert Survives(after, files[q]);
      }
    }
    if LosesNone(files, mid) && LosesNone(mid, after) {
      forall q | q in files ensures Survives(after, files[q]) {
        assert Survives(mid, files[q]);
        var p :| p in mid && mid[p] == files[q];
        assert Survives(after, mid[p]);
      }
    }
  }

  /** With nothing new in between, what the whole run keeps of the middle it keeps of the start. */
  lemma LosesNoneOfMiddle(files: Files, mid: Files, after: Files)
    requires LosesNone(files, after) && forall f :: Survives(mid, f) ==> Survives(files, f)
    ensures LosesNone(mid, after)
  {
    forall p | p in mid ensures Survives(after, mid[p]) {
      assert Survives(mid, mid[p]);
      var q :| q in files && files[q] == mid[p];
    }
  }

  /** A whole run overwrites and deletes nothing if and only if every date it has to park finds its park
      slot free. */
  lemma {:induction false} LosesNoneExactlyWhenParkFree(files: Files, jobs: seq<Job>, today: int)
    requires Separate(jobs) && (forall j :: j in jobs ==> j.src != j.dst) && Injective(files)
    ensures LosesNone(files, FinishAll(files, jobs, today)) <==> FreePark(files, jobs, today)
    decreases |jobs|
  {
    if jobs == [] {
      forall q | q in files ensures Survives(files, files[q]) {
      }
    } else {
      assert jobs[0] in jobs;
      var mid, rest := Finish(files, jobs[0], today), jobs[1..];
      SeparateRest(jobs);
      FreeParkSplits(files, jobs, today);
      HeadLosesNoneExactly(files, jobs[0], today);
      FinishInjective(files, jobs[0], today);
      LosesNoneExactlyWhenParkFree(mid, rest, today);
      FirstAndRest(files, mid, FinishAll(mid, rest, today), jobs, today);
    }
  }

  lemma FirstAndRest(files: Files, mid: Files, after: Files, jobs: seq<Job>, today: int)
    requires jobs != [] && (forall j :: j in jobs ==> j.src != j.dst)
    requires jobs[0].src != jobs[0].dst && mid == Finish(files, jobs[0], today) && after == FinishAll(mid, jobs[1..], today)
    ensures LosesNone(files, after) <==> LosesNone(files, mid) && LosesNone(mid, after)
  {
    forall f | Survives(after, f) ensures Survives(mid, f) {
      FinishAllNoNew(mid, jobs[1..], today, f);
    }
    forall f | Survives(mid, f) ensures Survives(files, f) {
      FinishNoNew(files, jobs[0], today, f);
    }
    LosesNoneChain(files, mid, after);
    if LosesNone(files, after) {
      LosesNoneOfMiddle(files, mid, after);
    }
  }

  /** Date 0 is under phantom id 1, already under its real id 2, and already parked: the parked file is
      lost. */
  lemma TakenParkSlotIsOverwritten(jobs: seq<Job>, files: Files)
    requires jobs == [Job(0, 1, 2)]
    requires files == map[Slot(Live(1), 0) := 10, Slot(Live(2), 0) := 20, Slot(Park(1), 0) := 30]
    ensures Separate(jobs) && !Survives(EndOf(files, jobs, 1), 30)
  {
    assert Separate(jobs);
    SeparateSelf(jobs);
    MovableSlot(files, jobs[0], 1, 0);
    FinishLoses(files, jobs[0], 1, 0);
    OneTree(files, jobs, 1);
  }

  lemma OneTree(files: Files, jobs: seq<Job>, today: int)
    requires |jobs| == 1 && Separate(jobs)
    ensures EndOf(files, jobs, today) == Finish(files, jobs[0], today)
  {
    SeparateSelf(jobs);
    assert FinishAll(Finish(files, jobs[0], today), jobs[1..], today) == Finish(files, jobs[0], today);
  }

  // ---------- the tool ----------

  datatype Outcome = Killed | Nothing | Finished(state: TreeState)

  /** What a run keeps at every point while it works on tree `n`: everything is safe and will end
      where it would have from the start, every earlier tree is finished, and a tree journaled as
      done has nothing left under its phantom id. */
  ghost predicate Running(start: Files, files: Files, journal: map<nat, TreeState>, jobs: seq<Job>, n: nat, today: int)
  {
    && Separate(jobs) && n <= |jobs|
    && Safe(start, files, jobs, today)
    && SameEnd(files, start, jobs, today)
    && JournalSound(files, journal, jobs)
    && EarlierDone(files, jobs, n, today)
  }

  predicate JournalSound(files: Files, journal: map<nat, TreeState>, jobs: seq<Job>)
  {
    forall i :: 0 <= i < |jobs| && jobs[i].key in journal && journal[jobs[i].key] == Done ==>
      Dates(files, jobs[i].src) == {}
  }

  ghost predicate SameEnd(a: Files, b: Files, jobs: seq<Job>, today: int)
  {
    (forall j :: j in jobs ==> j.src != j.dst) && FinishAll(a, jobs, today) == FinishAll(b, jobs, today)
  }

  /** Where an uninterrupted run puts everything. */
  ghost function EndOf(files: Files, jobs: seq<Job>, today: int): Files
    requires Separate(jobs)
  {
    SeparateSelf(jobs);
    FinishAll(files, jobs, today)
  }

  lemma DatesAfter(files: Files, job: Job, d: int)
    requires job.src != job.dst && Slot(Live(job.src), d) in files
    ensures Dates(Move(files, job, d), job.src) == Dates(files, job.src) - {d}
  {
    var after := Move(files, job, d);
    forall e
      ensures e in Dates(after, job.src) <==> e in Dates(files, job.src) - {d}
    {
      assert e in Dates(files, job.src) <==> Slot(Live(job.src), e) in files;
      assert e in Dates(after, job.src) <==> Slot(Live(job.src), e) in after;
    }
  }

  /** Working on tree `n` leaves the other trees' movable dates alone. */
  ghost predicate OthersSame(before: Files, after: Files, jobs: seq<Job>, n: nat, today: int)
  {
    forall i :: 0 <= i < |jobs| && i != n ==> Movable(after, jobs[i], today) == Movable(before, jobs[i], today)
  }

  /** The most renames and journal writes the trees from `n` on can still take. */
  ghost function Left(files: Files, jobs: seq<Job>, today: int, n: nat): nat
    decreases |jobs| - n
  {
    if n >= |jobs| then 0 else |Movable(files, jobs[n], today)| + 1 + Left(files, jobs, today, n + 1)
  }

  lemma {:induction false} LeftFrame(before: Files, after: Files, jobs: seq<Job>, n: nat, today: int, m: nat)
    requires OthersSame(before, after, jobs, n, today) && m > n
    ensures Left(after, jobs, today, m) == Left(before, jobs, today, m)
    decreases |jobs| - m
  {
    if m < |jobs| {
      LeftFrame(before, after, jobs, n, today, m + 1);
    }
  }

  /** Work on tree `n` only: every unit of budget spent moved one of its dates. */
  ghost predicate Spent(before: Files, after: Files, had: nat, has: nat, jobs: seq<Job>, n: nat, today: int)
    requires n < |jobs|
  {
    && OthersSame(before, after, jobs, n, today)
    && Movable(after, jobs[n], today) <= Movable(before, jobs[n], today)
    && Dates(after, jobs[n].src) <= Dates(before, jobs[n].src)
    && had + |Movable(after, jobs[n], today)| == has + |Movable(before, jobs[n], today)|
  }

  lemma SpentOne(before: Files, mid: Files, after: Files, had: nat, has: nat, jobs: seq<Job>, n: nat, d: int, today: int)
    requires n < |jobs| && has > 0 && Spent(before, mid, had, has, jobs, n, today)
    requires d in Movable(mid, jobs[n], today) && OthersSame(mid, after, jobs, n, today)
    requires Movable(after, jobs[n], today) == Movable(mid, jobs[n], today) - {d}
    requires Dates(after, jobs[n].src) <= Dates(mid, jobs[n].src)
    ensures Spent(before, after, had, has - 1, jobs, n, today)
  {
  }

  /** A tree worked off has cost its dates; with its journal entry it has cost what was left for it. */
  lemma LeftAfter(before: Files, after: Files, had: nat, has: nat, jobs: seq<Job>, n: nat, today: int)
    requires n < |jobs| && Spent(before, after, had, has, jobs, n, today)
    ensures Movable(after, jobs[n], today) == {} ==>
              had + Left(after, jobs, today, n + 1) + 1 == has + Left(before, jobs, today, n)
    ensures has == 0 ==> had < Left(before, jobs, today, n)
  {
    LeftFrame(before, after, jobs, n, today, n + 1);
  }

  ghost predicate Shrunk(before: Files, after: Files, jobs: seq<Job>, today: int)
  {
    forall i :: 0 <= i < |jobs| ==> Movable(after, jobs[i], today) <= Movable(before, jobs[i], today)
  }

  lemma ShrunkTrans(before: Files, mid: Files, after: Files, jobs: seq<Job>, today: int)
    requires Shrunk(before, mid, jobs, today) && Shrunk(mid, after, jobs, today)
    ensures Shrunk(before, after, jobs, today)
  {
  }

  lemma {:induction false} LeftShrinks(before: Files, after: Files, jobs: seq<Job>, today: int, n: nat)
    requires Shrunk(before, after, jobs, today)
    ensures Left(after, jobs, today, n) <= Left(before, jobs, today, n)
    decreases |jobs| - n
  {
    if n < |jobs| {
      var (a, b) := (Movable(after, jobs[n], today), Movable(before, jobs[n], today));
      assert b == a + (b - a);
      LeftShrinks(before, after, jobs, today, n + 1);
    }
  }

  lemma RunningStep(start: Files, files: Files, journal: map<nat, TreeState>, jobs: seq<Job>, n: nat, d: int, today: int)
    requires Running(start, files, journal, jobs, n, today) && n < |jobs| && d in Movable(files, jobs[n], today)
    ensures Slot(Live(jobs[n].src), d) in files
    ensures var after := Move(files, jobs[n], d);
            && Running(start, after, journal, jobs, n, today)
            && Movable(after, jobs[n], today) == Movable(files, jobs[n], today) - {d}
            && Dates(after, jobs[n].src) == Dates(files, jobs[n].src) - {d}
            && OthersSame(files, after, jobs, n, today)
  {
    SeparateSelf(jobs);
    MoveSafe(start, files, jobs, n, d, today);
    RenameConverges(files, jobs, n, d, today);
    MovableAfter(files, jobs[n], d, today);
    DatesAfter(files, jobs[n], d);
    assert d in Dates(files, jobs[n].src);
    var after := Move(files, jobs[n], d);
    forall i | 0 <= i < |jobs| && i != n
      ensures Movable(after, jobs[i], today) == Movable(files, jobs[i], today)
      ensures Dates(after, jobs[i].src) == Dates(files, jobs[i].src)
    {
      OthersUntouched(files, jobs[n], d, jobs[i], today);
    }
  }

  /** `dates` is `s` without repetition, in some order. */
  ghost predicate Lists(dates: seq<int>, s: set<int>)
  {
    && (forall d :: d in dates <==> d in s)
    && forall i, j :: 0 <= i < j < |dates| ==> dates[i] != dates[j]
  }

  lemma ListsHead(dates: seq<int>, s: set<int>)
    requires Lists(dates, s) && dates != []
    ensures dates[0] in s
  {
    assert dates[0] in dates;
  }

  lemma ListsTail(dates: seq<int>, s: set<int>)
    requires Lists(dates, s) && dates != []
    ensures Lists(dates[1..], s - {dates[0]})
  {
    assert dates == [dates[0]] + dates[1..];
    assert dates[0] !in dates[1..];
  }

  lemma ListsNothing(s: set<int>)
    requires Lists([], s)
    ensures s == {}
  {
    assert forall d :: d in s ==> d in [];
  }

  /** A tree with nothing left to move is behind the run. */
  lemma RunningNext(start: Files, files: Files, journal: map<nat, TreeState>, jobs: seq<Job>, n: nat, today: int)
    requires n < |jobs| && Running(start, files, journal, jobs, n, today) && Movable(files, jobs[n], today) == {}
    ensures Running(start, files, journal, jobs, n + 1, today)
  {
  }

  lemma DoneIsBehind(start: Files, files: Files, journal: map<nat, TreeState>, jobs: seq<Job>, n: nat, today: int)
    requires n < |jobs| && Running(start, files, journal, jobs, n, today)
    requires jobs[n].key in journal && journal[jobs[n].key] == Done
    ensures Running(start, files, journal, jobs, n + 1, today)
  {
    MovableDates(files, jobs[n], today);
    assert Movable(files, jobs[n], today) == {};
    RunningNext(start, files, journal, jobs, n, today);
  }

  lemma SpentShrinks(before: Files, after: Files, had: nat, has: nat, jobs: seq<Job>, n: nat, today: int)
    requires n < |jobs| && Spent(before, after, had, has, jobs, n, today)
    ensures Shrunk(before, after, jobs, today)
  {
  }

  /** A journal entry is sound when its tree is as it says. */
  lemma JournalGrows(files: Files, journal: map<nat, TreeState>, jobs: seq<Job>, n: nat, state: TreeState)
    requires Separate(jobs) && n < |jobs| && JournalSound(files, journal, jobs)
    requires state == Done ==> Dates(files, jobs[n].src) == {}
    ensures JournalSound(files, journal[jobs[n].key := state], jobs)
  {
    forall i | 0 <= i < |jobs| && i != n ensures jobs[i].key != jobs[n].key {
    }
  }

  class Volume {
    var files: Files
    var journal: map<nat, TreeState>
    var budget: nat           // renames and journal writes left before the process is killed

    /** Lists a directory, in any order. */
    method List(id: nat) returns (dates: seq<int>)
      ensures forall d :: d in dates <==> d in Dates(files, id)
      ensures forall i, j :: 0 <= i < j < |dates| ==> dates[i] != dates[j]
    {
      var left := Dates(files, id);
      dates := [];
      while left != {}
        invariant forall d :: d in dates <==> d in Dates(files, id) - left
        invariant forall i, j :: 0 <= i < j < |dates| ==> dates[i] != dates[j]
        invariant left <= Dates(files, id)
        decreases |left|
      {
        Inhabited(left);
        var d :| d in left;
        assert d !in dates;
        dates := dates + [d];
        left := left - {d};
      }
    }

    method Split(id: nat, today: int) returns (movable: seq<int>, held: seq<int>)
      ensures forall d :: d in movable <==> d in Dates(files, id) && d < today
      ensures forall i, j :: 0 <= i < j < |movable| ==> movable[i] != movable[j]
      ensures forall d :: d in held <==> d in Dates(files, id) && d >= today
    {
      var all := List(id);
      movable, held := [], [];
      for n := 0 to |all|
        invariant forall d :: d in movable <==> d in all[..n] && d < today
        invariant forall i, j :: 0 <= i < j < |movable| ==> movable[i] != movable[j]
        invariant forall d :: d in held <==> d in all[..n] && d >= today
      {
        assert all[..n + 1] == all[..n] + [all[n]];
        assert all[n] !in all[..n] && all[n] in all[..n + 1];
        if all[n] < today {
          movable := movable + [all[n]];
        } else {
          held := held + [all[n]];
        }
      }
      assert all[..|all|] == all;
    }

    /** One rename, unless the process is killed before it. */
    method RenameOne(ghost start: Files, jobs: seq<Job>, n: nat, today: int, d: int) returns (killed: bool)
      requires n < |jobs| && Running(start, files, journal, jobs, n, today) && d in Movable(files, jobs[n], today)
      modifies this`files, this`budget
      ensures Running(start, files, journal, jobs, n, today)
      ensures Dates(files, jobs[n].src) <= Dates(old(files), jobs[n].src)
      ensures !killed ==> Movable(files, jobs[n], today) == Movable(old(files), jobs[n], today) - {d}
      ensures OthersSame(old(files), files, jobs, n, today)
      ensures if killed then old(budget) == budget == 0 && files == old(files) else old(budget) == budget + 1
    {
      RunningStep(start, files, journal, jobs, n, d, today);
      if budget == 0 {
        return true;
      }
      budget := budget - 1;
      files := Move(files, jobs[n], d);
      killed := false;
    }

    method RenameNext(ghost start: Files, ghost first: Files, ghost had: nat, jobs: seq<Job>, n: nat, today: int,
                      movable: seq<int>, k: nat) returns (killed: bool)
      requires n < |jobs| && k < |movable| && Running(start, files, journal, jobs, n, today)
      requires Spent(first, files, had, budget, jobs, n, today)
      requires Lists(movable[k..], Movable(files, jobs[n], today))
      modifies this`files, this`budget
      ensures Running(start, files, journal, jobs, n, today)
      ensures Spent(first, files, had, budget, jobs, n, today)
      ensures if killed then budget == 0 else Lists(movable[k + 1..], Movable(files, jobs[n], today))
    {
      ghost var before, has := files, budget;
      ListsHead(movable[k..], Movable(files, jobs[n], today));
      killed := RenameOne(start, jobs, n, today, movable[k]);
      if !killed {
        SpentOne(first, before, files, had, has, jobs, n, movable[k], today);
        ListsTail(movable[k..], Movable(before, jobs[n], today));
        assert movable[k..][1..] == movable[k + 1..];
      }
    }

    /** Renames the movable dates of a tree one by one, or is killed on the way. */
    method RenameAll(ghost start: Files, jobs: seq<Job>, n: nat, today: int, movable: seq<int>) returns (killed: bool)
      requires n < |jobs| && Running(start, files, journal, jobs, n, today)
      requires Lists(movable, Movable(files, jobs[n], today))
      modifies this`files, this`budget
      ensures Running(start, files, journal, jobs, n, today)
      ensures Spent(old(files), files, old(budget), budget, jobs, n, today)
      ensures if killed then budget == 0 else Movable(files, jobs[n], today) == {}
    {
      killed := false;
      assert movable[0..] == movable;
      for k := 0 to |movable|
        invariant Running(start, files, journal, jobs, n, today)
        invariant Spent(old(files), files, old(budget), budget, jobs, n, today)
        invariant Lists(movable[k..], Movable(files, jobs[n], today))
      {
        killed := RenameNext(start, old(files), old(budget), jobs, n, today, movable, k);
        if killed {
          return;
        }
      }
      ListsNothing(Movable(files, jobs[n], today));
    }

    /** Moves one tree, leaving dates from today on in place. */
    method MigrateTree(ghost start: Files, jobs: seq<Job>, n: nat, today: int) returns (r: Outcome)
      requires n < |jobs| && Running(start, files, journal, jobs, n, today)
      modifies this`files, this`budget
      ensures Running(start, files, journal, jobs, n, today)
      ensures !r.Killed? ==> Movable(files, jobs[n], today) == {}
      ensures r == Finished(Done) ==> Dates(files, jobs[n].src) == {}
      ensures Spent(old(files), files, old(budget), budget, jobs, n, today)
      ensures r.Killed? ==> budget == 0
    {
      var movable, held := Split(jobs[n].src, today);
      MovableDates(files, jobs[n], today);
      if movable == [] {
        assert Movable(files, jobs[n], today) == {};
        return if held == [] then Nothing else Finished(PartialToday);
      }
      var killed := RenameAll(start, jobs, n, today, movable);
      if killed {
        return Killed;
      }
      MovableDates(files, jobs[n], today);
      r := Finished(if held == [] then Done else PartialToday);
    }

    /** Journals a finished tree, unless the process is killed before it. */
    method Record(ghost start: Files, jobs: seq<Job>, n: nat, today: int, state: TreeState) returns (killed: bool)
      requires n < |jobs| && Running(start, files, journal, jobs, n, today) && Movable(files, jobs[n], today) == {}
      requires state == Done ==> Dates(files, jobs[n].src) == {}
      modifies this`journal, this`budget
      ensures Running(start, files, journal, jobs, if killed then n else n + 1, today)
      ensures if killed then old(budget) == budget == 0 && journal == old(journal)
              else old(budget) == budget + 1 && journal == old(journal)[jobs[n].key := state]
    {
      killed := budget == 0;
      if !killed {
        RunningNext(start, files, journal, jobs, n, today);
        JournalGrows(files, journal, jobs, n, state);
        budget := budget - 1;
        journal := journal[jobs[n].key := state];
      }
    }

    /** Handles tree `n`: skipped when journaled as done, otherwise moved and journaled. */
    method Handle(ghost start: Files, jobs: seq<Job>, n: nat, today: int) returns (killed: bool)
      requires n < |jobs| && Running(start, files, journal, jobs, n, today)
      modifies this
      ensures Running(start, files, journal, jobs, if killed then n else n + 1, today)
      ensures Shrunk(old(files), files, jobs, today)
      ensures if killed then old(budget) < Left(old(files), jobs, today, n)
              else old(budget) + Left(files, jobs, today, n + 1) <= budget + Left(old(files), jobs, today, n)
    {
      var job := jobs[n];
      if job.key in journal && journal[job.key] == Done {
        DoneIsBehind(start, files, journal, jobs, n, today);
        return false;
      }
      var r := MigrateTree(start, jobs, n, today);
      LeftAfter(old(files), files, old(budget), budget, jobs, n, today);
      SpentShrinks(old(files), files, old(budget), budget, jobs, n, today);
      killed := r.Killed?;
      if r.Finished? {
        killed := Record(start, jobs, n, today, r.state);
      } else if r.Nothing? {
        RunningNext(start, files, journal, jobs, n, today);
      }
    }

    /** One start of the tool: every tree in turn. Whatever happens, the trees still end where an
        uninterrupted run from `start` puts them, and a run that is not killed has put them there. */
    method Run(ghost start: Files, jobs: seq<Job>, today: int) returns (done: bool)
      requires Running(start, files, journal, jobs, 0, today)
      modifies this
      ensures Running(start, files, journal, jobs, 0, today)
      ensures done ==> files == EndOf(start, jobs, today)
      ensures Shrunk(old(files), files, jobs, today)
      ensures !done ==> old(budget) < Left(old(files), jobs, today, 0)
    {
      for n := 0 to |jobs|
        invariant Running(start, files, journal, jobs, n, today)
        invariant Shrunk(old(files), files, jobs, today)
        invariant old(budget) + Left(files, jobs, today, n) <= budget + Left(old(files), jobs, today, 0)
      {
        ghost var before := files;
        var killed := Handle(start, jobs, n, today);
        ShrunkTrans(old(files), before, files, jobs, today);
        if killed {
          return false;
        }
      }
      NothingToDo(files, jobs, today);
      done := true;
    }

    /** Any number of killed runs and restarts: as soon as one finishes, every shard is where one
        uninterrupted run would have put it. */
    method RunWithRestarts(jobs: seq<Job>, today: int, kills: seq<nat>) returns (done: bool)
      requires Running(files, files, journal, jobs, 0, today)
      modifies this
      ensures Running(old(files), files, journal, jobs, 0, today)
      ensures done ==> files == EndOf(old(files), jobs, today)
      ensures done || forall n :: 0 <= n < |kills| ==> kills[n] < Left(old(files), jobs, today, 0)
    {
      done := false;
      for n := 0 to |kills|
        invariant Running(old(files), files, journal, jobs, 0, today)
        invariant done ==> files == EndOf(old(files), jobs, today)
        invariant Shrunk(old(files), files, jobs, today)
        invariant done || forall k :: 0 <= k < n ==> kills[k] < Left(old(files), jobs, today, 0)
      {
        if !done {
          LeftShrinks(old(files), files, jobs, today, 0);
          budget := kills[n];
          done := Run(old(files), jobs, today);
        }
      }
    }
  }

  lemma MovableDates(files: Files, job: Job, today: int)
    ensures forall d :: d in Movable(files, job, today) <==> d in Dates(files, job.src) && d < today
  {
    forall d
      ensures d in Movable(files, job, today) <==> d in Dates(files, job.src) && d < today
    {
      assert d in Dates(files, job.src) <==> Slot(Live(job.src), d) in files;
    }
  }

  /** A fresh start is safe when the files are distinct and the park slots are free. */
  lemma FreshStart(files: Files, jobs: seq<Job>, today: int)
    requires Separate(jobs) && Injective(files) && FreePark(files, jobs, today)
    ensures Running(files, files, map[], jobs, 0, today)
  {
    SeparateSelf(jobs);
  }
}
