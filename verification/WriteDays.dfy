/**
  The staged multi-file commit of the on-chain backfill: every day shard and the sidecar are
  staged to temporary files, then renamed into place one by one, then the manifest is written.
  Any fallible operation may fail; the temporary files are removed on every way out.
*/
module WriteDays {
  import opened Wrappers
  import opened Calendar

  datatype Path = Shard(date: int) | Sidecar | Manifest | Tmp(target: Path, stamp: int)

  datatype Row = Row(ts: int, body: nat)

  datatype Bytes = Rows(rows: seq<Row>) | Json(text: nat) | Dates(dates: set<int>) | Torn

  type Files = map<Path, Bytes>

  // ---------- the disk ----------

  /** `faulty(n)` says whether the n-th fallible operation fails. */
  class Disk {
    var files: Files
    var ops: nat
    const faulty: nat -> bool

    constructor (onDisk: Files, faulty: nat -> bool)
      ensures files == onDisk && this.faulty == faulty
    {
      files, ops, this.faulty := onDisk, 0, faulty;
    }

    /** No operation ever fails. */
    ghost predicate Healthy()
    {
      forall n :: !faulty(n)
    }

    /** Any fallible operation without an effect on the files. */
    method Try() returns (ok: bool)
      modifies this`ops
      ensures Healthy() ==> ok
    {
      ok := !faulty(ops);
      ops := ops + 1;
    }
  }

  /** Temporary files not yet renamed into place. */
  class Staged {
    const disk: Disk
    var tmps: set<Path>

    ghost predicate Valid()
      reads this, disk
    {
      forall p :: p in tmps ==> p.Tmp? && p in disk.files
    }

    /** The disk without the temporary files. */
    ghost function Base(): Files
      reads this, disk
    {
      disk.files - tmps
    }

    constructor (disk: Disk)
      ensures Valid() && this.disk == disk && tmps == {} && Base() == disk.files
    {
      this.disk, tmps := disk, {};
      new;
      assert disk.files - {} == disk.files;
    }

    /** Writes a new file next to `target`. A failed write still leaves the file to be removed. */
    method Put(target: Path, bytes: Bytes, stamp: int) returns (tmp: Option<Path>)
      requires Valid()
      modifies this, disk
      ensures Valid() && Base() == old(Base())
      ensures tmp.Some? ==> tmp.value == Tmp(target, stamp) && tmp.value !in old(tmps)
                            && tmps == old(tmps) + {tmp.value} && disk.files[tmp.value] == bytes
      ensures forall p :: p in old(tmps) ==> p in tmps && disk.files[p] == old(disk.files[p])
      ensures disk.Healthy() && Tmp(target, stamp) !in old(disk.files) ==> tmp.Some?
    {
      var p := Tmp(target, stamp);
      var created := disk.Try();
      if !created || p in disk.files {
        return None;
      }
      disk.files := disk.files[p := Torn];
      tmps := tmps + {p};
      assert Base() == old(Base());
      var written := disk.Try();
      if !written {
        return None;
      }
      disk.files := disk.files[p := bytes];
      assert Base() == old(Base());
      tmp := Some(p);
    }

    /** Renames a temporary file over its target. */
    method Commit(tmp: Path, target: Path) returns (ok: bool)
      requires Valid() && tmp in tmps && !target.Tmp?
      modifies this, disk
      ensures Valid()
      ensures !ok ==> tmps == old(tmps) && disk.files == old(disk.files)
      ensures ok ==> tmps == old(tmps) - {tmp} && Base() == old(Base())[target := old(disk.files[tmp])]
      ensures forall p :: p in tmps ==> p in old(tmps) && disk.files[p] == old(disk.files[p])
      ensures disk.Healthy() ==> ok
    {
      ok := disk.Try();
      if ok {
        var bytes := disk.files[tmp];
        disk.files := (disk.files - {tmp})[target := bytes];
        tmps := tmps - {tmp};
        assert Base() == old(Base())[target := bytes];
      }
    }

    /** Removes whatever is still staged. */
    method Drop()
      requires Valid()
      modifies this, disk
      ensures disk.files == old(Base())
    {
      disk.files := disk.files - tmps;
      tmps := {};
    }
  }

  // ---------- what a run must write ----------

  function RowsOf(recs: seq<Row>, d: int): seq<Row>
  {
    if recs == [] then []
    else
      var last := recs[|recs| - 1];
      RowsOf(recs[..|recs| - 1], d) + if DayOf(last.ts) == d then [last] else []
  }

  datatype Job = Job(date: int, rows: seq<Row>)

  /** One job per day with rows. */
  function Jobs(recs: seq<Row>, from: int, to: int): seq<Job>
    decreases (to - from)
  {
    if from > to then []
    else (if RowsOf(recs, from) == [] then [] else [Job(from, RowsOf(recs, from))]) + Jobs(recs, from + 1, to)
  }

  /** The days without rows. */
  function Skipped(recs: seq<Row>, from: int, to: int): seq<int>
    decreases (to - from)
  {
    if from > to then []
    else (if RowsOf(recs, from) == [] then [from] else []) + Skipped(recs, from + 1, to)
  }

  lemma {:induction false} JobsSnoc(recs: seq<Row>, from: int, to: int)
    requires from <= to
    ensures Jobs(recs, from, to)
         == Jobs(recs, from, to - 1) + if RowsOf(recs, to) == [] then [] else [Job(to, RowsOf(recs, to))]
    ensures Skipped(recs, from, to) == Skipped(recs, from, to - 1) + if RowsOf(recs, to) == [] then [to] else []
    decreases (to - from)
  {
    DayFirst(recs, from, to);
    DayFirst(recs, from, to - 1);
    if from < to {
      JobsSnoc(recs, from + 1, to);
    }
  }

  /** The first day of a range in front. */
  lemma DayFirst(recs: seq<Row>, from: int, to: int)
    ensures from > to ==> Jobs(recs, from, to) == [] && Skipped(recs, from, to) == []
    ensures from <= to ==>
              && Jobs(recs, from, to)
                 == (if RowsOf(recs, from) == [] then [] else [Job(from, RowsOf(recs, from))]) + Jobs(recs, from + 1, to)
              && Skipped(recs, from, to)
                 == (if RowsOf(recs, from) == [] then [from] else []) + Skipped(recs, from + 1, to)
    ensures from == to ==> Jobs(recs, from + 1, to) == [] && Skipped(recs, from + 1, to) == []
  {
  }

  method Plan(recs: seq<Row>, from: int, to: int) returns (jobs: seq<Job>, skipped: seq<int>)
    ensures jobs == Jobs(recs, from, to) && skipped == Skipped(recs, from, to)
  {
    jobs, skipped := [], [];
    NothingPlanned(recs, from, from - 1);
    var d := from;
    while d <= to
      invariant from <= d <= Max(from, to + 1)
      invariant Planned(recs, from, d - 1, jobs, skipped)
    {
      jobs, skipped := PlanDay(recs, from, d, jobs, skipped);
      d := d + 1;
    }
    if from > to {
      NothingPlanned(recs, from, to);
    }
    assert Planned(recs, from, to, jobs, skipped);
  }

  ghost predicate Planned(recs: seq<Row>, from: int, to: int, jobs: seq<Job>, skipped: seq<int>)
  {
    jobs == Jobs(recs, from, to) && skipped == Skipped(recs, from, to)
  }

  lemma NothingPlanned(recs: seq<Row>, from: int, to: int)
    requires from > to
    ensures forall jobs, skipped :: Planned(recs, from, to, jobs, skipped) <==> jobs == [] && skipped == []
  {
  }

  method PlanDay(recs: seq<Row>, from: int, d: int, jobs: seq<Job>, skipped: seq<int>)
    returns (jobs': seq<Job>, skipped': seq<int>)
    requires from <= d && Planned(recs, from, d - 1, jobs, skipped)
    ensures Planned(recs, from, d, jobs', skipped')
  {
    JobsSnoc(recs, from, d);
    var rows := RowsIn(recs, d);
    jobs', skipped' := jobs, skipped;
    if rows == [] {
      skipped' := skipped + [d];
    } else {
      jobs' := jobs + [Job(d, rows)];
    }
  }

  /** Selects a day by its millisecond window. */
  method RowsIn(recs: seq<Row>, d: int) returns (rows: seq<Row>)
    ensures rows == RowsOf(recs, d)
  {
    rows := [];
    var lo, hi := DayStart(d), DayStart(d) + MS_PER_DAY;
    for n := 0 to |recs|
      invariant rows == RowsOf(recs[..n], d)
    {
      assert recs[..n + 1][..n] == recs[..n];
      InDay(recs[n].ts, d);
      if lo <= recs[n].ts < hi {
        rows := rows + [recs[n]];
      }
    }
    assert recs[..|recs|] == recs;
  }

  function ShardDates(files: Files): set<int>
  {
    set p | p in files && p.Shard? :: p.date
  }

  /** How far a run got, in the order the steps happen. */
  datatype Progress = Progress(renamed: nat, sidecar: bool, pruned: nat, manifest: bool)

  function Renamed(files: Files, jobs: seq<Job>, n: nat): Files
    requires n <= |jobs|
  {
    if n == 0 then files else Renamed(files, jobs, n - 1)[Shard(jobs[n - 1].date) := Rows(jobs[n - 1].rows)]
  }

  function Pruned(files: Files, skipped: seq<int>, n: nat): Files
    requires n <= |skipped|
  {
    if n == 0 then files else Pruned(files, skipped, n - 1) - {Shard(skipped[n - 1])}
  }

  ghost predicate InOrder(p: Progress, jobs: seq<Job>, skipped: seq<int>, prune: bool)
  {
    && p.renamed <= |jobs| && p.pruned <= |skipped|
    && (p.sidecar ==> p.renamed == |jobs|)
    && (p.pruned > 0 ==> p.sidecar && prune)
    && (p.manifest ==> p.sidecar && (prune ==> p.pruned == |skipped|))
  }

  /** The disk after exactly that much of the run. */
  function Applied(files: Files, jobs: seq<Job>, skipped: seq<int>, side: nat, p: Progress): Files
    requires p.renamed <= |jobs| && p.pruned <= |skipped|
  {
    var shards := Renamed(files, jobs, p.renamed);
    var sided := if p.sidecar then shards[Sidecar := Json(side)] else shards;
    var pruned := Pruned(sided, skipped, p.pruned);
    if p.manifest then pruned[Manifest := Dates(ShardDates(pruned))] else pruned
  }

  // ---------- the run ----------

  datatype Entry = Entry(date: int, records: nat)

  datatype Config = Config(from: int, to: int, today: int, force: bool, prune: bool, unsafePath: bool,
                           side: (seq<Entry>, seq<int>) -> Option<nat>, clock: nat -> int)

  /** Everything that refuses a run: an unsafe path, a shard dated today or later, or anything
      that would be overwritten without `force`. */
  predicate Refused(files: Files, c: Config)
  {
    || c.unsafePath
    || (exists p :: p in files && p.Shard? && p.date >= c.today)
    || (!c.force && (Sidecar in files || Manifest in files
                     || exists p :: p in files && p.Shard? && c.from <= p.date <= c.to))
  }

  method Precheck(disk: Disk, c: Config) returns (ok: bool)
    modifies disk`ops
    ensures ok ==> !Refused(disk.files, c)
    ensures disk.Healthy() && !Refused(disk.files, c) ==> ok
  {
    ok := disk.Try();
    ok := ok && !Refused(disk.files, c);
  }

  /** The sidecar's per-day counts. */
  function Entries(jobs: seq<Job>): (r: seq<Entry>)
    ensures |r| == |jobs|
    ensures forall i :: 0 <= i < |jobs| ==> r[i].date == jobs[i].date && r[i].records == |jobs[i].rows|
  {
    if jobs == [] then [] else Entries(jobs[..|jobs| - 1]) + [Entry(jobs[|jobs| - 1].date, |jobs[|jobs| - 1].rows|)]
  }

  predicate NoTmps(files: Files)
  {
    forall p :: p in files ==> !p.Tmp?
  }

  predicate DistinctDates(jobs: seq<Job>)
  {
    forall i, j :: 0 <= i < j < |jobs| ==> jobs[i].date != jobs[j].date
  }

  /** The temporary files of the first shards, in order, each holding its day's rows; nothing else is
      staged. */
  ghost predicate StagedRows(files: Files, owned: set<Path>, tmps: seq<Path>, jobs: seq<Job>)
  {
    && |tmps| <= |jobs|
    && (forall i, j :: 0 <= i < j < |tmps| ==> tmps[i] != tmps[j])
    && (forall i :: 0 <= i < |tmps| ==>
          && tmps[i] in owned && tmps[i] in files && files[tmps[i]] == Rows(jobs[i].rows)
          && tmps[i].Tmp? && tmps[i].target == Shard(jobs[i].date))
    && (forall p :: p in owned ==> p in tmps)
  }

  lemma StagedSnoc(files: Files, owned: set<Path>, files': Files, tmps: seq<Path>, jobs: seq<Job>, p: Path)
    requires StagedRows(files, owned, tmps, jobs) && |tmps| < |jobs| && p !in owned
    requires p.Tmp? && p.target == Shard(jobs[|tmps|].date)
    requires p in files' && files'[p] == Rows(jobs[|tmps|].rows)
    requires forall q :: q in owned && q in files ==> q in files' && files'[q] == files[q]
    ensures StagedRows(files', owned + {p}, tmps + [p], jobs)
  {
    forall q | q in owned + {p} ensures q in tmps + [p] {
    }
  }

  /** A fresh target's temporary name is free. */
  lemma NotStagedYet(files: Files, owned: set<Path>, tmps: seq<Path>, jobs: seq<Job>, target: Path, stamp: int)
    requires StagedRows(files, owned, tmps, jobs) && NoTmps(files - owned)
    requires forall i :: 0 <= i < |tmps| ==> target != Shard(jobs[i].date)
    ensures Tmp(target, stamp) !in files
  {
    var p := Tmp(target, stamp);
    assert forall i :: 0 <= i < |tmps| ==> tmps[i] != p;
    assert p in files ==> p in owned || p in files - owned;
  }

  method StageJob(st: Staged, jobs: seq<Job>, tmps: seq<Path>, stamp: int) returns (ok: bool, tmps': seq<Path>)
    requires st.Valid() && |tmps| < |jobs| && StagedRows(st.disk.files, st.tmps, tmps, jobs)
    modifies st, st.disk
    ensures st.Valid() && st.Base() == old(st.Base())
    ensures ok ==> |tmps'| == |tmps| + 1 && StagedRows(st.disk.files, st.tmps, tmps', jobs)
    ensures st.disk.Healthy() && NoTmps(st.Base()) && DistinctDates(jobs) ==> ok
  {
    var job := jobs[|tmps|];
    if NoTmps(st.Base()) && DistinctDates(jobs) {
      NotStagedYet(st.disk.files, st.tmps, tmps, jobs, Shard(job.date), stamp);
    }
    ghost var files, owned := st.disk.files, st.tmps;
    var tmp := st.Put(Shard(job.date), Rows(job.rows), stamp);
    if tmp.None? {
      return false, tmps;
    }
    StagedSnoc(files, owned, st.disk.files, tmps, jobs, tmp.value);
    tmps' := tmps + [tmp.value];
    ok := st.disk.Try();
  }

  method StageShards(st: Staged, jobs: seq<Job>, clock: nat -> int) returns (ok: bool, tmps: seq<Path>, entries: seq<Entry>)
    requires st.Valid() && st.tmps == {}
    modifies st, st.disk
    ensures st.Valid() && st.Base() == old(st.Base())
    ensures ok ==> |tmps| == |jobs| && StagedRows(st.disk.files, st.tmps, tmps, jobs) && entries == Entries(jobs)
    ensures st.disk.Healthy() && NoTmps(st.Base()) && DistinctDates(jobs) ==> ok
  {
    tmps, entries, ok := [], [], true;
    for n := 0 to |jobs|
      invariant st.Valid() && st.Base() == old(st.Base())
      invariant |tmps| == n && entries == Entries(jobs[..n]) && ok
      invariant StagedRows(st.disk.files, st.tmps, tmps, jobs)
    {
      ok, tmps := StageJob(st, jobs, tmps, clock(n));
      if !ok {
        return;
      }
      assert jobs[..n + 1][..n] == jobs[..n];
      entries := entries + [Entry(jobs[n].date, |jobs[n].rows|)];
    }
    assert jobs[..|jobs|] == jobs;
  }

  /** Stages every shard and the sidecar. */
  method StageAll(st: Staged, jobs: seq<Job>, skipped: seq<int>, c: Config)
    returns (tmps: seq<Path>, side: Option<(Path, nat)>)
    requires st.Valid() && st.tmps == {}
    modifies st, st.disk
    ensures st.Valid() && st.Base() == old(st.Base())
    ensures side.Some? ==> Ready(st, jobs, tmps, side.value) && c.side(Entries(jobs), skipped) == Some(side.value.1)
    ensures st.disk.Healthy() && NoTmps(st.Base()) && DistinctDates(jobs) && c.side(Entries(jobs), skipped).Some?
            ==> side.Some?
  {
    var ok, entries;
    ok, tmps, entries := StageShards(st, jobs, c.clock);
    if !ok {
      return tmps, None;
    }
    side := StageSidecar(st, jobs, tmps, c.side(entries, skipped), c.clock(|jobs|));
  }

  /** Everything a commit needs is staged. */
  ghost predicate Ready(st: Staged, jobs: seq<Job>, tmps: seq<Path>, side: (Path, nat))
    reads st, st.disk
  {
    && |tmps| == |jobs|
    && (forall i, j :: 0 <= i < j < |tmps| ==> tmps[i] != tmps[j])
    && (forall i :: 0 <= i < |tmps| ==>
          tmps[i] in st.tmps && tmps[i] in st.disk.files && st.disk.files[tmps[i]] == Rows(jobs[i].rows))
    && side.0 in st.tmps && side.0 in st.disk.files && st.disk.files[side.0] == Json(side.1) && side.0 !in tmps
  }

  method StageSidecar(st: Staged, jobs: seq<Job>, tmps: seq<Path>, text: Option<nat>, stamp: int)
    returns (side: Option<(Path, nat)>)
    requires st.Valid() && |tmps| == |jobs|
    requires StagedRows(st.disk.files, st.tmps, tmps, jobs)
    modifies st, st.disk
    ensures st.Valid() && st.Base() == old(st.Base())
    ensures side.Some? ==> text == Some(side.value.1) && Ready(st, jobs, tmps, side.value)
    ensures st.disk.Healthy() && NoTmps(st.Base()) && text.Some? ==> side.Some?
  {
    if text.None? {
      return None;
    }
    if NoTmps(st.Base()) {
      NotStagedYet(st.disk.files, st.tmps, tmps, jobs, Sidecar, stamp);
    }
    var tmp := st.Put(Sidecar, Json(text.value), stamp);
    side := if tmp.Some? then Some((tmp.value, text.value)) else None;
  }

  method RenameShards(st: Staged, jobs: seq<Job>, tmps: seq<Path>, side: (Path, nat)) returns (n: nat)
    requires st.Valid() && Ready(st, jobs, tmps, side)
    modifies st, st.disk
    ensures st.Valid() && n <= |jobs| && st.Base() == Renamed(old(st.Base()), jobs, n)
    ensures side.0 in st.tmps && st.disk.files[side.0] == Json(side.1)
    ensures st.disk.Healthy() ==> n == |jobs|
  {
    n := 0;
    while n < |jobs|
      invariant n <= |jobs| && st.Valid() && st.Base() == Renamed(old(st.Base()), jobs, n)
      invariant side.0 in st.tmps && st.disk.files[side.0] == Json(side.1)
      invariant forall i :: n <= i < |tmps| ==> tmps[i] in st.tmps && st.disk.files[tmps[i]] == Rows(jobs[i].rows)
    {
      var ok := st.Commit(tmps[n], Shard(jobs[n].date));
      if !ok {
        return;
      }
      n := n + 1;
    }
  }

  method PruneDays(st: Staged, skipped: seq<int>) returns (n: nat)
    requires st.Valid()
    modifies st.disk
    ensures st.Valid() && n <= |skipped| && st.Base() == Pruned(old(st.Base()), skipped, n)
    ensures st.disk.Healthy() ==> n == |skipped|
  {
    n := 0;
    while n < |skipped|
      invariant n <= |skipped| && st.Valid() && st.Base() == Pruned(old(st.Base()), skipped, n)
    {
      var ok := st.disk.Try();
      if !ok {
        return;
      }
      st.disk.files := st.disk.files - {Shard(skipped[n])};
      assert st.Base() == Pruned(old(st.Base()), skipped, n) - {Shard(skipped[n])};
      n := n + 1;
    }
  }

  /** Renames everything into place, prunes and writes the manifest, stopping at the first fault. */
  method CommitAll(st: Staged, jobs: seq<Job>, skipped: seq<int>, tmps: seq<Path>, side: (Path, nat), prune: bool)
    returns (p: Progress)
    requires st.Valid() && Ready(st, jobs, tmps, side)
    modifies st, st.disk
    ensures st.Valid() && InOrder(p, jobs, skipped, prune)
    ensures st.Base() == Applied(old(st.Base()), jobs, skipped, side.1, p)
    ensures st.disk.Healthy() ==> p.manifest
  {
    ghost var base := st.Base();
    var renamed := RenameShards(st, jobs, tmps, side);
    p := Progress(renamed, false, 0, false);
    if renamed < |jobs| {
      return;
    }
    var ok := st.Commit(side.0, Sidecar);
    if !ok {
      return;
    }
    p := p.(sidecar := true);
    if prune {
      var pruned := PruneDays(st, skipped);
      p := p.(pruned := pruned);
      if pruned < |skipped| {
        return;
      }
    }
    ok := st.disk.Try();
    if !ok {
      return;
    }
    assert ShardDates(st.disk.files) == ShardDates(st.Base());
    st.disk.files := st.disk.files[Manifest := Dates(ShardDates(st.disk.files))];
    p := p.(manifest := true);
    assert st.Base() == Applied(base, jobs, skipped, side.1, p);
  }

  /** Staged-atomic under any pattern of faults: the disk afterwards is exactly the disk before
      plus a prefix of the steps, and no temporary file is left behind. A run that fails before
      its first rename changes nothing. */
  method Attempt(disk: Disk, recs: seq<Row>, c: Config) returns (ok: bool, p: Progress, side: nat)
    modifies disk
    ensures var jobs, skipped := Jobs(recs, c.from, c.to), Skipped(recs, c.from, c.to);
            && InOrder(p, jobs, skipped, c.prune)
            && disk.files == Applied(old(disk.files), jobs, skipped, side, p)
            && (ok <==> p.manifest)
            && (ok ==> jobs != [])
    ensures p.renamed == 0 ==> disk.files == old(disk.files)
    ensures Refused(old(disk.files), c) ==> !ok && p.renamed == 0
    ensures p.sidecar ==> c.side(Entries(Jobs(recs, c.from, c.to)), Skipped(recs, c.from, c.to)) == Some(side)
    ensures var jobs, skipped := Jobs(recs, c.from, c.to), Skipped(recs, c.from, c.to);
            disk.Healthy() && NoTmps(old(disk.files)) && !Refused(old(disk.files), c) && jobs != []
            && c.side(Entries(jobs), skipped).Some?
            ==> ok
  {
    p, side := Progress(0, false, 0, false), 0;
    ok := Precheck(disk, c);
    if !ok {
      return;
    }
    ok := disk.Try();
    if !ok {
      return;
    }
    ok := Precheck(disk, c);
    if !ok {
      return;
    }
    var jobs, skipped := Plan(recs, c.from, c.to);
    if jobs == [] {
      ok := false;
      return;
    }
    JobDates(recs, c.from, c.to);
    var st := new Staged(disk);
    var tmps, staged := StageAll(st, jobs, skipped, c);
    if staged.Some? {
      side := staged.value.1;
      ok := Precheck(disk, c);
      if ok {
        p := CommitAll(st, jobs, skipped, tmps, staged.value, c.prune);
      }
    }
    ok := p.manifest;
    st.Drop();
  }

  /** The run: also refused outright by an unsafe path or a shard dated today or later, and without
      force never overwriting or removing anything. */
  method Run(disk: Disk, recs: seq<Row>, c: Config) returns (ok: bool, p: Progress, side: nat)
    modifies disk
    ensures var jobs, skipped := Jobs(recs, c.from, c.to), Skipped(recs, c.from, c.to);
            && InOrder(p, jobs, skipped, c.prune)
            && disk.files == Applied(old(disk.files), jobs, skipped, side, p)
            && (ok <==> p.manifest)
            && (ok ==> jobs != [])
    ensures p.renamed == 0 ==> disk.files == old(disk.files)
    ensures c.unsafePath || (exists d :: Shard(d) in old(disk.files) && d >= c.today) ==>
              !ok && disk.files == old(disk.files)
    ensures !c.force ==> Keeps(old(disk.files), disk.files)
    ensures p.sidecar ==> c.side(Entries(Jobs(recs, c.from, c.to)), Skipped(recs, c.from, c.to)) == Some(side)
    ensures var jobs, skipped := Jobs(recs, c.from, c.to), Skipped(recs, c.from, c.to);
            disk.Healthy() && (forall q :: q in old(disk.files) ==> !q.Tmp?) && jobs != [] && c.side(Entries(jobs), skipped).Some?
            && !c.unsafePath && (forall d :: Shard(d) in old(disk.files) ==> d < c.today)
            && (c.force || (Sidecar !in old(disk.files) && Manifest !in old(disk.files)
                            && forall d :: c.from <= d <= c.to ==> Shard(d) !in old(disk.files)))
            ==> ok
  {
    RefusedMeans(disk.files, c);
    ok, p, side := Attempt(disk, recs, c);
    if !c.force && !Refused(old(disk.files), c) {
      UnforcedKeeps(old(disk.files), recs, c, side, p);
    }
  }

  /** Every file of `before` is still there, unchanged. */
  ghost predicate Keeps(before: Files, after: Files)
  {
    forall q :: q in before ==> q in after && after[q] == before[q]
  }

  lemma RefusedMeans(files: Files, c: Config)
    ensures !Refused(files, c) <==>
            && !c.unsafePath && (forall d :: Shard(d) in files ==> d < c.today)
            && (c.force || (Sidecar !in files && Manifest !in files
                            && forall d :: c.from <= d <= c.to ==> Shard(d) !in files))
  {
    forall p | p in files && p.Shard? ensures Shard(p.date) in files {
    }
  }

  /** Without force a run that is not refused overwrites and removes nothing. */
  lemma UnforcedKeeps(files: Files, recs: seq<Row>, c: Config, side: nat, p: Progress)
    requires !c.force && !Refused(files, c)
    requires InOrder(p, Jobs(recs, c.from, c.to), Skipped(recs, c.from, c.to), c.prune)
    ensures Keeps(files, Applied(files, Jobs(recs, c.from, c.to), Skipped(recs, c.from, c.to), side, p))
  {
    var jobs, skipped := Jobs(recs, c.from, c.to), Skipped(recs, c.from, c.to);
    JobDates(recs, c.from, c.to);
    SkippedDates(recs, c.from, c.to);
    var sided := if p.sidecar then Renamed(files, jobs, p.renamed)[Sidecar := Json(side)] else Renamed(files, jobs, p.renamed);
    forall q | q in files
      ensures q in Applied(files, jobs, skipped, side, p) && Applied(files, jobs, skipped, side, p)[q] == files[q]
    {
      forall k | 0 <= k < p.pruned ensures q != Shard(skipped[k]) {
        assert skipped[k] in skipped;
      }
      RenamedOnly(files, jobs, p.renamed, q);
      PrunedOnly(sided, skipped, p.pruned, q);
    }
  }

  // ---------- what the contract means ----------

  /** A path the run does not reach is untouched: days without a committed job, and the sidecar and
      manifest until their own step. */
  lemma {:induction false} RenamedOnly(files: Files, jobs: seq<Job>, n: nat, q: Path)
    requires n <= |jobs|
    requires forall i :: 0 <= i < n ==> q != Shard(jobs[i].date)
    ensures q in Renamed(files, jobs, n) <==> q in files
    ensures q in files ==> Renamed(files, jobs, n)[q] == files[q]
  {
    if n > 0 {
      RenamedOnly(files, jobs, n - 1, q);
    }
  }

  lemma {:induction false} JobDates(recs: seq<Row>, from: int, to: int)
    ensures forall i :: 0 <= i < |Jobs(recs, from, to)| ==>
              from <= Jobs(recs, from, to)[i].date <= to
              && Jobs(recs, from, to)[i].rows == RowsOf(recs, Jobs(recs, from, to)[i].date) != []
    ensures forall i, j :: 0 <= i < j < |Jobs(recs, from, to)| ==>
              Jobs(recs, from, to)[i].date < Jobs(recs, from, to)[j].date
    decreases (to - from)
  {
    if from <= to {
      JobDates(recs, from + 1, to);
    }
  }

  /** After `j` renames exactly the first `j` day shards are the new ones. */
  lemma {:induction false} FirstShardsAreNew(files: Files, recs: seq<Row>, from: int, to: int, n: nat, i: nat)
    requires n <= |Jobs(recs, from, to)| && i < |Jobs(recs, from, to)|
    ensures var jobs := Jobs(recs, from, to);
            var q := Shard(jobs[i].date);
            var after := Renamed(files, jobs, n);
            && (i < n ==> q in after && after[q] == Rows(RowsOf(recs, jobs[i].date)))
            && (i >= n ==> (q in after <==> q in files) && (q in files ==> after[q] == files[q]))
  {
    var jobs := Jobs(recs, from, to);
    JobDates(recs, from, to);
    if i >= n {
      RenamedOnly(files, jobs, n, Shard(jobs[i].date));
    } else if n > 0 && i < n - 1 {
      FirstShardsAreNew(files, recs, from, to, n - 1, i);
    }
  }

  lemma {:induction false} SkippedDates(recs: seq<Row>, from: int, to: int)
    ensures forall d :: d in Skipped(recs, from, to) <==> from <= d <= to && RowsOf(recs, d) == []
    decreases (to - from)
  {
    if from <= to {
      SkippedDates(recs, from + 1, to);
    }
  }

  lemma {:induction false} JobOf(recs: seq<Row>, from: int, to: int, d: int)
    requires from <= d <= to && RowsOf(recs, d) != []
    ensures exists i :: 0 <= i < |Jobs(recs, from, to)| && Jobs(recs, from, to)[i].date == d
    decreases (to - from)
  {
    var jobs := Jobs(recs, from, to);
    if d == from {
      assert jobs[0].date == d;
    } else {
      JobOf(recs, from + 1, to, d);
      var rest := Jobs(recs, from + 1, to);
      var i :| 0 <= i < |rest| && rest[i].date == d;
      assert jobs[|jobs| - |rest| + i] == rest[i];
    }
  }

  lemma {:induction false} PrunedOnly(files: Files, skipped: seq<int>, n: nat, q: Path)
    requires n <= |skipped|
    ensures q in Pruned(files, skipped, n) <==> q in files && forall i :: 0 <= i < n ==> q != Shard(skipped[i])
    ensures q in Pruned(files, skipped, n) ==> Pruned(files, skipped, n)[q] == files[q]
  {
    if n > 0 {
      PrunedOnly(files, skipped, n - 1, q);
    }
  }

  function Lookup(files: Files, q: Path): Option<Bytes>
  {
    if q in files then Some(files[q]) else None
  }

  /** A day's shard after a whole run: the day's rows; without rows it is kept, or removed when
      pruning; outside the range it is what it was. */
  function ShardAfter(files: Files, recs: seq<Row>, c: Config, d: int): Option<Bytes>
  {
    if c.from <= d <= c.to && RowsOf(recs, d) != [] then Some(Rows(RowsOf(recs, d)))
    else if c.from <= d <= c.to && c.prune then None
    else Lookup(files, Shard(d))
  }

  lemma ShardsAfterRenames(files: Files, recs: seq<Row>, from: int, to: int, d: int)
    ensures var after := Renamed(files, Jobs(recs, from, to), |Jobs(recs, from, to)|);
            Lookup(after, Shard(d)) ==
              if from <= d <= to && RowsOf(recs, d) != [] then Some(Rows(RowsOf(recs, d))) else Lookup(files, Shard(d))
  {
    var jobs := Jobs(recs, from, to);
    JobDates(recs, from, to);
    if from <= d <= to && RowsOf(recs, d) != [] {
      JobOf(recs, from, to, d);
      var i :| 0 <= i < |jobs| && jobs[i].date == d;
      FirstShardsAreNew(files, recs, from, to, |jobs|, i);
    } else {
      RenamedOnly(files, jobs, |jobs|, Shard(d));
    }
  }

  /** What a completed run leaves behind, day by day. */
  lemma CompletedRun(files: Files, recs: seq<Row>, c: Config, side: nat, p: Progress, d: int)
    requires InOrder(p, Jobs(recs, c.from, c.to), Skipped(recs, c.from, c.to), c.prune) && p.manifest
    ensures var after := Applied(files, Jobs(recs, c.from, c.to), Skipped(recs, c.from, c.to), side, p);
            && Lookup(after, Shard(d)) == ShardAfter(files, recs, c, d)
            && Lookup(after, Sidecar) == Some(Json(side))
            && ManifestNames(after)
  {
    var jobs, skipped := Jobs(recs, c.from, c.to), Skipped(recs, c.from, c.to);
    ShardsAfterRenames(files, recs, c.from, c.to, d);
    var sided := Renamed(files, jobs, p.renamed)[Sidecar := Json(side)];
    PrunedOnly(sided, skipped, p.pruned, Shard(d));
    PrunedOnly(sided, skipped, p.pruned, Sidecar);
    SkippedDates(recs, c.from, c.to);
    assert d in skipped <==> exists i :: 0 <= i < |skipped| && skipped[i] == d;
    var pruned := Pruned(sided, skipped, p.pruned);
    var after := Applied(files, jobs, skipped, side, p);
    assert after == pruned[Manifest := Dates(ShardDates(pruned))];
    ManifestWritten(pruned);
  }

  /** The manifest lists exactly the dates with a shard on disk. */
  ghost predicate ManifestNames(files: Files)
  {
    exists dates :: Lookup(files, Manifest) == Some(Dates(dates)) && forall x :: x in dates <==> Shard(x) in files
  }

  lemma ManifestWritten(files: Files)
    ensures ManifestNames(files[Manifest := Dates(ShardDates(files))])
  {
    var after := files[Manifest := Dates(ShardDates(files))];
    SameShards(files, Dates(ShardDates(files)));
    ShardDatesAre(after);
    assert Lookup(after, Manifest) == Some(Dates(ShardDates(after)));
  }

  lemma ShardDatesAre(files: Files)
    ensures forall x :: x in ShardDates(files) <==> Shard(x) in files
  {
    forall p | p in files && p.Shard? ensures p == Shard(p.date) {
    }
  }

  lemma AppliedShard(files: Files, recs: seq<Row>, from: int, to: int, side: nat, p: Progress, i: nat)
    requires p.renamed <= |Jobs(recs, from, to)| && p.pruned <= |Skipped(recs, from, to)| && !p.manifest
    requires i < p.renamed
    ensures var jobs := Jobs(recs, from, to);
            Lookup(Applied(files, jobs, Skipped(recs, from, to), side, p), Shard(jobs[i].date)) == Some(Rows(jobs[i].rows))
  {
    var jobs, skipped := Jobs(recs, from, to), Skipped(recs, from, to);
    FirstShardsAreNew(files, recs, from, to, p.renamed, i);
    JobDates(recs, from, to);
    SkippedDates(recs, from, to);
    var shards := Renamed(files, jobs, p.renamed);
    forall k | 0 <= k < p.pruned ensures skipped[k] != jobs[i].date {
      assert skipped[k] in skipped;
    }
    PrunedOnly(if p.sidecar then shards[Sidecar := Json(side)] else shards, skipped, p.pruned, Shard(jobs[i].date));
  }

  lemma AppliedOther(files: Files, jobs: seq<Job>, skipped: seq<int>, side: nat, p: Progress, q: Path)
    requires p.renamed <= |jobs| && p.pruned <= |skipped| && !p.manifest
    requires forall i :: 0 <= i < p.renamed ==> q != Shard(jobs[i].date)
    ensures Lookup(Applied(files, jobs, skipped, side, p), q) ==
              if exists k :: 0 <= k < p.pruned && q == Shard(skipped[k]) then None
              else if q == Sidecar && p.sidecar then Some(Json(side)) else Lookup(files, q)
  {
    var shards := Renamed(files, jobs, p.renamed);
    RenamedOnly(files, jobs, p.renamed, q);
    PrunedOnly(if p.sidecar then shards[Sidecar := Json(side)] else shards, skipped, p.pruned, q);
  }

  /** The steps a failed run made wrote only what was already there. */
  predicate OnlyRepeats(files: Files, jobs: seq<Job>, skipped: seq<int>, side: nat, p: Progress)
    requires p.renamed <= |jobs| && p.pruned <= |skipped|
  {
    && (forall i :: 0 <= i < p.renamed ==> Lookup(files, Shard(jobs[i].date)) == Some(Rows(jobs[i].rows)))
    && (p.sidecar ==> Lookup(files, Sidecar) == Some(Json(side)))
    && (forall k :: 0 <= k < p.pruned ==> Shard(skipped[k]) !in files)
  }

  /** A failed run touches nothing exactly when each of its steps repeats what was on disk: in
      particular when it fails before its first rename. */
  lemma FailedRunTouchesNothingExactly(files: Files, recs: seq<Row>, from: int, to: int, prune: bool, side: nat, p: Progress)
    requires InOrder(p, Jobs(recs, from, to), Skipped(recs, from, to), prune) && !p.manifest
    ensures Applied(files, Jobs(recs, from, to), Skipped(recs, from, to), side, p) == files <==>
            OnlyRepeats(files, Jobs(recs, from, to), Skipped(recs, from, to), side, p)
    ensures p.renamed == 0 && Jobs(recs, from, to) != [] ==> OnlyRepeats(files, Jobs(recs, from, to), Skipped(recs, from, to), side, p)
  {
    var jobs, skipped := Jobs(recs, from, to), Skipped(recs, from, to);
    var after := Applied(files, jobs, skipped, side, p);
    if after == files {
      RepeatsIfSame(files, recs, from, to, side, p);
    }
    if OnlyRepeats(files, jobs, skipped, side, p) {
      forall q ensures Lookup(after, q) == Lookup(files, q) {
        SameIfRepeats(files, recs, from, to, side, p, q);
      }
      SameFiles(after, files);
    }
  }

  lemma SameFiles(a: Files, b: Files)
    requires forall q :: Lookup(a, q) == Lookup(b, q)
    ensures a == b
  {
    forall q ensures q in a <==> q in b {
      assert Lookup(a, q) == Lookup(b, q);
    }
    forall q | q in a ensures a[q] == b[q] {
      assert Lookup(a, q) == Lookup(b, q);
    }
  }

  lemma SameIfRepeats(files: Files, recs: seq<Row>, from: int, to: int, side: nat, p: Progress, q: Path)
    requires p.renamed <= |Jobs(recs, from, to)| && p.pruned <= |Skipped(recs, from, to)| && !p.manifest
    requires OnlyRepeats(files, Jobs(recs, from, to), Skipped(recs, from, to), side, p)
    ensures Lookup(Applied(files, Jobs(recs, from, to), Skipped(recs, from, to), side, p), q) == Lookup(files, q)
  {
    var jobs := Jobs(recs, from, to);
    if exists i :: 0 <= i < p.renamed && q == Shard(jobs[i].date) {
      var i :| 0 <= i < p.renamed && q == Shard(jobs[i].date);
      AppliedShard(files, recs, from, to, side, p, i);
    } else {
      AppliedOther(files, jobs, Skipped(recs, from, to), side, p, q);
    }
  }

  lemma RepeatsIfSame(files: Files, recs: seq<Row>, from: int, to: int, side: nat, p: Progress)
    requires p.renamed <= |Jobs(recs, from, to)| && p.pruned <= |Skipped(recs, from, to)| && !p.manifest
    requires Applied(files, Jobs(recs, from, to), Skipped(recs, from, to), side, p) == files
    ensures OnlyRepeats(files, Jobs(recs, from, to), Skipped(recs, from, to), side, p)
  {
    var jobs, skipped := Jobs(recs, from, to), Skipped(recs, from, to);
    forall i | 0 <= i < p.renamed ensures Lookup(files, Shard(jobs[i].date)) == Some(Rows(jobs[i].rows)) {
      AppliedShard(files, recs, from, to, side, p, i);
    }
    AppliedOther(files, jobs, skipped, side, p, Sidecar);
    forall k | 0 <= k < p.pruned ensures Shard(skipped[k]) !in files {
      NotAJob(recs, from, to, k);
      AppliedOther(files, jobs, skipped, side, p, Shard(skipped[k]));
    }
  }

  lemma NotAJob(recs: seq<Row>, from: int, to: int, k: nat)
    requires k < |Skipped(recs, from, to)|
    ensures forall i :: 0 <= i < |Jobs(recs, from, to)| ==> Jobs(recs, from, to)[i].date != Skipped(recs, from, to)[k]
  {
    JobDates(recs, from, to);
    SkippedDates(recs, from, to);
    assert Skipped(recs, from, to)[k] in Skipped(recs, from, to);
  }

  /** Writing the manifest adds no shard. */
  lemma SameShards(files: Files, m: Bytes)
    ensures ShardDates(files[Manifest := m]) == ShardDates(files)
  {
    var after := files[Manifest := m];
    assert forall p: Path :: p.Shard? ==> (p in after <==> p in files);
  }

  function InRange(recs: seq<Row>, from: int, to: int): seq<Row>
  {
    if recs == [] then []
    else
      var last := recs[|recs| - 1];
      InRange(recs[..|recs| - 1], from, to) + if from <= DayOf(last.ts) <= to then [last] else []
  }

  ghost function RowTotal(jobs: seq<Job>): multiset<Row>
  {
    if jobs == [] then multiset{} else multiset(jobs[0].rows) + RowTotal(jobs[1..])
  }

  function AllRows(jobs: seq<Job>): seq<Row>
  {
    if jobs == [] then [] else jobs[0].rows + AllRows(jobs[1..])
  }

  lemma {:induction false} SplitFirstDay(recs: seq<Row>, from: int, to: int)
    requires from <= to
    ensures multiset(InRange(recs, from, to)) == multiset(RowsOf(recs, from)) + multiset(InRange(recs, from + 1, to))
  {
    if recs != [] {
      SplitFirstDay(recs[..|recs| - 1], from, to);
    }
  }

  ghost predicate Ascending(recs: seq<Row>)
  {
    forall i, j :: 0 <= i < j < |recs| ==> recs[i].ts <= recs[j].ts
  }

  lemma {:induction false} NothingLater(recs: seq<Row>, from: int, to: int)
    requires forall i :: 0 <= i < |recs| ==> DayOf(recs[i].ts) < from
    ensures InRange(recs, from, to) == []
  {
    if recs != [] {
      NothingLater(recs[..|recs| - 1], from, to);
    }
  }

  lemma {:induction false} SplitFirstDayInOrder(recs: seq<Row>, from: int, to: int)
    requires from <= to && Ascending(recs)
    ensures InRange(recs, from, to) == RowsOf(recs, from) + InRange(recs, from + 1, to)
  {
    if recs != [] {
      var front, last := recs[..|recs| - 1], recs[|recs| - 1];
      SplitFirstDayInOrder(front, from, to);
      if DayOf(last.ts) == from {
        NoDayLater(recs, from, to);
      } else {
        NotOnFirstDay(recs, from, to);
      }
    }
  }

  lemma NotOnFirstDay(recs: seq<Row>, from: int, to: int)
    requires recs != [] && DayOf(recs[|recs| - 1].ts) != from && from <= to
    ensures RowsOf(recs, from) == RowsOf(recs[..|recs| - 1], from)
    ensures var more := if from < DayOf(recs[|recs| - 1].ts) <= to then [recs[|recs| - 1]] else [];
            InRange(recs, from, to) == InRange(recs[..|recs| - 1], from, to) + more
            && InRange(recs, from + 1, to) == InRange(recs[..|recs| - 1], from + 1, to) + more
  {
  }

  lemma NoDayLater(recs: seq<Row>, from: int, to: int)
    requires Ascending(recs) && recs != [] && DayOf(recs[|recs| - 1].ts) == from
    ensures InRange(recs, from + 1, to) == [] && InRange(recs[..|recs| - 1], from + 1, to) == []
  {
    NothingLater(recs, from + 1, to);
    NothingLater(recs[..|recs| - 1], from + 1, to);
  }

  lemma {:induction false} EmptyRange(recs: seq<Row>, from: int, to: int)
    requires from > to
    ensures InRange(recs, from, to) == []
  {
    if recs != [] {
      EmptyRange(recs[..|recs| - 1], from, to);
    }
  }

  /** Each in-range record lands in exactly one day's shard. */
  lemma {:induction false} EveryRecordLandsOnce(recs: seq<Row>, from: int, to: int)
    ensures RowTotal(Jobs(recs, from, to)) == multiset(InRange(recs, from, to))
    decreases (to - from)
  {
    if from > to {
      EmptyRange(recs, from, to);
    } else {
      SplitFirstDay(recs, from, to);
      EveryRecordLandsOnce(recs, from + 1, to);
      var rest := Jobs(recs, from + 1, to);
      if RowsOf(recs, from) == [] {
        assert Jobs(recs, from, to) == rest;
      } else {
        assert Jobs(recs, from, to)[1..] == rest;
      }
    }
  }

  /** For time-ascending records the shards read back to back are the in-range records, in order. */
  lemma {:induction false} ShardsReadBackInOrder(recs: seq<Row>, from: int, to: int)
    requires Ascending(recs)
    ensures AllRows(Jobs(recs, from, to)) == InRange(recs, from, to)
    decreases (to - from)
  {
    if from > to {
      EmptyRange(recs, from, to);
    } else {
      SplitFirstDayInOrder(recs, from, to);
      ShardsReadBackInOrder(recs, from + 1, to);
      var rest := Jobs(recs, from + 1, to);
      if RowsOf(recs, from) == [] {
        assert Jobs(recs, from, to) == rest;
      } else {
        assert Jobs(recs, from, to)[1..] == rest;
      }
    }
  }
}
