/**
  The offline day-rotating shard writer. The shard directory is a map from UTC date to the
  records of that day's file; a missing key is a missing file. The wall clock's date is read
  at every rotation, so it is an argument of each append, free to change at any time.
*/
module ShardWriter {
  import opened Wrappers
  import opened Calendar

  const I64_MAX: int := 0x7fff_ffff_ffff_ffff
  const I64_MIN: int := -0x8000_0000_0000_0000

  type Files<R> = map<int, seq<R>>

  /** One `append` call: its record, the date on the wall clock, and whether unlinking the old
      shard would fail. */
  datatype Event<R> = Event(ts: int, rec: R, today: int, unlinkFails: bool)

  datatype State<R> = State(files: Files<R>, current: Option<int>, touched: set<int>, dayStart: int, dayEnd: int)

  datatype Outcome<R> = Outcome(state: State<R>, ok: bool)

  function Fresh<R>(files: Files<R>): State<R>
  {
    State(files, None, {}, I64_MAX, I64_MIN)
  }

  function Content<R>(files: Files<R>, d: int): seq<R>
  {
    if d in files then files[d] else []
  }

  function Put<R>(s: State<R>, d: int, rec: R): State<R>
  {
    s.(files := s.files[d := Content(s.files, d) + [rec]])
  }

  /** Rotates to the shard of date `d`; opening creates a missing file. */
  function Rotate<R>(s: State<R>, d: int, today: int, unlinkFails: bool): Outcome<R>
  {
    var closed := s.(current := None, touched := s.touched + {d},
                     dayStart := DayStart(d), dayEnd := DayStart(d) + MS_PER_DAY);
    var replace := d < today && d !in s.touched && d in s.files;
    if replace && unlinkFails then Outcome(closed, false)
    else
      var kept := if replace then [] else Content(s.files, d);
      Outcome(closed.(files := s.files[d := kept], current := Some(d)), true)
  }

  /** The calendar path alone, with no cached day window. */
  function CalendarStep<R>(s: State<R>, e: Event<R>): Outcome<R>
  {
    var d := DayOf(e.ts);
    if s.current == Some(d) then Outcome(Put(s, d, e.rec), true)
    else
      var r := Rotate(s, d, e.today, e.unlinkFails);
      if r.ok then Outcome(Put(r.state, d, e.rec), true) else r
  }

  class Writer<R> {
    var files: Files<R>
    var current: Option<int>
    var touched: set<int>
    var dayStart: int
    var dayEnd: int

    constructor (onDisk: Files<R>)
      ensures AsState() == Fresh(onDisk)
    {
      files, current, touched, dayStart, dayEnd := onDisk, None, {}, I64_MAX, I64_MIN;
    }

    function AsState(): State<R>
      reads this
    {
      State(files, current, touched, dayStart, dayEnd)
    }

    /** Whenever a shard is open the cached window is that shard's day. */
    predicate Valid()
      reads this
    {
      WindowMatches(AsState())
    }

    method Append(ts: int, rec: R, today: int, unlinkFails: bool) returns (ok: bool)
      requires Valid()
      modifies this
      ensures Valid()
      ensures Outcome(AsState(), ok) == CalendarStep(old(AsState()), Event(ts, rec, today, unlinkFails))
    {
      if dayStart <= ts < dayEnd && current.Some? {
        InDay(ts, current.value);
        files := files[current.value := Content(files, current.value) + [rec]];
        return true;
      }
      var d := DayOf(ts);
      if current != Some(d) {
        current := None;
        dayStart := DayStart(d);
        dayEnd := dayStart + MS_PER_DAY;
        if d >= today {
          touched := touched + {d};
        } else if d !in touched {
          touched := touched + {d};
          if d in files {
            if unlinkFails {
              return false;
            }
            files := files - {d};
          }
        }
        files := files[d := Content(files, d)];
        current := Some(d);
      }
      files := files[d := Content(files, d) + [rec]];
      ok := true;
    }
  }

  predicate WindowMatches<R>(s: State<R>)
  {
    s.current.Some? ==> s.dayStart == DayStart(s.current.value) && s.dayEnd == s.dayStart + MS_PER_DAY
  }

  // ---------- runs that stop at the first error ----------

  function Run<R>(files: Files<R>, es: seq<Event<R>>): Outcome<R>
  {
    if es == [] then Outcome(Fresh(files), true)
    else
      var before := Run(files, es[..|es| - 1]);
      if before.ok then CalendarStep(before.state, es[|es| - 1]) else before
  }

  /** This run's records of date `d`, in append order. */
  function Mine<R>(es: seq<Event<R>>, d: int): seq<R>
  {
    if es == [] then []
    else
      var last := es[|es| - 1];
      Mine(es[..|es| - 1], d) + if DayOf(last.ts) == d then [last.rec] else []
  }

  predicate Touches<R>(es: seq<Event<R>>, d: int)
  {
    exists i :: 0 <= i < |es| && DayOf(es[i].ts) == d
  }

  /** The first append of date `d`. */
  function FirstEvent<R>(es: seq<Event<R>>, d: int): Event<R>
    requires Touches(es, d)
  {
    if Touches(es[..|es| - 1], d) then FirstEvent(es[..|es| - 1], d) else es[|es| - 1]
  }

  /** The wall-clock date when `d` was first touched. */
  function FirstTouch<R>(es: seq<Event<R>>, d: int): int
    requires Touches(es, d)
  {
    FirstEvent(es, d).today
  }

  /** What the file of date `d` must hold after the run. */
  function Expected<R>(files: Files<R>, es: seq<Event<R>>, d: int): Option<seq<R>>
  {
    if !Touches(es, d) then Lookup(files, d)
    else if d < FirstTouch(es, d) then Some(Mine(es, d))
    else Some(Content(files, d) + Mine(es, d))
  }

  lemma TouchesSnoc<R>(es: seq<Event<R>>, d: int)
    requires es != []
    ensures Touches(es, d) <==> Touches(es[..|es| - 1], d) || DayOf(es[|es| - 1].ts) == d
  {
    var front := es[..|es| - 1];
    if Touches(es, d) {
      var i :| 0 <= i < |es| && DayOf(es[i].ts) == d;
      assert i < |front| ==> DayOf(front[i].ts) == d;
    }
    if Touches(front, d) {
      var i :| 0 <= i < |front| && DayOf(front[i].ts) == d;
      assert DayOf(es[i].ts) == d;
    }
    if DayOf(es[|es| - 1].ts) == d {
      assert Touches(es, d);
    }
  }

  lemma {:induction false} NoMine<R>(es: seq<Event<R>>, d: int)
    ensures Mine(es, d) == [] <==> !Touches(es, d)
  {
    if es != [] {
      TouchesSnoc(es, d);
      NoMine(es[..|es| - 1], d);
    }
  }

  ghost predicate Tracks<R>(s: State<R>, es: seq<Event<R>>)
  {
    && WindowMatches(s)
    && (forall d :: d in s.touched <==> Touches(es, d))
    && (s.current.Some? ==> s.current.value in s.touched)
  }

  lemma {:induction false} RunTracks<R>(files: Files<R>, es: seq<Event<R>>)
    requires Run(files, es).ok
    ensures Tracks(Run(files, es).state, es)
  {
    if es != [] {
      RunTracks(files, es[..|es| - 1]);
      forall d
        ensures Touches(es, d) <==> Touches(es[..|es| - 1], d) || DayOf(es[|es| - 1].ts) == d
      {
        TouchesSnoc(es, d);
      }
    }
  }

  function Lookup<R>(files: Files<R>, d: int): Option<seq<R>>
  {
    if d in files then Some(files[d]) else None
  }

  /** One error-free append changes one file: the record's date, emptied first when the date is
      closed and untouched. */
  lemma StepWrites<R>(s: State<R>, e: Event<R>, d: int)
    requires s.current.Some? ==> s.current.value in s.touched
    requires CalendarStep(s, e).ok
    ensures var s' := CalendarStep(s, e).state;
            Lookup(s'.files, d) ==
            if DayOf(e.ts) != d then Lookup(s.files, d)
            else Some((if d < e.today && d !in s.touched then [] else Content(s.files, d)) + [e.rec])
  {
  }

  /** After an error-free run every date holds exactly what it must: a date first touched while
      closed only this run's records whatever was there, a date first touched while current its
      old records and then this run's, and an untouched date what it held. */
  lemma {:induction false} RunConverges<R>(files: Files<R>, es: seq<Event<R>>, d: int)
    requires Run(files, es).ok
    ensures Expected(files, es, d) == Lookup(Run(files, es).state.files, d)
  {
    if es != [] {
      var front, last := es[..|es| - 1], es[|es| - 1];
      var s := Run(files, front).state;
      RunConverges(files, front, d);
      RunTracks(files, front);
      TouchesSnoc(es, d);
      NoMine(front, d);
      StepWrites(s, last, d);
      if DayOf(last.ts) == d {
        ExpectedSnoc(files, es, d);
      } else {
        assert Mine(es, d) == Mine(front, d);
      }
    }
  }

  lemma ExpectedSnoc<R>(files: Files<R>, es: seq<Event<R>>, d: int)
    requires es != [] && DayOf(es[|es| - 1].ts) == d
    ensures var front, last := es[..|es| - 1], es[|es| - 1];
            var sofar := Expected(files, front, d);
            Expected(files, es, d) == Some(
              (if (!Touches(front, d) && d < last.today) || sofar.None? then [] else sofar.value) + [last.rec])
  {
    var front, last := es[..|es| - 1], es[|es| - 1];
    TouchesSnoc(es, d);
    NoMine(front, d);
    var base := Content(files, d);
    assert base + (Mine(front, d) + [last.rec]) == (base + Mine(front, d)) + [last.rec];
    if !Touches(front, d) {
      assert base + Mine(front, d) == base;
    }
  }

  /** The cached-window fast path takes the calendar path's decision: inside the window of an
      open shard the date is that shard's. */
  lemma FastPathAgrees<R>(files: Files<R>, es: seq<Event<R>>, e: Event<R>)
    requires Run(files, es).ok
    ensures var s := Run(files, es).state;
            s.current.Some? ==> (s.dayStart <= e.ts < s.dayEnd <==> s.current == Some(DayOf(e.ts)))
  {
    RunTracks(files, es);
    var s := Run(files, es).state;
    if s.current.Some? {
      InDay(e.ts, s.current.value);
    }
  }

  /** The same appends, on another day's wall clock. */
  predicate SameAppends<R(==)>(es: seq<Event<R>>, again: seq<Event<R>>)
  {
    |es| == |again| && forall i :: 0 <= i < |es| ==> es[i].ts == again[i].ts && es[i].rec == again[i].rec
  }

  lemma {:induction false} SameMine<R>(es: seq<Event<R>>, again: seq<Event<R>>, d: int)
    requires SameAppends(es, again)
    ensures Mine(es, d) == Mine(again, d) && (Touches(es, d) <==> Touches(again, d))
  {
    if es != [] {
      SameMine(es[..|es| - 1], again[..|again| - 1], d);
      TouchesSnoc(es, d);
      TouchesSnoc(again, d);
    }
  }

  /** A rerun leaves a touched shard as it was exactly when the date is closed at the rerun's first
      touch and the first run kept no older records: closed shards converge, current ones double. */
  lemma RerunIsStableExactlyWhenClosed<R>(files: Files<R>, es: seq<Event<R>>, again: seq<Event<R>>, d: int)
    requires Run(files, es).ok && SameAppends(es, again) && Touches(es, d)
    requires Run(Run(files, es).state.files, again).ok
    ensures Touches(again, d)
    ensures var once := Run(files, es).state.files;
            var twice := Run(once, again).state.files;
            d in once && d in twice &&
            (twice[d] == once[d] <==>
               d < FirstTouch(again, d) && (d < FirstTouch(es, d) || Content(files, d) == []))
  {
    var once := Run(files, es).state.files;
    RunConverges(files, es, d);
    RunConverges(once, again, d);
    SameMine(es, again, d);
    NoMine(es, d);
    var mine := Mine(es, d);
    if d >= FirstTouch(again, d) {
      assert |once[d] + mine| > |once[d]|;
    } else if d >= FirstTouch(es, d) {
      assert |Content(files, d) + mine| == |Content(files, d)| + |mine|;
    }
  }

  // ---------- runs that append on after an error ----------

  /** Every append is made, whatever the ones before returned. */
  function RunOn<R>(files: Files<R>, es: seq<Event<R>>): State<R>
  {
    if es == [] then Fresh(files) else CalendarStep(RunOn(files, es[..|es| - 1]), es[|es| - 1]).state
  }

  predicate Succeeds<R>(files: Files<R>, es: seq<Event<R>>)
    requires es != []
  {
    CalendarStep(RunOn(files, es[..|es| - 1]), es[|es| - 1]).ok
  }

  /** The records of date `d` whose appends succeeded, in order. */
  function Stored<R>(files: Files<R>, es: seq<Event<R>>, d: int): seq<R>
  {
    if es == [] then []
    else
      var last := es[|es| - 1];
      Stored(files, es[..|es| - 1], d) + if DayOf(last.ts) == d && Succeeds(files, es) then [last.rec] else []
  }

  /** The append that was to replace the shard could not unlink it. */
  predicate UnlinkFailed<R>(files: Files<R>, es: seq<Event<R>>, d: int)
    requires Touches(es, d)
  {
    d in files && d < FirstTouch(es, d) && FirstEvent(es, d).unlinkFails
  }

  /** What the file of date `d` holds after such a run. */
  function ExpectedOn<R>(files: Files<R>, es: seq<Event<R>>, d: int): Option<seq<R>>
  {
    if !Touches(es, d) then Lookup(files, d)
    else if d < FirstTouch(es, d) && !UnlinkFailed(files, es, d) then Some(Stored(files, es, d))
    else Some(Content(files, d) + Stored(files, es, d))
  }

  ghost predicate TracksOn<R>(s: State<R>, es: seq<Event<R>>)
  {
    && (forall d :: d in s.touched <==> Touches(es, d))
    && (s.current.Some? ==> s.current.value in s.touched && s.current.value in s.files)
  }

  lemma {:induction false} RunOnTracks<R>(files: Files<R>, es: seq<Event<R>>)
    ensures TracksOn(RunOn(files, es), es)
  {
    if es != [] {
      RunOnTracks(files, es[..|es| - 1]);
      forall d
        ensures Touches(es, d) <==> Touches(es[..|es| - 1], d) || DayOf(es[|es| - 1].ts) == d
      {
        TouchesSnoc(es, d);
      }
    }
  }

  /** An append fails exactly when it is the first of a closed date whose shard cannot be unlinked;
      what it does to any file follows. */
  lemma StepOn<R>(s: State<R>, e: Event<R>, d: int)
    requires s.current.Some? ==> s.current.value in s.touched && s.current.value in s.files
    ensures var r := CalendarStep(s, e);
            var replace := d < e.today && d !in s.touched && d in s.files;
            && (DayOf(e.ts) == d ==> (r.ok <==> !(replace && e.unlinkFails)))
            && Lookup(r.state.files, d) ==
                 if DayOf(e.ts) != d || !r.ok then Lookup(s.files, d)
                 else Some((if replace then [] else Content(s.files, d)) + [e.rec])
  {
  }

  lemma {:induction false} NothingStored<R>(files: Files<R>, es: seq<Event<R>>, d: int)
    requires !Touches(es, d)
    ensures Stored(files, es, d) == []
  {
    if es != [] {
      TouchesSnoc(es, d);
      NothingStored(files, es[..|es| - 1], d);
    }
  }

  lemma FirstAppend<R>(files: Files<R>, es: seq<Event<R>>, d: int)
    requires es != [] && DayOf(es[|es| - 1].ts) == d && !Touches(es[..|es| - 1], d)
    requires Lookup(RunOn(files, es[..|es| - 1]).files, d) == Lookup(files, d)
    ensures Lookup(RunOn(files, es).files, d) == ExpectedOn(files, es, d)
  {
    var front, last := es[..|es| - 1], es[|es| - 1];
    RunOnTracks(files, front);
    TouchesSnoc(es, d);
    StepOn(RunOn(files, front), last, d);
    NothingStored(files, front, d);
    assert Stored(files, es, d) == if Succeeds(files, es) then [last.rec] else [];
    Reassociate(Content(files, d), [], last.rec);
  }

  lemma LaterAppend<R>(files: Files<R>, es: seq<Event<R>>, d: int)
    requires es != [] && DayOf(es[|es| - 1].ts) == d && Touches(es[..|es| - 1], d)
    requires Lookup(RunOn(files, es[..|es| - 1]).files, d) == ExpectedOn(files, es[..|es| - 1], d)
    ensures Lookup(RunOn(files, es).files, d) == ExpectedOn(files, es, d)
  {
    var front, last := es[..|es| - 1], es[|es| - 1];
    RunOnTracks(files, front);
    TouchesSnoc(es, d);
    StepOn(RunOn(files, front), last, d);
    assert Succeeds(files, es);
    assert Stored(files, es, d) == Stored(files, front, d) + [last.rec];
    Reassociate(Content(files, d), Stored(files, front, d), last.rec);
  }

  lemma StepElsewhere<R>(s: State<R>, e: Event<R>, d: int)
    requires s.current.Some? ==> s.current.value in s.files
    requires DayOf(e.ts) != d
    ensures Lookup(CalendarStep(s, e).state.files, d) == Lookup(s.files, d)
  {
  }

  lemma StoredElsewhere<R>(files: Files<R>, es: seq<Event<R>>, d: int)
    requires es != [] && DayOf(es[|es| - 1].ts) != d
    ensures Stored(files, es, d) == Stored(files, es[..|es| - 1], d)
  {
  }

  lemma OtherDate<R>(files: Files<R>, es: seq<Event<R>>, d: int)
    requires es != [] && DayOf(es[|es| - 1].ts) != d
    ensures Lookup(RunOn(files, es).files, d) == Lookup(RunOn(files, es[..|es| - 1]).files, d)
    ensures ExpectedOn(files, es, d) == ExpectedOn(files, es[..|es| - 1], d)
  {
    RunOnTracks(files, es[..|es| - 1]);
    StepElsewhere(RunOn(files, es[..|es| - 1]), es[|es| - 1], d);
    TouchesSnoc(es, d);
    StoredElsewhere(files, es, d);
  }

  lemma Reassociate<R>(a: seq<R>, b: seq<R>, x: R)
    ensures a + (b + [x]) == (a + b) + [x] && a + [] == a && [] + [x] == [x]
  {
  }

  /** The content of every date after a run that never stops. */
  lemma {:induction false} RunOnHolds<R>(files: Files<R>, es: seq<Event<R>>, d: int)
    ensures Lookup(RunOn(files, es).files, d) == ExpectedOn(files, es, d)
  {
    if es != [] {
      RunOnHolds(files, es[..|es| - 1], d);
      if DayOf(es[|es| - 1].ts) != d {
        OtherDate(files, es, d);
      } else if Touches(es[..|es| - 1], d) {
        LaterAppend(files, es, d);
      } else {
        FirstAppend(files, es, d);
      }
    }
  }

  /** A date first touched while closed holds exactly this run's successful appends if and only if its
      first append could unlink the old shard, or the old shard held no records. */
  lemma ConvergesExactlyUnlessUnlinkFailed<R>(files: Files<R>, es: seq<Event<R>>, d: int)
    requires Touches(es, d) && d < FirstTouch(es, d)
    ensures Lookup(RunOn(files, es).files, d) == Some(Stored(files, es, d))
       <==> !UnlinkFailed(files, es, d) || files[d] == []
  {
    RunOnHolds(files, es, d);
    if UnlinkFailed(files, es, d) {
      var stored := Stored(files, es, d);
      assert |files[d] + stored| == |files[d]| + |stored|;
      assert [] + stored == stored;
    }
  }

  /** Such a run: the failed unlink leaves the date marked as touched, so appending on keeps the
      records the run meant to replace. */
  lemma AppendingPastAFailedUnlinkKeepsOldRecords<R>(files: Files<R>, d: int, rec: R, today: int)
    requires d in files && d < today
    ensures var failed := CalendarStep(Fresh(files), Event(DayStart(d), rec, today, true));
            !failed.ok &&
            var next := CalendarStep(failed.state, Event(DayStart(d), rec, today, false));
            next.ok && next.state.files == files[d := files[d] + [rec]]
  {
    InDay(DayStart(d), d);
  }
}
