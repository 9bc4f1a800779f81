/**
  Gap detection of the data-quality audit: a gap between consecutive records is judged on the
  time the market was open inside it, where the sessions are the first-to-last envelopes of
  the records of each UTC day.
*/
module SessionGaps {
  import opened Wrappers
  import opened Arith
  import opened Calendar

  datatype Tick = Tick(ts: int, sentinel: bool)

  datatype Session = Session(open: int, close: int)

  datatype Class = Closed | Quiet | Outage

  datatype Gap = Gap(start: int, end: int, kind: Class)

  datatype Report = Report(suspect: nat, closed: nat, quiet: nat, outage: nat, gaps: seq<Gap>)

  ghost predicate Sorted(recs: seq<Tick>)
  {
    forall i, j :: 0 <= i <= j < |recs| ==> recs[i].ts <= recs[j].ts
  }

  /** `m` is exactly the first and last record time of every UTC day that has records. */
  ghost predicate IsEnvelope(m: map<int, Session>, recs: seq<Tick>)
  {
    && (forall i :: 0 <= i < |recs| ==>
          var d := DayOf(recs[i].ts);
          d in m && m[d].open <= recs[i].ts <= m[d].close)
    && (forall d :: d in m ==>
          && (exists i :: 0 <= i < |recs| && recs[i].ts == m[d].open)
          && (exists i :: 0 <= i < |recs| && recs[i].ts == m[d].close)
          && DayOf(m[d].open) == d == DayOf(m[d].close))
  }

  function Widen(m: map<int, Session>, ts: int): map<int, Session>
  {
    var d := DayOf(ts);
    var e := if d in m then m[d] else Session(ts, ts);
    m[d := Session(Min(e.open, ts), Max(e.close, ts))]
  }

  function SessionsOf(recs: seq<Tick>): map<int, Session>
  {
    if recs == [] then map[] else Widen(SessionsOf(recs[..|recs| - 1]), recs[|recs| - 1].ts)
  }

  lemma {:induction false} SessionsAreEnvelopes(recs: seq<Tick>)
    ensures IsEnvelope(SessionsOf(recs), recs)
  {
    if recs != [] {
      var n := |recs| - 1;
      SessionsAreEnvelopes(recs[..n]);
      WidenKeepsEnvelope(SessionsOf(recs[..n]), recs[..n], recs[n]);
      assert recs[..n] + [recs[n]] == recs;
    }
  }

  method BuildSessions(recs: seq<Tick>) returns (m: map<int, Session>)
    ensures m == SessionsOf(recs)
  {
    m := map[];
    for n := 0 to |recs|
      invariant m == SessionsOf(recs[..n])
    {
      var ts := recs[n].ts;
      var d := DayOf(ts);
      var e := if d in m then m[d] else Session(ts, ts);
      m := m[d := Session(Min(e.open, ts), Max(e.close, ts))];
      assert recs[..n + 1][..n] == recs[..n];
    }
    assert recs[..|recs|] == recs;
  }

  lemma WidenKeepsEnvelope(m: map<int, Session>, recs: seq<Tick>, r: Tick)
    requires IsEnvelope(m, recs)
    ensures IsEnvelope(Widen(m, r.ts), recs + [r])
  {
    var m' := Widen(m, r.ts);
    var recs' := recs + [r];
    assert recs'[|recs|] == r;
    forall k | k in m'
      ensures (exists i :: 0 <= i < |recs'| && recs'[i].ts == m'[k].open)
           && (exists i :: 0 <= i < |recs'| && recs'[i].ts == m'[k].close)
           && DayOf(m'[k].open) == k == DayOf(m'[k].close)
    {
      if k in m {
        var i :| 0 <= i < |recs| && recs[i].ts == m[k].open;
        var j :| 0 <= j < |recs| && recs[j].ts == m[k].close;
        assert recs'[i].ts == m[k].open && recs'[j].ts == m[k].close;
      }
    }
  }

  // ---------- open time inside a span ----------

  function Overlap(s: Session, from: int, to: int): nat
  {
    Max(Min(to, s.close) - Max(from, s.open), 0)
  }

  ghost function SumOver(days: set<int>, m: map<int, Session>, from: int, to: int): nat
    requires days <= m.Keys
    decreases |days|
  {
    if days == {} then 0
    else
      Inhabited(days);
      var d :| d in days;
      Overlap(m[d], from, to) + SumOver(days - {d}, m, from, to)
  }

  lemma {:induction false} SumTake(days: set<int>, d: int, m: map<int, Session>, from: int, to: int)
    requires d in days && days <= m.Keys
    ensures SumOver(days, m, from, to) == Overlap(m[d], from, to) + SumOver(days - {d}, m, from, to)
    decreases |days|
  {
    Inhabited(days);
    var e :| e in days && SumOver(days, m, from, to) == Overlap(m[e], from, to) + SumOver(days - {e}, m, from, to);
    if e != d {
      SumTake(days - {e}, d, m, from, to);
      assert days - {e} - {d} == days - {d} - {e};
      SumTake(days - {d}, e, m, from, to);
    }
  }

  /** Sums the overlaps of the span with every session. */
  method ActiveMs(m: map<int, Session>, from: int, to: int) returns (active: nat)
    ensures active == SumOver(m.Keys, m, from, to)
  {
    active := 0;
    var left := m.Keys;
    while left != {}
      invariant left <= m.Keys
      invariant active + SumOver(left, m, from, to) == SumOver(m.Keys, m, from, to)
      decreases |left|
    {
      var d :| d in left;
      SumTake(left, d, m, from, to);
      active := active + Overlap(m[d], from, to);
      left := left - {d};
    }
  }

  lemma {:induction false} SumZero(days: set<int>, m: map<int, Session>, from: int, to: int)
    requires days <= m.Keys
    requires forall d :: d in days ==> Overlap(m[d], from, to) == 0
    ensures SumOver(days, m, from, to) == 0
    decreases |days|
  {
    if days != {} {
      Inhabited(days);
      var d :| d in days;
      SumTake(days, d, m, from, to);
      SumZero(days - {d}, m, from, to);
    }
  }

  /** Between consecutive records, the open time summed over all sessions is the whole gap when
      both records share a UTC day and nothing otherwise. */
  lemma OpenTimeCollapses(recs: seq<Tick>, i: nat)
    requires Sorted(recs) && i + 1 < |recs|
    ensures var m, from, to := SessionsOf(recs), recs[i].ts, recs[i + 1].ts;
            SumOver(m.Keys, m, from, to) == if DayOf(from) == DayOf(to) then to - from else 0
  {
    var m, from, to := SessionsOf(recs), recs[i].ts, recs[i + 1].ts;
    SessionsAreEnvelopes(recs);
    var home := DayOf(from);
    if DayOf(to) == home {
      HomeCoversGap(recs, m, i);
      OthersAreZero(recs, m, i, m.Keys - {home});
      SumTake(m.Keys, home, m, from, to);
    } else {
      OthersAreZero(recs, m, i, m.Keys);
    }
  }

  lemma HomeCoversGap(recs: seq<Tick>, m: map<int, Session>, i: nat)
    requires Sorted(recs) && IsEnvelope(m, recs) && i + 1 < |recs| && DayOf(recs[i].ts) == DayOf(recs[i + 1].ts)
    ensures DayOf(recs[i].ts) in m && Overlap(m[DayOf(recs[i].ts)], recs[i].ts, recs[i + 1].ts) == recs[i + 1].ts - recs[i].ts
  {
    assert recs[i].ts <= recs[i + 1].ts;
  }

  lemma OthersAreZero(recs: seq<Tick>, m: map<int, Session>, i: nat, days: set<int>)
    requires Sorted(recs) && IsEnvelope(m, recs) && i + 1 < |recs| && days <= m.Keys
    requires DayOf(recs[i].ts) in days ==> DayOf(recs[i + 1].ts) != DayOf(recs[i].ts)
    ensures SumOver(days, m, recs[i].ts, recs[i + 1].ts) == 0
  {
    forall d | d in days
      ensures Overlap(m[d], recs[i].ts, recs[i + 1].ts) == 0
    {
      SessionOutsideGap(recs, m, i, d);
    }
    SumZero(days, m, recs[i].ts, recs[i + 1].ts);
  }

  /** Both ends of a session are record times, so neither lies strictly inside a gap. */
  lemma SessionSpansGap(recs: seq<Tick>, m: map<int, Session>, i: nat, d: int)
    requires Sorted(recs) && IsEnvelope(m, recs) && i + 1 < |recs| && d in m
    requires m[d].open < recs[i + 1].ts && recs[i].ts < m[d].close
    ensures m[d].open <= recs[i].ts && recs[i + 1].ts <= m[d].close
    ensures DayOf(m[d].open) == d == DayOf(m[d].close)
  {
    var a :| 0 <= a < |recs| && recs[a].ts == m[d].open;
    var b :| 0 <= b < |recs| && recs[b].ts == m[d].close;
    assert a <= i < b;
  }

  /** A session other than the one holding the whole gap meets it in at most a point. */
  lemma SessionOutsideGap(recs: seq<Tick>, m: map<int, Session>, i: nat, d: int)
    requires Sorted(recs) && IsEnvelope(m, recs) && i + 1 < |recs| && d in m
    requires d != DayOf(recs[i].ts) || DayOf(recs[i + 1].ts) != d
    ensures Overlap(m[d], recs[i].ts, recs[i + 1].ts) == 0
  {
    var from, to := recs[i].ts, recs[i + 1].ts;
    if m[d].open < to && from < m[d].close {
      SessionSpansGap(recs, m, i, d);
      InDay(from, d);
      InDay(to, d);
      assert false;
    }
  }

  // ---------- classification ----------

  predicate AnySentinel(recs: seq<Tick>)
  {
    exists i :: 0 <= i < |recs| && recs[i].sentinel
  }

  /** What the gap after record `i` is called, without reference to sessions. */
  function ClassOf(recs: seq<Tick>, i: nat, maxGap: int, quietTol: int): Class
    requires i + 1 < |recs|
  {
    var a, b := recs[i], recs[i + 1];
    if maxGap >= 0 && DayOf(a.ts) != DayOf(b.ts) then Closed
    else if (a.sentinel || b.sentinel || !AnySentinel(recs)) && b.ts - a.ts <= quietTol then Quiet
    else Outage
  }

  /** The suspect gaps among the first `n` records. */
  function GapsUpTo(recs: seq<Tick>, n: nat, maxGap: int, quietTol: int): seq<Gap>
    requires n <= |recs|
  {
    if n < 2 then []
    else
      var a, b := recs[n - 2], recs[n - 1];
      GapsUpTo(recs, n - 1, maxGap, quietTol)
      + if b.ts - a.ts <= maxGap then [] else [Gap(a.ts, b.ts, ClassOf(recs, n - 2, maxGap, quietTol))]
  }

  function Tally(gaps: seq<Gap>, c: Class): nat
  {
    if gaps == [] then 0 else Tally(gaps[..|gaps| - 1], c) + if gaps[|gaps| - 1].kind == c then 1 else 0
  }

  /** Every suspect gap is listed and counted in exactly one class. */
  predicate Tallied(r: Report)
  {
    && r.suspect == |r.gaps| == r.closed + r.quiet + r.outage
    && r.closed == Tally(r.gaps, Closed)
    && r.quiet == Tally(r.gaps, Quiet)
    && r.outage == Tally(r.gaps, Outage)
  }

  method Note(r: Report, g: Gap) returns (r': Report)
    requires Tallied(r)
    ensures Tallied(r') && r'.gaps == r.gaps + [g]
  {
    var gaps := r.gaps + [g];
    assert gaps[..|gaps| - 1] == r.gaps;
    r' := r.(suspect := r.suspect + 1, gaps := gaps);
    match g.kind {
      case Closed => r' := r'.(closed := r.closed + 1);
      case Quiet => r' := r'.(quiet := r.quiet + 1);
      case Outage => r' := r'.(outage := r.outage + 1);
    }
  }

  /** Judges one over-long gap on its open time. */
  method Judge(recs: seq<Tick>, sessions: map<int, Session>, anySentinel: bool, i: nat, maxGap: int, quietTol: int)
    returns (g: Gap)
    requires Sorted(recs) && sessions == SessionsOf(recs) && i + 1 < |recs|
    requires anySentinel == AnySentinel(recs)
    requires recs[i + 1].ts - recs[i].ts > maxGap
    ensures g == Gap(recs[i].ts, recs[i + 1].ts, ClassOf(recs, i, maxGap, quietTol))
  {
    var a, b := recs[i], recs[i + 1];
    var excused := a.sentinel || b.sentinel || !anySentinel;
    var active := ActiveMs(sessions, a.ts, b.ts);
    OpenTimeCollapses(recs, i);
    g := Gap(a.ts, b.ts,
             if active <= maxGap then Closed else if excused && b.ts - a.ts <= quietTol then Quiet else Outage);
  }

  /** The audit's gap loop: a suspect gap is `Closed` exactly when it crosses a UTC midnight. */
  method AuditGaps(recs: seq<Tick>, maxGap: int, quietTol: int) returns (r: Report)
    requires Sorted(recs)
    ensures r.gaps == GapsUpTo(recs, |recs|, maxGap, quietTol)
    ensures Tallied(r)
  {
    var anySentinel := AnySentinel(recs);
    var sessions := BuildSessions(recs);
    r := Report(0, 0, 0, 0, []);
    var n := 1;
    while n < |recs|
      invariant n >= 1 && (|recs| > 0 ==> n <= |recs|)
      invariant r.gaps == if |recs| == 0 then [] else GapsUpTo(recs, n, maxGap, quietTol)
      invariant Tallied(r)
    {
      n := n + 1;
      if recs[n - 1].ts - recs[n - 2].ts > maxGap {
        var g := Judge(recs, sessions, anySentinel, n - 2, maxGap, quietTol);
        r := Note(r, g);
      }
    }
  }

  /** Each count is the number of listed gaps of its class, and together they are all of them. */
  lemma TalliedCounts(r: Report)
    requires Tallied(r)
    ensures r.closed == |OfKind(r.gaps, Closed)| && r.quiet == |OfKind(r.gaps, Quiet)| && r.outage == |OfKind(r.gaps, Outage)|
    ensures r.suspect == |r.gaps| && r.closed + r.quiet + r.outage == |r.gaps|
  {
    TallyIs(r.gaps, Closed);
    TallyIs(r.gaps, Quiet);
    TallyIs(r.gaps, Outage);
  }

  /** Which gaps are of a class. */
  function OfKind(gaps: seq<Gap>, c: Class): set<int> { set i | 0 <= i < |gaps| && gaps[i].kind == c }

  lemma {:induction false} TallyIs(gaps: seq<Gap>, c: Class)
    ensures Tally(gaps, c) == |OfKind(gaps, c)|
  {
    if gaps != [] {
      var n := |gaps| - 1;
      TallyIs(gaps[..n], c);
      assert OfKind(gaps, c) == OfKind(gaps[..n], c) + if gaps[n].kind == c then {n} else {};
    }
  }

  /** What the class of an over-long gap means in open time: closed when the sessions were open for no longer
      than the threshold inside it; quiet when it is short enough and a sentinel ends it or the file has none
      at all; an outage otherwise. */
  lemma ClassMeans(recs: seq<Tick>, i: nat, maxGap: int, quietTol: int)
    requires Sorted(recs) && i + 1 < |recs| && recs[i + 1].ts - recs[i].ts > maxGap
    ensures var (m, a, b) := (SessionsOf(recs), recs[i], recs[i + 1]);
            var open := SumOver(m.Keys, m, a.ts, b.ts);
            var quiet := b.ts - a.ts <= quietTol && (a.sentinel || b.sentinel || forall r :: r in recs ==> !r.sentinel);
            && (ClassOf(recs, i, maxGap, quietTol) == Closed <==> open <= maxGap)
            && (ClassOf(recs, i, maxGap, quietTol) == Quiet <==> open > maxGap && quiet)
            && (ClassOf(recs, i, maxGap, quietTol) == Outage <==> open > maxGap && !quiet)
  {
    OpenTimeCollapses(recs, i);
    NoSentinels(recs);
  }

  lemma NoSentinels(recs: seq<Tick>)
    ensures AnySentinel(recs) <==> exists r :: r in recs && r.sentinel
  {
    if r :| r in recs && r.sentinel {
      var i :| 0 <= i < |recs| && recs[i] == r;
    }
  }

  /** Every listed gap is a real one and no over-long gap is missed. */
  lemma {:induction false} GapsAreExactlyTheLongOnes(recs: seq<Tick>, n: nat, maxGap: int, quietTol: int)
    requires n <= |recs|
    ensures forall i :: 0 <= i < n - 1 && recs[i + 1].ts - recs[i].ts > maxGap ==>
              Gap(recs[i].ts, recs[i + 1].ts, ClassOf(recs, i, maxGap, quietTol)) in GapsUpTo(recs, n, maxGap, quietTol)
    ensures forall g :: g in GapsUpTo(recs, n, maxGap, quietTol) ==>
              exists i :: 0 <= i < n - 1 && recs[i + 1].ts - recs[i].ts > maxGap
                       && g == Gap(recs[i].ts, recs[i + 1].ts, ClassOf(recs, i, maxGap, quietTol))
  {
    if n >= 2 {
      GapsAreExactlyTheLongOnes(recs, n - 1, maxGap, quietTol);
      var i := n - 2;
      assert recs[i + 1].ts - recs[i].ts > maxGap ==>
          Gap(recs[i].ts, recs[i + 1].ts, ClassOf(recs, i, maxGap, quietTol)) in GapsUpTo(recs, n, maxGap, quietTol);
    }
  }

  /** Time in slots of `p` milliseconds. */
  function SlotOf(ts: int, p: nat): int
    requires p > 0
  {
    ts / p
  }

  lemma SlotMono(a: int, b: int, p: nat)
    requires p > 0 && a <= b
    ensures SlotOf(a, p) <= SlotOf(b, p)
  {
    if SlotOf(b, p) + 1 <= SlotOf(a, p) {
      MulMono(SlotOf(b, p) + 1, SlotOf(a, p), p);
    }
  }

  /** Times two slots apart leave a whole slot between them. */
  lemma SlotBetween(a: int, b: int, p: nat)
    requires p > 0 && b - a >= 2 * p
    ensures SlotOf(a, p) + 1 < SlotOf(b, p)
  {
    var q, r := a / p, a % p;
    assert (q + 2) * p == q * p + 2 * p;
    DivModOf(a + 2 * p, p, q + 2, r);
    SlotMono(a + 2 * p, b, p);
  }

  ghost predicate PrintsIn(recs: seq<Tick>, p: nat, slot: int)
    requires p > 0
  {
    exists j :: 0 <= j < |recs| && SlotOf(recs[j].ts, p) == slot
  }

  /** Every slot from the first record to the last has a record, except those strictly inside the span
      after record `i`. */
  ghost predicate RoundTheClock(recs: seq<Tick>, p: nat, i: nat)
    requires p > 0 && i + 1 < |recs|
  {
    forall slot ::
      SlotOf(recs[0].ts, p) <= slot <= SlotOf(recs[|recs| - 1].ts, p)
      && !(SlotOf(recs[i].ts, p) < slot < SlotOf(recs[i + 1].ts, p))
      ==> PrintsIn(recs, p, slot)
  }

  /** Outside the dead span consecutive records are less than two slots apart. */
  lemma LiveGapsAreShort(recs: seq<Tick>, p: nat, i: nat, j: nat)
    requires p > 0 && Sorted(recs) && i + 1 < |recs| && RoundTheClock(recs, p, i) && j + 1 < |recs| && j != i
    ensures recs[j + 1].ts - recs[j].ts < 2 * p
  {
    if recs[j + 1].ts - recs[j].ts >= 2 * p {
      var slot := SlotOf(recs[j].ts, p) + 1;
      SlotBetween(recs[j].ts, recs[j + 1].ts, p);
      NoSlotBetween(recs, p, j, slot);
      SlotMono(recs[0].ts, recs[j].ts, p);
      SlotMono(recs[j + 1].ts, recs[|recs| - 1].ts, p);
      if j < i {
        SlotMono(recs[j + 1].ts, recs[i].ts, p);
      } else {
        SlotMono(recs[i + 1].ts, recs[j].ts, p);
      }
    }
  }

  lemma NoSlotBetween(recs: seq<Tick>, p: nat, j: nat, slot: int)
    requires p > 0 && Sorted(recs) && j + 1 < |recs|
    requires SlotOf(recs[j].ts, p) < slot < SlotOf(recs[j + 1].ts, p)
    ensures !PrintsIn(recs, p, slot)
  {
    forall k | 0 <= k < |recs|
      ensures SlotOf(recs[k].ts, p) != slot
    {
      if k <= j {
        SlotMono(recs[k].ts, recs[j].ts, p);
      } else {
        SlotMono(recs[j + 1].ts, recs[k].ts, p);
      }
    }
  }

  lemma {:induction false} OnlyOneGap(recs: seq<Tick>, i: nat, n: nat, maxGap: int, quietTol: int)
    requires i + 1 < |recs| && n <= |recs|
    requires forall j :: 0 <= j < |recs| - 1 && j != i ==> recs[j + 1].ts - recs[j].ts <= maxGap
    requires recs[i + 1].ts - recs[i].ts > maxGap
    ensures GapsUpTo(recs, n, maxGap, quietTol) ==
              if n < i + 2 then [] else [Gap(recs[i].ts, recs[i + 1].ts, ClassOf(recs, i, maxGap, quietTol))]
  {
    if n >= 2 {
      OnlyOneGap(recs, i, n - 1, maxGap, quietTol);
      assert n - 2 != i ==> recs[(n - 2) + 1].ts - recs[n - 2].ts <= maxGap;
    }
  }

  /** A feed with a record in every slot of `p` milliseconds, of any length, that dies once across a UTC
      midnight: the outage is the only gap reported, and it is reported closed. Its session envelopes
      excuse it. At the default threshold of two minutes `p` is a minute. */
  lemma RoundTheClockOutageReadsClosed(recs: seq<Tick>, p: nat, i: nat, maxGap: int, quietTol: int)
    requires p > 0 && Sorted(recs) && i + 1 < |recs| && RoundTheClock(recs, p, i)
    requires 2 * p <= maxGap + 1 && maxGap < recs[i + 1].ts - recs[i].ts
    requires DayOf(recs[i].ts) != DayOf(recs[i + 1].ts)
    ensures GapsUpTo(recs, |recs|, maxGap, quietTol) == [Gap(recs[i].ts, recs[i + 1].ts, Closed)]
  {
    forall j | 0 <= j < |recs| - 1 && j != i
      ensures recs[j + 1].ts - recs[j].ts <= maxGap
    {
      LiveGapsAreShort(recs, p, i, j);
    }
    OnlyOneGap(recs, i, |recs|, maxGap, quietTol);
  }
}
