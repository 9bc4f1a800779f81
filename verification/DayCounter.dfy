/**
  Bricks per UTC day and their median over the days that have any.

  The brick generator is a deterministic step function. The median is the sorted middle value, or
  the mean of the two middle ones.
*/
module DayCounter {
  import opened Calendar
  import opened Wrappers

  const U64_MAX: nat := 0xffff_ffff_ffff_ffff

  // ---------- the median ----------

  function Insert(x: nat, s: seq<nat>): (r: seq<nat>)
    ensures |r| == |s| + 1
  {
    if s == [] || x <= s[0] then [x] + s else [s[0]] + Insert(x, s[1..])
  }

  function Sort(s: seq<nat>): (r: seq<nat>)
    ensures |r| == |s|
  {
    if s == [] then [] else Insert(s[0], Sort(s[1..]))
  }

  /** The middle of a sorted list. */
  function Middle(r: seq<nat>): real
    requires r != []
  {
    var n := |r|;
    if n % 2 == 1 then r[n / 2] as real else (r[n / 2 - 1] + r[n / 2]) as real / 2.0
  }

  function Median(s: seq<nat>): real
    requires s != []
  {
    Middle(Sort(s))
  }

  predicate Sorted(s: seq<nat>) { forall i, j :: 0 <= i < j < |s| ==> s[i] <= s[j] }

  predicate Below(s: seq<nat>, t: seq<nat>)
  {
    |s| == |t| && forall i :: 0 <= i < |s| ==> s[i] <= t[i]
  }

  lemma ConsSorted(x: nat, s: seq<nat>)
    requires Sorted(s) && (s != [] ==> x <= s[0])
    ensures Sorted([x] + s)
  {
  }

  lemma TailSorted(s: seq<nat>)
    requires Sorted(s) && s != []
    ensures Sorted(s[1..]) && (|s| > 1 ==> s[0] <= s[1])
  {
  }

  lemma {:induction false} InsertSorts(x: nat, s: seq<nat>)
    requires Sorted(s)
    ensures Sorted(Insert(x, s)) && Insert(x, s)[0] == if s == [] then x else Min(x, s[0])
  {
    if s == [] || x <= s[0] {
      ConsSorted(x, s);
    } else {
      TailSorted(s);
      InsertSorts(x, s[1..]);
      ConsSorted(s[0], Insert(x, s[1..]));
    }
  }

  lemma {:induction false} InsertKeeps(x: nat, s: seq<nat>)
    ensures multiset(Insert(x, s)) == multiset(s) + multiset{x}
  {
    if s != [] && x > s[0] {
      InsertKeeps(x, s[1..]);
      assert s == [s[0]] + s[1..];
    }
  }

  lemma SortCons(x: nat, s: seq<nat>)
    ensures Sort([x] + s) == Insert(x, Sort(s))
  {
    assert ([x] + s)[1..] == s;
  }

  lemma {:induction false} SortOrders(s: seq<nat>)
    ensures Sorted(Sort(s))
  {
    if s != [] {
      SortOrders(s[1..]);
      InsertSorts(s[0], Sort(s[1..]));
    }
  }

  lemma {:induction false} SortKeeps(s: seq<nat>)
    ensures multiset(Sort(s)) == multiset(s)
  {
    if s != [] {
      SortKeeps(s[1..]);
      InsertKeeps(s[0], Sort(s[1..]));
      assert s == [s[0]] + s[1..];
    }
  }

  lemma SortSorts(s: seq<nat>)
    ensures Sorted(Sort(s)) && multiset(Sort(s)) == multiset(s)
  {
    SortOrders(s);
    SortKeeps(s);
  }

  lemma BelowTail(s: seq<nat>, t: seq<nat>)
    requires Below(s, t) && s != []
    ensures Below(s[1..], t[1..])
  {
  }

  lemma BelowCons(x: nat, s: seq<nat>, y: nat, t: seq<nat>)
    requires x <= y && Below(s, t)
    ensures Below([x] + s, [y] + t)
  {
  }

  lemma InsertHead(s: seq<nat>)
    requires Sorted(s) && s != []
    ensures Insert(s[0], s[1..]) == s
  {
    if |s| > 1 {
      assert s[0] <= s[1];
    }
    assert [s[0]] + s[1..] == s;
  }

  lemma SortedTail(s: seq<nat>)
    requires Sorted(s) && s != []
    ensures Sorted(s[1..]) && Insert(s[0], s[1..]) == s
  {
    InsertHead(s);
  }

  /** Inserting a smaller value into a smaller list gives a smaller list, place by place. */
  lemma {:induction false} InsertBelow(x: nat, s: seq<nat>, y: nat, t: seq<nat>)
    requires x <= y && Sorted(s) && Sorted(t) && Below(s, t)
    ensures Below(Insert(x, s), Insert(y, t))
    decreases |s|
  {
    if s == [] || (x <= s[0] && y <= t[0]) {
      BelowCons(x, s, y, t);
    } else {
      BelowTail(s, t);
      SortedTail(s);
      SortedTail(t);
      InsertLower(if x <= s[0] then s[0] else x, s, if y <= t[0] then t[0] else y, t);
      BelowCons(Min(x, s[0]), Insert(if x <= s[0] then s[0] else x, s[1..]),
                Min(y, t[0]), Insert(if y <= t[0] then t[0] else y, t[1..]));
    }
  }

  lemma {:induction false} InsertLower(x: nat, s: seq<nat>, y: nat, t: seq<nat>)
    requires x <= y && s != [] && Below(s, t) && Sorted(s[1..]) && Sorted(t[1..])
    ensures Below(Insert(x, s[1..]), Insert(y, t[1..]))
    decreases |s|, 0
  {
    BelowTail(s, t);
    InsertBelow(x, s[1..], y, t[1..]);
  }

  lemma {:induction false} SortBelow(s: seq<nat>, t: seq<nat>)
    requires Below(s, t)
    ensures Below(Sort(s), Sort(t))
  {
    if s != [] {
      SortBelow(s[1..], t[1..]);
      SortSorts(s[1..]);
      SortSorts(t[1..]);
      InsertBelow(s[0], Sort(s[1..]), t[0], Sort(t[1..]));
    }
  }

  /** Each order statistic, hence the median, is monotone in every count. */
  lemma MedianBelow(s: seq<nat>, t: seq<nat>)
    requires Below(s, t) && s != []
    ensures Median(s) <= Median(t)
  {
    SortBelow(s, t);
  }

  // ---------- quarantine ----------

  function CleanDays(perDay: seq<nat>): (r: seq<nat>)
    ensures |r| <= |perDay|
    ensures forall i :: 0 <= i < |r| ==> r[i] > 0
  {
    if perDay == [] then []
    else if perDay[0] > 0 then [perDay[0]] + CleanDays(perDay[1..])
    else CleanDays(perDay[1..])
  }

  function MinClean(days: nat): nat { Min(Max(3, days / 2), days) }

  function Quarantine(perDay: seq<nat>): Option<seq<nat>>
  {
    var clean := CleanDays(perDay);
    if clean == [] || |clean| < MinClean(|perDay|) then None else Some(clean)
  }

  datatype Stats = Stats(perDay: seq<nat>, median: real, days: nat)

  function Score(perDay: seq<nat>): Stats
  {
    var q := Quarantine(perDay);
    if q.None? then Stats(perDay, 0.0, 0) else Stats(perDay, Median(q.value), |q.value|)
  }

  /** A scored window has a median of at least one; a dead one has median zero. */
  predicate ValidStats(s: Stats)
  {
    if s.days == 0 then s.median == 0.0 else s.median >= 1.0
  }

  lemma ScoreIsValid(perDay: seq<nat>)
    ensures ValidStats(Score(perDay))
  {
    var q := Quarantine(perDay);
    if q.Some? {
      var ones := seq(|q.value|, _ => 1);
      MedianBelow(ones, q.value);
      OnesMedian(ones);
    }
  }

  lemma {:induction false} CleanAreNonZero(perDay: seq<nat>)
    ensures multiset(CleanDays(perDay)) == multiset(perDay)[0 := 0]
  {
    if perDay != [] {
      CleanAreNonZero(perDay[1..]);
      assert perDay == [perDay[0]] + perDay[1..];
    }
  }

  /** A window is scored by its days with bricks, in any order: it needs all of its days, or at least three
      and half of them rounded down; the score is their number and their median. */
  lemma ScoreMeans(perDay: seq<nat>, s: seq<nat>)
    requires multiset(s) == multiset(perDay)[0 := 0]
    ensures Score(perDay) ==
              if s != [] && (|s| == |perDay| || (|s| >= 3 && |perDay| <= 2 * |s| + 1))
              then Stats(perDay, Median(s), |s|) else Stats(perDay, 0.0, 0)
  {
    CleanAreNonZero(perDay);
    var clean := CleanDays(perDay);
    assert |s| == |multiset(s)| == |multiset(clean)| == |clean|;
    SortSorts(s);
    SortSorts(clean);
    SortedUnique(Sort(s), Sort(clean));
  }

  lemma {:induction false} SortOnes(s: seq<nat>)
    requires forall i :: 0 <= i < |s| ==> s[i] == 1
    ensures Sort(s) == s
  {
    if s != [] {
      SortOnes(s[1..]);
      assert s == [1] + s[1..];
    }
  }

  lemma OnesMedian(s: seq<nat>)
    requires s != [] && forall i :: 0 <= i < |s| ==> s[i] == 1
    ensures Median(s) == 1.0
  {
    SortOnes(s);
  }

  // ---------- when larger k cannot raise the median ----------

  predicate SameGaps(a: seq<nat>, b: seq<nat>)
  {
    |a| == |b| && forall i :: 0 <= i < |a| ==> (a[i] == 0 <==> b[i] == 0)
  }

  lemma {:induction false} CleanBelow(a: seq<nat>, b: seq<nat>)
    requires Below(a, b) && SameGaps(a, b)
    ensures Below(CleanDays(a), CleanDays(b))
  {
    if a != [] {
      CleanBelow(a[1..], b[1..]);
      if a[0] > 0 {
        BelowCons(a[0], CleanDays(a[1..]), b[0], CleanDays(b[1..]));
      }
    }
  }

  /** Fewer bricks on every day, on the same days, never score a higher median. */
  lemma ScoreBelow(a: seq<nat>, b: seq<nat>)
    requires Below(a, b) && SameGaps(a, b)
    ensures Score(a).median <= Score(b).median && Score(a).days == Score(b).days
  {
    CleanBelow(a, b);
    if Quarantine(a).Some? {
      MedianBelow(CleanDays(a), CleanDays(b));
    }
  }

  lemma {:induction false} InsertAt(x: nat, low: seq<nat>, high: seq<nat>)
    requires forall i :: 0 <= i < |low| ==> low[i] < x
    requires high == [] || x <= high[0]
    ensures Insert(x, low + high) == low + [x] + high
  {
    if low == [] {
      assert low + high == high;
    } else {
      InsertAt(x, low[1..], high);
      assert (low + high)[1..] == low[1..] + high;
      assert low == [low[0]] + low[1..];
    }
  }

  function Times(x: nat, n: nat): (r: seq<nat>)
    ensures |r| == n && forall i :: 0 <= i < n ==> r[i] == x
  {
    if n == 0 then [] else [x] + Times(x, n - 1)
  }

  /** The `m` largest counts, in order. */
  function Busiest(a: seq<nat>, m: nat): (r: seq<nat>)
    requires m <= |a|
    ensures |r| == m
  {
    Sort(a)[|a| - m..]
  }

  lemma ZeroFirst(n: nat, rest: seq<nat>)
    ensures Insert(0, Times(0, n) + rest) == Times(0, n + 1) + rest
  {
    var s := Times(0, n) + rest;
    assert Insert(0, s) == [0] + s;
    assert Times(0, n + 1) == [0] + Times(0, n);
  }

  /** What the first day adds to the sorted days with bricks. */
  lemma CleanHead(a: seq<nat>)
    requires a != []
    ensures |CleanDays(a)| == |CleanDays(a[1..])| + if a[0] == 0 then 0 else 1
    ensures Sort(CleanDays(a)) ==
              if a[0] == 0 then Sort(CleanDays(a[1..])) else Insert(a[0], Sort(CleanDays(a[1..])))
  {
    if a[0] > 0 {
      SortCons(a[0], CleanDays(a[1..]));
    }
  }

  /** The empty days sort in front of the others. */
  lemma {:induction false} SortSplits(a: seq<nat>)
    ensures Sort(a) == Times(0, |a| - |CleanDays(a)|) + Sort(CleanDays(a))
  {
    if a != [] {
      SortSplits(a[1..]);
      CleanHead(a);
      var n, rest := |a| - 1 - |CleanDays(a[1..])|, Sort(CleanDays(a[1..]));
      if a[0] == 0 {
        ZeroFirst(n, rest);
      } else {
        InsertPast(a[0], Times(0, n), rest);
      }
    }
  }

  /** A value goes past everything smaller in front of it. */
  lemma {:induction false} InsertPast(x: nat, low: seq<nat>, s: seq<nat>)
    requires forall i :: 0 <= i < |low| ==> low[i] < x
    ensures Insert(x, low + s) == low + Insert(x, s)
  {
    if low == [] {
      assert low + s == s;
    } else {
      InsertPast(x, low[1..], s);
      assert (low + s)[1..] == low[1..] + s;
      assert low == [low[0]] + low[1..];
    }
  }

  /** The median over the days with bricks is the middle of that many of the largest counts. */
  lemma MedianOfBusiest(a: seq<nat>)
    requires CleanDays(a) != []
    ensures Median(CleanDays(a)) == Middle(Busiest(a, |CleanDays(a)|))
  {
    SortSplits(a);
  }

  /** Fewer of the largest counts have a larger middle. */
  lemma MiddleOfFewer(r: seq<nat>, m: nat, p: nat)
    requires Sorted(r) && 0 < m <= p <= |r|
    ensures Middle(r[|r| - p..]) <= Middle(r[|r| - m..])
  {
    var n := |r|;
    MiddleFromEnd(r, p);
    MiddleFromEnd(r, m);
    assert r[n - p / 2 - 1] <= r[n - m / 2 - 1] && r[n - (p + 1) / 2] <= r[n - (m + 1) / 2];
  }

  lemma MiddleFromEnd(r: seq<nat>, p: nat)
    requires 0 < p <= |r|
    ensures Middle(r[|r| - p..]) == (r[|r| - p / 2 - 1] + r[|r| - (p + 1) / 2]) as real / 2.0
  {
    var n, t := |r|, r[|r| - p..];
    assert t[p / 2] == r[n - p + p / 2];
    assert p / 2 > 0 ==> t[p / 2 - 1] == r[n - p + p / 2 - 1];
  }

  lemma MiddleBelow(s: seq<nat>, t: seq<nat>)
    requires Below(s, t) && s != []
    ensures Middle(s) <= Middle(t)
  {
  }

  lemma BelowSuffix(s: seq<nat>, t: seq<nat>, m: nat)
    requires Below(s, t) && m <= |s|
    ensures Below(s[|s| - m..], t[|t| - m..])
  {
  }

  /** No way to lose bricks and days can raise the median: the busiest days that would still be
      scored, alone, have no larger one. Decided by the counts at hand. */
  predicate Steady(a: seq<nat>)
  {
    var q := Quarantine(a);
    q.None? || Middle(Busiest(a, MinClean(|a|))) <= Median(q.value)
  }

  lemma {:induction false} CleanBelowCount(b: seq<nat>, a: seq<nat>)
    requires Below(b, a)
    ensures |CleanDays(b)| <= |CleanDays(a)|
  {
    if a != [] {
      BelowTail(b, a);
      CleanBelowCount(b[1..], a[1..]);
    }
  }

  /** A scored median is at most the middle of as many of the larger window's counts. */
  lemma MedianBelowBusiest(a: seq<nat>, b: seq<nat>)
    requires Below(b, a) && CleanDays(b) != []
    ensures Median(CleanDays(b)) <= Middle(Busiest(a, |CleanDays(b)|))
  {
    var p := |CleanDays(b)|;
    MedianOfBusiest(b);
    SortBelow(b, a);
    BelowSuffix(Sort(b), Sort(a), p);
    MiddleBelow(Busiest(b, p), Busiest(a, p));
  }

  lemma FewerBusiest(a: seq<nat>, m: nat, p: nat)
    requires 0 < m <= p <= |a|
    ensures Middle(Busiest(a, p)) <= Middle(Busiest(a, m))
  {
    SortOrders(a);
    MiddleOfFewer(Sort(a), m, p);
  }

  lemma MinCleanInRange(n: nat)
    requires n > 0
    ensures 0 < MinClean(n) <= n
  {
  }

  /** From a steady window, fewer bricks on any days never score a higher median. */
  lemma FewerBricksScoreLess(a: seq<nat>, b: seq<nat>)
    requires Below(b, a) && Steady(a)
    ensures Score(b).median <= Score(a).median
  {
    ScoreIsValid(a);
    CleanBelowCount(b, a);
    if Quarantine(b).Some? {
      MedianBelowBusiest(a, b);
      MinCleanInRange(|a|);
      FewerBusiest(a, MinClean(|a|), |CleanDays(b)|);
    }
  }

  lemma {:induction false} SortedUnique(s: seq<nat>, t: seq<nat>)
    requires Sorted(s) && Sorted(t) && multiset(s) == multiset(t)
    ensures s == t
  {
    if s == [] {
      assert |multiset(t)| == 0;
    } else {
      LeastFirst(s, t);
      LeastFirst(t, s);
      assert s == [s[0]] + s[1..] && t == [t[0]] + t[1..];
      assert multiset(s[1..]) == multiset(s) - multiset{s[0]} == multiset(t[1..]);
      TailSorted(s);
      TailSorted(t);
      SortedUnique(s[1..], t[1..]);
    }
  }

  lemma LeastFirst(s: seq<nat>, t: seq<nat>)
    requires s != [] && Sorted(t) && multiset(s) == multiset(t)
    ensures t != [] && t[0] <= s[0]
  {
    assert s[0] in multiset(t);
    var i :| 0 <= i < |t| && t[i] == s[0];
  }

  /** The first count past the empty days is the least busy day's. */
  lemma LeastBusy(a: seq<nat>) returns (i: nat)
    requires CleanDays(a) != []
    ensures i < |a| && a[i] > 0 && a[i] == Sort(a)[|a| - |CleanDays(a)|]
    ensures forall x :: 0 <= x < |a| - |CleanDays(a)| ==> Sort(a)[x] == 0
  {
    var k, clean := |a| - |CleanDays(a)|, CleanDays(a);
    SortSplits(a);
    SortSorts(a);
    SortSorts(clean);
    assert Sort(a)[k] in multiset(Sort(a));
    i :| 0 <= i < |a| && a[i] == Sort(a)[k];
    assert Sort(clean)[0] in multiset(clean);
  }

  lemma SortOfDropped(a: seq<nat>, i: nat, k: nat)
    requires i < |a| && k < |a| && a[i] == Sort(a)[k]
    requires forall x :: 0 <= x < k ==> Sort(a)[x] == 0
    ensures Sort(a[i := 0]) == Sort(a)[k := 0]
  {
    SortSorts(a);
    SortSorts(a[i := 0]);
    assert multiset(Sort(a)[k := 0]) == multiset(a[i := 0]);
    SortedUnique(Sort(a[i := 0]), Sort(a)[k := 0]);
  }

  /** Emptying the least busy day that has bricks. */
  lemma DropLeast(a: seq<nat>) returns (b: seq<nat>)
    requires CleanDays(a) != []
    ensures Below(b, a) && |CleanDays(b)| == |CleanDays(a)| - 1
    ensures Sort(b) == Sort(a)[|a| - |CleanDays(a)| := 0]
  {
    var i := LeastBusy(a);
    SortOfDropped(a, i, |a| - |CleanDays(a)|);
    CleanUpdate(a, i);
    b := a[i := 0];
  }

  lemma {:induction false} CleanUpdate(a: seq<nat>, i: nat)
    requires i < |a| && a[i] > 0
    ensures |CleanDays(a[i := 0])| == |CleanDays(a)| - 1
  {
    if i == 0 {
      assert a[i := 0][1..] == a[1..];
    } else {
      assert a[i := 0][1..] == a[1..][i - 1 := 0];
      CleanUpdate(a[1..], i - 1);
    }
  }

  /** Some window keeps exactly the `m` busiest days and their counts. */
  lemma {:induction false} KeepBusiest(a: seq<nat>, m: nat) returns (b: seq<nat>)
    requires m <= |CleanDays(a)|
    ensures Below(b, a) && |CleanDays(b)| == m && Busiest(b, m) == Busiest(a, m)
    decreases |CleanDays(a)|
  {
    if m == |CleanDays(a)| {
      b := a;
    } else {
      var c := DropLeast(a);
      b := KeepBusiest(c, m);
      assert Busiest(c, m) == Busiest(a, m);
    }
  }

  /** A larger k, which never adds bricks to a day, can never raise this window's median if and only if
      the window is steady. The source takes every window to be. */
  lemma AntitoneExactlyWhen(a: seq<nat>)
    ensures (forall b :: Below(b, a) ==> Score(b).median <= Score(a).median) <==> Steady(a)
  {
    if Steady(a) {
      forall b | Below(b, a) ensures Score(b).median <= Score(a).median {
        FewerBricksScoreLess(a, b);
      }
    } else {
      var b := KeepBusiest(a, MinClean(|a|));
      MedianOfBusiest(b);
      assert Below(b, a) && Score(b).median > Score(a).median;
    }
  }

  lemma {:induction false} SortTimes(x: nat, n: nat)
    ensures Sort(Times(x, n)) == Times(x, n)
  {
    if n > 0 {
      SortTimes(x, n - 1);
      assert Times(x, n)[1..] == Times(x, n - 1);
      InsertAt(x, [], Times(x, n - 1));
      assert [] + Times(x, n - 1) == Times(x, n - 1);
      assert [] + [x] + Times(x, n - 1) == Times(x, n);
    }
  }

  /** High counts before low ones sort behind them. */
  lemma {:induction false} SortStorm(x: nat, n: nat, y: nat, m: nat)
    requires y < x
    ensures Sort(Times(x, n) + Times(y, m)) == Times(y, m) + Times(x, n)
  {
    var low := Times(y, m);
    if n == 0 {
      SortTimes(y, m);
      assert Times(x, n) + low == low == low + Times(x, n);
    } else {
      var high := Times(x, n - 1);
      assert Times(x, n) == [x] + high;
      assert Times(x, n) + low == [x] + (high + low);
      SortStorm(x, n - 1, y, m);
      SortCons(x, high + low);
      InsertAt(x, low, high);
      assert low + [x] + high == low + ([x] + high);
    }
  }

  lemma {:induction false} CleanSplit(full: seq<nat>, gaps: seq<nat>)
    requires forall i :: 0 <= i < |full| ==> full[i] > 0
    requires forall i :: 0 <= i < |gaps| ==> gaps[i] == 0
    ensures CleanDays(full + gaps) == full
  {
    if full == [] {
      assert full + gaps == gaps;
      if gaps != [] {
        CleanSplit([], gaps[1..]);
        assert [] + gaps[1..] == gaps[1..];
      }
    } else {
      CleanSplit(full[1..], gaps);
      assert (full + gaps)[1..] == full[1..] + gaps;
      assert full == [full[0]] + full[1..];
    }
  }

  /** Three storm days of `x` and four calm days of `y`. */
  function Storm(x: nat, y: nat): seq<nat> { Times(x, 3) + Times(y, 4) }

  lemma StormScore(x: nat, y: nat)
    requires 0 < y < x
    ensures Score(Storm(x, y)).median == y as real
  {
    var a := Storm(x, y);
    CleanSplit(a, []);
    assert a + [] == a;
    SortStorm(x, 3, y, 4);
  }

  lemma CalmLostScore(z: nat)
    requires z > 0
    ensures Score(Storm(z, 0)).median == z as real
  {
    CleanSplit(Times(z, 3), Times(0, 4));
    SortTimes(z, 3);
  }

  /** When the calm days fall empty the median rises, although every count falls. */
  lemma CalmDaysLost(x: nat, y: nat, z: nat)
    requires 0 < y < z <= x
    ensures Below(Storm(z, 0), Storm(x, y))
    ensures Score(Storm(x, y)).median == y as real && Score(Storm(z, 0)).median == z as real
  {
    StormScore(x, y);
    CalmLostScore(z);
  }

  /** So the median is not antitone: seven days of 10 and 1 have median 1, and 9 and 0 have median 9. */
  lemma NotAntitone()
    ensures exists a, b :: Below(b, a) && Score(a).median == 1.0 && Score(b).median == 9.0
  {
    CalmDaysLost(10, 1, 9);
  }

  // ---------- counting ----------

  datatype Price = Price(ts: int, mid: real, sigma: real)

  /** The generator after a tick, and how many bricks the tick emitted. */
  datatype Fed<G> = Fed(gen: G, bricks: nat)

  function After<G>(gen: G, feed: (G, Price) -> Fed<G>, ticks: seq<Price>): G
  {
    if ticks == [] then gen else feed(After(gen, feed, ticks[..|ticks| - 1]), ticks[|ticks| - 1]).gen
  }

  /** Bricks emitted by the ticks of day `d`; `|ticks|` counts every tick of the window. */
  function BricksOn<G>(gen: G, feed: (G, Price) -> Fed<G>, ticks: seq<Price>, from: int, days: nat, d: nat): nat
    requires days > 0
  {
    if ticks == [] then 0
    else
      var (front, last) := (ticks[..|ticks| - 1], ticks[|ticks| - 1]);
      BricksOn(gen, feed, front, from, days, d)
      + if DayIndex(last.ts, from, days) == d then feed(After(gen, feed, front), last).bricks else 0
  }

  function AllBricks<G>(gen: G, feed: (G, Price) -> Fed<G>, ticks: seq<Price>): nat
  {
    if ticks == [] then 0
    else AllBricks(gen, feed, ticks[..|ticks| - 1])
         + feed(After(gen, feed, ticks[..|ticks| - 1]), ticks[|ticks| - 1]).bricks
  }

  /** Truncating division, then the clamp. */
  function DayIndex(ts: int, from: int, days: nat): (d: nat)
    requires days > 0
    ensures d < days
  {
    if ts < from then 0 else Min((ts - from) / MS_PER_DAY, days - 1)
  }

  /** A tick of the window belongs to the day that contains it; what is left over after the last whole
      day goes to the last one. */
  lemma DayIndexMeans(ts: int, from: int, to: int, d: nat)
    requires from <= ts <= to && from < to
    ensures var days := Max((to - from) / MS_PER_DAY, 1);
            d < days ==>
              (DayIndex(ts, from, days) == d <==>
               from + d * MS_PER_DAY <= ts && (d == days - 1 || ts < from + (d + 1) * MS_PER_DAY))
  {
  }

  /** The generators before each tick and after the last: every tick is fed to the one the tick before left. */
  ghost predicate Trace<G(!new)>(gen: G, feed: (G, Price) -> Fed<G>, ticks: seq<Price>, gens: seq<G>)
  {
    && |gens| == |ticks| + 1 && gens[0] == gen
    && forall i :: 0 <= i < |ticks| ==> gens[i + 1] == feed(gens[i], ticks[i]).gen
  }

  /** Bricks emitted by those of the first `n` ticks that fall on day `d`. */
  ghost function TracedBricks<G(!new)>(feed: (G, Price) -> Fed<G>, ticks: seq<Price>, gens: seq<G>, from: int, days: nat, d: nat, n: nat): nat
    requires days > 0 && |gens| == |ticks| + 1 && n <= |ticks|
  {
    if n == 0 then 0
    else
      TracedBricks(feed, ticks, gens, from, days, d, n - 1)
      + if DayIndex(ticks[n - 1].ts, from, days) == d then feed(gens[n - 1], ticks[n - 1]).bricks else 0
  }

  lemma {:induction false} AfterIsTrace<G(!new)>(gen: G, feed: (G, Price) -> Fed<G>, ticks: seq<Price>, gens: seq<G>, n: nat)
    requires Trace(gen, feed, ticks, gens) && n <= |ticks|
    ensures After(gen, feed, ticks[..n]) == gens[n]
  {
    if n > 0 {
      AfterIsTrace(gen, feed, ticks, gens, n - 1);
      assert ticks[..n][..n - 1] == ticks[..n - 1];
    }
  }

  lemma {:induction false} DayBricksUpTo<G(!new)>(gen: G, feed: (G, Price) -> Fed<G>, ticks: seq<Price>, gens: seq<G>,
                                                  from: int, days: nat, d: nat, n: nat)
    requires days > 0 && Trace(gen, feed, ticks, gens) && n <= |ticks|
    ensures BricksOn(gen, feed, ticks[..n], from, days, d) == TracedBricks(feed, ticks, gens, from, days, d, n)
  {
    if n > 0 {
      DayBricksUpTo(gen, feed, ticks, gens, from, days, d, n - 1);
      AfterIsTrace(gen, feed, ticks, gens, n - 1);
      assert ticks[..n][..n - 1] == ticks[..n - 1];
    }
  }

  /** A day's bricks are those its own ticks emit, each from the generator all earlier ticks left. */
  lemma DayBricks<G(!new)>(gen: G, feed: (G, Price) -> Fed<G>, ticks: seq<Price>, gens: seq<G>, from: int, days: nat, d: nat)
    requires days > 0 && Trace(gen, feed, ticks, gens)
    ensures BricksOn(gen, feed, ticks, from, days, d) == TracedBricks(feed, ticks, gens, from, days, d, |ticks|)
  {
    assert ticks[..|ticks|] == ticks;
    DayBricksUpTo(gen, feed, ticks, gens, from, days, d, |ticks|);
  }

  function SumTo<G>(gen: G, feed: (G, Price) -> Fed<G>, ticks: seq<Price>, from: int, days: nat, n: nat): nat
    requires days > 0
  {
    if n == 0 then 0 else SumTo(gen, feed, ticks, from, days, n - 1) + BricksOn(gen, feed, ticks, from, days, n - 1)
  }

  lemma {:induction false} SumStep<G>(gen: G, feed: (G, Price) -> Fed<G>, ticks: seq<Price>, from: int, days: nat, n: nat)
    requires days > 0 && ticks != []
    ensures var (front, last) := (ticks[..|ticks| - 1], ticks[|ticks| - 1]);
            SumTo(gen, feed, ticks, from, days, n) == SumTo(gen, feed, front, from, days, n)
              + if DayIndex(last.ts, from, days) < n then feed(After(gen, feed, front), last).bricks else 0
  {
    if n > 0 {
      SumStep(gen, feed, ticks, from, days, n - 1);
    }
  }

  /** Every emitted brick is counted on exactly one day. */
  lemma {:induction false} BricksConserved<G>(gen: G, feed: (G, Price) -> Fed<G>, ticks: seq<Price>, from: int, days: nat)
    requires days > 0
    ensures SumTo(gen, feed, ticks, from, days, days) == AllBricks(gen, feed, ticks)
  {
    if ticks == [] {
      SumOfNone(gen, feed, from, days, days);
    } else {
      BricksConserved(gen, feed, ticks[..|ticks| - 1], from, days);
      SumStep(gen, feed, ticks, from, days, days);
    }
  }

  lemma {:induction false} SumOfNone<G>(gen: G, feed: (G, Price) -> Fed<G>, from: int, days: nat, n: nat)
    requires days > 0
    ensures SumTo(gen, feed, [], from, days, n) == 0
  {
    if n > 0 {
      SumOfNone(gen, feed, from, days, n - 1);
    }
  }

  /** A fixed grid of bricks: a tick emits as many whole bricks of size k as its price holds. */
  function WholeBricks(k: nat): (int, Price) -> Fed<int>
    requires k > 0
  {
    (g: int, p: Price) => Fed(g, if p.mid <= 0.0 then 0 else p.mid.Floor / k)
  }

  /** One tick at the start of each day. */
  function DailyTicks(mids: seq<nat>): (r: seq<Price>)
    ensures |r| == |mids|
  {
    seq(|mids|, i requires 0 <= i < |mids| => Price(i * MS_PER_DAY, mids[i] as real, 0.0))
  }

  function CountsAt(mids: seq<nat>, k: nat): (r: seq<nat>)
    requires k > 0 && mids != []
    ensures |r| == |mids|
  {
    seq(|mids|, d requires 0 <= d < |mids| => BricksOn(0, WholeBricks(k), DailyTicks(mids), 0, |mids|, d))
  }

  lemma {:induction false} BricksOfDay(mids: seq<nat>, k: nat, n: nat, d: nat)
    requires k > 0 && n <= |mids| && d < |mids|
    ensures BricksOn(0, WholeBricks(k), DailyTicks(mids)[..n], 0, |mids|, d) == if d < n then mids[d] / k else 0
  {
    if n > 0 {
      var ticks := DailyTicks(mids);
      assert ticks[..n][..n - 1] == ticks[..n - 1];
      BricksOfDay(mids, k, n - 1, d);
      DayIndexOfStart(n - 1, |mids|);
    }
  }

  lemma DayIndexOfStart(i: nat, days: nat)
    requires i < days
    ensures DayIndex(i * MS_PER_DAY, 0, days) == i
  {
  }

  /** Two runs of one counter over the same ticks: bricks of 9 give the median 1, larger bricks of 10
      give the median 9, although no day gains a brick. */
  lemma LargerBricksRaiseTheMedian()
    ensures exists mids: seq<nat> :: mids != []
              && Below(CountsAt(mids, 10), CountsAt(mids, 9))
              && Score(CountsAt(mids, 9)).median == 1.0 && Score(CountsAt(mids, 10)).median == 9.0
  {
    var mids := Storm(90, 9);
    CountsOfStorm(90, 9, 9);
    CountsOfStorm(90, 9, 10);
    CalmDaysLost(10, 1, 9);
    assert CountsAt(mids, 9) == Storm(10, 1) && CountsAt(mids, 10) == Storm(9, 0);
  }

  lemma CountsOfStorm(x: nat, y: nat, k: nat)
    requires k > 0
    ensures CountsAt(Storm(x, y), k) == Storm(x / k, y / k)
  {
    var mids := Storm(x, y);
    assert DailyTicks(mids)[..|mids|] == DailyTicks(mids);
    forall d | 0 <= d < |mids| ensures CountsAt(mids, k)[d] == Storm(x / k, y / k)[d] {
      BricksOfDay(mids, k, |mids|, d);
    }
  }

  function UpTo(prices: seq<Price>, t: int): (n: nat)
    ensures n <= |prices|
    ensures forall i :: 0 <= i < n ==> prices[i].ts <= t
    ensures n < |prices| ==> prices[n].ts > t
  {
    PartitionPoint(prices, (p: Price) => p.ts <= t)
  }

  predicate Ascending(prices: seq<Price>)
  {
    forall i, j :: 0 <= i < j < |prices| ==> prices[i].ts <= prices[j].ts
  }

  lemma UpToMono(prices: seq<Price>, s: int, t: int)
    requires s <= t
    ensures UpTo(prices, s) <= UpTo(prices, t)
  {
  }

  function Window(prices: seq<Price>, from: int, to: int): seq<Price>
    requires from <= to
  {
    UpToMono(prices, from - 1, to);
    prices[UpTo(prices, from - 1)..UpTo(prices, to)]
  }

  /** The two binary searches select exactly the ticks inside both bounds. */
  lemma WindowSelects(prices: seq<Price>, from: int, to: int, i: nat)
    requires Ascending(prices) && from <= to && i < |prices|
    ensures from <= prices[i].ts <= to <==> UpTo(prices, from - 1) <= i < UpTo(prices, to)
  {
  }

  /** The window is the stretch of the prices that lies inside both bounds. */
  lemma WindowIs(prices: seq<Price>, from: int, to: int, a: nat, b: nat)
    requires Ascending(prices) && from <= to && a <= b <= |prices|
    requires forall i :: 0 <= i < |prices| ==> (a <= i < b <==> from <= prices[i].ts <= to)
    ensures Window(prices, from, to) == prices[a..b]
  {
    UpToMono(prices, from - 1, to);
    var lo, hi := UpTo(prices, from - 1), UpTo(prices, to);
    if lo < hi {
      WindowSelects(prices, from, to, lo);
      WindowSelects(prices, from, to, hi - 1);
    }
    if a < b {
      WindowSelects(prices, from, to, a);
      WindowSelects(prices, from, to, b - 1);
    }
  }

  /** The counter. A generator that cannot be built, or an empty window, scores nothing. */
  method CountPerDay<G>(prices: seq<Price>, built: Option<G>, feed: (G, Price) -> Fed<G>, from: int, to: int)
    returns (s: Stats)
    ensures ValidStats(s)
    ensures built.None? || to <= from ==> s == Stats([], 0.0, 0)
    ensures built.Some? && from < to ==>
              var days := Max((to - from) / MS_PER_DAY, 1);
              && s == Score(s.perDay) && |s.perDay| == days
              && forall d :: 0 <= d < days ==>
                   s.perDay[d] == Min(BricksOn(built.value, feed, Window(prices, from, to), from, days, d), U64_MAX)
  {
    if built.None? || to <= from {
      return Stats([], 0.0, 0);
    }
    var days := Max((to - from) / MS_PER_DAY, 1);
    var window := Window(prices, from, to);
    var perDay := Count(window, built.value, feed, from, days);
    ScoreIsValid(perDay);
    s := Score(perDay);
  }

  method Count<G>(window: seq<Price>, built: G, feed: (G, Price) -> Fed<G>, from: int, days: nat)
    returns (perDay: seq<nat>)
    requires days > 0
    ensures |perDay| == days
    ensures forall d :: 0 <= d < days ==> perDay[d] == Min(BricksOn(built, feed, window, from, days, d), U64_MAX)
  {
    perDay := seq(days, _ => 0);
    var gen := built;
    for n := 0 to |window|
      invariant gen == After(built, feed, window[..n]) && |perDay| == days
      invariant forall d :: 0 <= d < days ==> perDay[d] == Min(BricksOn(built, feed, window[..n], from, days, d), U64_MAX)
    {
      assert window[..n + 1][..n] == window[..n];
      var d := DayIndex(window[n].ts, from, days);
      var fed := feed(gen, window[n]);
      gen := fed.gen;
      perDay := Bump(perDay, d, fed.bricks);
    }
    assert window[..|window|] == window;
  }

  /** One saturating increment per brick. */
  method Bump(perDay: seq<nat>, d: nat, bricks: nat) returns (r: seq<nat>)
    requires d < |perDay| && perDay[d] <= U64_MAX
    ensures r == perDay[d := Min(perDay[d] + bricks, U64_MAX)]
  {
    r := perDay;
    for b := 0 to bricks
      invariant r == perDay[d := Min(perDay[d] + b, U64_MAX)]
    {
      r := r[d := Min(r[d] + 1, U64_MAX)];
    }
  }
}
