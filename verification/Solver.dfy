/**
  The scale-to-target solver for k: two scale steps, the doubling of the upper bracket, the bounded
  bisection on log k, the choice between the two bracketing rungs, and the probe one rung either side.

  The counter is any deterministic function of k with `DayCounter.ValidStats`; nothing here assumes it
  monotone except where `Antitone` is named. `exp` and `ln` are exact inverses on the reals.
*/
module Solver {
  import opened Wrappers
  import opened DayCounter

  const EPS_BPD: real := 1.0
  const K_BRACKET_LN_EPS: real := 0.004988
  const MIN_PCT_CLAMP_MAX_FRAC: real := 0.5

  datatype Env = Env(
    count: real -> Stats, exp: real -> real, ln: real -> real,
    kFloor: real, kMax: real, seed: real, target: real, tol: real, iters: nat,
    sigmas: seq<real>, minPct: real)

  ghost predicate ExpLaws(e: Env)
  {
    && e.exp(0.0) == 1.0 && (forall x :: e.exp(x) > 0.0)
    && (forall x, y :: x < y ==> e.exp(x) < e.exp(y))
    && (forall x :: x > 0.0 ==> e.exp(e.ln(x)) == x)
  }

  ghost predicate Valid(e: Env)
  {
    && 0.0 < e.kFloor < e.kMax
    && ExpLaws(e)
    && forall k :: ValidStats(e.count(k))
  }

  function RMax(a: real, b: real): real { if a < b then b else a }

  function RMin(a: real, b: real): real { if a < b then a else b }

  function Abs(x: real): real { if x < 0.0 then -x else x }

  function Clamp(e: Env, k: real): real { RMin(RMax(k, e.kFloor), e.kMax) }

  function Med(e: Env, k: real): real { e.count(k).median }

  predicate Over(e: Env, k: real) { Med(e, k) > e.target }

  // ---------- how far off a k is ----------

  datatype Error = Off(v: real) | Dead

  function ErrorAt(e: Env, k: real): Error
    requires e.target > 0.0
  {
    if e.count(k).days == 0 then Dead else Off(Abs(Med(e, k) / e.target - 1.0))
  }

  /** The error of a live k, without the division: its miss is that part of the target. */
  lemma ErrorMeans(e: Env, k: real)
    requires e.target > 0.0
    ensures ErrorAt(e, k).Dead? <==> e.count(k).days == 0
    ensures ErrorAt(e, k).Off? ==>
              ErrorAt(e, k).v >= 0.0 && ErrorAt(e, k).v * e.target == if Med(e, k) < e.target then e.target - Med(e, k) else Med(e, k) - e.target
  {
    assert (Med(e, k) / e.target) * e.target == Med(e, k);
    assert (Med(e, k) / e.target - 1.0) * e.target == Med(e, k) - e.target;
    if Med(e, k) < e.target {
      DivLess(Med(e, k), e.target, e.target);
    } else {
      DivMono(e.target, Med(e, k), e.target);
    }
  }

  predicate Le(a: Error, b: Error) { b.Dead? || (a.Off? && a.v <= b.v) }

  predicate Lt(a: Error, b: Error) { a.Off? && (b.Dead? || a.v < b.v) }

  /** Further from the target on the same side is a larger error. */
  lemma FurtherIsWorse(e: Env, k: real, k': real)
    requires ValidStats(e.count(k)) && ValidStats(e.count(k')) && e.target > 0.0
    requires Med(e, k') >= Med(e, k) > e.target || Med(e, k') <= Med(e, k) <= e.target
    ensures Le(ErrorAt(e, k), ErrorAt(e, k'))
  {
    var (m, m', t) := (Med(e, k), Med(e, k'), e.target);
    if m > t {
      DivMono(m, m', t);
      DivMono(t, m, t);
    } else {
      DivMono(m', m, t);
      DivMono(m, t, t);
    }
  }

  lemma DivMono(a: real, b: real, t: real)
    requires a <= b && t > 0.0
    ensures a / t <= b / t && t / t == 1.0
  {
    assert b / t - a / t == (b - a) / t;
    assert (b - a) / t >= 0.0;
  }

  // ---------- the warm start ----------

  function ScaleStep(e: Env, k: real): real
    requires e.target > 0.0
  {
    Clamp(e, k * (Med(e, k) / e.target))
  }

  predicate Accepts(e: Env, k: real)
    requires e.target > 0.0
  {
    e.count(k).days != 0 && Abs(Med(e, k) / e.target - 1.0) <= e.tol
  }

  /** A k is accepted when it has a scorable day and its median is within the tolerance of the target. */
  lemma AcceptsMeans(e: Env, k: real)
    requires e.target > 0.0
    ensures Accepts(e, k) <==>
            e.count(k).days != 0 && e.target * (1.0 - e.tol) <= Med(e, k) <= e.target * (1.0 + e.tol)
  {
    var x := Med(e, k) / e.target;
    assert x * e.target == Med(e, k);
    Scaled(x, 1.0 + e.tol, e.target);
    Scaled(1.0 - e.tol, x, e.target);
  }

  lemma Scaled(a: real, b: real, t: real)
    requires t > 0.0
    ensures a <= b <==> a * t <= b * t
  {
    assert b * t - a * t == (b - a) * t;
    if a > b {
      assert (a - b) * t > 0.0;
    }
  }

  /** Clamping gives the nearest k of the range. */
  lemma ClampIsNearest(e: Env, k: real, other: real)
    requires e.kFloor < e.kMax && InRange(e, other)
    ensures InRange(e, Clamp(e, k)) && Abs(Clamp(e, k) - k) <= Abs(other - k)
    ensures InRange(e, k) ==> Clamp(e, k) == k
  {
  }

  predicate Scalable(e: Env, k: real) { e.count(k).days != 0 && Med(e, k) >= EPS_BPD }

  predicate InRange(e: Env, k: real) { e.kFloor <= k <= e.kMax }

  method ScaleOnce(e: Env, k: real, m: real) returns (k': real, s: Stats, ok: bool)
    requires 0.0 < e.kFloor < e.kMax && e.target > 0.0 && m == Med(e, k)
    ensures k' == ScaleStep(e, k) && s == e.count(k') && InRange(e, k')
    ensures ok <==> Accepts(e, k')
  {
    k' := Clamp(e, k * (m / e.target));
    s := e.count(k');
    ok := s.days != 0 && Abs(s.median / e.target - 1.0) <= e.tol;
  }

  datatype WarmPath = WarmPath(k1: Option<real>, k2: Option<real>, star: Option<real>)

  /** Up to two scale steps from `k0`; the second only when the first misses and can be scaled. */
  function WarmFrom(e: Env, k0: real): WarmPath
    requires e.target > 0.0
  {
    if !Scalable(e, k0) then WarmPath(None, None, None)
    else
      var k := ScaleStep(e, k0);
      if Accepts(e, k) then WarmPath(Some(k), None, Some(k))
      else if !Scalable(e, k) then WarmPath(Some(k), None, None)
      else
        var k' := ScaleStep(e, k);
        WarmPath(Some(k), Some(k'), if Accepts(e, k') then Some(k') else None)
  }

  function FirstGuess(e: Env, prior: Option<real>): real
  {
    Clamp(e, if prior.Some? then prior.value else 0.5)
  }

  method WarmStart(e: Env, prior: Option<real>) returns (w: WarmPath)
    requires 0.0 < e.kFloor < e.kMax && e.target > 0.0
    ensures w == WarmFrom(e, Clamp(e, if prior.Some? then prior.value else 0.5))
    ensures w.k1.Some? ==> InRange(e, w.k1.value)
    ensures w.k2.Some? ==> InRange(e, w.k2.value)
    ensures w.star.Some? ==> Accepts(e, w.star.value) && InRange(e, w.star.value)
  {
    var k0 := FirstGuess(e, prior);
    var s0 := e.count(k0);
    w := WarmPath(None, None, None);
    if s0.days == 0 || s0.median < EPS_BPD {
      return;
    }
    var k, s1, ok := ScaleOnce(e, k0, s0.median);
    w := w.(k1 := Some(k));
    if ok {
      w := w.(star := Some(k));
    } else if s1.days != 0 && s1.median >= EPS_BPD {
      var k', s2, ok' := ScaleOnce(e, k, s1.median);
      w := w.(k2 := Some(k'), star := if ok' then Some(k') else None);
    }
  }

  lemma FirstStepMeans(e: Env, k0: real)
    requires e.target > 0.0
    ensures var w := WarmFrom(e, k0);
            && (w.k1.Some? <==> e.count(k0).days != 0 && Med(e, k0) >= 1.0)
            && (w.k1.Some? ==> w.k1.value == Clamp(e, k0 * (Med(e, k0) / e.target)))
  {
  }

  /** The steps taken from `k0`: scaled by median over target and clamped, each only from a k with a day
      scored and a median of at least 1, the second only when the first is not accepted. */
  lemma WarmFromMeans(e: Env, k0: real)
    requires e.target > 0.0
    ensures var w := WarmFrom(e, k0);
            && (w.k1.Some? <==> e.count(k0).days != 0 && Med(e, k0) >= 1.0)
            && (w.k1.Some? ==> w.k1.value == Clamp(e, k0 * (Med(e, k0) / e.target)))
            && (w.k2.Some? <==> w.k1.Some? && !Accepts(e, w.k1.value) && FirstStep(e, w.k1.value).Some?)
            && (w.k2.Some? ==> w.k2 == FirstStep(e, w.k1.value))
            && (w.star.Some? <==> (w.k1.Some? && Accepts(e, w.k1.value)) || (w.k2.Some? && Accepts(e, w.k2.value)))
            && (w.star.Some? ==> w.star == if w.k2.Some? then w.k2 else w.k1)
  {
    FirstStepMeans(e, k0);
    if WarmFrom(e, k0).k1.Some? {
      FirstStepMeans(e, WarmFrom(e, k0).k1.value);
    }
  }

  function FirstStep(e: Env, k: real): Option<real>
    requires e.target > 0.0
  {
    WarmFrom(e, k).k1
  }

  /** Where the median follows c / k, one step lands on the target from anywhere. */
  lemma OneStepUnderInverseLaw(e: Env, k0: real, c: real)
    requires e.target > 0.0 && k0 > 0.0 && Med(e, k0) == c / k0
    requires InRange(e, c / e.target) && c > 0.0
    requires var k := c / e.target; k > 0.0 && Med(e, k) == c / k
    ensures ScaleStep(e, k0) == c / e.target && Med(e, ScaleStep(e, k0)) == e.target
  {
    var m := c / k0;
    assert m * k0 == c;
    assert k0 * (m / e.target) * e.target == k0 * m;
    assert k0 * (m / e.target) == c / e.target;
  }

  // ---------- the bracket ----------

  function UpperSeed(e: Env, k1: Option<real>, k2: Option<real>): real
  {
    var a := if k1.Some? then RMax(e.seed, k1.value) else e.seed;
    RMax(if k2.Some? then RMax(a, k2.value) else a, e.kFloor * 2.0)
  }

  /** The bracket opens at the largest of the configured seed, both scale steps and twice the floor. */
  lemma UpperSeedIsLargest(e: Env, k1: Option<real>, k2: Option<real>, x: real)
    ensures UpperSeed(e, k1, k2) <= x <==>
            e.seed <= x && e.kFloor * 2.0 <= x && (k1.Some? ==> k1.value <= x) && (k2.Some? ==> k2.value <= x)
    ensures Ceiling(e) <= x <==> e.kMax <= x && e.seed <= x && e.kFloor * 2.0 <= x
  {
  }

  function Ceiling(e: Env): real { RMax(e.kMax, RMax(e.seed, e.kFloor * 2.0)) }

  /** How many doublings are left below the cap, as a termination measure. */
  function Left(k: real, first: real, cap: real): real
    requires first > 0.0
  {
    if k >= cap then 0.0 else (cap - k) / first + 1.0
  }

  lemma LeftShrinks(k: real, first: real, cap: real)
    requires 0.0 < first <= k < cap
    ensures Left(RMin(k * 2.0, cap), first, cap) <= Left(k, first, cap) - 1.0
    ensures Left(k, first, cap) >= 1.0
  {
    assert (cap - k) / first >= 0.0;
    if k * 2.0 < cap {
      assert (cap - k) / first - (cap - k * 2.0) / first == k / first;
      DivMono(first, k, first);
    }
  }

  method ExpandUpper(e: Env, start: real) returns (hi: real)
    requires Valid(e) && e.target > 0.0 && start > 0.0
    ensures start <= e.exp(hi) <= RMax(start, e.kMax)
    ensures Med(e, e.exp(hi)) < e.target || e.exp(hi) >= e.kMax
    ensures e.exp(hi) == start || exists p :: start <= p < e.kMax && Med(e, p) >= e.target && e.exp(hi) == RMin(p * 2.0, e.kMax)
  {
    hi := e.ln(start);
    var g := e.count(e.exp(hi));
    while g.days != 0 && g.median - e.target >= 0.0 && e.exp(hi) < e.kMax
      invariant start <= e.exp(hi) <= RMax(start, e.kMax) && g == e.count(e.exp(hi))
      invariant e.exp(hi) == start || exists p :: start <= p < e.kMax && Med(e, p) >= e.target && e.exp(hi) == RMin(p * 2.0, e.kMax)
      decreases Left(e.exp(hi), start, e.kMax)
    {
      ghost var p := e.exp(hi);
      LeftShrinks(p, start, e.kMax);
      var k := RMin(e.exp(hi) * 2.0, e.kMax);
      hi := e.ln(k);
      g := e.count(e.exp(hi));
      assert start <= p < e.kMax && Med(e, p) >= e.target && e.exp(hi) == RMin(p * 2.0, e.kMax);
    }
    assert ValidStats(e.count(e.exp(hi)));
  }

  function Halved(w: real, n: nat): real
  {
    if n == 0 then w else Halved(w, n - 1) / 2.0
  }

  /** The median crosses the target somewhere in (lo, hi]. */
  predicate Brackets(e: Env, lo: real, hi: real)
  {
    lo < hi && Over(e, e.exp(lo)) && !Over(e, e.exp(hi))
  }

  method Bisect(e: Env, lo0: real, hi0: real) returns (lo: real, hi: real)
    requires Brackets(e, lo0, hi0)
    ensures Brackets(e, lo, hi) && lo0 <= lo && hi <= hi0
    ensures hi - lo < K_BRACKET_LN_EPS || hi - lo == Halved(hi0 - lo0, e.iters)
  {
    lo, hi := lo0, hi0;
    var i := 0;
    while i < e.iters && hi - lo >= K_BRACKET_LN_EPS
      invariant i <= e.iters && Brackets(e, lo, hi) && lo0 <= lo && hi <= hi0
      invariant hi - lo == Halved(hi0 - lo0, i)
    {
      var mid := (lo + hi) / 2.0;
      if e.count(e.exp(mid)).median > e.target {
        lo := mid;
      } else {
        hi := mid;
      }
      i := i + 1;
    }
  }

  method PickRung(e: Env, lo: real, hi: real) returns (k: real)
    requires Valid(e) && e.target > 0.0 && Brackets(e, lo, hi)
    ensures k == e.exp(lo) || k == e.exp(hi)
    ensures Le(ErrorAt(e, k), ErrorAt(e, e.exp(lo))) && Le(ErrorAt(e, k), ErrorAt(e, e.exp(hi)))
    ensures ErrorAt(e, k).Off?
  {
    var small, large := e.exp(lo), e.exp(hi);
    assert ValidStats(e.count(small));
    k := if Le(ErrorAt(e, small), ErrorAt(e, large)) then small else large;
  }

  datatype Why = Accepted | Degenerate | TooFlat | NoCrossing | NoCleanDay | AtFloor | Unresponsive

  datatype Bracket = Bracket(lo: real, hi: real, first: real)   // in log k; `first` is the opening upper end

  /** Where the doubling from `start` stops: under the target, and either at once or twice a k that was not. */
  ghost predicate FirstUnder(e: Env, start: real, hi: real)
  {
    && start <= hi && Med(e, hi) < e.target
    && (hi == start || exists p :: start <= p < e.kMax && Med(e, p) >= e.target && hi == RMin(p * 2.0, e.kMax))
  }

  method Fallback(e: Env, k1: Option<real>, k2: Option<real>) returns (r: Result<(real, Bracket), Why>)
    requires Valid(e) && e.target > 0.0
    requires (k1.Some? ==> InRange(e, k1.value)) && (k2.Some? ==> InRange(e, k2.value))
    ensures r == Err(TooFlat) <==> !Over(e, e.kFloor)
    ensures r.Err? && r.error != TooFlat ==>
              && r.error == NoCrossing
              && exists k :: e.kMax <= k <= Ceiling(e) && Med(e, k) >= e.target
    ensures r.Ok? ==>
              var (k, b) := r.value;
              && Opened(e, b) && Narrowed(e, b) && Brackets(e, b.lo, b.hi)
              && (k == e.exp(b.lo) || k == e.exp(b.hi)) && ErrorAt(e, k).Off?
              && Le(ErrorAt(e, k), ErrorAt(e, e.exp(b.lo))) && Le(ErrorAt(e, k), ErrorAt(e, e.exp(b.hi)))
    ensures r.Ok? ==> var first := e.exp(r.value.1.first); FirstUnder(e, UpperSeed(e, k1, k2), first)
  {
    var lo := e.ln(e.kFloor);
    var start := UpperSeed(e, k1, k2);
    var gLo := e.count(e.exp(lo));
    assert ValidStats(gLo);
    if gLo.days == 0 || !(gLo.median - e.target > 0.0) {
      return Err(TooFlat);
    }
    var hi := ExpandUpper(e, start);
    var gHi := e.count(e.exp(hi));
    assert ValidStats(gHi);
    if gHi.days != 0 && !(gHi.median - e.target < 0.0) {
      return Err(NoCrossing);
    }
    LogOrder(e, lo, hi);
    var lo', hi' := Bisect(e, lo, hi);
    LogOrder(e, lo, lo');
    LogOrder(e, hi', hi);
    var k := PickRung(e, lo', hi');
    r := Ok((k, Bracket(lo', hi', hi)));
  }

  lemma LogOrder(e: Env, x: real, y: real)
    requires ExpLaws(e)
    ensures e.exp(x) < e.exp(y) <==> x < y
  {
  }

  /** The bracket stays inside [K_FLOOR, the opened upper end]. */
  ghost predicate Opened(e: Env, b: Bracket)
  {
    && e.kFloor <= e.exp(b.lo) < e.exp(b.hi) <= e.exp(b.first) <= Ceiling(e)
  }

  /** It is narrower than the stop width, or has been halved the full number of times. */
  predicate Narrowed(e: Env, b: Bracket)
  {
    b.hi - b.lo < K_BRACKET_LN_EPS || b.hi - b.lo == Halved(b.first - e.ln(e.kFloor), e.iters)
  }

  // ---------- the probe ----------

  function UpRung(e: Env, k: real): real { RMin(k * e.exp(K_BRACKET_LN_EPS), e.kMax) }

  function DownRung(e: Env, k: real): real
    requires e.exp(K_BRACKET_LN_EPS) > 0.0
  {
    RMax(k / e.exp(K_BRACKET_LN_EPS), e.kFloor)
  }

  /** Away from the ends of the range a rung up is K_BRACKET_LN_EPS more in log k, and a rung down undoes it. */
  lemma RungsAreOneStep(e: Env, k: real)
    requires ExpLaws(e) && 0.0 < e.kFloor <= k && k * e.exp(K_BRACKET_LN_EPS) <= e.kMax
    ensures k < UpRung(e, k) && UpRung(e, k) / k == e.exp(K_BRACKET_LN_EPS)
    ensures DownRung(e, UpRung(e, k)) == k
  {
    ExpAboveOne(e);
    var s, up := e.exp(K_BRACKET_LN_EPS), UpRung(e, k);
    ScaleUp(k, s);
    assert up == k * s;
    Quotient(up, s, k);
    Quotient(up, k, s);
    assert DownRung(e, up) == RMax(up / s, e.kFloor);
  }

  lemma Quotient(x: real, a: real, b: real)
    requires b > 0.0 && (x == a * b || x == b * a)
    ensures x / b == a
  {
    var q := x / b;
    assert q * b == x;
    assert a * b == x;
    Scaled(q, a, b);
    Scaled(a, q, b);
    assert q <= a <= q;
  }

  method RungProbe(e: Env, k: real) returns (best: real)
    requires Valid(e) && e.target > 0.0 && e.kFloor <= k <= Ceiling(e) && ErrorAt(e, k).Off?
    ensures best in {k, UpRung(e, k), DownRung(e, k)}
    ensures Le(ErrorAt(e, best), ErrorAt(e, k))
    ensures Le(ErrorAt(e, best), ErrorAt(e, UpRung(e, k)))
    ensures Le(ErrorAt(e, best), ErrorAt(e, DownRung(e, k)))
    ensures e.kFloor <= best <= Ceiling(e) && ErrorAt(e, best).Off?
    ensures Le(ErrorAt(e, k), ErrorAt(e, UpRung(e, k))) && Le(ErrorAt(e, k), ErrorAt(e, DownRung(e, k))) ==> best == k
  {
    var center, up, dn := ErrorAt(e, k), ErrorAt(e, UpRung(e, k)), ErrorAt(e, DownRung(e, k));
    StepAboveOne(e, k);
    best := k;
    if Lt(up, center) && Le(up, dn) {
      best := UpRung(e, k);
    } else if Lt(dn, center) {
      best := DownRung(e, k);
    }
  }

  /** A step up never falls below the floor, a step down never passes k. */
  lemma StepAboveOne(e: Env, k: real)
    requires Valid(e) && e.kFloor <= k
    ensures e.kFloor <= UpRung(e, k) <= e.kMax
    ensures e.kFloor <= DownRung(e, k) <= k
  {
    var s := e.exp(K_BRACKET_LN_EPS);
    ExpAboveOne(e);
    ScaleUp(k, s);
    DivMono(k, k * s, s);
    assert k * s / s == k;
  }

  lemma ScaleUp(k: real, s: real)
    requires k > 0.0 && s > 1.0
    ensures k * s > k
  {
    assert k * s == k + k * (s - 1.0);
  }

  lemma ExpAboveOne(e: Env)
    requires ExpLaws(e)
    ensures e.exp(K_BRACKET_LN_EPS) > 1.0
  {
    assert e.exp(K_BRACKET_LN_EPS) > e.exp(0.0);
  }

  // ---------- the unresponsive-k check ----------

  function CountIf(s: seq<real>, p: real -> bool): (n: nat)
    ensures n <= |s|
  {
    if s == [] then 0 else CountIf(s[..|s| - 1], p) + if p(s[|s| - 1]) then 1 else 0
  }

  function ClampedCount(sigmas: seq<real>, k: real, minPct: real): nat
  {
    CountIf(sigmas, sigma => k * sigma <= minPct)
  }

  function ClampedFraction(sigmas: seq<real>, k: real, minPct: real): real
  {
    if sigmas == [] then 0.0 else ClampedCount(sigmas, k, minPct) as real / |sigmas| as real
  }

  function Hits(s: seq<real>, p: real -> bool): set<nat>
  {
    set i | 0 <= i < |s| && p(s[i])
  }

  lemma {:induction false} HitsCount(s: seq<real>, p: real -> bool)
    ensures |Hits(s, p)| == CountIf(s, p)
  {
    if s != [] {
      var n := |s| - 1;
      HitsCount(s[..n], p);
      assert Hits(s, p) == Hits(s[..n], p) + if p(s[n]) then {n} else {};
    }
  }

  /** The samples whose brick is clamped at `k`. */
  function Clamped(sigmas: seq<real>, k: real, minPct: real): set<nat>
  {
    set i | 0 <= i < |sigmas| && k * sigmas[i] <= minPct
  }

  /** More than the allowed fraction is clamped exactly when more than half of the samples are. */
  lemma MostlyClamped(e: Env, k: real)
    ensures ClampedFraction(e.sigmas, k, e.minPct) > MIN_PCT_CLAMP_MAX_FRAC <==>
            2 * |Clamped(e.sigmas, k, e.minPct)| > |e.sigmas|
  {
    var p := sigma => k * sigma <= e.minPct;
    HitsCount(e.sigmas, p);
    assert Hits(e.sigmas, p) == Clamped(e.sigmas, k, e.minPct);
    if e.sigmas != [] {
      MoreThanHalf(ClampedCount(e.sigmas, k, e.minPct), |e.sigmas|);
    }
  }

  lemma MoreThanHalf(c: nat, n: nat)
    requires n > 0
    ensures c as real / n as real > 0.5 <==> 2 * c > n
  {
    var q := c as real / n as real;
    assert q * n as real == c as real;
    Scaled(q, 0.5, n as real);
  }

  /** The larger k is, the fewer samples are clamped: a k that passes the check keeps passing. */
  lemma {:induction false} ClampedAntitone(sigmas: seq<real>, k: real, k': real, minPct: real)
    requires k <= k' && forall i :: 0 <= i < |sigmas| ==> sigmas[i] >= 0.0
    ensures ClampedCount(sigmas, k', minPct) <= ClampedCount(sigmas, k, minPct)
  {
    if sigmas != [] {
      var last := sigmas[|sigmas| - 1];
      ClampedAntitone(sigmas[..|sigmas| - 1], k, k', minPct);
      assert k' * last - k * last == (k' - k) * last;
    }
  }

  // ---------- the whole solver ----------

  /** How the k before the probe was found. */
  datatype Path = Warm(star: real) | Bracketed(star: real, b: Bracket) | NoPath

  /** What the search delivers to the probe. */
  ghost predicate Found(e: Env, path: Path)
    requires e.target > 0.0
  {
    match path
    case NoPath => false
    case Warm(star) => Accepts(e, star) && InRange(e, star)
    case Bracketed(star, b) =>
      && Opened(e, b) && Narrowed(e, b) && Brackets(e, b.lo, b.hi)
      && (star == e.exp(b.lo) || star == e.exp(b.hi))
      && Le(ErrorAt(e, star), ErrorAt(e, e.exp(b.lo))) && Le(ErrorAt(e, star), ErrorAt(e, e.exp(b.hi)))
  }

  /** What the probe makes of it. */
  ghost predicate Probed(e: Env, star: real, k: real)
    requires Valid(e) && e.target > 0.0
  {
    && e.kFloor <= k <= Ceiling(e) && k in {star, UpRung(e, star), DownRung(e, star)}
    && ErrorAt(e, k).Off? && Le(ErrorAt(e, k), ErrorAt(e, star))
    && Le(ErrorAt(e, k), ErrorAt(e, UpRung(e, star))) && Le(ErrorAt(e, k), ErrorAt(e, DownRung(e, star)))
  }

  /** The guards after the probe. */
  function Verdict(e: Env, k: real): Why
    requires e.kFloor > 0.0
  {
    if Abs(k - e.kFloor) / e.kFloor < 0.01 then AtFloor
    else if ClampedFraction(e.sigmas, k, e.minPct) > MIN_PCT_CLAMP_MAX_FRAC then Unresponsive
    else Accepted
  }

  /** Which guard stops a k, without the divisions: within 1 % of the floor, or else most samples clamped. */
  lemma VerdictMeans(e: Env, k: real)
    requires 0.0 < e.kFloor <= k
    ensures Verdict(e, k) == AtFloor <==> k < 1.01 * e.kFloor
    ensures Verdict(e, k) == Unresponsive <==> k >= 1.01 * e.kFloor && 2 * |Clamped(e.sigmas, k, e.minPct)| > |e.sigmas|
    ensures Verdict(e, k) == Accepted <==> k >= 1.01 * e.kFloor && 2 * |Clamped(e.sigmas, k, e.minPct)| <= |e.sigmas|
  {
    MostlyClamped(e, k);
    WithinOnePercent(k, e.kFloor);
  }

  lemma WithinOnePercent(k: real, floor: real)
    requires 0.0 < floor <= k
    ensures Abs(k - floor) / floor < 0.01 <==> k < 1.01 * floor
  {
    var x := (k - floor) / floor;
    assert x * floor == k - floor;
    Scaled(0.01, x, floor);
  }

  method Search(e: Env, prior: Option<real>) returns (path: Path, why: Why)
    requires Valid(e) && e.target > 0.0
    ensures path.Warm? <==> WarmFrom(e, FirstGuess(e, prior)).star.Some?
    ensures path.Warm? ==> WarmFrom(e, FirstGuess(e, prior)).star == Some(path.star)
    ensures path.NoPath? <==> why != Accepted
    ensures !path.NoPath? ==> Found(e, path) && ErrorAt(e, path.star).Off? && e.kFloor <= path.star <= Ceiling(e)
    ensures why in {Accepted, TooFlat, NoCrossing}
    ensures why == TooFlat <==> !path.Warm? && !Over(e, e.kFloor)
    ensures why == NoCrossing ==> exists k :: e.kMax <= k <= Ceiling(e) && Med(e, k) >= e.target
  {
    var warm := WarmStart(e, prior);
    if warm.star.Some? {
      return Warm(warm.star.value), Accepted;
    }
    var r := Fallback(e, warm.k1, warm.k2);
    if r.Err? {
      return NoPath, r.error;
    }
    return Bracketed(r.value.0, r.value.1), Accepted;
  }

  method Guards(e: Env, k: real) returns (why: Why)
    requires e.kFloor > 0.0
    ensures why == Verdict(e, k)
  {
    if Abs(k - e.kFloor) / e.kFloor < 0.01 {
      return AtFloor;
    }
    if ClampedFraction(e.sigmas, k, e.minPct) > MIN_PCT_CLAMP_MAX_FRAC {
      return Unresponsive;
    }
    why := Accepted;
  }

  /** The result is 0 exactly on a rejection; the reject for a k with no scorable day is never taken. */
  method Solve(e: Env, first: int, last: int, prior: Option<real>) returns (k: real, why: Why, path: Path, probed: real)
    requires Valid(e)
    ensures why == Degenerate <==> last <= first || e.target <= 0.0
    ensures why != NoCleanDay
    ensures k == if why == Accepted then probed else 0.0
    ensures e.seed <= e.kMax && e.kFloor * 2.0 <= e.kMax ==> k == 0.0 || InRange(e, k)
    ensures path.NoPath? <==> why in {Degenerate, TooFlat, NoCrossing}
    ensures !path.NoPath? ==> e.target > 0.0 && Found(e, path) && Probed(e, path.star, probed)
    ensures !path.NoPath? ==>
              && (why == AtFloor <==> probed < 1.01 * e.kFloor)
              && (why == Unresponsive <==>
                    probed >= 1.01 * e.kFloor && 2 * |Clamped(e.sigmas, probed, e.minPct)| > |e.sigmas|)
              && (k == probed <==>
                    probed >= 1.01 * e.kFloor && 2 * |Clamped(e.sigmas, probed, e.minPct)| <= |e.sigmas|)
    ensures why != Degenerate ==>
              && (path.Warm? <==> WarmFrom(e, FirstGuess(e, prior)).star.Some?)
              && (path.Warm? ==> WarmFrom(e, FirstGuess(e, prior)).star == Some(path.star))
              && (why == TooFlat <==> !path.Warm? && !Over(e, e.kFloor))
    ensures why == NoCrossing ==> exists k :: e.kMax <= k <= Ceiling(e) && Med(e, k) >= e.target
  {
    k, path, probed := 0.0, NoPath, 0.0;
    if last <= first || e.target <= 0.0 {
      why := Degenerate;
      return;
    }
    path, why := Search(e, prior);
    if path.NoPath? {
      return;
    }
    probed := RungProbe(e, path.star);
    probed := RMax(probed, e.kFloor);
    if e.count(probed).days == 0 {
      assert false;
    }
    why := Guards(e, probed);
    VerdictMeans(e, probed);
    if why == Accepted {
      k := probed;
    }
  }

  /** An accepted k is in range and at least 1 % above the floor; one found by the warm start is still
      within the accept tolerance after the probe. */
  lemma AcceptedIsSound(e: Env, path: Path, k: real)
    requires 0.0 < e.kFloor < e.kMax && e.target > 0.0 && e.kFloor <= k <= Ceiling(e) && Verdict(e, k) == Accepted
    requires path.Warm? ==> Accepts(e, path.star) && Le(ErrorAt(e, k), ErrorAt(e, path.star))
    ensures e.kFloor * 1.01 <= k <= Ceiling(e)
    ensures e.seed <= e.kMax && e.kFloor * 2.0 <= e.kMax ==> k <= e.kMax
    ensures ClampedFraction(e.sigmas, k, e.minPct) <= MIN_PCT_CLAMP_MAX_FRAC
    ensures path.Warm? ==> Accepts(e, k)
  {
    FarFromFloor(k, e.kFloor);
  }

  lemma FarFromFloor(k: real, floor: real)
    requires 0.0 < floor <= k && !(Abs(k - floor) / floor < 0.01)
    ensures k >= floor * 1.01
  {
    assert (k - floor) / floor * floor == k - floor;
    if k - floor < 0.01 * floor {
      DivLess(k - floor, 0.01 * floor, floor);
    }
  }

  lemma DivLess(a: real, b: real, t: real)
    requires a < b && t > 0.0
    ensures a / t < b / t
  {
    assert b / t - a / t == (b - a) / t;
  }

  // ---------- with an antitone median ----------

  /** Larger k, fewer bricks: what the bracket relies on, and `DayCounter.AntitoneExactlyWhen` decides. */
  ghost predicate Antitone(e: Env)
  {
    forall a, b :: e.kFloor <= a <= b ==> Med(e, b) <= Med(e, a)
  }

  /** It holds when a larger k never adds bricks to a day and every window counted is steady. */
  lemma AntitoneFromCounts(e: Env)
    requires forall k :: e.count(k) == Score(e.count(k).perDay)
    requires forall a, b :: e.kFloor <= a <= b ==> Below(e.count(b).perDay, e.count(a).perDay)
    requires forall k :: e.kFloor <= k ==> Steady(e.count(k).perDay)
    ensures Antitone(e)
  {
    forall a, b | e.kFloor <= a <= b
      ensures Med(e, b) <= Med(e, a)
    {
      FewerBricksScoreLess(e.count(a).perDay, e.count(b).perDay);
    }
  }

  /** Between two ks on either side of the target the error can only be beaten strictly inside. */
  lemma OutsideIsWorse(e: Env, small: real, large: real, k: real, other: real)
    requires (forall x :: ValidStats(e.count(x))) && e.target > 0.0 && Antitone(e)
    requires e.kFloor <= small <= large && Over(e, small) && !Over(e, large)
    requires Le(ErrorAt(e, k), ErrorAt(e, small)) && Le(ErrorAt(e, k), ErrorAt(e, large))
    requires e.kFloor <= other && (other <= small || large <= other)
    ensures Le(ErrorAt(e, k), ErrorAt(e, other))
  {
    if other <= small {
      FurtherIsWorse(e, small, other);
    } else {
      FurtherIsWorse(e, large, other);
    }
  }

  /** No k outside the open final bracket is closer to the target than the bracket's, nor than the
      probe's. */
  lemma BracketIsOptimal(e: Env, path: Path, k: real, other: real)
    requires Valid(e) && e.target > 0.0 && Antitone(e)
    requires path.Bracketed? && Found(e, path) && Le(ErrorAt(e, k), ErrorAt(e, path.star))
    requires e.kFloor <= other && (other <= e.exp(path.b.lo) || e.exp(path.b.hi) <= other)
    ensures Le(ErrorAt(e, path.star), ErrorAt(e, other)) && Le(ErrorAt(e, k), ErrorAt(e, other))
  {
    OutsideIsWorse(e, e.exp(path.b.lo), e.exp(path.b.hi), path.star, other);
  }

  /** Both search rejections are right: no k of the range has its median on the missing side. */
  lemma RejectionsAreRight(e: Env, why: Why, k: real)
    requires Antitone(e) && InRange(e, k)
    requires why == TooFlat ==> !Over(e, e.kFloor)
    requires why == NoCrossing ==> exists cap :: e.kMax <= cap <= Ceiling(e) && Med(e, cap) >= e.target
    ensures why == TooFlat ==> Med(e, k) <= e.target
    ensures why == NoCrossing ==> Med(e, k) >= e.target
  {
  }

  lemma {:induction false} HalvedIsSmall(w: real, n: nat)
    requires w >= 0.0
    ensures 0.0 <= Halved(w, n) <= w
    ensures Halved(w, n) * Doubled(n) == w
  {
    if n > 0 {
      HalvedIsSmall(w, n - 1);
    }
  }

  function Doubled(n: nat): real
  {
    if n == 0 then 1.0 else 2.0 * Doubled(n - 1)
  }
}
