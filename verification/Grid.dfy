/**
  The 1 s composition grid of the on-chain backfill: per-leg event cursors with a hold cap, TWAP
  windows over the samples taken so far, the composite with its gate, continuous warm-up, and a
  record on every change of mid or heartbeat.

  The TWAP kernel and the composite are functions of the job. Times are milliseconds; prices are reals.
*/
module Grid {
  import opened Wrappers

  const HEARTBEAT_MS: nat := 5_000
  const MAX_QUOTE_GAP_MS: nat := 300_000

  // ---------- quote marks ----------

  datatype Bar = Bar(ts: nat, open: real)

  predicate Ascending(bars: seq<Bar>)
  {
    forall i, j :: 0 <= i < j < |bars| ==> bars[i].ts <= bars[j].ts
  }

  predicate InBand(x: real) { 0.98 <= x <= 1.02 }

  datatype QuoteError = NoBars | StartsLate | OutsideBand | Gap | EndsEarly

  /** The first check that fails, in the order they are made. */
  method NewQuote(bars: seq<Bar>, start: nat, end: nat) returns (r: Result<seq<Bar>, QuoteError>)
    requires Ascending(bars)
    ensures r.Ok? <==>
            && bars != [] && bars[0].ts <= start
            && (forall i :: 0 <= i < |bars| ==> 0.98 <= bars[i].open <= 1.02)
            && (forall i :: 0 < i < |bars| ==> bars[i].ts - bars[i - 1].ts <= MAX_QUOTE_GAP_MS)
            && bars[|bars| - 1].ts + MAX_QUOTE_GAP_MS >= end
    ensures r.Ok? ==> r.value == bars
    ensures r == Err(NoBars) <==> bars == []
    ensures r == Err(StartsLate) <==> bars != [] && bars[0].ts > start
    ensures r == Err(OutsideBand) <==>
            bars != [] && bars[0].ts <= start && exists i :: 0 <= i < |bars| && !InBand(bars[i].open)
    ensures r == Err(EndsEarly) ==> bars[|bars| - 1].ts + MAX_QUOTE_GAP_MS < end
    ensures r == Err(Gap) ==> exists i :: 0 < i < |bars| && bars[i].ts - bars[i - 1].ts > MAX_QUOTE_GAP_MS
  {
    if bars == [] { return Err(NoBars); }
    if bars[0].ts > start { return Err(StartsLate); }
    for i := 0 to |bars|
      invariant forall j :: 0 <= j < i ==> InBand(bars[j].open)
    {
      if !InBand(bars[i].open) { return Err(OutsideBand); }
    }
    for i := 1 to |bars|
      invariant forall j :: 0 < j < i ==> bars[j].ts - bars[j - 1].ts <= MAX_QUOTE_GAP_MS
    {
      if bars[i].ts - bars[i - 1].ts > MAX_QUOTE_GAP_MS { return Err(Gap); }
    }
    if bars[|bars| - 1].ts + MAX_QUOTE_GAP_MS < end { return Err(EndsEarly); }
    return Ok(bars);
  }

  /** How many leading bars are dated `t` or before. */
  function BarsUpTo(bars: seq<Bar>, t: nat): (n: nat)
    ensures n <= |bars|
    ensures forall i :: 0 <= i < n ==> bars[i].ts <= t
    ensures n < |bars| ==> bars[n].ts > t
  {
    PartitionPoint(bars, (b: Bar) => b.ts <= t)
  }

  function QuoteAt(bars: seq<Bar>, t: nat): real
    requires bars != []
  {
    var n := BarsUpTo(bars, t);
    bars[if n == 0 then 0 else n - 1].open
  }

  /** An accepted quote is never staler than five minutes anywhere in its range, nor off the band. */
  lemma QuoteIsFresh(bars: seq<Bar>, start: nat, end: nat, t: nat)
    requires bars != [] && bars[0].ts <= start <= t < end
    requires forall i :: 0 <= i < |bars| ==> InBand(bars[i].open)
    requires forall i :: 0 < i < |bars| ==> bars[i].ts - bars[i - 1].ts <= MAX_QUOTE_GAP_MS
    requires bars[|bars| - 1].ts + MAX_QUOTE_GAP_MS >= end
    ensures 0.98 <= QuoteAt(bars, t) <= 1.02
    ensures Ascending(bars) ==>
              exists i :: 0 <= i < |bars| && QuoteAt(bars, t) == bars[i].open && bars[i].ts <= t
                       && forall j :: i < j < |bars| ==> bars[j].ts > t
    ensures exists i :: 0 <= i < |bars| && QuoteAt(bars, t) == bars[i].open
                     && bars[i].ts <= t < bars[i].ts + 300_000
  {
    var n := BarsUpTo(bars, t);
    assert bars[0].ts <= t;
    assert n > 0;
    if n < |bars| {
      assert bars[n].ts - bars[n - 1].ts <= MAX_QUOTE_GAP_MS;
    }
    assert QuoteAt(bars, t) == bars[n - 1].open && bars[n - 1].ts <= t;
  }

  // ---------- the job ----------

  datatype Params = Params(
    twapMs: nat, maxAgeMs: nat, warmupMs: nat, minLegs: nat,
    peg: Option<(real, nat)>, sanity: Option<(real, real)>, holdCapMs: nat)

  datatype Event = Event(ts: nat, price: real, depth: real)

  datatype Leg = Leg(id: string, v4: bool, hooked: bool, ev: seq<Event>)

  datatype Sample = Sample(ts: nat, price: real, depth: real)

  datatype PoolView = PoolView(id: string, twap: real, depth: real, ageMs: nat, quotePx: real)

  datatype Composite = Composite(mid: real, ci: nat, conf: nat, active: nat, total: nat, kept: seq<string>)

  datatype Record = Record(ts: nat, bid: real, ask: real, ci: nat, conf: nat, accepted: nat, rejected: nat)

  datatype Job = Job(
    p: Params, legs: seq<Leg>, quote: seq<Bar>, from: nat, end: nat,
    twap: (seq<Sample>, nat, nat) -> Option<(real, real)>,
    composite: seq<PoolView> -> Option<Composite>)

  predicate Valid(g: Job)
  {
    g.quote != [] && forall i :: 0 <= i < |g.quote| ==> InBand(g.quote[i].open)
  }

  /** A job over an accepted quote is valid. */
  lemma AcceptedIsValid(g: Job)
    requires g.quote != [] && forall i :: 0 <= i < |g.quote| ==> 0.98 <= g.quote[i].open <= 1.02
    ensures Valid(g)
  {
  }

  function Start(g: Job): nat
  {
    (if g.from <= g.p.warmupMs + g.p.twapMs then 0 else g.from - (g.p.warmupMs + g.p.twapMs)) / 1000 * 1000
  }

  /** The n-th grid second. */
  function T(g: Job, n: nat): nat { Start(g) + 1000 * n }

  /** How many grid seconds there are. */
  function Seconds(g: Job): nat { if g.end <= Start(g) then 0 else (g.end - Start(g) + 999) / 1000 }

  // ---------- what each second means, straight from the events ----------

  /** How many events, from `k` on, the cursor passes at `t`. */
  function SeenFrom(ev: seq<Event>, t: nat, k: nat): (n: nat)
    requires k <= |ev|
    ensures k <= n <= |ev|
    decreases |ev| - k
  {
    if k < |ev| && ev[k].ts <= t then SeenFrom(ev, t, k + 1) else k
  }

  lemma {:induction false} SeenIsPartition(ev: seq<Event>, t: nat, k: nat)
    requires k <= |ev|
    ensures var n := SeenFrom(ev, t, k);
            (forall i :: k <= i < n ==> ev[i].ts <= t) && (n < |ev| ==> ev[n].ts > t)
    decreases |ev| - k
  {
    if k < |ev| && ev[k].ts <= t {
      SeenIsPartition(ev, t, k + 1);
    }
  }

  lemma {:induction false} SeenResumes(ev: seq<Event>, t: nat, t': nat, k: nat)
    requires k <= |ev| && t <= t'
    ensures SeenFrom(ev, t', SeenFrom(ev, t, k)) == SeenFrom(ev, t', k)
    decreases |ev| - k
  {
    if k < |ev| && ev[k].ts <= t {
      SeenResumes(ev, t, t', k + 1);
    }
  }

  function Held(ev: seq<Event>, t: nat): Option<Event>
  {
    var n := SeenFrom(ev, t, 0);
    if n == 0 then None else Some(ev[n - 1])
  }

  /** With events in time order, the held state is the last event at or before `t`. */
  lemma HeldIsLatest(ev: seq<Event>, t: nat)
    requires forall i, j :: 0 <= i < j < |ev| ==> ev[i].ts <= ev[j].ts
    ensures Held(ev, t).None? <==> forall i :: 0 <= i < |ev| ==> ev[i].ts > t
    ensures Held(ev, t).Some? ==>
              exists n :: 0 <= n < |ev| && Held(ev, t).value == ev[n] && ev[n].ts <= t
                       && forall i :: n < i < |ev| ==> ev[i].ts > t
  {
    SeenIsPartition(ev, t, 0);
    var n := SeenFrom(ev, t, 0);
    if n > 0 {
      assert Held(ev, t).value == ev[n - 1];
    }
  }

  lemma HeldNotLater(ev: seq<Event>, t: nat)
    ensures Held(ev, t).Some? ==> Held(ev, t).value.ts <= t
  {
    SeenIsPartition(ev, t, 0);
  }

  predicate OlderThan(ev: seq<Event>, t: nat, limit: nat)
  {
    Held(ev, t).Some? && t - Held(ev, t).value.ts > limit
  }

  /** A leg is sampled at `t` unless it has no event yet or its event is past the hold cap. */
  function SampleAt(g: Job, leg: Leg, t: nat): Option<Sample>
  {
    if Held(leg.ev, t).None? || OlderThan(leg.ev, t, g.p.holdCapMs) then None
    else Some(Sample(t, Held(leg.ev, t).value.price, Held(leg.ev, t).value.depth))
  }

  /** The samples of grid seconds `a` to `b`. */
  function Samples(g: Job, leg: Leg, a: nat, b: nat): seq<Sample>
  {
    if b <= a then []
    else
      var s := SampleAt(g, leg, T(g, b - 1));
      if s.None? then Samples(g, leg, a, b - 1) else Samples(g, leg, a, b - 1) + [s.value]
  }

  /** The first grid second whose sample may enter the TWAP at second `n`. */
  function WindowStart(g: Job, n: nat): nat
  {
    var back := (g.p.twapMs + g.p.maxAgeMs) / 1000;
    if n <= back then 0 else n - back
  }

  function ViewAt(g: Job, leg: Leg, n: nat): Option<PoolView>
    requires Valid(g)
  {
    var t := T(g, n);
    if SampleAt(g, leg, t).None? then None
    else
      var r := g.twap(Samples(g, leg, WindowStart(g, n), n + 1), SatSub(t, g.p.twapMs), t);
      if r.None? then None else Some(PoolView(leg.id, r.value.0, r.value.1, 0, QuoteAt(g.quote, t)))
  }

  /** The views of the first `k` legs at second `n`. */
  function Views(g: Job, k: nat, n: nat): seq<PoolView>
    requires Valid(g) && k <= |g.legs|
  {
    if k == 0 then []
    else
      var v := ViewAt(g, g.legs[k - 1], n);
      if v.None? then Views(g, k - 1, n) else Views(g, k - 1, n) + [v.value]
  }

  function CompositeAt(g: Job, n: nat): Option<Composite>
    requires Valid(g)
  {
    g.composite(Views(g, |g.legs|, n))
  }

  function SatSub(a: nat, b: nat): nat { if a <= b then 0 else a - b }

  function Abs(x: real): real { if x < 0.0 then -x else x }

  predicate EnoughLegs(g: Job, c: Composite)
  {
    && c.active >= g.p.minLegs
    && exists i, j :: 0 <= i < |c.kept| && 0 <= j < |g.legs| && g.legs[j].id == c.kept[i]
                   && (!g.legs[j].v4 || (g.p.minLegs == 1 && !g.legs[j].hooked))
  }

  /** The band is on the pool-quote mid. A zero peg divides to infinity or nothing and never passes. */
  predicate BandPasses(g: Job, usdc: real)
  {
    if g.p.peg.Some? then
      var (a, bps) := g.p.peg.value;
      a != 0.0 && Abs((usdc / a - 1.0) * 10000.0) <= bps as real
    else g.p.sanity.Some? ==> g.p.sanity.value.0 <= usdc <= g.p.sanity.value.1
  }

  lemma QuotePositive(g: Job, t: nat)
    requires Valid(g)
    ensures QuoteAt(g.quote, t) > 0.0
  {
  }

  predicate GreenAt(g: Job, n: nat)
    requires Valid(g)
  {
    var c := CompositeAt(g, n);
    QuotePositive(g, T(g, n));
    c.Some? && EnoughLegs(g, c.value) && BandPasses(g, c.value.mid / QuoteAt(g.quote, T(g, n)))
  }

  /** How many seconds in a row, up to and including `n`, are green. */
  function Streak(g: Job, n: nat): (k: nat)
    requires Valid(g)
    ensures k <= n + 1
  {
    if !GreenAt(g, n) then 0 else if n == 0 then 1 else 1 + Streak(g, n - 1)
  }

  lemma {:induction false} GreenInStreak(g: Job, n: nat, u: nat)
    requires Valid(g) && u <= n && Streak(g, n) > n - u
    ensures GreenAt(g, u)
  {
    if u < n {
      GreenInStreak(g, n - 1, u);
    }
  }

  lemma {:induction false} StreakOfGreen(g: Job, n: nat, m: nat)
    requires Valid(g) && m <= n && forall u :: m <= u <= n ==> GreenAt(g, u)
    ensures Streak(g, n) > n - m
  {
    assert GreenAt(g, n);
    if m < n {
      StreakOfGreen(g, n - 1, m);
    }
  }

  lemma StreakIsGreen(g: Job, n: nat, m: nat)
    requires Valid(g) && m <= n
    ensures Streak(g, n) > n - m <==> forall u :: m <= u <= n ==> GreenAt(g, u)
  {
    if Streak(g, n) > n - m {
      forall u | m <= u <= n ensures GreenAt(g, u) {
        GreenInStreak(g, n, u);
      }
    } else if forall u :: m <= u <= n ==> GreenAt(g, u) {
      StreakOfGreen(g, n, m);
    }
  }

  /** Second `n` may be published: in range, and green without a break for the whole warm-up. */
  predicate Gated(g: Job, n: nat)
    requires Valid(g)
  {
    g.from <= T(g, n) < g.end && Streak(g, n) > 0 && 1000 * (Streak(g, n) - 1) >= g.p.warmupMs
  }

  lemma GatedMeans(g: Job, n: nat)
    requires Valid(g)
    ensures Gated(g, n) <==>
            && g.from <= T(g, n) < g.end
            && exists m: nat :: m <= n && T(g, m) + g.p.warmupMs <= T(g, n) && forall u :: m <= u <= n ==> GreenAt(g, u)
  {
    if Gated(g, n) {
      var m := n + 1 - Streak(g, n);
      StreakIsGreen(g, n, m);
      assert m <= n && T(g, m) + g.p.warmupMs <= T(g, n) && forall u :: m <= u <= n ==> GreenAt(g, u);
    }
    forall m: nat | m <= n && T(g, m) + g.p.warmupMs <= T(g, n) && forall u :: m <= u <= n ==> GreenAt(g, u)
      ensures Streak(g, n) > 0 && 1000 * (Streak(g, n) - 1) >= g.p.warmupMs
    {
      StreakIsGreen(g, n, m);
    }
  }

  /** Grid seconds before `n`, in range, whose held event is older than `limit`. */
  function CountOlder(g: Job, leg: Leg, limit: nat, n: nat): nat
  {
    if n == 0 then 0
    else CountOlder(g, leg, limit, n - 1)
         + if T(g, n - 1) >= g.from && OlderThan(leg.ev, T(g, n - 1), limit) then 1 else 0
  }

  function CountInRange(g: Job, n: nat): nat
  {
    if n == 0 then 0 else CountInRange(g, n - 1) + if T(g, n - 1) >= g.from then 1 else 0
  }

  /** A drop is also a hold when the cap is the longer limit, and both are shares of the range. */
  lemma {:induction false} DroppedWithinHeld(g: Job, leg: Leg, n: nat)
    requires g.p.maxAgeMs <= g.p.holdCapMs
    ensures CountOlder(g, leg, g.p.holdCapMs, n) <= CountOlder(g, leg, g.p.maxAgeMs, n) <= CountInRange(g, n)
  {
    if n > 0 {
      DroppedWithinHeld(g, leg, n - 1);
    }
  }

  // ---------- one leg, one second ----------

  /** What the loop keeps for a leg. */
  datatype LegState = LegState(
    cur: nat, last: Option<(real, real)>, lastTs: nat, samples: seq<Sample>, held: nat, dropped: nat)

  /** That state after the first `n` seconds. */
  ghost predicate Tracks(g: Job, leg: Leg, n: nat, st: LegState)
  {
    && st.cur == (if n == 0 then 0 else SeenFrom(leg.ev, T(g, n - 1), 0))
    && st.cur <= |leg.ev|
    && (st.last == if st.cur == 0 then None else Some((leg.ev[st.cur - 1].price, leg.ev[st.cur - 1].depth)))
    && (st.cur > 0 ==> st.lastTs == leg.ev[st.cur - 1].ts)
    && st.samples == Samples(g, leg, 0, n)
    && st.held == CountOlder(g, leg, g.p.maxAgeMs, n)
    && st.dropped == CountOlder(g, leg, g.p.holdCapMs, n)
  }

  ghost predicate FirstTrack(g: Job, n: nat, states: seq<LegState>)
  {
    |states| <= |g.legs| && forall i :: 0 <= i < |states| ==> Tracks(g, g.legs[i], n, states[i])
  }

  lemma OneMoreTracks(g: Job, n: nat, states: seq<LegState>, st: LegState)
    requires FirstTrack(g, n, states) && |states| < |g.legs| && Tracks(g, g.legs[|states|], n, st)
    ensures FirstTrack(g, n, states + [st])
  {
  }

  ghost predicate AllTrack(g: Job, n: nat, states: seq<LegState>)
  {
    |states| == |g.legs| && FirstTrack(g, n, states)
  }

  /** The first sample that the window admits. */
  function WindowPoint(samples: seq<Sample>, span: nat, t: nat): (lo: nat)
    ensures lo <= |samples|
    ensures forall i :: 0 <= i < lo ==> samples[i].ts + span < t
    ensures lo < |samples| ==> samples[lo].ts + span >= t
  {
    PartitionPoint(samples, (s: Sample) => s.ts + span < t)
  }

  lemma PartitionSkips(old': seq<Sample>, live: seq<Sample>, span: nat, t: nat)
    requires forall i :: 0 <= i < |old'| ==> old'[i].ts + span < t
    requires live == [] || live[0].ts + span >= t
    ensures WindowPoint(old' + live, span, t) == |old'|
  {
    var all := old' + live;
    assert forall i :: 0 <= i < |old'| ==> all[i] == old'[i];
    assert live != [] ==> all[|old'|] == live[0];
  }

  lemma {:induction false} SamplesSplit(g: Job, leg: Leg, a: nat, b: nat)
    requires a <= b
    ensures Samples(g, leg, 0, b) == Samples(g, leg, 0, a) + Samples(g, leg, a, b)
    decreases b
  {
    if a < b {
      SamplesSplit(g, leg, a, b - 1);
    }
  }

  lemma {:induction false} SamplesWithin(g: Job, leg: Leg, a: nat, b: nat)
    ensures forall i :: 0 <= i < |Samples(g, leg, a, b)| ==> T(g, a) <= Samples(g, leg, a, b)[i].ts <= T(g, b) - 1000
    decreases b
  {
    if a < b {
      SamplesWithin(g, leg, a, b - 1);
    }
  }

  /** The slice of everything sampled so far is exactly the last seconds of the window. */
  lemma WindowIsSuffix(g: Job, leg: Leg, n: nat)
    ensures var all := Samples(g, leg, 0, n + 1);
            all[WindowPoint(all, g.p.twapMs + g.p.maxAgeMs, T(g, n))..] == Samples(g, leg, WindowStart(g, n), n + 1)
  {
    var a := WindowStart(g, n);
    SamplesSplit(g, leg, a, n + 1);
    SamplesWithin(g, leg, 0, a);
    SamplesWithin(g, leg, a, n + 1);
    PartitionSkips(Samples(g, leg, 0, a), Samples(g, leg, a, n + 1), g.p.twapMs + g.p.maxAgeMs, T(g, n));
  }

  method AdvanceCursor(g: Job, leg: Leg, n: nat, st: LegState) returns (st': LegState)
    requires Tracks(g, leg, n, st)
    ensures st'.cur == SeenFrom(leg.ev, T(g, n), 0)
    ensures st'.last == if st'.cur == 0 then None else Some((leg.ev[st'.cur - 1].price, leg.ev[st'.cur - 1].depth))
    ensures st'.cur > 0 ==> st'.lastTs == leg.ev[st'.cur - 1].ts
    ensures st'.samples == st.samples && st'.held == st.held && st'.dropped == st.dropped
  {
    var t := T(g, n);
    if n > 0 {
      SeenResumes(leg.ev, T(g, n - 1), t, 0);
    }
    st' := st;
    while st'.cur < |leg.ev| && leg.ev[st'.cur].ts <= t
      invariant st'.cur <= |leg.ev|
      invariant SeenFrom(leg.ev, t, st'.cur) == SeenFrom(leg.ev, t, 0)
      invariant st'.last == if st'.cur == 0 then None else Some((leg.ev[st'.cur - 1].price, leg.ev[st'.cur - 1].depth))
      invariant st'.cur > 0 ==> st'.lastTs == leg.ev[st'.cur - 1].ts
      invariant st'.samples == st.samples && st'.held == st.held && st'.dropped == st.dropped
      decreases |leg.ev| - st'.cur
    {
      var e := leg.ev[st'.cur];
      st' := st'.(last := Some((e.price, e.depth)), lastTs := e.ts, cur := st'.cur + 1);
    }
  }

  method TakeSample(g: Job, leg: Leg, n: nat, samples: seq<Sample>, s: Sample)
    returns (samples': seq<Sample>, view: Option<PoolView>)
    requires Valid(g) && samples == Samples(g, leg, 0, n) && SampleAt(g, leg, T(g, n)) == Some(s)
    ensures samples' == Samples(g, leg, 0, n + 1)
    ensures view == ViewAt(g, leg, n)
  {
    var t := T(g, n);
    samples', view := samples + [s], None;
    WindowIsSuffix(g, leg, n);
    var lo := WindowPoint(samples', g.p.twapMs + g.p.maxAgeMs, t);
    var r := g.twap(samples'[lo..], SatSub(t, g.p.twapMs), t);
    if r.Some? {
      view := Some(PoolView(leg.id, r.value.0, r.value.1, 0, QuoteAt(g.quote, t)));
    }
  }

  method AdvanceLeg(g: Job, leg: Leg, n: nat, st: LegState) returns (st': LegState, view: Option<PoolView>)
    requires Valid(g) && Tracks(g, leg, n, st)
    ensures Tracks(g, leg, n + 1, st')
    ensures view == ViewAt(g, leg, n)
  {
    var t := T(g, n);
    st' := AdvanceCursor(g, leg, n, st);
    view := None;
    HeldNotLater(leg.ev, t);
    if st'.last.None? {
      return;
    }
    var age := t - st'.lastTs;
    if t >= g.from && age > g.p.maxAgeMs {
      st' := st'.(held := st'.held + 1);
    }
    if age > g.p.holdCapMs {
      if t >= g.from {
        st' := st'.(dropped := st'.dropped + 1);
      }
      return;
    }
    var samples;
    samples, view := TakeSample(g, leg, n, st'.samples, Sample(t, st'.last.value.0, st'.last.value.1));
    st' := st'.(samples := samples);
  }

  method AdvanceAll(g: Job, n: nat, states: seq<LegState>) returns (states': seq<LegState>, views: seq<PoolView>)
    requires Valid(g) && AllTrack(g, n, states)
    ensures AllTrack(g, n + 1, states')
    ensures views == Views(g, |g.legs|, n)
  {
    states', views := [], [];
    for i := 0 to |g.legs|
      invariant |states'| == i && views == Views(g, i, n) && FirstTrack(g, n + 1, states')
    {
      var st, view := AdvanceLeg(g, g.legs[i], n, states[i]);
      OneMoreTracks(g, n + 1, states', st);
      states' := states' + [st];
      if view.Some? {
        views := views + [view.value];
      }
    }
  }

  // ---------- the emitted series ----------

  /** How many records are dated `t` or before. */
  function Latest(out: seq<Record>, t: nat): (k: nat)
    ensures k <= |out|
  {
    if out == [] then 0
    else if out[|out| - 1].ts <= t then |out|
    else Latest(out[..|out| - 1], t)
  }

  /** Decoding the records at second `n` gives exactly that second's mid, from a record under 5 s old. */
  ghost predicate Decodes(g: Job, out: seq<Record>, n: nat)
    requires Valid(g)
  {
    var k := Latest(out, T(g, n));
    && CompositeAt(g, n).Some? && k > 0
    && out[k - 1].bid == out[k - 1].ask == CompositeAt(g, n).value.mid
    && out[k - 1].ts <= T(g, n) < out[k - 1].ts + HEARTBEAT_MS
  }

  function RecordOf(g: Job, n: nat, c: Composite): Record
  {
    Record(T(g, n), c.mid, c.mid, c.ci, c.conf, Min(c.active, 255), Min(SatSub(c.total, c.active), 255))
  }

  function SecondOf(g: Job, ts: nat): nat { SatSub(ts, Start(g)) / 1000 }

  /** A record is one gated second's composite. */
  predicate FromGated(g: Job, r: Record)
    requires Valid(g)
  {
    var n := SecondOf(g, r.ts);
    && Gated(g, n) && CompositeAt(g, n).Some? && r == RecordOf(g, n, CompositeAt(g, n).value)
  }

  /** Consecutive records move forward, and the later one was due: a new mid, or a heartbeat. */
  predicate Due(a: Record, b: Record)
  {
    a.ts < b.ts && (a.bid != b.bid || b.ts - a.ts >= HEARTBEAT_MS)
  }

  /** The records of the first `n` grid seconds. */
  ghost predicate Encodes(g: Job, out: seq<Record>, n: nat)
    requires Valid(g)
  {
    && (forall i {:trigger FromGated(g, out[i])} :: 0 <= i < |out| ==> FromGated(g, out[i]))
    && (forall i :: 0 <= i < |out| ==> out[i].ts < T(g, n))
    && (forall i, j :: 0 <= i < j < |out| && j == i + 1 ==> Due(out[i], out[j]))
    && (forall m {:trigger Decodes(g, out, m)} :: 0 <= m < n && Gated(g, m) ==> Decodes(g, out, m))
  }

  /** The loop's memory of its own output. */
  ghost predicate Remembers(out: seq<Record>, lastMid: Option<real>, lastEmit: nat)
  {
    if out == [] then lastMid.None?
    else lastMid == Some(out[|out| - 1].bid) && lastEmit == out[|out| - 1].ts
         && out[|out| - 1].bid == out[|out| - 1].ask
  }

  /** Where the current green run began, if second `n - 1` was green. */
  function Since(g: Job, n: nat): Option<nat>
    requires Valid(g)
  {
    if n == 0 || Streak(g, n - 1) == 0 then None else Some(T(g, n - Streak(g, n - 1)))
  }

  lemma LatestSnoc(out: seq<Record>, r: Record, t: nat)
    ensures Latest(out + [r], t) == if r.ts <= t then |out| + 1 else Latest(out, t)
  {
    assert (out + [r])[..|out|] == out;
  }

  /** A second that is not gated, or already decodes, adds nothing. */
  lemma KeepQuiet(g: Job, out: seq<Record>, n: nat)
    requires Valid(g) && Encodes(g, out, n)
    requires Gated(g, n) ==> Decodes(g, out, n)
    ensures Encodes(g, out, n + 1)
  {
    forall m | 0 <= m < n + 1 && Gated(g, m) ensures Decodes(g, out, m) {
      assert m < n || m == n;
    }
  }

  /** Earlier seconds still decode after a later record is added. */
  lemma DecodesStill(g: Job, out: seq<Record>, r: Record, m: nat)
    requires Valid(g) && Decodes(g, out, m) && T(g, m) < r.ts
    ensures Decodes(g, out + [r], m)
  {
    LatestSnoc(out, r, T(g, m));
  }

  lemma DecodesNow(g: Job, out: seq<Record>, n: nat, c: Composite)
    requires Valid(g) && CompositeAt(g, n) == Some(c)
    ensures Decodes(g, out + [RecordOf(g, n, c)], n)
  {
    LatestSnoc(out, RecordOf(g, n, c), T(g, n));
  }

  lemma SecondOfT(g: Job, n: nat)
    ensures SecondOf(g, T(g, n)) == n
  {
  }

  lemma RecordFromGated(g: Job, n: nat, c: Composite)
    requires Valid(g) && Gated(g, n) && CompositeAt(g, n) == Some(c)
    ensures FromGated(g, RecordOf(g, n, c)) && RecordOf(g, n, c).ts == T(g, n)
  {
    SecondOfT(g, n);
  }

  /** Every gated second up to `n` decodes once the record of second `n` is added. */
  lemma AllDecode(g: Job, out: seq<Record>, n: nat, c: Composite, m: nat)
    requires Valid(g) && CompositeAt(g, n) == Some(c) && m <= n && (m < n ==> Decodes(g, out, m))
    ensures Decodes(g, out + [RecordOf(g, n, c)], m)
  {
    if m < n {
      DecodesStill(g, out, RecordOf(g, n, c), m);
    } else {
      DecodesNow(g, out, n, c);
    }
  }

  lemma EmitEncodes(g: Job, out: seq<Record>, n: nat, c: Composite)
    requires Valid(g) && Encodes(g, out, n)
    requires Gated(g, n) && CompositeAt(g, n) == Some(c)
    requires out != [] ==> Due(out[|out| - 1], RecordOf(g, n, c))
    ensures Encodes(g, out + [RecordOf(g, n, c)], n + 1)
  {
    var r := RecordOf(g, n, c);
    RecordFromGated(g, n, c);
    forall m | 0 <= m < n + 1 && Gated(g, m) ensures Decodes(g, out + [r], m) {
      assert m < n ==> Decodes(g, out, m);
      AllDecode(g, out, n, c, m);
    }
  }

  /** A gated second that is not due is decoded by the last record. */
  lemma NotDueDecodes(g: Job, out: seq<Record>, n: nat, lastEmit: nat)
    requires Valid(g) && Encodes(g, out, n) && CompositeAt(g, n).Some?
    requires Remembers(out, Some(CompositeAt(g, n).value.mid), lastEmit)
    requires T(g, n) - lastEmit < HEARTBEAT_MS
    ensures Decodes(g, out, n)
  {
    assert out[|out| - 1].ts < T(g, n);
  }

  // ---------- the loop ----------

  method IsGreen(g: Job, n: nat, c: Option<Composite>) returns (green: bool)
    requires Valid(g) && c == CompositeAt(g, n)
    ensures green <==> GreenAt(g, n)
  {
    if c.None? {
      return false;
    }
    QuotePositive(g, T(g, n));
    green := EnoughLegs(g, c.value) && BandPasses(g, c.value.mid / QuoteAt(g.quote, T(g, n)));
  }

  method EmitIfDue(g: Job, n: nat, c: Option<Composite>, since: Option<nat>, out: seq<Record>, lastMid: Option<real>, lastEmit: nat)
    returns (out': seq<Record>, lastMid': Option<real>, lastEmit': nat)
    requires Valid(g) && Encodes(g, out, n) && Remembers(out, lastMid, lastEmit)
    requires c == CompositeAt(g, n) && since == Since(g, n + 1) && T(g, n) < g.end
    ensures Encodes(g, out', n + 1) && Remembers(out', lastMid', lastEmit')
  {
    var t := T(g, n);
    out', lastMid', lastEmit' := out, lastMid, lastEmit;
    if c.Some? && since.Some? {
      if t >= g.from && t - since.value >= g.p.warmupMs {
        if lastMid != Some(c.value.mid) || t - lastEmit >= HEARTBEAT_MS {
          EmitEncodes(g, out, n, c.value);
          out' := out + [RecordOf(g, n, c.value)];
          lastMid', lastEmit' := Some(c.value.mid), t;
          return;
        }
        NotDueDecodes(g, out, n, lastEmit);
      }
    }
    KeepQuiet(g, out, n);
  }

  method Publish(g: Job, n: nat, views: seq<PoolView>, since: Option<nat>, out: seq<Record>, lastMid: Option<real>, lastEmit: nat)
    returns (since': Option<nat>, out': seq<Record>, lastMid': Option<real>, lastEmit': nat)
    requires Valid(g) && Encodes(g, out, n) && Remembers(out, lastMid, lastEmit)
    requires views == Views(g, |g.legs|, n) && since == Since(g, n) && T(g, n) < g.end
    ensures since' == Since(g, n + 1)
    ensures Encodes(g, out', n + 1) && Remembers(out', lastMid', lastEmit')
  {
    var c := g.composite(views);
    var green := IsGreen(g, n, c);
    since' := if !green then None else if since.Some? then since else Some(T(g, n));
    out', lastMid', lastEmit' := EmitIfDue(g, n, c, since', out, lastMid, lastEmit);
  }

  /** The loop's variables. */
  datatype Progress = Progress(
    states: seq<LegState>, since: Option<nat>, lastMid: Option<real>, lastEmit: nat, out: seq<Record>, total: nat)

  /** Where the loop is after `n` seconds. */
  ghost predicate Reached(g: Job, n: nat, x: Progress)
    requires Valid(g)
  {
    && AllTrack(g, n, x.states)
    && x.total == CountInRange(g, n)
    && x.since == Since(g, n)
    && Encodes(g, x.out, n)
    && Remembers(x.out, x.lastMid, x.lastEmit)
  }

  method Begin(g: Job) returns (x: Progress)
    requires Valid(g)
    ensures Reached(g, 0, x)
  {
    x := Progress(seq(|g.legs|, _ => LegState(0, None, 0, [], 0, 0)), None, None, 0, [], 0);
  }

  method Second(g: Job, n: nat, t: nat, x: Progress) returns (x': Progress)
    requires Valid(g) && Reached(g, n, x) && t == T(g, n) < g.end
    ensures Reached(g, n + 1, x')
  {
    var total := x.total + if t >= g.from then 1 else 0;
    var states, views := AdvanceAll(g, n, x.states);
    var since, out, lastMid, lastEmit := Publish(g, n, views, x.since, x.out, x.lastMid, x.lastEmit);
    x' := Progress(states, since, lastMid, lastEmit, out, total);
  }

  method End(g: Job, n: nat, x: Progress) returns (out: seq<Record>, held: seq<nat>, dropped: seq<nat>, total: nat)
    requires Valid(g) && Reached(g, n, x)
    ensures Encodes(g, out, n)
    ensures |held| == |dropped| == |g.legs| && total == CountInRange(g, n)
    ensures forall i :: 0 <= i < |g.legs| ==> held[i] == CountOlder(g, g.legs[i], g.p.maxAgeMs, n)
    ensures forall i :: 0 <= i < |g.legs| ==> dropped[i] == CountOlder(g, g.legs[i], g.p.holdCapMs, n)
  {
    out, total := x.out, x.total;
    held, dropped := Tallies(g, n, x.states);
  }

  method Tallies(g: Job, n: nat, states: seq<LegState>) returns (held: seq<nat>, dropped: seq<nat>)
    requires AllTrack(g, n, states)
    ensures |held| == |dropped| == |g.legs|
    ensures forall i :: 0 <= i < |g.legs| ==> held[i] == CountOlder(g, g.legs[i], g.p.maxAgeMs, n)
    ensures forall i :: 0 <= i < |g.legs| ==> dropped[i] == CountOlder(g, g.legs[i], g.p.holdCapMs, n)
  {
    held := seq(|states|, i requires 0 <= i < |states| => states[i].held);
    dropped := seq(|states|, i requires 0 <= i < |states| => states[i].dropped);
  }

  method RunGrid(g: Job) returns (out: seq<Record>, held: seq<nat>, dropped: seq<nat>, total: nat)
    requires Valid(g)
    ensures Encodes(g, out, Seconds(g))
    ensures |held| == |dropped| == |g.legs| && total == CountInRange(g, Seconds(g))
    ensures forall i :: 0 <= i < |g.legs| ==> held[i] == CountOlder(g, g.legs[i], g.p.maxAgeMs, Seconds(g))
    ensures forall i :: 0 <= i < |g.legs| ==> dropped[i] == CountOlder(g, g.legs[i], g.p.holdCapMs, Seconds(g))
  {
    var x := Walk(g);
    out, held, dropped, total := End(g, Seconds(g), x);
  }

  /** The loop over the grid. */
  method Walk(g: Job) returns (x: Progress)
    requires Valid(g)
    ensures Reached(g, Seconds(g), x)
  {
    x := Begin(g);
    var t, n := Start(g), 0;
    while t < g.end
      invariant t == T(g, n) && n <= Seconds(g)
      invariant Reached(g, n, x)
      decreases Seconds(g) - n
    {
      InGrid(g, n);
      x := Second(g, n, t, x);
      t, n := t + 1000, n + 1;
    }
    InGrid(g, n);
  }

  lemma InGrid(g: Job, n: nat)
    ensures T(g, n) < g.end <==> n < Seconds(g)
    ensures T(g, n + 1) == T(g, n) + 1000
  {
  }

  // ---------- what the series means ----------

  /** Records strictly advance inside the range. */
  lemma {:induction false} RecordsAdvance(g: Job, out: seq<Record>, n: nat, i: nat, j: nat)
    requires Valid(g) && Encodes(g, out, n) && i < j < |out|
    ensures out[i].ts < out[j].ts
    ensures g.from <= out[i].ts < g.end && g.from <= out[j].ts < g.end
    decreases j
  {
    assert Due(out[j - 1], out[j]);
    assert FromGated(g, out[i]) && FromGated(g, out[j]);
    if i < j - 1 {
      RecordsAdvance(g, out, n, i, j - 1);
    }
  }

  /** Before every record the whole warm-up was green, second by second. */
  lemma WarmUpWasGreen(g: Job, out: seq<Record>, n: nat, i: nat, u: nat)
    requires Valid(g) && Encodes(g, out, n) && i < |out|
    requires T(g, u) <= out[i].ts && out[i].ts - g.p.warmupMs <= T(g, u)
    ensures GreenAt(g, u)
    ensures Start(g) + g.p.warmupMs <= out[i].ts
  {
    assert FromGated(g, out[i]);
    var k := SecondOf(g, out[i].ts);
    StreakIsGreen(g, k, k + 1 - Streak(g, k));
  }

  /** The records carry the gated 1 s series without loss: at every gated second the latest record
      has exactly that second's mid and is under 5 s old. */
  lemma Lossless(g: Job, out: seq<Record>, n: nat)
    requires Valid(g) && Encodes(g, out, Seconds(g))
    requires Gated(g, n)
    ensures var k := Latest(out, T(g, n));
            k > 0 && out[k - 1].bid == CompositeAt(g, n).value.mid && T(g, n) - out[k - 1].ts < 5_000
  {
    assert n < Seconds(g);
    assert Decodes(g, out, n);
  }

  lemma RecordSecond(g: Job, r: Record, n: nat)
    requires Valid(g) && FromGated(g, r) && r.ts < T(g, n + 1)
    ensures r.ts <= T(g, n)
    ensures r.ts == T(g, n) ==> CompositeAt(g, n).Some? && Gated(g, n) && r == RecordOf(g, n, CompositeAt(g, n).value)
  {
    var k := SecondOf(g, r.ts);
    assert r.ts == T(g, k);
    assert r.ts == T(g, n) ==> k == n;
  }

  predicate EndsAt(g: Job, out: seq<Record>, n: nat) { out != [] && out[|out| - 1].ts == T(g, n) }

  /** The records of the seconds before `n`. */
  function Before(g: Job, out: seq<Record>, n: nat): seq<Record>
  {
    if EndsAt(g, out, n) then out[..|out| - 1] else out
  }

  lemma BeforeInTime(g: Job, out: seq<Record>, n: nat, i: nat)
    requires Valid(g) && Encodes(g, out, n + 1) && i < |Before(g, out, n)|
    ensures out[i].ts < T(g, n)
  {
    assert FromGated(g, out[i]);
    RecordSecond(g, out[i], n);
    if i + 1 < |out| {
      assert Due(out[i], out[i + 1]);
      assert FromGated(g, out[i + 1]);
      RecordSecond(g, out[i + 1], n);
    }
  }

  lemma BeforeDecodes(g: Job, out: seq<Record>, n: nat, m: nat)
    requires Valid(g) && Encodes(g, out, n + 1) && m < n && Gated(g, m)
    ensures Decodes(g, Before(g, out, n), m)
  {
    assert Decodes(g, out, m);
    if EndsAt(g, out, n) {
      var p, last := Before(g, out, n), out[|out| - 1];
      assert out == p + [last];
      LatestSnoc(p, last, T(g, m));
    }
  }

  lemma Truncate(g: Job, out: seq<Record>, n: nat)
    requires Valid(g) && Encodes(g, out, n + 1)
    ensures Encodes(g, Before(g, out, n), n)
  {
    var p := Before(g, out, n);
    forall i | 0 <= i < |p| ensures FromGated(g, p[i]) {
      assert FromGated(g, out[i]);
    }
    forall i | 0 <= i < |p| ensures p[i].ts < T(g, n) {
      BeforeInTime(g, out, n, i);
    }
    forall m | 0 <= m < n && Gated(g, m) ensures Decodes(g, p, m) {
      BeforeDecodes(g, out, n, m);
    }
  }

  /** Second `n` has a record exactly when it is gated and the records before it do not decode it. */
  lemma EndsExactlyWhenDue(g: Job, out: seq<Record>, n: nat)
    requires Valid(g) && Encodes(g, out, n + 1)
    ensures EndsAt(g, out, n) <==> Gated(g, n) && !Decodes(g, Before(g, out, n), n)
    ensures EndsAt(g, out, n) ==> CompositeAt(g, n).Some? && out == Before(g, out, n) + [RecordOf(g, n, CompositeAt(g, n).value)]
  {
    var p := Before(g, out, n);
    if EndsAt(g, out, n) {
      var last := out[|out| - 1];
      assert FromGated(g, last);
      RecordSecond(g, last, n);
      assert out == p + [last];
      if p != [] {
        BeforeInTime(g, out, n, |p| - 1);
        assert Due(out[|p| - 1], last);
        assert Latest(p, T(g, n)) == |p|;
      }
    } else if Gated(g, n) {
      assert Decodes(g, out, n);
    }
  }

  lemma SameStep(g: Job, a: seq<Record>, b: seq<Record>, n: nat)
    requires Valid(g) && Encodes(g, a, n + 1) && Encodes(g, b, n + 1)
    requires Before(g, a, n) == Before(g, b, n)
    ensures a == b
  {
    EndsExactlyWhenDue(g, a, n);
    EndsExactlyWhenDue(g, b, n);
  }

  /** The conditions of `Encodes` fix the whole output: there is no second sequence of records. */
  lemma {:induction false} OnlyOneEncoding(g: Job, a: seq<Record>, b: seq<Record>, n: nat)
    requires Valid(g) && Encodes(g, a, n) && Encodes(g, b, n)
    ensures a == b
  {
    if n == 0 {
      NoneBeforeStart(g, a);
      NoneBeforeStart(g, b);
    } else {
      Truncate(g, a, n - 1);
      Truncate(g, b, n - 1);
      OnlyOneEncoding(g, Before(g, a, n - 1), Before(g, b, n - 1), n - 1);
      SameStep(g, a, b, n - 1);
    }
  }

  lemma NotBeforeStart(g: Job, a: seq<Record>, n: nat, i: nat)
    requires Valid(g) && Encodes(g, a, n) && i < |a|
    ensures a[i].ts >= Start(g)
  {
    assert FromGated(g, a[i]);
  }

  lemma NoneBeforeStart(g: Job, a: seq<Record>)
    requires Valid(g) && Encodes(g, a, 0)
    ensures a == []
  {
    if a != [] {
      NotBeforeStart(g, a, 0, 0);
    }
  }
}
