/**
  What the grid publishes, written out over the events, the quote marks and the composite: which samples
  a view is made of, when a second is green, and what every record says.
*/
module GridSeries {
  import opened Wrappers
  import opened Grid

  // ---------- the gate ----------

  /** The band without the division: within `bps` ten-thousandths of the peg, or inside the sanity interval. */
  predicate InBandOf(p: Params, x: real)
  {
    match p.peg
    case Some((a, bps)) =>
      a != 0.0 && (if x < a then a - x else x - a) * 10000.0 <= (bps as real) * (if a < 0.0 then -a else a)
    case None => p.sanity.None? || (p.sanity.value.0 <= x && x <= p.sanity.value.1)
  }

  lemma BandMeans(g: Job, x: real)
    ensures BandPasses(g, x) <==> InBandOf(g.p, x)
  {
    if g.p.peg.Some? && g.p.peg.value.0 != 0.0 {
      PegBand(x, g.p.peg.value.0, g.p.peg.value.1 as real);
    }
  }

  lemma PegBand(x: real, a: real, b: real)
    requires a != 0.0
    ensures Abs((x / a - 1.0) * 10000.0) <= b <==>
            (if x < a then a - x else x - a) * 10000.0 <= b * (if a < 0.0 then -a else a)
  {
    var d := x / a - 1.0;
    assert d * a == x - a by {
      assert x / a * a == x;
    }
    var (m, e) := (if a < 0.0 then -a else a, Abs(d));
    assert e * m == if x < a then a - x else x - a by {
      SizeOfProduct(d, a);
    }
    ScaleByPositive(e * 10000.0, b, m);
    assert e * 10000.0 * m == (e * m) * 10000.0;
  }

  lemma SizeOfProduct(d: real, a: real)
    ensures Abs(d) * (if a < 0.0 then -a else a) == Abs(d * a)
  {
    if d >= 0.0 && a >= 0.0 {
      assert d * a >= 0.0;
    } else if d < 0.0 && a < 0.0 {
      assert (-d) * (-a) == d * a && (-d) * (-a) >= 0.0;
    } else if d < 0.0 {
      assert (-d) * a == -(d * a) && (-d) * a >= 0.0;
    } else {
      assert d * (-a) == -(d * a) && d * (-a) >= 0.0;
    }
  }

  lemma ScaleByPositive(a: real, b: real, t: real)
    requires t > 0.0
    ensures a <= b <==> a * t <= b * t
  {
    assert b * t - a * t == (b - a) * t;
    if a > b {
      assert (a - b) * t > 0.0;
    }
  }

  /** For a positive peg the band is the interval of `bps` ten-thousandths around it. */
  lemma BandOfPositivePeg(p: Params, a: real, bps: nat, x: real)
    requires p.peg == Some((a, bps)) && a > 0.0
    ensures InBandOf(p, x) <==> a - a * (bps as real) / 10000.0 <= x <= a + a * (bps as real) / 10000.0
  {
  }

  /** A second is green exactly when its composite has enough active legs, keeps one that is not V4, or is
      unhooked where a single leg is allowed, and its mid in pool quote is inside the band. */
  lemma GreenExactly(g: Job, n: nat)
    requires Valid(g)
    ensures CompositeAt(g, n) == g.composite(Views(g, |g.legs|, n))
    ensures GreenAt(g, n) <==>
            && CompositeAt(g, n).Some?
            && var c := CompositeAt(g, n).value;
            && c.active >= g.p.minLegs
            && (exists leg :: leg in g.legs && leg.id in c.kept && (!leg.v4 || (g.p.minLegs == 1 && !leg.hooked)))
            && QuoteAt(g.quote, T(g, n)) > 0.0 && InBandOf(g.p, c.mid / QuoteAt(g.quote, T(g, n)))
  {
    if CompositeAt(g, n).Some? {
      var c := CompositeAt(g, n).value;
      LegsMean(g, c);
      QuotePositive(g, T(g, n));
      BandMeans(g, c.mid / QuoteAt(g.quote, T(g, n)));
    }
  }

  lemma LegsMean(g: Job, c: Composite)
    ensures EnoughLegs(g, c) <==>
            && c.active >= g.p.minLegs
            && exists leg :: leg in g.legs && leg.id in c.kept && (!leg.v4 || (g.p.minLegs == 1 && !leg.hooked))
  {
    if leg :| leg in g.legs && leg.id in c.kept && (!leg.v4 || (g.p.minLegs == 1 && !leg.hooked)) {
      var j :| 0 <= j < |g.legs| && g.legs[j] == leg;
      var i :| 0 <= i < |c.kept| && c.kept[i] == leg.id;
      assert g.legs[j].id == c.kept[i];
    }
  }

  /** Every published record: in range, on a grid second whose composite it carries; made of at least the
      minimum of active legs with an admissible one among those kept; its price in pool quote inside the band. */
  lemma PublishedIsInBand(g: Job, out: seq<Record>, i: nat)
    requires Valid(g) && Encodes(g, out, Seconds(g)) && i < |out|
    ensures g.from <= out[i].ts < g.end && out[i].bid == out[i].ask
    ensures QuoteAt(g.quote, out[i].ts) > 0.0 && InBandOf(g.p, out[i].bid / QuoteAt(g.quote, out[i].ts))
    ensures exists n: nat, leg ::
              && out[i].ts == T(g, n) && CompositeAt(g, n).Some?
              && leg in g.legs && leg.id in CompositeAt(g, n).value.kept
              && (!leg.v4 || (g.p.minLegs == 1 && !leg.hooked))
              && out[i].bid == CompositeAt(g, n).value.mid && CompositeAt(g, n).value.active >= g.p.minLegs
  {
    assert FromGated(g, out[i]);
    var n := SecondOf(g, out[i].ts);
    var c := CompositeAt(g, n).value;
    GreenInStreak(g, n, n);
    LegsMean(g, c);
    BandMeans(g, c.mid / QuoteAt(g.quote, T(g, n)));
    QuotePositive(g, out[i].ts);
    var leg :| leg in g.legs && leg.id in c.kept && (!leg.v4 || (g.p.minLegs == 1 && !leg.hooked));
  }

  /** What the other fields of a record say: the composite's, and its leg counts capped at a byte. */
  lemma PublishedFields(g: Job, out: seq<Record>, i: nat, n: nat)
    requires Valid(g) && Encodes(g, out, Seconds(g)) && i < |out| && out[i].ts == T(g, n)
    ensures CompositeAt(g, n).Some?
    ensures var c := CompositeAt(g, n).value;
            && out[i].ci == c.ci && out[i].conf == c.conf
            && out[i].accepted == (if c.active < 255 then c.active else 255)
            && (c.active + out[i].rejected == c.total
                || (out[i].rejected == 0 && c.total <= c.active) || (out[i].rejected == 255 && c.total - c.active >= 255))
  {
    assert FromGated(g, out[i]);
    SecondOfT(g, n);
  }

  // ---------- the grid ----------

  /** The grid starts at the whole second that leaves room for the warm-up and the window, or at 0, and has
      exactly the seconds before the end. */
  lemma GridCovers(g: Job, n: nat)
    ensures Start(g) % 1000 == 0
    ensures Start(g) + g.p.warmupMs + g.p.twapMs <= g.from || Start(g) == 0
    ensures g.from < Start(g) + g.p.warmupMs + g.p.twapMs + 1000
    ensures T(g, n) < g.end <==> n < Seconds(g)
  {
  }

  // ---------- samples and views ----------

  ghost predicate InOrder(ev: seq<Event>)
  {
    forall i, j :: 0 <= i < j < |ev| ==> ev[i].ts <= ev[j].ts
  }

  /** Event `k` is the state a leg holds at `t`. */
  ghost predicate HeldAt(ev: seq<Event>, t: nat, k: nat)
  {
    k < |ev| && ev[k].ts <= t && forall j :: k < j < |ev| ==> ev[j].ts > t
  }

  lemma HeldIs(ev: seq<Event>, t: nat, k: nat)
    requires InOrder(ev)
    ensures HeldAt(ev, t, k) ==> Held(ev, t) == Some(ev[k])
    ensures Held(ev, t).Some? ==> exists i :: HeldAt(ev, t, i)
  {
    SeenIsPartition(ev, t, 0);
    var n := SeenFrom(ev, t, 0);
    if n > 0 {
      assert HeldAt(ev, t, n - 1);
    }
    if HeldAt(ev, t, k) {
      assert n == k + 1;
    }
  }

  /** A leg is sampled with the state it holds, unless that is older than the cap. */
  lemma SampledExactly(g: Job, leg: Leg, t: nat, s: Sample)
    requires InOrder(leg.ev)
    ensures SampleAt(g, leg, t) == Some(s) <==>
            s.ts == t && exists k: nat :: HeldAt(leg.ev, t, k) && t - leg.ev[k].ts <= g.p.holdCapMs
                                  && s.price == leg.ev[k].price && s.depth == leg.ev[k].depth
  {
    HeldIs(leg.ev, t, 0);
    forall k: nat | HeldAt(leg.ev, t, k) ensures Held(leg.ev, t) == Some(leg.ev[k]) {
      HeldIs(leg.ev, t, k);
    }
  }

  /** A sample the window of second `n` admits: taken at a grid second no further back than window and
      maximum age together. */
  ghost predicate InWindow(g: Job, leg: Leg, n: nat, s: Sample)
  {
    exists m: nat {:trigger SampleAt(g, leg, T(g, m))} ::
      m <= n && T(g, m) + g.p.twapMs + g.p.maxAgeMs >= T(g, n) && SampleAt(g, leg, T(g, m)) == Some(s)
  }

  ghost predicate Upward(w: seq<Sample>)
  {
    forall i, j :: 0 <= i < j < |w| ==> w[i].ts < w[j].ts
  }

  /** `w` is the window of second `n`: the admitted samples, in time order. */
  ghost predicate IsWindow(g: Job, leg: Leg, n: nat, w: seq<Sample>)
  {
    Upward(w) && forall s :: s in w <==> InWindow(g, leg, n, s)
  }

  lemma {:induction false} SamplesAre(g: Job, leg: Leg, a: nat, b: nat, s: Sample)
    ensures s in Samples(g, leg, a, b) <==>
            exists m {:trigger SampleAt(g, leg, T(g, m))} :: a <= m < b && SampleAt(g, leg, T(g, m)) == Some(s)
    decreases b
  {
    if a < b {
      SamplesAre(g, leg, a, b - 1, s);
      assert SampleAt(g, leg, T(g, b - 1)).Some? || SampleAt(g, leg, T(g, b - 1)).None?;
    }
  }

  lemma {:induction false} SamplesUpward(g: Job, leg: Leg, a: nat, b: nat)
    ensures Upward(Samples(g, leg, a, b))
    decreases b
  {
    if a < b {
      SamplesUpward(g, leg, a, b - 1);
      SamplesWithin(g, leg, a, b - 1);
    }
  }

  lemma WindowBegins(g: Job, n: nat, m: nat)
    requires m <= n
    ensures WindowStart(g, n) <= m <==> T(g, m) + g.p.twapMs + g.p.maxAgeMs >= T(g, n)
  {
  }

  lemma SamplesAreWindow(g: Job, leg: Leg, n: nat)
    ensures IsWindow(g, leg, n, Samples(g, leg, WindowStart(g, n), n + 1))
  {
    var w := Samples(g, leg, WindowStart(g, n), n + 1);
    SamplesUpward(g, leg, WindowStart(g, n), n + 1);
    forall s
      ensures s in w <==> InWindow(g, leg, n, s)
    {
      SamplesAre(g, leg, WindowStart(g, n), n + 1, s);
      forall m: nat | m <= n
        ensures WindowStart(g, n) <= m <==> T(g, m) + g.p.twapMs + g.p.maxAgeMs >= T(g, n)
      {
        WindowBegins(g, n, m);
      }
    }
  }

  ghost predicate SameMembers(a: seq<Sample>, b: seq<Sample>) { forall s :: s in a <==> s in b }

  lemma {:induction false} UpwardUnique(a: seq<Sample>, b: seq<Sample>)
    requires Upward(a) && Upward(b) && SameMembers(a, b)
    ensures a == b
  {
    BothEmpty(a, b);
    if a != [] {
      SameEnd(a, b);
      SameFronts(a, b);
      UpwardUnique(a[..|a| - 1], b[..|b| - 1]);
      assert a == a[..|a| - 1] + [a[|a| - 1]] && b == b[..|b| - 1] + [b[|b| - 1]];
    }
  }

  lemma BothEmpty(a: seq<Sample>, b: seq<Sample>)
    requires SameMembers(a, b)
    ensures a == [] <==> b == []
  {
    Memberless(a);
    Memberless(b);
  }

  lemma SameFronts(a: seq<Sample>, b: seq<Sample>)
    requires Upward(a) && Upward(b) && SameMembers(a, b) && a != [] && b != [] && a[|a| - 1] == b[|b| - 1]
    ensures SameMembers(a[..|a| - 1], b[..|b| - 1])
  {
    var fa, fb := a[..|a| - 1], b[..|b| - 1];
    forall s
      ensures s in fa <==> s in fb
    {
      FrontMembers(a, s);
      FrontMembers(b, s);
    }
  }

  lemma Memberless(w: seq<Sample>)
    ensures (forall s :: s !in w) ==> w == []
  {
    if w != [] {
      var s := w[0];
      assert s in w;
    }
  }

  lemma SameEnd(a: seq<Sample>, b: seq<Sample>)
    requires Upward(a) && Upward(b) && a != [] && b != [] && SameMembers(a, b)
    ensures a[|a| - 1] == b[|b| - 1]
  {
    assert a[|a| - 1] in b && b[|b| - 1] in a;
    var i :| 0 <= i < |b| && b[i] == a[|a| - 1];
    var j :| 0 <= j < |a| && a[j] == b[|b| - 1];
  }

  lemma FrontMembers(a: seq<Sample>, s: Sample)
    requires Upward(a) && a != []
    ensures s in a[..|a| - 1] <==> s in a && s != a[|a| - 1]
  {
    assert a == a[..|a| - 1] + [a[|a| - 1]];
  }

  /** A leg has a view exactly when it is sampled now and its window has a price: the average over the whole
      window, from one window back or time 0 until now, with the quote of now. */
  lemma ViewMeans(g: Job, leg: Leg, n: nat, w: seq<Sample>)
    requires Valid(g) && IsWindow(g, leg, n, w)
    ensures var t := T(g, n);
            var r := g.twap(w, if t < g.p.twapMs then 0 else t - g.p.twapMs, t);
            ViewAt(g, leg, n) ==
              if SampleAt(g, leg, t).Some? && r.Some?
              then Some(PoolView(leg.id, r.value.0, r.value.1, 0, QuoteAt(g.quote, t))) else None
  {
    SamplesAreWindow(g, leg, n);
    UpwardUnique(w, Samples(g, leg, WindowStart(g, n), n + 1));
  }

  // ---------- counting ----------

  ghost function Where(k: nat, p: int -> bool): set<int>
  {
    set j | 0 <= j < k && p(j)
  }

  lemma WhereSnoc(k: nat, p: int -> bool)
    ensures |Where(k + 1, p)| == |Where(k, p)| + if p(k) then 1 else 0
    ensures Where(0, p) == {}
  {
    assert Where(k + 1, p) == Where(k, p) + if p(k) then {k} else {};
  }

  ghost function HasView(g: Job, n: nat): int -> bool
    requires Valid(g)
  {
    i => 0 <= i < |g.legs| && ViewAt(g, g.legs[i], n).Some?
  }

  lemma {:induction false} ViewsCount(g: Job, n: nat, k: nat)
    requires Valid(g) && k <= |g.legs|
    ensures |Views(g, k, n)| == |Where(k, HasView(g, n))|
    decreases k
  {
    WhereSnoc(if k == 0 then 0 else k - 1, HasView(g, n));
    if k > 0 {
      ViewsCount(g, n, k - 1);
    }
  }

  /** The composite gets one view of every leg that has one, in the order of the legs. */
  lemma {:induction false} ViewsAreLegs(g: Job, n: nat, k: nat, i: nat)
    requires Valid(g) && i < k <= |g.legs| && ViewAt(g, g.legs[i], n).Some?
    ensures |Views(g, k, n)| == |Where(k, HasView(g, n))|
    ensures |Where(i, HasView(g, n))| < |Views(g, k, n)|
    ensures Views(g, k, n)[|Where(i, HasView(g, n))|] == ViewAt(g, g.legs[i], n).value
    decreases k
  {
    ViewsCount(g, n, i);
    ViewsCount(g, n, k);
    if i < k - 1 {
      ViewsAreLegs(g, n, k - 1, i);
    }
  }

  ghost function HeldOlder(g: Job, leg: Leg, limit: nat): int -> bool
  {
    m => m >= 0 && T(g, m) >= g.from && exists k: nat :: HeldAt(leg.ev, T(g, m), k) && T(g, m) - leg.ev[k].ts > limit
  }

  lemma {:induction false} CountOlderIs(g: Job, leg: Leg, limit: nat, n: nat, p: int -> bool)
    requires forall m: nat :: m < n ==> (p(m) <==> T(g, m) >= g.from && OlderThan(leg.ev, T(g, m), limit))
    ensures CountOlder(g, leg, limit, n) == |Where(n, p)|
  {
    WhereSnoc(if n == 0 then 0 else n - 1, p);
    if n > 0 {
      CountOlderIs(g, leg, limit, n - 1, p);
    }
  }

  lemma OlderAreSeconds(g: Job, leg: Leg, limit: nat, n: nat)
    requires InOrder(leg.ev)
    ensures CountOlder(g, leg, limit, n) == |Where(n, HeldOlder(g, leg, limit))|
  {
    var p := HeldOlder(g, leg, limit);
    forall m: nat | m < n
      ensures p(m) <==> T(g, m) >= g.from && OlderThan(leg.ev, T(g, m), limit)
    {
      OlderMeans(leg.ev, T(g, m), limit);
    }
    CountOlderIs(g, leg, limit, n, p);
  }

  ghost function Within(g: Job): int -> bool { m => m >= 0 && T(g, m) >= g.from }

  lemma {:induction false} RangeAreSeconds(g: Job, n: nat)
    ensures CountInRange(g, n) == |Where(n, Within(g))|
  {
    WhereSnoc(if n == 0 then 0 else n - 1, Within(g));
    if n > 0 {
      RangeAreSeconds(g, n - 1);
    }
  }

  /** A leg's held and dropped counts are the seconds in range whose state is older than the limit, and the
      total is all seconds in range. */
  lemma CountsAreSeconds(g: Job, leg: Leg, limit: nat, n: nat)
    requires InOrder(leg.ev)
    ensures CountOlder(g, leg, limit, n) == |Where(n, HeldOlder(g, leg, limit))|
    ensures CountInRange(g, n) == |Where(n, Within(g))|
  {
    OlderAreSeconds(g, leg, limit, n);
    RangeAreSeconds(g, n);
  }

  lemma OlderMeans(ev: seq<Event>, t: nat, limit: nat)
    requires InOrder(ev)
    ensures OlderThan(ev, t, limit) <==> exists k: nat :: HeldAt(ev, t, k) && t - ev[k].ts > limit
  {
    HeldIs(ev, t, 0);
    forall k: nat | HeldAt(ev, t, k) ensures Held(ev, t) == Some(ev[k]) {
      HeldIs(ev, t, k);
    }
  }
}
