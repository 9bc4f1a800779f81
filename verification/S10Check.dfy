/**
  The streaming `.s10` validator of `integrity-check`, and the grid checks the data-quality
  audit runs on the same bars. Floats are reals with explicit NaN and infinities.
*/
module S10Check {
  import opened Wrappers
  import opened Arith
  import opened Calendar

  const S10_BUCKET_MS: int := 10_000
  const GRID_TOL_MS: int := 2

  datatype Float = Fin(v: real) | NaN | PosInf | NegInf

  predicate Negative(f: Float) { (f.Fin? && f.v < 0.0) || f.NegInf? }

  function Abs(x: real): real { if x < 0.0 then -x else x }

  function MaxR(x: real, y: real): real { if x < y then y else x }

  function MinR(x: real, y: real): real { if x < y then x else y }

  /** The remainder that truncates toward zero. */
  function TruncRem(a: int, b: int): int
    requires b > 0
  {
    if a >= 0 then a % b else -((-a) % b)
  }

  lemma TruncRemZero(a: int, b: int)
    requires b > 0
    ensures TruncRem(a, b) == 0 <==> a % b == 0
  {
    if a < 0 {
      var q, r := (-a) / b, (-a) % b;
      assert a == (-q) * b - r;
      if r == 0 {
        DivModOf(a, b, -q, 0);
      } else {
        DivModOf(a, b, -q - 1, b - r);
      }
    }
  }

  datatype Bar = Bar(
    kline: bool, openTs: int, closeTs: int,
    open: Float, high: Float, low: Float, close: Float,
    realizedVar: Float, bipowerVar: Float, volImbalance: Float, spreadBps: Float, maxAbsReturn: Float)

  /** `trailing` counts the bytes after the last whole row. */
  datatype File = File(bars: seq<Bar>, trailing: nat)

  datatype Fault =
    | Truncated | NotKline | OpenAfterClose | NonFinite | HighTooLow | LowTooHigh
    | NegativeRealizedVar | NegativeBipowerVar | OffGrid | ImbalanceRange | NegativeSpread
    | NegativeReturn | NonMonotone | BadSpacing | SparseDay

  datatype Finding = Finding(row: Option<nat>, fault: Fault)

  datatype State = State(prevClose: Option<int>, gaps: nat)

  datatype Report = Report(records: nat, errors: seq<Finding>, gaps: nat)

  function When(c: bool, row: nat, fault: Fault): seq<Finding>
  {
    if c then [Finding(Some(row), fault)] else []
  }

  predicate FiniteOhlc(b: Bar) { b.open.Fin? && b.high.Fin? && b.low.Fin? && b.close.Fin? }

  /** The OHLC block shared with the `.bars` validator. */
  method CheckOhlc(i: nat, b: Bar) returns (errors: seq<Finding>, finite: bool)
    ensures finite == FiniteOhlc(b)
    ensures errors == [] <==> SoundOhlc(b)
  {
    errors := When(b.openTs > b.closeTs, i, OpenAfterClose);
    if !FiniteOhlc(b) {
      return errors + [Finding(Some(i), NonFinite)], false;
    }
    var maxOcl := MaxR(MaxR(b.open.v, b.close.v), b.low.v);
    var minOch := MinR(MinR(b.open.v, b.close.v), b.high.v);
    errors := errors
      + When(b.high.v < maxOcl, i, HighTooLow)
      + When(b.low.v > minOch, i, LowTooHigh)
      + When(Negative(b.realizedVar), i, NegativeRealizedVar)
      + When(Negative(b.bipowerVar), i, NegativeBipowerVar);
    finite := true;
  }

  /** Open before close, finite prices with both open and close inside [low, high], and
      variances that are not negative. */
  predicate SoundOhlc(b: Bar)
  {
    && b.openTs <= b.closeTs
    && FiniteOhlc(b)
    && b.low.v <= b.open.v <= b.high.v
    && b.low.v <= b.close.v <= b.high.v
    && !Negative(b.realizedVar) && !Negative(b.bipowerVar)
  }

  predicate SoundBar(b: Bar, bucket: int)
  {
    && b.kline
    && SoundOhlc(b)
    && (bucket > 0 ==> b.openTs % bucket == 0)
    && (b.volImbalance.Fin? ==> Abs(b.volImbalance.v) <= 1.001)
    && (b.spreadBps.Fin? ==> b.spreadBps.v >= 0.0)
    && (b.maxAbsReturn.Fin? ==> b.maxAbsReturn.v >= 0.0)
  }

  /** A sound bar, written out: finite prices with both open and close inside the low and the high, an
      imbalance within 1.001 either way, and an open on the bucket grid. */
  lemma SoundBarMeans(b: Bar, bucket: int, o: real, h: real, l: real, c: real)
    requires b.open == Fin(o) && b.high == Fin(h) && b.low == Fin(l) && b.close == Fin(c)
    ensures SoundBar(b, bucket) <==>
            && b.kline && b.openTs <= b.closeTs && (bucket > 0 ==> TruncRem(b.openTs, bucket) == 0)
            && l <= o && l <= c && o <= h && c <= h
            && b.realizedVar != NegInf && (b.realizedVar.Fin? ==> b.realizedVar.v >= 0.0)
            && b.bipowerVar != NegInf && (b.bipowerVar.Fin? ==> b.bipowerVar.v >= 0.0)
            && (b.volImbalance.Fin? ==> -1.001 <= b.volImbalance.v <= 1.001)
            && !(b.spreadBps.Fin? && b.spreadBps.v < 0.0) && !(b.maxAbsReturn.Fin? && b.maxAbsReturn.v < 0.0)
  {
    if bucket > 0 {
      TruncRemZero(b.openTs, bucket);
    }
  }

  /** A bar with a price that is not a number is never sound. */
  lemma SoundNeedsPrices(b: Bar, bucket: int)
    ensures SoundBar(b, bucket) ==>
              exists o, h, l, c :: b.open == Fin(o) && b.high == Fin(h) && b.low == Fin(l) && b.close == Fin(c)
  {
    if SoundBar(b, bucket) {
      assert b.open == Fin(b.open.v) && b.high == Fin(b.high.v) && b.low == Fin(b.low.v) && b.close == Fin(b.close.v);
    }
  }

  /** The spacing a file may have between two closes: one bucket, or whole missing buckets. */
  predicate SoundSpacing(prev: int, close: int, bucket: int)
  {
    if bucket > 0 then close > prev && (close - prev) % bucket == 0
    else close >= prev && close - prev == bucket
  }

  function MissingBetween(prev: int, close: int, bucket: int): nat
  {
    if bucket > 0 && close > prev && (close - prev) % bucket == 0 then
      ExactQuotient(close - prev, bucket);
      (close - prev) / bucket - 1
    else 0
  }

  /** One row of the stream. */
  method CheckRow(s: State, i: nat, b: Bar, bucket: int) returns (s': State, errors: seq<Finding>)
    ensures s'.prevClose == Some(b.closeTs)
    ensures errors == [] <==> SoundBar(b, bucket)
                              && (s.prevClose.Some? ==> SoundSpacing(s.prevClose.value, b.closeTs, bucket))
    ensures errors == [] ==>
              s'.gaps == s.gaps + if s.prevClose.Some? then MissingBetween(s.prevClose.value, b.closeTs, bucket) else 0
  {
    errors := When(!b.kline, i, NotKline);
    var ohlc, finite := CheckOhlc(i, b);
    errors := errors + ohlc;
    if bucket > 0 {
      TruncRemZero(b.openTs, bucket);
      errors := errors + When(TruncRem(b.openTs, bucket) != 0, i, OffGrid);
    }
    if !finite {
      return s.(prevClose := Some(b.closeTs)), errors;
    }
    errors := errors
      + When(b.volImbalance.Fin? && Abs(b.volImbalance.v) > 1.0 + 0.001, i, ImbalanceRange)
      + When(b.spreadBps.Fin? && b.spreadBps.v < 0.0, i, NegativeSpread)
      + When(b.maxAbsReturn.Fin? && b.maxAbsReturn.v < 0.0, i, NegativeReturn);
    var gaps := s.gaps;
    if s.prevClose.Some? {
      var prev := s.prevClose.value;
      if b.closeTs < prev {
        errors := errors + [Finding(Some(i), NonMonotone)];
      } else {
        var delta := b.closeTs - prev;
        if delta != bucket {
          if bucket > 0 && delta > 0 && delta % bucket == 0 {
            ExactQuotient(delta, bucket);
            gaps := gaps + (delta / bucket - 1);
          } else {
            errors := errors + [Finding(Some(i), BadSpacing)];
          }
        }
      }
    }
    s' := State(Some(b.closeTs), gaps);
  }

  // ---------- the whole file ----------

  function MissingUpTo(bars: seq<Bar>, n: nat, bucket: int): nat
    requires n <= |bars|
  {
    if n < 2 then 0
    else MissingUpTo(bars, n - 1, bucket) + MissingBetween(bars[n - 2].closeTs, bars[n - 1].closeTs, bucket)
  }

  predicate SoundUpTo(bars: seq<Bar>, n: nat, bucket: int)
    requires n <= |bars|
  {
    && (forall i :: 0 <= i < n ==> SoundBar(bars[i], bucket))
    && (forall i :: 1 <= i < n ==> SoundSpacing(bars[i - 1].closeTs, bars[i].closeTs, bucket))
  }

  function BarsPerDay(n: nat, firstOpen: int, lastClose: int): real
  {
    var spanHours := (lastClose - firstOpen) as real / MS_PER_HOUR as real;
    if spanHours > 0.0 then n as real / (spanHours / 24.0) else 0.0
  }

  /** The strict whole-file check: between half of and all of the bars a gap-free day would have.
      A non-positive bucket makes the expected count infinite or negative, which never passes. */
  predicate DenseEnough(n: nat, firstOpen: int, lastClose: int, bucket: int)
  {
    var perDay := BarsPerDay(n, firstOpen, lastClose);
    perDay > 0.0 ==>
      bucket > 0 &&
      var frac := perDay / (MS_PER_DAY as real / bucket as real);
      0.5 <= frac <= 1.000001
  }

  /** Without the divisions: the bars' buckets cover at least half of the time from the first open to the
      last close, and exceed it by no more than a millionth. */
  lemma DenseMeans(n: nat, firstOpen: int, lastClose: int, bucket: int)
    requires n > 0 && bucket > 0
    ensures var span := lastClose - firstOpen;
            DenseEnough(n, firstOpen, lastClose, bucket) <==>
              span <= 0 || (span <= 2 * (n * bucket) && 1_000_000 * (n * bucket) <= 1_000_001 * span)
  {
    var span := lastClose - firstOpen;
    if span > 0 {
      DenseFraction(n as real, span as real, bucket as real);
      var covered := n * bucket;
      assert covered as real == n as real * bucket as real;
    }
  }

  /** The share of a full day's bars is the share of the span that the bars cover. */
  lemma DenseFraction(n: real, span: real, bucket: real)
    requires n > 0.0 && span > 0.0 && bucket > 0.0
    ensures var perDay := n / (span / MS_PER_HOUR as real / 24.0);
            var frac := perDay / (MS_PER_DAY as real / bucket);
            && perDay > 0.0
            && (0.5 <= frac <==> span <= 2.0 * (n * bucket))
            && (frac <= 1.000001 <==> 1_000_000.0 * (n * bucket) <= 1_000_001.0 * span)
  {
    var days := span / MS_PER_HOUR as real / 24.0;
    assert days * MS_PER_DAY as real == span;
    var perDay := n / days;
    assert perDay * days == n;
    var full := MS_PER_DAY as real / bucket;
    assert full * bucket == MS_PER_DAY as real;
    var frac := perDay / full;
    assert frac * full == perDay;
    assert frac * span == n * bucket by {
      FractionOf(frac, full, days, bucket, n, perDay);
    }
    ScaledBy(0.5, frac, span);
    ScaledBy(frac, 1.000001, span);
    ScaledBy(perDay, 0.0, days);
  }

  lemma FractionOf(frac: real, full: real, days: real, bucket: real, n: real, perDay: real)
    requires frac * full == perDay && perDay * days == n && full * bucket == MS_PER_DAY as real
    ensures frac * (days * MS_PER_DAY as real) == n * bucket
  {
    assert frac * (days * (full * bucket)) == ((frac * full) * days) * bucket;
  }

  lemma ScaledBy(a: real, b: real, t: real)
    requires t > 0.0
    ensures a <= b <==> a * t <= b * t
  {
    assert b * t - a * t == (b - a) * t;
    if a > b {
      assert (a - b) * t > 0.0;
    }
  }

  /** Error-free exactly when the file is whole, every bar is sound, every spacing is sound and,
      in strict mode, the file is dense enough. */
  method CheckS10(f: File, strict: bool, bucket: int) returns (r: Report)
    ensures r.records == |f.bars|
    ensures r.errors == [] <==>
              && f.trailing == 0
              && SoundUpTo(f.bars, |f.bars|, bucket)
              && (strict && |f.bars| > 0 ==> DenseEnough(|f.bars|, f.bars[0].openTs, f.bars[|f.bars| - 1].closeTs, bucket))
    ensures r.errors == [] ==> r.gaps == MissingUpTo(f.bars, |f.bars|, bucket)
  {
    if f.trailing > 0 {
      return Report(|f.bars|, [Finding(None, Truncated)], 0);
    }
    var errors, s := [], State(None, 0);
    for i := 0 to |f.bars|
      invariant s.prevClose == if i == 0 then None else Some(f.bars[i - 1].closeTs)
      invariant errors == [] <==> SoundUpTo(f.bars, i, bucket)
      invariant errors == [] ==> s.gaps == MissingUpTo(f.bars, i, bucket)
    {
      var found;
      s, found := CheckRow(s, i, f.bars[i], bucket);
      errors := errors + found;
      assert i > 0 ==> (SoundUpTo(f.bars, i + 1, bucket) <==>
          SoundUpTo(f.bars, i, bucket) && SoundBar(f.bars[i], bucket)
          && SoundSpacing(f.bars[i - 1].closeTs, f.bars[i].closeTs, bucket));
    }
    if |f.bars| > 0 && strict && !DenseEnough(|f.bars|, f.bars[0].openTs, f.bars[|f.bars| - 1].closeTs, bucket) {
      errors := errors + [Finding(None, SparseDay)];
    }
    r := Report(|f.bars|, errors, s.gaps);
  }

  /** In an error-free file the time the closes span is exactly the rows plus the missing
      buckets. */
  lemma {:induction false} CleanFileCountsItsTime(bars: seq<Bar>, n: nat, bucket: int)
    requires bucket > 0 && 0 < n <= |bars| && SoundUpTo(bars, n, bucket)
    ensures bars[n - 1].closeTs - bars[0].closeTs == bucket * (n - 1 + MissingUpTo(bars, n, bucket))
    ensures bars[0].closeTs <= bars[n - 1].closeTs
  {
    if n > 1 {
      CleanFileCountsItsTime(bars, n - 1, bucket);
      var prev, close := bars[n - 2].closeTs, bars[n - 1].closeTs;
      assert SoundSpacing(bars[(n - 1) - 1].closeTs, bars[n - 1].closeTs, bucket);
      ExactQuotient(close - prev, bucket);
      MulDistributes(bucket, n - 2 + MissingUpTo(bars, n - 1, bucket), (close - prev) / bucket);
    }
  }

  lemma CleanFileIncreases(bars: seq<Bar>, bucket: int, i: nat, j: nat)
    requires bucket > 0 && i < j < |bars| && SoundUpTo(bars, |bars|, bucket)
    ensures bars[i].closeTs < bars[j].closeTs
    decreases j
  {
    assert SoundSpacing(bars[j - 1].closeTs, bars[j].closeTs, bucket);
    if i < j - 1 {
      CleanFileIncreases(bars, bucket, i, j - 1);
    }
  }

  // ---------- the audit's grid checks on the same bars ----------

  datatype Boundary = Contiguous | Gap | NonAdvancing | OffGridDelta

  function ClassifyOpenDelta(prevOpen: int, open: int): Boundary
  {
    var delta := open - prevOpen;
    if delta <= 0 then NonAdvancing
    else
      var rem := delta % S10_BUCKET_MS;
      var onGrid := rem <= GRID_TOL_MS || rem >= S10_BUCKET_MS - GRID_TOL_MS;
      if !onGrid then OffGridDelta
      else if delta > S10_BUCKET_MS + GRID_TOL_MS then Gap
      else Contiguous
  }

  predicate Misaligned(open: int)
  {
    var rem := open % S10_BUCKET_MS;
    rem > GRID_TOL_MS && rem < S10_BUCKET_MS - GRID_TOL_MS
  }

  /** Within two milliseconds of a multiple of ten seconds. */
  ghost predicate NearGrid(ts: int)
  {
    exists k: int {:trigger k * S10_BUCKET_MS} :: -2 <= ts - k * S10_BUCKET_MS <= 2
  }

  lemma NearGridIs(ts: int)
    ensures NearGrid(ts) <==> ts % S10_BUCKET_MS <= GRID_TOL_MS || ts % S10_BUCKET_MS >= S10_BUCKET_MS - GRID_TOL_MS
  {
    var q := ts / S10_BUCKET_MS;
    assert q * S10_BUCKET_MS == ts - ts % S10_BUCKET_MS;
    assert (q + 1) * S10_BUCKET_MS == q * S10_BUCKET_MS + S10_BUCKET_MS;
  }

  /** What the audit calls a bar and a pair of bars, by distance from the grid alone. */
  lemma AuditMeans(prevOpen: int, open: int)
    ensures Misaligned(open) <==> !NearGrid(open)
    ensures var c := ClassifyOpenDelta(prevOpen, open);
            && (c == NonAdvancing <==> open <= prevOpen)
            && (c == OffGridDelta <==> open > prevOpen && !NearGrid(open - prevOpen))
            && (c == Contiguous <==> prevOpen < open <= prevOpen + 10_002 && NearGrid(open - prevOpen))
            && (c == Gap <==> open > prevOpen + 10_002 && NearGrid(open - prevOpen))
  {
    NearGridIs(open);
    NearGridIs(open - prevOpen);
  }

  /** Bars that pass this validator at the 10 s bucket give the audit no misalignment and no
      off-grid delta; an advancing pair is contiguous exactly when it is one bucket apart. */
  lemma AuditAgrees(bars: seq<Bar>)
    requires SoundUpTo(bars, |bars|, S10_BUCKET_MS)
    ensures forall i :: 0 <= i < |bars| ==> !Misaligned(bars[i].openTs)
    ensures forall i :: 1 <= i < |bars| ==>
              var c := ClassifyOpenDelta(bars[i - 1].openTs, bars[i].openTs);
              && c != OffGridDelta
              && (c == Contiguous <==> bars[i].openTs - bars[i - 1].openTs == S10_BUCKET_MS)
  {
    forall i | 1 <= i < |bars|
      ensures var c := ClassifyOpenDelta(bars[i - 1].openTs, bars[i].openTs);
              && c != OffGridDelta
              && (c == Contiguous <==> bars[i].openTs - bars[i - 1].openTs == S10_BUCKET_MS)
    {
      assert SoundBar(bars[i - 1], S10_BUCKET_MS) && SoundBar(bars[i], S10_BUCKET_MS);
    }
  }

  /** The audit's tolerance is wider: it accepts a bar one millisecond off the grid that this
      validator refuses. */
  lemma AuditIsLooser(open: int)
    requires open % S10_BUCKET_MS == 1
    ensures !Misaligned(open) && TruncRem(open, S10_BUCKET_MS) != 0
  {
    TruncRemZero(open, S10_BUCKET_MS);
  }
}
