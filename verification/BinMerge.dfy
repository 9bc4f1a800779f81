/** Bin grouping and bin merging of the shard healer. */
module BinMerge {
  import opened Wrappers
  import opened Arith
  import opened Calendar
  import opened IdxRecord

  const FLAG_IDX_HEALED: bv8 := 0x10

  // ---------- ordered grouping (the healer's BTreeMaps) ----------

  /** What records are grouped by: the start of their bin, or their UTC day. */
  datatype Key = Bin(target: nat) | Day

  function BinStart(ts: nat, target: nat): nat
    requires target > 0
  {
    (ts / target) * target
  }

  predicate ValidKey(k: Key) { k.Bin? ==> k.target > 0 }

  function KeyOf(k: Key, r: Rec): int
    requires ValidKey(k)
  {
    match k
    case Bin(target) => BinStart(r.ts, target)
    case Day => DayOf(r.ts)
  }

  ghost predicate StrictlyUp(keys: seq<int>)
  {
    forall i, j :: 0 <= i < j < |keys| ==> keys[i] < keys[j]
  }

  function InsertKey(keys: seq<int>, x: int): (out: seq<int>)
    ensures forall y :: y in out <==> y in keys || y == x
  {
    if keys == [] then [x]
    else
      var front, last := keys[..|keys| - 1], keys[|keys| - 1];
      assert keys == front + [last];
      if last < x then keys + [x]
      else if last == x then keys
      else InsertKey(front, x) + [last]
  }

  lemma {:induction false} InsertKeyUp(keys: seq<int>, x: int)
    requires StrictlyUp(keys)
    ensures StrictlyUp(InsertKey(keys, x))
  {
    if keys != [] && keys[|keys| - 1] > x {
      var front := keys[..|keys| - 1];
      InsertKeyUp(front, x);
      forall i | 0 <= i < |InsertKey(front, x)|
        ensures InsertKey(front, x)[i] < keys[|keys| - 1]
      {
        assert InsertKey(front, x)[i] in front || InsertKey(front, x)[i] == x;
      }
    }
  }

  /** The keys that occur, ascending. */
  function Keys(recs: seq<Rec>, k: Key): seq<int>
    requires ValidKey(k)
  {
    if recs == [] then [] else InsertKey(Keys(recs[..|recs| - 1], k), KeyOf(k, recs[|recs| - 1]))
  }

  /** The records with one key, in their order. */
  function Chunk(recs: seq<Rec>, k: Key, key: int): seq<Rec>
    requires ValidKey(k)
  {
    if recs == [] then []
    else
      var front := Chunk(recs[..|recs| - 1], k, key);
      if KeyOf(k, recs[|recs| - 1]) == key then front + [recs[|recs| - 1]] else front
  }

  lemma {:induction false} KeysShape(recs: seq<Rec>, k: Key)
    requires ValidKey(k)
    ensures StrictlyUp(Keys(recs, k))
    ensures forall i :: 0 <= i < |recs| ==> KeyOf(k, recs[i]) in Keys(recs, k)
    ensures forall key :: key in Keys(recs, k) ==> Chunk(recs, k, key) != []
  {
    if recs != [] {
      KeysShape(recs[..|recs| - 1], k);
      InsertKeyUp(Keys(recs[..|recs| - 1], k), KeyOf(k, recs[|recs| - 1]));
    }
  }

  lemma {:induction false} ChunkMembers(recs: seq<Rec>, k: Key, key: int)
    requires ValidKey(k)
    ensures forall r :: r in Chunk(recs, k, key) <==> r in recs && KeyOf(k, r) == key
  {
    if recs != [] {
      ChunkMembers(recs[..|recs| - 1], k, key);
      assert recs == recs[..|recs| - 1] + [recs[|recs| - 1]];
    }
  }

  lemma {:induction false} NoChunk(recs: seq<Rec>, k: Key, key: int)
    requires ValidKey(k)
    requires forall i :: 0 <= i < |recs| ==> KeyOf(k, recs[i]) != key
    ensures Chunk(recs, k, key) == []
  {
    if recs != [] {
      NoChunk(recs[..|recs| - 1], k, key);
    }
  }

  lemma ChunkOneTicker(recs: seq<Rec>, k: Key, key: int)
    requires ValidKey(k) && OneTicker(recs)
    ensures OneTicker(Chunk(recs, k, key))
  {
    ChunkMembers(recs, k, key);
    var c := Chunk(recs, k, key);
    forall i | 0 <= i < |c|
      ensures c[i].ticker == c[0].ticker
    {
      assert c[i] in recs && c[0] in recs;
    }
  }

  method Group(recs: seq<Rec>, k: Key) returns (keys: seq<int>, chunks: map<int, seq<Rec>>)
    requires ValidKey(k)
    ensures keys == Keys(recs, k)
    ensures forall key :: key in keys ==> key in chunks && chunks[key] == Chunk(recs, k, key)
  {
    keys, chunks := [], map[];
    for n := 0 to |recs|
      invariant Grouped(recs[..n], k, keys, chunks)
    {
      assert recs[..n + 1] == recs[..n] + [recs[n]];
      GroupedSnoc(recs[..n], recs[n], k, keys, chunks);
      var key := KeyOf(k, recs[n]);
      var before := if key in chunks then chunks[key] else [];
      chunks := chunks[key := before + [recs[n]]];
      keys := InsertKey(keys, key);
    }
    assert recs[..|recs|] == recs;
  }

  ghost predicate Grouped(recs: seq<Rec>, k: Key, keys: seq<int>, chunks: map<int, seq<Rec>>)
    requires ValidKey(k)
  {
    && keys == Keys(recs, k)
    && (forall key :: key in keys <==> key in chunks)
    && (forall key :: key in keys ==> chunks[key] == Chunk(recs, k, key))
    && (forall key :: key !in keys ==> Chunk(recs, k, key) == [])
  }

  lemma GroupedSnoc(recs: seq<Rec>, r: Rec, k: Key, keys: seq<int>, chunks: map<int, seq<Rec>>)
    requires ValidKey(k) && Grouped(recs, k, keys, chunks)
    ensures var key := KeyOf(k, r);
            Grouped(recs + [r], k, InsertKey(keys, key),
                    chunks[key := (if key in chunks then chunks[key] else []) + [r]])
  {
    assert (recs + [r])[..|recs|] == recs;
  }

  // ---------- merging one bin ----------

  /** The wire codec of the confidence interval: decode, and encode of a square root. */
  datatype Codec = Codec(decode: nat -> real, encodeSqrt: real -> nat)

  datatype Side = BidSide | AskSide

  function Price(r: Rec, s: Side): real { if s.BidSide? then r.bid else r.ask }

  function Volume(r: Rec, s: Side): nat { if s.BidSide? then r.vbid else r.vask }

  function VolumeSum(c: seq<Rec>, s: Side): nat
  {
    if c == [] then 0 else VolumeSum(c[..|c| - 1], s) + Volume(c[|c| - 1], s)
  }

  function Weighted(x: real, w: nat): real { x * w as real }

  function Square(x: real): real { x * x }

  function PricedSum(c: seq<Rec>, s: Side): real
  {
    if c == [] then 0.0
    else PricedSum(c[..|c| - 1], s) + Weighted(Price(c[|c| - 1], s), Volume(c[|c| - 1], s))
  }

  function PriceSum(c: seq<Rec>, s: Side): real
  {
    if c == [] then 0.0 else PriceSum(c[..|c| - 1], s) + Price(c[|c| - 1], s)
  }

  /** Volume-weighted price, or the plain mean when nothing in the bin has volume. */
  function Pooled(c: seq<Rec>, s: Side): real
    requires c != []
  {
    if VolumeSum(c, s) > 0 then PricedSum(c, s) / VolumeSum(c, s) as real
    else PriceSum(c, s) / |c| as real
  }

  /** The confidence weight; the 32-bit volume sum wraps. */
  function CiWeight(r: Rec): nat
  {
    var w := (r.vbid + r.vask) % 0x1_0000_0000;
    if w > 0 then w else r.ticks
  }

  function CiWeightSum(c: seq<Rec>): nat
  {
    if c == [] then 0 else CiWeightSum(c[..|c| - 1]) + CiWeight(c[|c| - 1])
  }

  function CiSquares(c: seq<Rec>, codec: Codec): real
  {
    if c == [] then 0.0
    else CiSquares(c[..|c| - 1], codec) + Weighted(Square(codec.decode(c[|c| - 1].ci)), CiWeight(c[|c| - 1]))
  }

  datatype Field = Ci | Ticks | Confidence | Accepted | Rejected

  function Get(r: Rec, f: Field): nat
  {
    match f
    case Ci => r.ci
    case Ticks => r.ticks
    case Confidence => r.confidence
    case Accepted => r.accepted
    case Rejected => r.rejected
  }

  function Largest(c: seq<Rec>, f: Field): nat
  {
    if c == [] then 0 else Max(Largest(c[..|c| - 1], f), Get(c[|c| - 1], f))
  }

  function TickSum(c: seq<Rec>): nat
  {
    if c == [] then 0 else TickSum(c[..|c| - 1]) + c[|c| - 1].ticks
  }

  function FlagUnion(c: seq<Rec>): bv8
  {
    if c == [] then 0 else FlagUnion(c[..|c| - 1]) | c[|c| - 1].flags
  }

  /** What one bin merges to. */
  function Merged(c: seq<Rec>, target: nat, codec: Codec): Rec
    requires c != [] && target > 0
  {
    Rec(BinStart(c[0].ts, target), c[0].ticker, c[0].provider, Min(|c|, U8_MAX), 0,
        Pooled(c, BidSide), Pooled(c, AskSide),
        Min(VolumeSum(c, BidSide), U32_MAX), Min(VolumeSum(c, AskSide), U32_MAX),
        if CiWeightSum(c) > 0 then codec.encodeSqrt(CiSquares(c, codec) / CiWeightSum(c) as real) else Largest(c, Ci),
        Min(TickSum(c), U16_MAX),
        Largest(c, Confidence), Largest(c, Accepted), Largest(c, Rejected),
        FlagUnion(c) | FLAG_IDX_HEALED)
  }

  predicate OneTicker(c: seq<Rec>)
  {
    forall i :: 0 <= i < |c| ==> c[i].ticker == c[0].ticker
  }

  datatype MergeError = EmptyChunk | TickerMismatch

  /** The running sums of a bin. */
  datatype Sums = Sums(
    bidNum: real, bidDen: nat, askNum: real, askDen: nat, vbid: nat, vask: nat, ciNum: real, ciDen: nat,
    ticks: nat, confidence: nat, accepted: nat, rejected: nat, flags: bv8, count: nat)

  function SumsOf(c: seq<Rec>, codec: Codec): Sums
  {
    Sums(PricedSum(c, BidSide), VolumeSum(c, BidSide), PricedSum(c, AskSide), VolumeSum(c, AskSide),
         Min(VolumeSum(c, BidSide), U32_MAX), Min(VolumeSum(c, AskSide), U32_MAX),
         CiSquares(c, codec), CiWeightSum(c), Min(TickSum(c), U16_MAX),
         Largest(c, Confidence), Largest(c, Accepted), Largest(c, Rejected), FlagUnion(c), Min(|c|, U8_MAX))
  }

  /** `x * w`, skipped when the weight is zero, is `x * w`. */
  method Add(num: real, den: nat, x: real, w: nat) returns (num': real, den': nat)
    ensures num' == num + Weighted(x, w) && den' == den + w
  {
    num', den' := num, den;
    if w > 0 {
      num', den' := num + x * w as real, den + w;
    }
  }

  method Accumulate(acc: Sums, ghost c: seq<Rec>, x: Rec, codec: Codec) returns (acc': Sums)
    requires acc == SumsOf(c, codec)
    ensures acc' == SumsOf(c + [x], codec)
  {
    assert (c + [x])[..|c|] == c;
    var ci := codec.decode(x.ci);
    var bidNum, bidDen := Add(acc.bidNum, acc.bidDen, x.bid, x.vbid);
    var askNum, askDen := Add(acc.askNum, acc.askDen, x.ask, x.vask);
    var ciNum, ciDen := Add(acc.ciNum, acc.ciDen, Square(ci), CiWeight(x));
    acc' := Sums(
      bidNum, bidDen, askNum, askDen,
      Min(acc.vbid + x.vbid, U32_MAX), Min(acc.vask + x.vask, U32_MAX),
      ciNum, ciDen, Min(acc.ticks + x.ticks, U16_MAX),
      Max(acc.confidence, x.confidence), Max(acc.accepted, x.accepted), Max(acc.rejected, x.rejected),
      acc.flags | x.flags, Min(acc.count + 1, U8_MAX));
  }

  /** The merged record from the sums of its bin. */
  function Settle(c: seq<Rec>, acc: Sums, target: nat, codec: Codec): (r: Rec)
    requires c != [] && target > 0 && acc == SumsOf(c, codec)
    ensures r == Merged(c, target, codec)
  {
    var bid := if acc.bidDen > 0 then acc.bidNum / acc.bidDen as real else PriceSum(c, BidSide) / |c| as real;
    var ask := if acc.askDen > 0 then acc.askNum / acc.askDen as real else PriceSum(c, AskSide) / |c| as real;
    var ci := if acc.ciDen > 0 then codec.encodeSqrt(acc.ciNum / acc.ciDen as real) else Largest(c, Ci);
    Rec(BinStart(c[0].ts, target), c[0].ticker, c[0].provider, Max(acc.count, 1), 0, bid, ask,
        acc.vbid, acc.vask, ci, acc.ticks, acc.confidence, acc.accepted, acc.rejected,
        acc.flags | FLAG_IDX_HEALED)
  }

  method MergeChunk(c: seq<Rec>, target: nat, codec: Codec) returns (r: Result<Rec, MergeError>)
    requires target > 0
    ensures c == [] ==> r == Err(EmptyChunk)
    ensures c != [] ==> r == if OneTicker(c) then Ok(Merged(c, target, codec)) else Err(TickerMismatch)
  {
    if c == [] {
      return Err(EmptyChunk);
    }
    var acc := Sums(0.0, 0, 0.0, 0, 0, 0, 0.0, 0, 0, 0, 0, 0, 0, 0);
    for n := 0 to |c|
      invariant OneTicker(c[..n])
      invariant acc == SumsOf(c[..n], codec)
    {
      if c[n].ticker != c[0].ticker {
        return Err(TickerMismatch);
      }
      acc := Accumulate(acc, c[..n], c[n], codec);
      assert c[..n] + [c[n]] == c[..n + 1];
    }
    assert c[..|c|] == c;
    r := Ok(Settle(c, acc, target, codec));
  }

  // ---------- what a merged record says about its bin ----------

  predicate Within(low: real, high: real, num: real, den: real) { low * den <= num <= high * den }

  lemma StepWithin(low: real, high: real, num: real, den: real, p: real, w: nat)
    requires Within(low, high, num, den) && low <= p <= high
    ensures Within(low, high, num + Weighted(p, w), den + w as real)
  {
    RealMulMono(low, p, w as real);
    RealMulMono(p, high, w as real);
    RealMulAdd(low, den, w as real);
    RealMulAdd(high, den, w as real);
  }

  lemma {:induction false} PricedBounded(c: seq<Rec>, s: Side, low: real, high: real)
    requires forall r :: r in c ==> low <= Price(r, s) <= high
    ensures Within(low, high, PricedSum(c, s), VolumeSum(c, s) as real)
  {
    if c != [] {
      var front, last := c[..|c| - 1], c[|c| - 1];
      PricedBounded(front, s, low, high);
      assert last in c;
      StepWithin(low, high, PricedSum(front, s), VolumeSum(front, s) as real, Price(last, s), Volume(last, s));
    }
  }

  lemma {:induction false} PricesBounded(c: seq<Rec>, s: Side, low: real, high: real)
    requires forall r :: r in c ==> low <= Price(r, s) <= high
    ensures Within(low, high, PriceSum(c, s), |c| as real)
  {
    if c != [] {
      var front, last := c[..|c| - 1], c[|c| - 1];
      PricesBounded(front, s, low, high);
      assert last in c;
      StepWithin(low, high, PriceSum(front, s), |front| as real, Price(last, s), 1);
    }
  }

  lemma RealMulMono(a: real, b: real, v: real)
    requires a <= b && v >= 0.0
    ensures a * v <= b * v
  {
  }

  lemma RealMulAdd(a: real, x: real, y: real)
    ensures a * (x + y) == a * x + a * y
  {
  }

  lemma Quotient(low: real, high: real, num: real, den: real)
    requires den > 0.0 && Within(low, high, num, den)
    ensures low <= num / den <= high
  {
    var q := num / den;
    assert q * den == num;
    if q < low {
      RealMulStrict(q, low, den);
      assert false;
    }
    if high < q {
      RealMulStrict(high, q, den);
      assert false;
    }
  }

  lemma RealMulStrict(a: real, b: real, v: real)
    requires v > 0.0
    ensures a < b ==> a * v < b * v
  {
  }

  /** A merged price lies between the lowest and highest price of its bin. */
  lemma MergedPriceInRange(c: seq<Rec>, s: Side, low: real, high: real)
    requires c != []
    requires forall r :: r in c ==> low <= Price(r, s) <= high
    ensures low <= Pooled(c, s) <= high
  {
    if VolumeSum(c, s) > 0 {
      PricedBounded(c, s, low, high);
      Quotient(low, high, PricedSum(c, s), VolumeSum(c, s) as real);
    } else {
      PricesBounded(c, s, low, high);
      Quotient(low, high, PriceSum(c, s), |c| as real);
    }
  }

  /** A price over one record is its own; over two parts of a bin it is their volume-weighted mean, or when
      nothing has volume their mean by records. */
  lemma PooledWeighs(a: seq<Rec>, b: seq<Rec>, s: Side)
    requires a != [] && b != []
    ensures VolumeSum(a + b, s) == VolumeSum(a, s) + VolumeSum(b, s)
    ensures VolumeSum(a, s) > 0 && VolumeSum(b, s) > 0 ==>
              Weighted(Pooled(a + b, s), VolumeSum(a + b, s))
              == Weighted(Pooled(a, s), VolumeSum(a, s)) + Weighted(Pooled(b, s), VolumeSum(b, s))
    ensures VolumeSum(a, s) == 0 && VolumeSum(b, s) == 0 ==>
              Weighted(Pooled(a + b, s), |a + b|) == Weighted(Pooled(a, s), |a|) + Weighted(Pooled(b, s), |b|)
  {
    SidesAdd(a, b, s);
    PooledTimes(a, s);
    PooledTimes(b, s);
    PooledTimes(a + b, s);
  }

  /** Records without volume do not move a price that has some. */
  lemma PooledIgnoresEmpty(a: seq<Rec>, b: seq<Rec>, s: Side)
    requires a != [] && VolumeSum(a, s) > 0 && VolumeSum(b, s) == 0
    ensures Pooled(a + b, s) == Pooled(a, s)
  {
    SidesAdd(a, b, s);
    NoVolume(b, s);
  }

  lemma OneRecordSums(r: Rec, s: Side)
    ensures VolumeSum([r], s) == Volume(r, s) && PriceSum([r], s) == Price(r, s)
    ensures PricedSum([r], s) == Weighted(Price(r, s), Volume(r, s))
  {
    var c := [r];
    assert c[..|c| - 1] == [] && c[|c| - 1] == r;
  }

  lemma PooledOneSide(r: Rec, s: Side)
    ensures Pooled([r], s) == Price(r, s)
  {
    OneRecordSums(r, s);
    if Volume(r, s) > 0 {
      Quotient(Price(r, s), Price(r, s), Weighted(Price(r, s), Volume(r, s)), Volume(r, s) as real);
    }
  }

  lemma PooledOne(r: Rec)
    ensures Pooled([r], BidSide) == r.bid && VolumeSum([r], BidSide) == r.vbid
    ensures Pooled([r], AskSide) == r.ask && VolumeSum([r], AskSide) == r.vask
  {
    PooledOneSide(r, BidSide);
    PooledOneSide(r, AskSide);
    OneRecordSums(r, BidSide);
    OneRecordSums(r, AskSide);
  }

  lemma PooledTimes(c: seq<Rec>, s: Side)
    requires c != []
    ensures VolumeSum(c, s) > 0 ==> Weighted(Pooled(c, s), VolumeSum(c, s)) == PricedSum(c, s)
    ensures VolumeSum(c, s) == 0 ==> Weighted(Pooled(c, s), |c|) == PriceSum(c, s)
  {
    if VolumeSum(c, s) > 0 {
      MeanOf(PricedSum(c, s), VolumeSum(c, s));
    } else {
      MeanOf(PriceSum(c, s), |c|);
    }
  }

  lemma {:induction false} SidesAdd(a: seq<Rec>, b: seq<Rec>, s: Side)
    ensures VolumeSum(a + b, s) == VolumeSum(a, s) + VolumeSum(b, s)
    ensures PricedSum(a + b, s) == PricedSum(a, s) + PricedSum(b, s)
    ensures PriceSum(a + b, s) == PriceSum(a, s) + PriceSum(b, s)
  {
    if b == [] {
      assert a + b == a;
    } else {
      assert (a + b)[..|a + b| - 1] == a + b[..|b| - 1];
      SidesAdd(a, b[..|b| - 1], s);
    }
  }

  lemma {:induction false} NoVolume(c: seq<Rec>, s: Side)
    ensures VolumeSum(c, s) == 0 ==> PricedSum(c, s) == 0.0
  {
    if c != [] {
      NoVolume(c[..|c| - 1], s);
    }
  }

  /** The weight of a confidence interval over a bin. */
  lemma {:induction false} CiAdds(a: seq<Rec>, b: seq<Rec>, codec: Codec)
    ensures CiWeightSum(a + b) == CiWeightSum(a) + CiWeightSum(b)
    ensures CiSquares(a + b, codec) == CiSquares(a, codec) + CiSquares(b, codec)
    ensures TickSum(a + b) == TickSum(a) + TickSum(b)
  {
    if b == [] {
      assert a + b == a;
    } else {
      assert (a + b)[..|a + b| - 1] == a + b[..|b| - 1];
      CiAdds(a, b[..|b| - 1], codec);
    }
  }

  lemma {:induction false} LargestIs(c: seq<Rec>, f: Field)
    ensures forall i :: 0 <= i < |c| ==> Get(c[i], f) <= Largest(c, f)
    ensures c != [] ==> exists i :: 0 <= i < |c| && Get(c[i], f) == Largest(c, f)
  {
    if c != [] {
      var front, last := c[..|c| - 1], c[|c| - 1];
      LargestIs(front, f);
      if Largest(front, f) > Get(last, f) {
        assert front != [];
        var i :| 0 <= i < |front| && Get(front[i], f) == Largest(front, f);
        assert c[i] == front[i];
      } else {
        assert Get(c[|c| - 1], f) == Largest(c, f);
      }
    }
  }

  /** The rest of a merged record: its bin starts at the last multiple of the width not after its first
      record; volumes, ticks and the number of records are sums up to the width of their field; confidence
      and source counts are the largest of the bin. */
  lemma MergedFields(c: seq<Rec>, target: nat, codec: Codec)
    requires c != [] && target > 0
    ensures var m := Merged(c, target, codec);
            && m.ts % target == 0 && m.ts <= c[0].ts < m.ts + target
            && m.ticker == c[0].ticker && m.provider == c[0].provider && m.sequence == 0
            && m.count == Min(|c|, 255) && m.ticks == Min(TickSum(c), 0xffff)
            && m.vbid == Min(VolumeSum(c, BidSide), 0xffff_ffff) && m.vask == Min(VolumeSum(c, AskSide), 0xffff_ffff)
            && m.bid == Pooled(c, BidSide) && m.ask == Pooled(c, AskSide)
            && (forall i :: 0 <= i < |c| ==>
                  c[i].confidence <= m.confidence && c[i].accepted <= m.accepted && c[i].rejected <= m.rejected)
            && (exists i :: 0 <= i < |c| && c[i].confidence == m.confidence)
            && (exists i :: 0 <= i < |c| && c[i].accepted == m.accepted)
            && (exists i :: 0 <= i < |c| && c[i].rejected == m.rejected)
  {
    LargestIs(c, Confidence);
    LargestIs(c, Accepted);
    LargestIs(c, Rejected);
    BinStartIs(c[0].ts, target);
    forall i | 0 <= i < |c|
      ensures c[i].confidence <= Largest(c, Confidence) && c[i].accepted <= Largest(c, Accepted)
           && c[i].rejected <= Largest(c, Rejected)
    {
      assert Get(c[i], Confidence) == c[i].confidence && Get(c[i], Accepted) == c[i].accepted
          && Get(c[i], Rejected) == c[i].rejected;
    }
    var i :| 0 <= i < |c| && Get(c[i], Confidence) == Largest(c, Confidence);
    var j :| 0 <= j < |c| && Get(c[j], Accepted) == Largest(c, Accepted);
    var k :| 0 <= k < |c| && Get(c[k], Rejected) == Largest(c, Rejected);
    assert c[i].confidence == Largest(c, Confidence) && c[j].accepted == Largest(c, Accepted)
        && c[k].rejected == Largest(c, Rejected);
  }

  lemma BinStartIs(ts: nat, target: nat)
    requires target > 0
    ensures BinStart(ts, target) % target == 0 && BinStart(ts, target) <= ts < BinStart(ts, target) + target
  {
    DivModOf(BinStart(ts, target), target, ts / target, 0);
  }

  /** One record's weight is its volume as a 32-bit sum or, without any, its ticks. */
  lemma CiOfOne(r: Rec, codec: Codec)
    ensures CiWeightSum([r]) == if (r.vbid + r.vask) % 0x1_0000_0000 == 0 then r.ticks else (r.vbid + r.vask) % 0x1_0000_0000
    ensures CiSquares([r], codec) == Weighted(codec.decode(r.ci) * codec.decode(r.ci), CiWeightSum([r]))
    ensures TickSum([r]) == r.ticks
  {
    var c := [r];
    assert c[..|c| - 1] == [] && c[|c| - 1] == r;
  }

  /** The confidence interval of a merged record is the root of the weighted mean of the squares, or the
      largest of the bin when nothing weighs. */
  lemma MergedCi(c: seq<Rec>, target: nat, codec: Codec)
    requires c != [] && target > 0
    ensures CiWeightSum(c) == 0 ==> Merged(c, target, codec).ci == Largest(c, Ci)
    ensures CiWeightSum(c) > 0 ==>
              exists mean :: Weighted(mean, CiWeightSum(c)) == CiSquares(c, codec)
                          && Merged(c, target, codec).ci == codec.encodeSqrt(mean)
  {
    if CiWeightSum(c) > 0 {
      MeanOf(CiSquares(c, codec), CiWeightSum(c));
    }
  }

  lemma MeanOf(sum: real, w: nat)
    requires w > 0
    ensures Weighted(sum / w as real, w) == sum
  {
  }

  predicate Has(flags: bv8, mask: bv8) { flags & mask != 0 }

  /** A merged record carries exactly the flags some record of its bin carried, and the healed one. */
  lemma MergedFlags(c: seq<Rec>, target: nat, codec: Codec, mask: bv8)
    requires c != [] && target > 0
    ensures Has(Merged(c, target, codec).flags, mask)
       <==> mask & 0x10 != 0 || exists i :: 0 <= i < |c| && Has(c[i].flags, mask)
  {
    FlagUnionBits(c, mask);
    OrBits(FlagUnion(c), FLAG_IDX_HEALED, mask);
    assert Has(FLAG_IDX_HEALED, mask) <==> mask & 0x10 != 0;
  }

  lemma OrBits(a: bv8, b: bv8, mask: bv8)
    ensures Has(a | b, mask) <==> Has(a, mask) || Has(b, mask)
  {
  }

  lemma {:induction false} FlagUnionBits(c: seq<Rec>, mask: bv8)
    ensures Has(FlagUnion(c), mask) <==> exists i :: 0 <= i < |c| && Has(c[i].flags, mask)
  {
    if c != [] {
      var front := c[..|c| - 1];
      FlagUnionBits(front, mask);
      OrBits(FlagUnion(front), c[|c| - 1].flags, mask);
      assert forall i :: 0 <= i < |front| ==> front[i] == c[i];
    }
  }

  // ---------- whole shards ----------

  /** One output record of a bin; `keepSingles` leaves a lone record as it is. */
  function BinOut(c: seq<Rec>, target: nat, codec: Codec, keepSingles: bool): Rec
    requires c != [] && target > 0
  {
    if keepSingles && |c| == 1 then c[0] else Merged(c, target, codec)
  }

  ghost predicate Live(recs: seq<Rec>, target: nat, keys: seq<int>)
    requires target > 0
  {
    forall key :: key in keys ==> Chunk(recs, Bin(target), key) != []
  }

  function OutFor(recs: seq<Rec>, target: nat, codec: Codec, keepSingles: bool, keys: seq<int>): (out: seq<Rec>)
    requires target > 0 && Live(recs, target, keys)
    ensures |out| == |keys|
  {
    if keys == [] then []
    else
      assert keys[|keys| - 1] in keys;
      OutFor(recs, target, codec, keepSingles, keys[..|keys| - 1])
      + [BinOut(Chunk(recs, Bin(target), keys[|keys| - 1]), target, codec, keepSingles)]
  }

  /** The bins of a shard, ascending: resampled, or only deduplicated when `keepSingles`. */
  function Binned(recs: seq<Rec>, target: nat, codec: Codec, keepSingles: bool): seq<Rec>
    requires target > 0
  {
    KeysShape(recs, Bin(target));
    OutFor(recs, target, codec, keepSingles, Keys(recs, Bin(target)))
  }

  method BinShard(recs: seq<Rec>, target: nat, codec: Codec, keepSingles: bool)
    returns (r: Result<seq<Rec>, MergeError>)
    requires target > 0 && OneTicker(recs)
    ensures r == Ok(Binned(recs, target, codec, keepSingles))
  {
    var keys, chunks := Group(recs, Bin(target));
    KeysShape(recs, Bin(target));
    var out := [];
    for n := 0 to |keys|
      invariant out == OutFor(recs, target, codec, keepSingles, keys[..n])
    {
      var c := chunks[keys[n]];
      ChunkOneTicker(recs, Bin(target), keys[n]);
      assert keys[..n + 1][..n] == keys[..n];
      if keepSingles && |c| == 1 {
        out := out + [c[0]];
      } else {
        var m := MergeChunk(c, target, codec);
        out := out + [m.value];
      }
    }
    assert keys[..|keys|] == keys;
    r := Ok(out);
  }

  lemma BinStartFixed(ts: nat, target: nat)
    requires target > 0
    ensures BinStart(BinStart(ts, target), target) == BinStart(ts, target)
    ensures BinStart(ts, target) <= ts < BinStart(ts, target) + target
  {
    DivModOf(BinStart(ts, target), target, ts / target, 0);
  }

  /** Each output lies in the bin it was made from. */
  lemma {:induction false} OutBins(recs: seq<Rec>, target: nat, codec: Codec, keepSingles: bool, keys: seq<int>)
    requires target > 0 && Live(recs, target, keys)
    ensures forall i :: 0 <= i < |keys| ==>
              BinStart(OutFor(recs, target, codec, keepSingles, keys)[i].ts, target) == keys[i]
  {
    if keys != [] {
      var key := keys[|keys| - 1];
      var c := Chunk(recs, Bin(target), key);
      assert key in keys;
      OutBins(recs, target, codec, keepSingles, keys[..|keys| - 1]);
      ChunkMembers(recs, Bin(target), key);
      assert c[0] in c;
      BinStartFixed(c[0].ts, target);
    }
  }

  ghost predicate OnePerBin(out: seq<Rec>, target: nat)
    requires target > 0
  {
    forall i, j :: 0 <= i < j < |out| ==> BinStart(out[i].ts, target) < BinStart(out[j].ts, target)
  }

  ghost predicate Occurs(s: seq<Rec>, target: nat, b: int)
    requires target > 0
  {
    exists r :: r in s && BinStart(r.ts, target) == b
  }

  lemma BinnedIsOnePerBin(recs: seq<Rec>, target: nat, codec: Codec, keepSingles: bool)
    requires target > 0
    ensures OnePerBin(Binned(recs, target, codec, keepSingles), target)
    ensures forall b :: Occurs(recs, target, b) <==> Occurs(Binned(recs, target, codec, keepSingles), target, b)
  {
    var keys := Keys(recs, Bin(target));
    var out := Binned(recs, target, codec, keepSingles);
    KeysShape(recs, Bin(target));
    OutBins(recs, target, codec, keepSingles, keys);
    forall b
      ensures Occurs(recs, target, b) <==> Occurs(out, target, b)
    {
      KeysOccur(recs, target, b);
      if b in keys {
        var j :| 0 <= j < |keys| && keys[j] == b;
        assert out[j] in out && BinStart(out[j].ts, target) == b;
      }
      if Occurs(out, target, b) {
        var j :| 0 <= j < |out| && BinStart(out[j].ts, target) == b;
        assert keys[j] in keys;
      }
    }
  }

  lemma KeysOccur(recs: seq<Rec>, target: nat, b: int)
    requires target > 0
    ensures b in Keys(recs, Bin(target)) <==> Occurs(recs, target, b)
  {
    KeysShape(recs, Bin(target));
    ChunkMembers(recs, Bin(target), b);
    if b in Keys(recs, Bin(target)) {
      assert Chunk(recs, Bin(target), b)[0] in Chunk(recs, Bin(target), b);
    }
    if Occurs(recs, target, b) {
      var i :| 0 <= i < |recs| && BinStart(recs[i].ts, target) == b;
      assert KeyOf(Bin(target), recs[i]) == b;
    }
  }

  lemma {:induction false} OnePerBinKeys(s: seq<Rec>, target: nat)
    requires target > 0 && OnePerBin(s, target)
    ensures |Keys(s, Bin(target))| == |s|
    ensures forall i :: 0 <= i < |s| ==> Keys(s, Bin(target))[i] == BinStart(s[i].ts, target)
  {
    if s != [] {
      var front, b := s[..|s| - 1], BinStart(s[|s| - 1].ts, target);
      OnePerBinKeys(front, target);
      InsertLast(Keys(front, Bin(target)), b);
    }
  }

  lemma InsertLast(keys: seq<int>, x: int)
    requires keys != [] ==> keys[|keys| - 1] < x
    ensures InsertKey(keys, x) == keys + [x]
  {
  }

  lemma {:induction false} OnePerBinChunks(s: seq<Rec>, target: nat, i: nat)
    requires target > 0 && OnePerBin(s, target) && i < |s|
    ensures Chunk(s, Bin(target), BinStart(s[i].ts, target)) == [s[i]]
  {
    var front := s[..|s| - 1];
    if i == |front| {
      NoChunk(front, Bin(target), BinStart(s[i].ts, target));
    } else {
      OnePerBinChunks(front, target, i);
    }
  }

  /** Deduplication fixes every sequence that already has one record per bin. */
  lemma DedupeFixes(s: seq<Rec>, target: nat, codec: Codec)
    requires target > 0 && OnePerBin(s, target)
    ensures Binned(s, target, codec, true) == s
  {
    var keys := Keys(s, Bin(target));
    KeysShape(s, Bin(target));
    OnePerBinKeys(s, target);
    forall i | 0 <= i < |s| ensures Chunk(s, Bin(target), keys[i]) == [s[i]] {
      OnePerBinChunks(s, target, i);
    }
    DedupePrefix(s, target, codec, keys, |s|);
    assert s[..|s|] == s && keys[..|keys|] == keys;
  }

  lemma {:induction false} DedupePrefix(s: seq<Rec>, target: nat, codec: Codec, keys: seq<int>, n: nat)
    requires target > 0 && n <= |s| == |keys| && Live(s, target, keys[..n])
    requires forall i :: 0 <= i < |s| ==> Chunk(s, Bin(target), keys[i]) == [s[i]]
    ensures OutFor(s, target, codec, true, keys[..n]) == s[..n]
  {
    if n > 0 {
      assert keys[..n][..n - 1] == keys[..n - 1];
      DedupePrefix(s, target, codec, keys, n - 1);
      assert s[..n] == s[..n - 1] + [s[n - 1]];
    }
  }

  /** Deduplicating twice is deduplicating once, and a resampled shard has nothing to deduplicate. */
  lemma DedupeIsIdempotent(recs: seq<Rec>, target: nat, codec: Codec, keepSingles: bool)
    requires target > 0
    ensures var out := Binned(recs, target, codec, keepSingles);
            Binned(out, target, codec, true) == out
  {
    BinnedIsOnePerBin(recs, target, codec, keepSingles);
    DedupeFixes(Binned(recs, target, codec, keepSingles), target, codec);
  }

  ghost predicate SameDayBins(target: nat)
    requires target > 0
  {
    forall ts: nat :: DayOf(BinStart(ts, target)) == DayOf(ts)
  }

  /** No bin crosses a UTC midnight exactly when the bin width divides a day. */
  lemma BinsStayInDayExactlyForDivisors(target: nat)
    requires target > 0
    ensures SameDayBins(target) <==> MS_PER_DAY % target == 0
  {
    if MS_PER_DAY % target == 0 {
      forall ts: nat
        ensures DayOf(BinStart(ts, target)) == DayOf(ts)
      {
        BinInDay(ts, target);
      }
    }
    if SameDayBins(target) {
      assert DayOf(BinStart(MS_PER_DAY, target)) == DayOf(MS_PER_DAY) == 1;
      BinStartFixed(MS_PER_DAY, target);
      assert BinStart(MS_PER_DAY, target) == MS_PER_DAY;
    }
  }

  lemma BinInDay(ts: nat, target: nat)
    requires target > 0 && MS_PER_DAY % target == 0
    ensures DayOf(BinStart(ts, target)) == DayOf(ts)
  {
    var d := DayOf(ts);
    var perDay := MS_PER_DAY / target;
    var first := d * perDay;
    assert DayStart(d) == first * target by {
      assert MS_PER_DAY == perDay * target;
      assert d * (perDay * target) == (d * perDay) * target;
    }
    var q := ts / target;
    BinStartFixed(ts, target);
    if q < first {
      MulMono(q + 1, first, target);
      assert false;
    }
    MulMono(first, q, target);
    InDay(BinStart(ts, target), d);
  }
}
