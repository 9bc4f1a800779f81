/**
  Healing a ticker's shard tree: every closed shard is filtered, sorted, binned and re-routed to
  the UTC day of each output record, merging into a staging tree that then replaces the live
  one. Reads and writes succeed; the cadence detection only decides `resampled`.
*/
module HealTicker {
  import opened Wrappers
  import opened Calendar
  import opened IdxRecord
  import opened BinMerge

  datatype Shard = Shard(date: int, recs: seq<Rec>)

  type Tree = map<int, seq<Rec>>

  datatype Config = Config(ticker: nat, target: nat, codec: Codec, resampled: bool)

  datatype HealError = BadTarget | NoShards | NothingClosed

  function Content(t: Tree, d: int): seq<Rec>
  {
    if d in t then t[d] else []
  }

  // ---------- one source shard ----------

  function OfTicker(recs: seq<Rec>, ticker: nat): seq<Rec>
  {
    if recs == [] then []
    else OfTicker(recs[..|recs| - 1], ticker) + if recs[|recs| - 1].ticker == ticker then [recs[|recs| - 1]] else []
  }

  /** The header every healed record gets; its sequence number is the sentinel 0. */
  function Restamp(r: Rec): Rec { r.(count := Max(r.count, 1), sequence := 0) }

  function RestampAll(recs: seq<Rec>): seq<Rec>
  {
    if recs == [] then [] else RestampAll(recs[..|recs| - 1]) + [Restamp(recs[|recs| - 1])]
  }

  /** What one source shard contributes to the staging tree. */
  function ShardOut(recs: seq<Rec>, c: Config): seq<Rec>
    requires c.target > 0
  {
    RestampAll(Binned(SortByTs(OfTicker(recs, c.ticker)), c.target, c.codec, !c.resampled))
  }

  lemma {:induction false} RestampAt(recs: seq<Rec>, i: nat)
    requires i < |recs|
    ensures |RestampAll(recs)| == |recs| && RestampAll(recs)[i] == Restamp(recs[i])
  {
    if i < |recs| - 1 {
      RestampAt(recs[..|recs| - 1], i);
    } else if i > 0 {
      RestampAt(recs[..|recs| - 1], 0);
    }
  }

  /** A healed record is its bin's output, stamped with sequence 0 and a count of at least one. */
  lemma HealedHeader(recs: seq<Rec>, c: Config, i: nat)
    requires c.target > 0
    ensures var bins := Binned(SortByTs(OfTicker(recs, c.ticker)), c.target, c.codec, !c.resampled);
            && (i < |ShardOut(recs, c)| <==> i < |bins|)
            && (i < |bins| ==>
                  var r, o := bins[i], ShardOut(recs, c)[i];
                  && o == r.(count := o.count, sequence := 0)
                  && (r.count >= 1 ==> o.count == r.count) && (r.count == 0 ==> o.count == 1))
  {
    var bins := Binned(SortByTs(OfTicker(recs, c.ticker)), c.target, c.codec, !c.resampled);
    RestampTs(bins);
    if i < |bins| {
      RestampAt(bins, i);
    }
  }

  lemma {:induction false} OfTickerMembers(recs: seq<Rec>, ticker: nat)
    ensures forall r :: r in OfTicker(recs, ticker) <==> r in recs && r.ticker == ticker
  {
    if recs != [] {
      assert recs == recs[..|recs| - 1] + [recs[|recs| - 1]];
      OfTickerMembers(recs[..|recs| - 1], ticker);
    }
  }

  lemma SortedOneTicker(recs: seq<Rec>, ticker: nat)
    ensures OneTicker(SortByTs(OfTicker(recs, ticker)))
  {
    OfTickerMembers(recs, ticker);
    var s := SortByTs(OfTicker(recs, ticker));
    forall i | 0 <= i < |s|
      ensures s[i].ticker == ticker
    {
      assert s[i] in multiset(s);
    }
  }

  method HealShard(recs: seq<Rec>, c: Config) returns (r: Result<seq<Rec>, MergeError>)
    requires c.target > 0
    ensures r == Ok(ShardOut(recs, c))
  {
    var mine := SelectTicker(recs, c.ticker);
    if mine == [] {
      return Ok([]);
    }
    SortedOneTicker(recs, c.ticker);
    var binned := BinShard(SortByTs(mine), c.target, c.codec, !c.resampled);
    var out := RestampEach(binned.value);
    r := Ok(out);
  }

  method SelectTicker(recs: seq<Rec>, ticker: nat) returns (mine: seq<Rec>)
    ensures mine == OfTicker(recs, ticker)
  {
    mine := [];
    for n := 0 to |recs|
      invariant mine == OfTicker(recs[..n], ticker)
    {
      assert recs[..n + 1][..n] == recs[..n];
      if recs[n].ticker == ticker {
        mine := mine + [recs[n]];
      }
    }
    assert recs[..|recs|] == recs;
  }

  method RestampEach(recs: seq<Rec>) returns (out: seq<Rec>)
    ensures out == RestampAll(recs)
  {
    out := [];
    for n := 0 to |recs|
      invariant out == RestampAll(recs[..n])
    {
      assert recs[..n + 1][..n] == recs[..n];
      out := out + [Restamp(recs[n])];
    }
    assert recs[..|recs|] == recs;
  }

  // ---------- the staging tree ----------

  class Staging {
    var shards: Tree

    constructor ()
      ensures shards == map[]
    {
      shards := map[];
    }

    /** Merges into a staging shard, keeping what an earlier source shard put there. */
    method MergeInto(d: int, recs: seq<Rec>)
      requires recs != []
      modifies this
      ensures shards == old(shards)[d := MergeDay(Content(old(shards), d), recs)]
    {
      var all := recs;
      if d in shards {
        all := shards[d] + recs;
      } else {
        assert [] + recs == recs;
      }
      shards := shards[d := SortByTs(all)];
    }

    method RouteNext(ghost start: Tree, ghost out: seq<Rec>, ghost done: seq<int>, key: int, part: seq<Rec>)
      requires key !in done && part == Chunk(out, Day, key) && part != []
      requires Routed(start, shards, out, done)
      modifies this
      ensures Routed(start, shards, out, done + [key])
    {
      MergeInto(key, part);
      RoutedStep(start, old(shards), shards, out, done, key);
    }

    /** Routes one shard's outputs to the shards of their own UTC days. */
    method FanOut(out: seq<Rec>)
      modifies this
      ensures Routed(old(shards), shards, out, Keys(out, Day))
    {
      var keys, byDate := Group(out, Day);
      for n := 0 to |keys|
        invariant Routed(old(shards), shards, out, keys[..n])
      {
        NextDay(out, keys, n);
        RouteNext(old(shards), out, keys[..n], keys[n], byDate[keys[n]]);
        assert keys[..n + 1] == keys[..n] + [keys[n]];
      }
      assert keys[..|keys|] == keys;
    }
  }

  lemma NextDay(out: seq<Rec>, keys: seq<int>, n: nat)
    requires keys == Keys(out, Day) && n < |keys|
    ensures keys[n] !in keys[..n] && keys[n] in keys && Chunk(out, Day, keys[n]) != []
  {
    KeysShape(out, Day);
    NotYet(keys, n);
  }

  /** The days in `done` have their part of `out` merged in; every other day is as it was. */
  ghost predicate Routed(before: Tree, after: Tree, out: seq<Rec>, done: seq<int>)
  {
    forall d :: Content(after, d) == RoutedTo(before, out, done, d)
  }

  function RoutedTo(before: Tree, out: seq<Rec>, done: seq<int>, d: int): seq<Rec>
  {
    if d in done then MergeDay(Content(before, d), Chunk(out, Day, d)) else Content(before, d)
  }

  lemma NotYet(keys: seq<int>, n: nat)
    requires StrictlyUp(keys) && n < |keys|
    ensures keys[n] !in keys[..n]
  {
  }

  lemma RoutedStep(start: Tree, before: Tree, after: Tree, out: seq<Rec>, done: seq<int>, key: int)
    requires key !in done && Routed(start, before, out, done)
    requires after == before[key := MergeDay(Content(before, key), Chunk(out, Day, key))]
    ensures Routed(start, after, out, done + [key])
  {
    forall d
      ensures Content(after, d) == RoutedTo(start, out, done + [key], d)
    {
      assert Content(before, d) == RoutedTo(start, out, done, d);
      if d == key {
        assert RoutedTo(start, out, done, d) == Content(start, d);
      }
    }
  }

  function MergeDay(existing: seq<Rec>, part: seq<Rec>): seq<Rec>
  {
    if part == [] then existing else SortByTs(existing + part)
  }

  lemma DayKeys(out: seq<Rec>, d: int)
    ensures d in Keys(out, Day) <==> Chunk(out, Day, d) != []
  {
    KeysShape(out, Day);
    ChunkMembers(out, Day, d);
    if Chunk(out, Day, d) != [] {
      var r := Chunk(out, Day, d)[0];
      assert r in Chunk(out, Day, d);
      var i :| 0 <= i < |out| && out[i] == r;
      assert KeyOf(Day, out[i]) == d;
    }
  }

  /** The staging shard of day `d` after the given source shards. */
  function StagedAfter(shards: seq<Shard>, c: Config, d: int): seq<Rec>
    requires c.target > 0
  {
    if shards == [] then []
    else MergeDay(StagedAfter(shards[..|shards| - 1], c, d), Chunk(ShardOut(shards[|shards| - 1].recs, c), Day, d))
  }

  // ---------- the whole tree ----------

  function Closed(all: seq<Shard>, today: int): seq<Shard>
  {
    if all == [] then []
    else Closed(all[..|all| - 1], today) + if all[|all| - 1].date < today then [all[|all| - 1]] else []
  }

  /** The shard that is carried over verbatim: the first dated today or later. */
  function Carried(all: seq<Shard>, today: int): Option<Shard>
  {
    if all == [] then None
    else if all[0].date >= today then Some(all[0])
    else Carried(all[1..], today)
  }

  method Partition(all: seq<Shard>, today: int) returns (closed: seq<Shard>, carried: Option<Shard>)
    ensures closed == Closed(all, today) && carried == Carried(all, today)
  {
    closed, carried := [], None;
    for n := 0 to |all|
      invariant closed == Closed(all[..n], today) && carried == Carried(all[..n], today)
    {
      assert all[..n + 1] == all[..n] + [all[n]];
      CarriedSnoc(all[..n], all[n], today);
      if all[n].date < today {
        closed := closed + [all[n]];
      } else if carried.None? {
        carried := Some(all[n]);
      }
    }
    assert all[..|all|] == all;
  }

  ghost predicate IsStaged(t: Tree, closed: seq<Shard>, c: Config)
    requires c.target > 0
  {
    forall d :: Content(t, d) == StagedAfter(closed, c, d)
  }

  function HealedDay(all: seq<Shard>, c: Config, today: int, d: int): seq<Rec>
    requires c.target > 0
  {
    var carried := Carried(all, today);
    if d == today && carried.Some? then carried.value.recs else StagedAfter(Closed(all, today), c, d)
  }

  lemma StagedStep(before: Tree, after: Tree, closed: seq<Shard>, c: Config)
    requires c.target > 0 && closed != []
    requires IsStaged(before, closed[..|closed| - 1], c)
    requires var out := ShardOut(closed[|closed| - 1].recs, c); Routed(before, after, out, Keys(out, Day))
    ensures IsStaged(after, closed, c)
  {
    var out := ShardOut(closed[|closed| - 1].recs, c);
    forall d
      ensures Content(after, d) == StagedAfter(closed, c, d)
    {
      DayKeys(out, d);
    }
  }

  method StageAll(closed: seq<Shard>, c: Config) returns (t: Tree)
    requires c.target > 0
    ensures IsStaged(t, closed, c)
  {
    var staging := new Staging();
    for n := 0 to |closed|
      invariant IsStaged(staging.shards, closed[..n], c)
    {
      assert closed[..n + 1][..n] == closed[..n];
      ghost var before := staging.shards;
      var out := HealShard(closed[n].recs, c);
      staging.FanOut(out.value);
      StagedStep(before, staging.shards, closed[..n + 1], c);
    }
    assert closed[..|closed|] == closed;
    t := staging.shards;
  }

  /** What the promoted tree holds: today's file is the carried shard when there is one. */
  ghost predicate IsHealed(tree: Tree, all: seq<Shard>, c: Config, today: int)
    requires c.target > 0
  {
    forall d :: Content(tree, d) == HealedDay(all, c, today, d)
  }

  lemma Promoted(staged: Tree, tree: Tree, all: seq<Shard>, c: Config, today: int)
    requires c.target > 0 && IsStaged(staged, Closed(all, today), c)
    requires var carried := Carried(all, today);
             tree == if carried.Some? then staged[today := carried.value.recs] else staged
    ensures IsHealed(tree, all, c, today)
  {
    forall d
      ensures Content(tree, d) == HealedDay(all, c, today, d)
    {
      assert Content(staged, d) == StagedAfter(Closed(all, today), c, d);
    }
  }

  method Heal(all: seq<Shard>, target: int, ticker: nat, codec: Codec, resampled: bool, today: int)
    returns (r: Result<Tree, HealError>)
    ensures r == Err(BadTarget) <==> target <= 0
    ensures r == Err(NoShards) <==> target > 0 && all == []
    ensures r == Err(NothingClosed) <==> target > 0 && all != [] && Closed(all, today) == []
    ensures r.Ok? ==> target > 0 && IsHealed(r.value, all, Config(ticker, target, codec, resampled), today)
  {
    if target <= 0 {
      return Err(BadTarget);
    }
    if all == [] {
      return Err(NoShards);
    }
    var closed, carried := Partition(all, today);
    if closed == [] {
      return Err(NothingClosed);
    }
    var c := Config(ticker, target, codec, resampled);
    var staged := StageAll(closed, c);
    var tree := if carried.Some? then staged[today := carried.value.recs] else staged;
    Promoted(staged, tree, all, c, today);
    r := Ok(tree);
  }

  lemma {:induction false} CarriedSnoc(all: seq<Shard>, s: Shard, today: int)
    ensures Carried(all + [s], today) ==
            if Carried(all, today).Some? then Carried(all, today) else if s.date >= today then Some(s) else None
    ensures Closed(all + [s], today) == Closed(all, today) + if s.date < today then [s] else []
    decreases |all|
  {
    assert (all + [s])[..|all|] == all;
    if all == [] {
      assert Carried([s][1..], today) == None;
    } else {
      assert (all + [s])[1..] == all[1..] + [s];
      CarriedSnoc(all[1..], s, today);
    }
  }

  // ---------- main results ----------

  /** The part of each shard's outputs that belongs to day `d`. */
  ghost function Parts(c: Config, d: int): Shard -> multiset<Rec>
    requires c.target > 0
  {
    (s: Shard) => multiset(Chunk(ShardOut(s.recs, c), Day, d))
  }

  ghost function Sum(f: Shard -> multiset<Rec>, shards: seq<Shard>): multiset<Rec>
  {
    if shards == [] then multiset{} else Sum(f, shards[..|shards| - 1]) + f(shards[|shards| - 1])
  }

  /** All outputs of the source shards that belong to day `d`. */
  ghost function DayTotal(shards: seq<Shard>, c: Config, d: int): multiset<Rec>
    requires c.target > 0
  {
    Sum(Parts(c, d), shards)
  }

  /** A staged day is exactly the bin outputs of that day, each once, sorted by time: nothing an
      earlier source shard staged is lost. */
  lemma {:induction false} StagedIsDayTotal(shards: seq<Shard>, c: Config, d: int)
    requires c.target > 0
    ensures multiset(StagedAfter(shards, c, d)) == DayTotal(shards, c, d)
    ensures SortedByTs(StagedAfter(shards, c, d))
  {
    if shards != [] {
      var front := shards[..|shards| - 1];
      StagedIsDayTotal(front, c, d);
      var part := Chunk(ShardOut(shards[|shards| - 1].recs, c), Day, d);
      SortSorts(StagedAfter(front, c, d) + part);
    }
  }

  lemma {:induction false} SumWithout(f: Shard -> multiset<Rec>, shards: seq<Shard>, i: nat)
    requires i < |shards|
    ensures Sum(f, shards) == Sum(f, shards[..i] + shards[i + 1..]) + f(shards[i])
  {
    var front, last := shards[..|shards| - 1], shards[|shards| - 1];
    var rest := shards[..i] + shards[i + 1..];
    if i == |front| {
      assert rest == front;
    } else {
      SumWithout(f, front, i);
      assert rest[..|rest| - 1] == front[..i] + front[i + 1..];
      assert rest[|rest| - 1] == last;
    }
  }

  lemma TakeOut(b: seq<Shard>, x: Shard) returns (i: nat)
    requires x in multiset(b)
    ensures i < |b| && b[i] == x
    ensures multiset(b[..i] + b[i + 1..]) == multiset(b) - multiset{x}
  {
    i :| 0 <= i < |b| && b[i] == x;
    assert b == b[..i] + [b[i]] + b[i + 1..];
    assert multiset(b) == multiset(b[..i] + b[i + 1..]) + multiset{x};
  }

  lemma {:induction false} SumPermuted(f: Shard -> multiset<Rec>, a: seq<Shard>, b: seq<Shard>)
    requires multiset(a) == multiset(b)
    ensures Sum(f, a) == Sum(f, b)
    decreases |a|
  {
    if a == [] {
      assert |multiset(b)| == 0;
    } else {
      var front, last := a[..|a| - 1], a[|a| - 1];
      assert a == front + [last];
      assert multiset(front) == multiset(a) - multiset{last};
      var i := TakeOut(b, last);
      SumPermuted(f, front, b[..i] + b[i + 1..]);
      SumWithout(f, b, i);
    }
  }

  /** The staged records of a day do not depend on the order of the source shards. */
  lemma SourceOrderIsIrrelevant(a: seq<Shard>, b: seq<Shard>, c: Config, d: int)
    requires c.target > 0 && multiset(a) == multiset(b)
    ensures multiset(StagedAfter(a, c, d)) == multiset(StagedAfter(b, c, d))
  {
    StagedIsDayTotal(a, c, d);
    StagedIsDayTotal(b, c, d);
    SumPermuted(Parts(c, d), a, b);
  }

  lemma NothingAdded(m: multiset<Rec>, extra: multiset<Rec>)
    ensures m == extra + m <==> extra == multiset{}
  {
    if m == extra + m {
      assert |extra + m| == |extra| + |m|;
      assert |extra| == 0;
    }
  }

  /** What the healed tree holds for a day, as a multiset. */
  lemma HealedContent(all: seq<Shard>, c: Config, today: int, tree: Tree, d: int)
    requires c.target > 0 && IsHealed(tree, all, c, today)
    ensures var carried := Carried(all, today);
            multiset(Content(tree, d)) ==
              if d == today && carried.Some? then multiset(carried.value.recs) else DayTotal(Closed(all, today), c, d)
  {
    assert Content(tree, d) == HealedDay(all, c, today, d);
    StagedIsDayTotal(Closed(all, today), c, d);
  }

  // ---------- where an output lands, from the source records alone ----------

  /** The timestamp of the output that a record of the ticker goes into: its own when it is deduplicated
      alone in its bin, otherwise the start of its bin. */
  function LandingTs(recs: seq<Rec>, r: Rec, c: Config): nat
    requires c.target > 0
  {
    if !c.resampled && |Chunk(OfTicker(recs, c.ticker), Bin(c.target), BinStart(r.ts, c.target))| == 1 then r.ts
    else BinStart(r.ts, c.target)
  }

  /** Some record of the ticker in this shard ends up on day `d`. */
  ghost predicate LandsOn(s: Shard, c: Config, d: int)
    requires c.target > 0
  {
    exists r :: r in s.recs && r.ticker == c.ticker && DayOf(LandingTs(s.recs, r, c)) == d
  }

  /** When the bin width divides a day a record lands on its own day. */
  lemma LandsOnOwnDay(s: Shard, c: Config, d: int)
    requires c.target > 0 && MS_PER_DAY % c.target == 0
    ensures LandsOn(s, c, d) <==> exists r :: r in s.recs && r.ticker == c.ticker && DayOf(r.ts) == d
  {
    forall r | r in s.recs
      ensures DayOf(LandingTs(s.recs, r, c)) == DayOf(r.ts)
    {
      BinInDay(r.ts, c.target);
    }
  }

  lemma {:induction false} ChunkCounts(recs: seq<Rec>, k: Key, key: int)
    requires ValidKey(k)
    ensures forall r :: multiset(Chunk(recs, k, key))[r] == if KeyOf(k, r) == key then multiset(recs)[r] else 0
  {
    if recs != [] {
      ChunkCounts(recs[..|recs| - 1], k, key);
      assert recs == recs[..|recs| - 1] + [recs[|recs| - 1]];
    }
  }

  /** What is in a bin does not depend on the order of the records. */
  lemma ChunkOfPermuted(a: seq<Rec>, b: seq<Rec>, k: Key, key: int)
    requires ValidKey(k) && multiset(a) == multiset(b)
    ensures |Chunk(a, k, key)| == |Chunk(b, k, key)|
  {
    ChunkCounts(a, k, key);
    ChunkCounts(b, k, key);
    var x, y := Chunk(a, k, key), Chunk(b, k, key);
    assert multiset(x) == multiset(y);
    assert |multiset(x)| == |x| && |multiset(y)| == |y|;
  }

  lemma {:induction false} RestampTs(recs: seq<Rec>)
    ensures |RestampAll(recs)| == |recs|
    ensures forall i :: 0 <= i < |recs| ==> RestampAll(recs)[i].ts == recs[i].ts
  {
    if recs != [] {
      RestampTs(recs[..|recs| - 1]);
    }
  }

  lemma {:induction false} OutAt(recs: seq<Rec>, target: nat, codec: Codec, keep: bool, keys: seq<int>, i: nat)
    requires target > 0 && Live(recs, target, keys) && i < |keys|
    ensures keys[i] in keys
    ensures OutFor(recs, target, codec, keep, keys)[i] == BinOut(Chunk(recs, Bin(target), keys[i]), target, codec, keep)
  {
    if i < |keys| - 1 {
      OutAt(recs, target, codec, keep, keys[..|keys| - 1], i);
    }
  }

  lemma DayPartEmpty(out: seq<Rec>, d: int)
    ensures Chunk(out, Day, d) == [] <==> forall i :: 0 <= i < |out| ==> DayOf(out[i].ts) != d
  {
    ChunkMembers(out, Day, d);
    if Chunk(out, Day, d) != [] {
      var r := Chunk(out, Day, d)[0];
      assert r in Chunk(out, Day, d);
    }
    forall i | 0 <= i < |out| && DayOf(out[i].ts) == d
      ensures Chunk(out, Day, d) != []
    {
      assert out[i] in Chunk(out, Day, d);
    }
  }

  /** What goes into the bins of a shard. */
  function Binnable(recs: seq<Rec>, ticker: nat): seq<Rec> { SortByTs(OfTicker(recs, ticker)) }

  lemma BinnableMembers(recs: seq<Rec>, ticker: nat, r: Rec)
    ensures r in Binnable(recs, ticker) <==> r in recs && r.ticker == ticker
  {
    OfTickerMembers(recs, ticker);
    assert r in multiset(Binnable(recs, ticker)) <==> r in multiset(OfTicker(recs, ticker));
  }

  lemma OutTs(x: seq<Rec>, target: nat, codec: Codec, keep: bool, i: nat)
    requires target > 0 && i < |Keys(x, Bin(target))|
    ensures var chunk := Chunk(x, Bin(target), Keys(x, Bin(target))[i]);
            chunk != [] && Binned(x, target, codec, keep)[i].ts
                           == if keep && |chunk| == 1 then chunk[0].ts else Keys(x, Bin(target))[i]
  {
    var keys := Keys(x, Bin(target));
    KeysShape(x, Bin(target));
    OutAt(x, target, codec, keep, keys, i);
    ChunkMembers(x, Bin(target), keys[i]);
    var chunk := Chunk(x, Bin(target), keys[i]);
    assert keys[i] in keys;
    assert chunk[0] in chunk;
  }

  /** The output of the i-th bin carries the landing timestamp of every record of that bin. */
  lemma OutLands(recs: seq<Rec>, c: Config, i: nat, r: Rec)
    requires c.target > 0 && i < |Keys(Binnable(recs, c.ticker), Bin(c.target))|
    requires r in Chunk(Binnable(recs, c.ticker), Bin(c.target), Keys(Binnable(recs, c.ticker), Bin(c.target))[i])
    ensures Binned(Binnable(recs, c.ticker), c.target, c.codec, !c.resampled)[i].ts == LandingTs(recs, r, c)
  {
    var x := Binnable(recs, c.ticker);
    var key := Keys(x, Bin(c.target))[i];
    OutTs(x, c.target, c.codec, !c.resampled, i);
    ChunkMembers(x, Bin(c.target), key);
    assert KeyOf(Bin(c.target), r) == key;
    ChunkOfPermuted(x, OfTicker(recs, c.ticker), Bin(c.target), key);
  }

  /** A shard contributes to a day exactly when one of its records lands there. */
  lemma ContributesExactly(s: Shard, c: Config, d: int)
    requires c.target > 0
    ensures Chunk(ShardOut(s.recs, c), Day, d) == [] <==> !LandsOn(s, c, d)
  {
    var x := Binnable(s.recs, c.ticker);
    var keys := Keys(x, Bin(c.target));
    var out := Binned(x, c.target, c.codec, !c.resampled);
    KeysShape(x, Bin(c.target));
    RestampTs(out);
    DayPartEmpty(ShardOut(s.recs, c), d);
    if LandsOn(s, c, d) {
      var r :| r in s.recs && r.ticker == c.ticker && DayOf(LandingTs(s.recs, r, c)) == d;
      var i := BinOf(s.recs, c, r);
      OutLands(s.recs, c, i, r);
      assert DayOf(ShardOut(s.recs, c)[i].ts) == d;
    }
    forall i | 0 <= i < |out| && DayOf(out[i].ts) == d
      ensures LandsOn(s, c, d)
    {
      var chunk := Chunk(x, Bin(c.target), keys[i]);
      assert keys[i] in keys;
      var r := chunk[0];
      assert r in chunk;
      ChunkMembers(x, Bin(c.target), keys[i]);
      BinnableMembers(s.recs, c.ticker, r);
      OutLands(s.recs, c, i, r);
    }
  }

  lemma BinOf(recs: seq<Rec>, c: Config, r: Rec) returns (i: nat)
    requires c.target > 0 && r in recs && r.ticker == c.ticker
    ensures var keys := Keys(Binnable(recs, c.ticker), Bin(c.target));
            i < |keys| && r in Chunk(Binnable(recs, c.ticker), Bin(c.target), keys[i])
  {
    var x := Binnable(recs, c.ticker);
    var keys := Keys(x, Bin(c.target));
    BinnableMembers(recs, c.ticker, r);
    KeysShape(x, Bin(c.target));
    var j :| 0 <= j < |x| && x[j] == r;
    assert KeyOf(Bin(c.target), x[j]) in keys;
    i :| 0 <= i < |keys| && keys[i] == BinStart(r.ts, c.target);
    ChunkMembers(x, Bin(c.target), keys[i]);
  }

  lemma {:induction false} SumIsEmpty(f: Shard -> multiset<Rec>, shards: seq<Shard>)
    ensures Sum(f, shards) == multiset{} <==> forall i :: 0 <= i < |shards| ==> f(shards[i]) == multiset{}
  {
    if shards != [] {
      SumIsEmpty(f, shards[..|shards| - 1]);
      NoneOfBoth(Sum(f, shards[..|shards| - 1]), f(shards[|shards| - 1]));
    }
  }

  lemma NoneOfBoth(a: multiset<Rec>, b: multiset<Rec>)
    ensures a + b == multiset{} <==> a == multiset{} && b == multiset{}
  {
    assert |a + b| == |a| + |b|;
  }

  /** Nothing is staged for a day exactly when no record of the source shards lands there. */
  lemma NothingStagedExactly(shards: seq<Shard>, c: Config, d: int)
    requires c.target > 0
    ensures DayTotal(shards, c, d) == multiset{} <==> forall i :: 0 <= i < |shards| ==> !LandsOn(shards[i], c, d)
  {
    SumIsEmpty(Parts(c, d), shards);
    forall i | 0 <= i < |shards|
      ensures Parts(c, d)(shards[i]) == multiset{} <==> !LandsOn(shards[i], c, d)
    {
      ContributesExactly(shards[i], c, d);
    }
  }

  // ---------- conservation over the whole tree ----------

  /** The records of the shards dated `d`, if that is today or later. */
  ghost function OpenTotal(all: seq<Shard>, today: int, d: int): multiset<Rec>
  {
    if all == [] then multiset{}
    else
      var last := all[|all| - 1];
      OpenTotal(all[..|all| - 1], today, d) + if last.date == d >= today then multiset(last.recs) else multiset{}
  }

  /** Each day of the healed tree holds the ticker's bin outputs stamped with that day and the records of a
      shard that was already there and is not healed: none of these is lost, added or filed elsewhere. An
      output may be stamped with an earlier day than its records (`HealOwnDay` decides when), and other
      tickers' records have none. */
  ghost predicate Conserved(all: seq<Shard>, c: Config, today: int, tree: Tree)
    requires c.target > 0
  {
    forall d :: DayKept(all, c, today, tree, d)
  }

  ghost predicate DayKept(all: seq<Shard>, c: Config, today: int, tree: Tree, d: int)
    requires c.target > 0
  {
    multiset(Content(tree, d)) == DayTotal(Closed(all, today), c, d) + OpenTotal(all, today, d)
  }

  /** One file a day. */
  predicate DistinctDates(all: seq<Shard>)
  {
    forall i, j :: 0 <= i < j < |all| ==> all[i].date != all[j].date
  }

  lemma {:induction false} OpenIsEmpty(all: seq<Shard>, today: int, d: int)
    ensures OpenTotal(all, today, d) == multiset{} <==>
            forall i :: 0 <= i < |all| && all[i].date == d >= today ==> all[i].recs == []
  {
    if all != [] {
      var last := all[|all| - 1];
      OpenIsEmpty(all[..|all| - 1], today, d);
      NoneOfBoth(OpenTotal(all[..|all| - 1], today, d), if last.date == d >= today then multiset(last.recs) else multiset{});
      EmptyContent(last.recs);
    }
  }

  lemma EmptyContent(recs: seq<Rec>)
    ensures multiset(recs) == multiset{} <==> recs == []
  {
    assert |multiset(recs)| == |recs|;
  }

  lemma {:induction false} OpenIsShard(all: seq<Shard>, today: int, i: nat)
    requires DistinctDates(all) && i < |all| && all[i].date >= today
    ensures OpenTotal(all, today, all[i].date) == multiset(all[i].recs)
  {
    var front := all[..|all| - 1];
    if i == |all| - 1 {
      OpenIsEmpty(front, today, all[i].date);
    } else {
      OpenIsShard(front, today, i);
    }
  }

  lemma {:induction false} CarriedAt(all: seq<Shard>, today: int)
    ensures Carried(all, today).None? <==> forall i :: 0 <= i < |all| ==> all[i].date < today
    ensures Carried(all, today).Some? ==> exists i :: 0 <= i < |all| && all[i].date >= today && Carried(all, today) == Some(all[i])
  {
    if all != [] && all[0].date < today {
      CarriedAt(all[1..], today);
      assert forall i :: 0 < i < |all| ==> all[i] == all[1..][i - 1];
      if Carried(all, today).Some? {
        var j :| 0 <= j < |all[1..]| && all[1..][j].date >= today && Carried(all[1..], today) == Some(all[1..][j]);
        assert all[j + 1] == all[1..][j];
      }
    }
  }

  lemma {:induction false} ClosedMembers(all: seq<Shard>, today: int)
    ensures forall s :: s in Closed(all, today) <==> s in all && s.date < today
  {
    if all != [] {
      ClosedMembers(all[..|all| - 1], today);
      assert all == all[..|all| - 1] + [all[|all| - 1]];
    }
  }

  /** No shard that is not closed has records, but for the carried one if it is today's; and if one is
      carried, no record of a closed shard lands on today. All of it read off the source tree. */
  ghost predicate NothingToLose(all: seq<Shard>, c: Config, today: int)
    requires c.target > 0
  {
    && (forall i :: 0 <= i < |all| && all[i].date >= today && all[i].recs != [] ==>
          all[i].date == today && Carried(all, today) == Some(all[i]))
    && (Carried(all, today).None? || forall i :: 0 <= i < |all| && all[i].date < today ==> !LandsOn(all[i], c, today))
  }

  lemma NoneLandsToday(all: seq<Shard>, c: Config, today: int)
    requires c.target > 0
    ensures DayTotal(Closed(all, today), c, today) == multiset{} <==>
            forall i :: 0 <= i < |all| && all[i].date < today ==> !LandsOn(all[i], c, today)
  {
    var closed := Closed(all, today);
    NothingStagedExactly(closed, c, today);
    ClosedMembers(all, today);
    assert forall i :: 0 <= i < |closed| ==> closed[i] in closed;
    assert forall i :: 0 <= i < |all| ==> all[i] in all;
  }

  /** What keeping a day comes to once a shard is carried. */
  ghost predicate Keepable(all: seq<Shard>, c: Config, today: int, d: int)
    requires c.target > 0 && Carried(all, today).Some?
  {
    if d == today then
      multiset(Carried(all, today).value.recs) == DayTotal(Closed(all, today), c, d) + OpenTotal(all, today, d)
    else OpenTotal(all, today, d) == multiset{}
  }

  lemma DayWhenCarried(all: seq<Shard>, c: Config, today: int, tree: Tree, d: int)
    requires c.target > 0 && IsHealed(tree, all, c, today) && Carried(all, today).Some?
    ensures DayKept(all, c, today, tree, d) <==> Keepable(all, c, today, d)
  {
    HealedContent(all, c, today, tree, d);
    NothingAdded(DayTotal(Closed(all, today), c, d), OpenTotal(all, today, d));
  }

  lemma ConservedIfNothingToLose(all: seq<Shard>, c: Config, today: int, tree: Tree)
    requires c.target > 0 && IsHealed(tree, all, c, today) && DistinctDates(all) && Carried(all, today).Some?
    requires NothingToLose(all, c, today)
    ensures Conserved(all, c, today, tree)
  {
    forall d ensures DayKept(all, c, today, tree, d) {
      if d == today {
        TodayKeepable(all, c, today);
      } else {
        OpenIsEmpty(all, today, d);
      }
      DayWhenCarried(all, c, today, tree, d);
    }
  }

  lemma TodayKeepable(all: seq<Shard>, c: Config, today: int)
    requires c.target > 0 && DistinctDates(all) && Carried(all, today).Some? && NothingToLose(all, c, today)
    ensures Keepable(all, c, today, today)
  {
    NoneLandsToday(all, c, today);
    CarriedAt(all, today);
    var i :| 0 <= i < |all| && all[i].date >= today && Carried(all, today) == Some(all[i]);
    if all[i].date == today {
      OpenIsShard(all, today, i);
    } else {
      OpenIsEmpty(all, today, today);
    }
  }

  lemma NothingToLoseIfConserved(all: seq<Shard>, c: Config, today: int, tree: Tree)
    requires c.target > 0 && IsHealed(tree, all, c, today) && DistinctDates(all) && Carried(all, today).Some?
    requires Conserved(all, c, today, tree)
    ensures NothingToLose(all, c, today)
  {
    CarriedAt(all, today);
    var i :| 0 <= i < |all| && all[i].date >= today && Carried(all, today) == Some(all[i]);
    var staged, open := DayTotal(Closed(all, today), c, today), OpenTotal(all, today, today);
    assert DayKept(all, c, today, tree, today) && DayKept(all, c, today, tree, all[i].date);
    DayWhenCarried(all, c, today, tree, today);
    DayWhenCarried(all, c, today, tree, all[i].date);
    OpenIsShard(all, today, i);
    if all[i].date == today {
      NothingAdded(open, staged);
    } else {
      NoneOfBoth(staged, open);
    }
    NoneLandsToday(all, c, today);
    forall j | 0 <= j < |all| && all[j].date >= today && all[j].recs != []
      ensures all[j].date == today && Carried(all, today) == Some(all[j])
    {
      assert DayKept(all, c, today, tree, all[j].date);
      DayWhenCarried(all, c, today, tree, all[j].date);
      OpenIsShard(all, today, j);
      EmptyContent(all[j].recs);
    }
  }

  /** Healing keeps every bin output under its own timestamp's day, and every unhealed shard, if and only
      if there was nothing to lose. */
  lemma HealConservesExactlyWhen(all: seq<Shard>, c: Config, today: int, tree: Tree)
    requires c.target > 0 && IsHealed(tree, all, c, today) && DistinctDates(all)
    ensures Conserved(all, c, today, tree) <==> NothingToLose(all, c, today)
  {
    CarriedAt(all, today);
    if Carried(all, today).None? {
      forall d ensures DayKept(all, c, today, tree, d) {
        HealedContent(all, c, today, tree, d);
        OpenIsEmpty(all, today, d);
      }
    } else if NothingToLose(all, c, today) {
      ConservedIfNothingToLose(all, c, today, tree);
    } else if Conserved(all, c, today, tree) {
      NothingToLoseIfConserved(all, c, today, tree);
    }
  }

  ghost predicate InDateOrder(all: seq<Shard>)
  {
    forall i, j :: 0 <= i < j < |all| ==> all[i].date < all[j].date
  }

  /** In a tree listed by date, with a bin width that divides a day: every shard dated after today is
      empty, and either all shards are closed or no closed one has a record of the ticker dated today. */
  lemma HealConservesInDateOrder(all: seq<Shard>, c: Config, today: int, tree: Tree)
    requires c.target > 0 && MS_PER_DAY % c.target == 0 && IsHealed(tree, all, c, today) && InDateOrder(all)
    ensures Conserved(all, c, today, tree) <==>
            && (forall i :: 0 <= i < |all| && all[i].date > today ==> all[i].recs == [])
            && ((forall i :: 0 <= i < |all| ==> all[i].date < today)
                || forall i, r :: 0 <= i < |all| && all[i].date < today && r in all[i].recs && r.ticker == c.ticker ==>
                     DayOf(r.ts) != today)
  {
    HealConservesExactlyWhen(all, c, today, tree);
    CarriedAt(all, today);
    forall i | 0 <= i < |all|
      ensures LandsOn(all[i], c, today) <==> exists r :: r in all[i].recs && r.ticker == c.ticker && DayOf(r.ts) == today
    {
      LandsOnOwnDay(all[i], c, today);
    }
    forall i | 0 <= i < |all| && all[i].date == today
      ensures Carried(all, today) == Some(all[i])
    {
      CarriedIsTodays(all, today, i);
    }
  }

  /** A tree listed by date carries today's own shard if it has one. */
  lemma {:induction false} CarriedIsTodays(all: seq<Shard>, today: int, i: nat)
    requires InDateOrder(all) && i < |all| && all[i].date == today
    ensures Carried(all, today) == Some(all[i])
  {
    if i > 0 {
      CarriedIsTodays(all[1..], today, i - 1);
    }
  }

  /** A shard dated after today never keeps its records under its own date; if it is the one carried they
      are found under today's. */
  lemma LaterShardIsNotKept(all: seq<Shard>, c: Config, today: int, tree: Tree, s: Shard)
    requires c.target > 0 && IsHealed(tree, all, c, today) && s.date > today
    ensures Content(tree, s.date) == StagedAfter(Closed(all, today), c, s.date)
    ensures Carried(all, today) == Some(s) ==> Content(tree, today) == s.recs
  {
    assert Content(tree, s.date) == HealedDay(all, c, today, s.date);
    assert Content(tree, today) == HealedDay(all, c, today, today);
  }

  // ---------- inputs that lose records ----------

  lemma OneClosed(recs: seq<Rec>, c: Config, d: int)
    requires c.target > 0
    ensures DayTotal([Shard(0, recs)], c, d) == multiset{} <==> !LandsOn(Shard(0, recs), c, d)
  {
    NothingStagedExactly([Shard(0, recs)], c, d);
    assert [Shard(0, recs)][0] == Shard(0, recs);
  }

  lemma OneRecordLands(c: Config, r: Rec, d: int)
    requires c.target > 0 && MS_PER_DAY % c.target == 0 && r.ticker == c.ticker
    ensures LandsOn(Shard(0, [r]), c, d) <==> DayOf(r.ts) == d
  {
    LandsOnOwnDay(Shard(0, [r]), c, d);
    assert r in [r];
  }

  lemma StagedFromOne(c: Config, r: Rec, d: int)
    requires c.target > 0 && MS_PER_DAY % c.target == 0 && r.ticker == c.ticker
    ensures DayTotal([Shard(0, [r])], c, d) == multiset{} <==> DayOf(r.ts) != d
    ensures DayOf(r.ts) != d ==> StagedAfter([Shard(0, [r])], c, d) == []
  {
    OneClosed([r], c, d);
    OneRecordLands(c, r, d);
    StagedIsDayTotal([Shard(0, [r])], c, d);
    EmptyContent(StagedAfter([Shard(0, [r])], c, d));
  }

  /** The healed tree when the only closed shard is one record of today and a live shard is carried. */
  lemma OverwrittenTree(all: seq<Shard>, c: Config, r: Rec, live: seq<Rec>, tree: Tree, d: int)
    requires c.target > 0 && MS_PER_DAY % c.target == 0 && r.ticker == c.ticker && DayOf(r.ts) == 1
    requires Closed(all, 1) == [Shard(0, [r])] && Carried(all, 1) == Some(Shard(1, live)) && IsHealed(tree, all, c, 1)
    ensures Content(tree, d) == if d == 1 then live else []
  {
    assert Content(tree, d) == HealedDay(all, c, 1, d);
    StagedFromOne(c, r, d);
  }

  lemma OverwrittenIsLost(all: seq<Shard>, c: Config, r: Rec, live: seq<Rec>, tree: Tree)
    requires c.target > 0 && MS_PER_DAY % c.target == 0 && r.ticker == c.ticker && DayOf(r.ts) == 1
    requires Closed(all, 1) == [Shard(0, [r])] && Carried(all, 1) == Some(Shard(1, live)) && IsHealed(tree, all, c, 1)
    requires OpenTotal(all, 1, 1) == multiset(live)
    ensures DayTotal(Closed(all, 1), c, 1) != multiset{} && !Conserved(all, c, 1, tree)
  {
    StagedFromOne(c, r, 1);
    NothingAdded(multiset(live), DayTotal(Closed(all, 1), c, 1));
    DayWhenCarried(all, c, 1, tree, 1);
  }

  /** A closed shard holds a record of the next day, today: the live shard's copy replaces it. */
  lemma StagedTodayIsOverwritten(c: Config, r: Rec, live: seq<Rec>, all: seq<Shard>, tree: Tree, d: int)
    requires c.target > 0 && MS_PER_DAY % c.target == 0 && r.ticker == c.ticker && DayOf(r.ts) == 1
    requires |all| == 2 && all[0] == Shard(0, [r]) && all[1] == Shard(1, live) && IsHealed(tree, all, c, 1)
    ensures DayTotal(Closed(all, 1), c, 1) != multiset{}
    ensures Content(tree, d) == if d == 1 then live else []
    ensures !Conserved(all, c, 1, tree)
  {
    TwoShardTree(all, 1);
    OverwrittenIsLost(all, c, r, live, tree);
    OverwrittenTree(all, c, r, live, tree, d);
  }

  lemma TwoShardTree(all: seq<Shard>, today: int)
    requires |all| == 2 && all[0].date < today <= all[1].date
    ensures Closed(all, today) == [all[0]] && Carried(all, today) == Some(all[1])
    ensures OpenTotal(all, today, all[1].date) == multiset(all[1].recs)
  {
    assert all == [all[0], all[1]];
    TwoShards(all[0], all[1], today);
    OpenIsShard(all, today, 1);
  }

  lemma TwoShards(a: Shard, b: Shard, today: int)
    requires a.date < today <= b.date
    ensures Closed([a, b], today) == [a] && Carried([a, b], today) == Some(b)
  {
    assert [a, b][..1] == [a] && [a][..0] == [] && [a, b][1..] == [b];
    assert Closed([a], today) == [a];
  }

  lemma ThreeShards(a: Shard, b: Shard, z: Shard, today: int)
    requires a.date < today <= b.date && today <= z.date
    ensures Closed([a, b, z], today) == [a] && Carried([a, b, z], today) == Some(b)
  {
    assert [a, b, z] == [a, b] + [z];
    CarriedSnoc([a, b], z, today);
    TwoShards(a, b, today);
  }

  lemma NothingFromNothing(c: Config, d: int)
    requires c.target > 0
    ensures StagedAfter([Shard(0, [])], c, d) == []
  {
    OneClosed([], c, d);
    StagedIsDayTotal([Shard(0, [])], c, d);
    EmptyContent(StagedAfter([Shard(0, [])], c, d));
  }

  /** Next to today's shard one dated tomorrow is dropped with its records. */
  lemma LaterShardIsDropped(c: Config, x: seq<Rec>, y: seq<Rec>, all: seq<Shard>, tree: Tree)
    requires c.target > 0 && y != []
    requires all == [Shard(0, []), Shard(1, x), Shard(2, y)] && IsHealed(tree, all, c, 1)
    ensures Content(tree, 1) == x && forall d :: d != 1 ==> Content(tree, d) == []
    ensures !Conserved(all, c, 1, tree)
  {
    ThreeShards(all[0], all[1], all[2], 1);
    forall d ensures Content(tree, d) == if d == 1 then x else [] {
      assert Content(tree, d) == HealedDay(all, c, 1, d);
      NothingFromNothing(c, d);
    }
    HealConservesExactlyWhen(all, c, 1, tree);
  }

  /** Without a shard for today one dated tomorrow is filed under today's name. */
  lemma LaterShardIsMisfiled(c: Config, y: seq<Rec>, all: seq<Shard>, tree: Tree)
    requires c.target > 0 && y != []
    requires all == [Shard(0, []), Shard(2, y)] && IsHealed(tree, all, c, 1)
    ensures Content(tree, 1) == y && Content(tree, 2) == []
    ensures !Conserved(all, c, 1, tree)
  {
    TwoShards(all[0], all[1], 1);
    NothingFromNothing(c, 2);
    LaterShardIsNotKept(all, c, 1, tree, all[1]);
    HealConservesExactlyWhen(all, c, 1, tree);
  }

  // ---------- binning commutes with routing by day ----------

  lemma Memberless(s: seq<int>)
    ensures (forall x :: x !in s) ==> s == []
  {
    if s != [] {
      var x := s[0];
      assert x in s;
    }
  }

  lemma {:induction false} UpUnique(a: seq<int>, b: seq<int>)
    requires StrictlyUp(a) && StrictlyUp(b)
    requires forall x :: x in a <==> x in b
    ensures a == b
  {
    if a == [] {
      Memberless(b);
    } else {
      assert a[|a| - 1] in b && b != [];
      var la, lb := a[|a| - 1], b[|b| - 1];
      assert lb in a;
      assert la == lb;
      var fa, fb := a[..|a| - 1], b[..|b| - 1];
      forall x
        ensures x in fa <==> x in fb
      {
        assert x in fa <==> x in a && x != la;
        assert x in fb <==> x in b && x != lb;
      }
      UpUnique(fa, fb);
    }
  }

  function KeysOfDay(keys: seq<int>, d: int): seq<int>
  {
    if keys == [] then []
    else KeysOfDay(keys[..|keys| - 1], d) + if DayOf(keys[|keys| - 1]) == d then [keys[|keys| - 1]] else []
  }

  lemma {:induction false} KeysOfDayShape(keys: seq<int>, d: int)
    ensures forall x :: x in KeysOfDay(keys, d) <==> x in keys && DayOf(x) == d
    ensures StrictlyUp(keys) ==> StrictlyUp(KeysOfDay(keys, d))
  {
    if keys != [] {
      var front, last := keys[..|keys| - 1], keys[|keys| - 1];
      assert keys == front + [last];
      KeysOfDayShape(front, d);
      var ks := KeysOfDay(front, d);
      forall i | 0 <= i < |ks| && StrictlyUp(keys)
        ensures ks[i] < last
      {
        assert ks[i] in ks;
      }
    }
  }

  /** A bin of a day holds the same records whether the shard or only that day is binned. */
  lemma {:induction false} ChunkOfDay(recs: seq<Rec>, target: nat, d: int, key: int)
    requires target > 0 && MS_PER_DAY % target == 0 && DayOf(key) == d
    ensures Chunk(Chunk(recs, Day, d), Bin(target), key) == Chunk(recs, Bin(target), key)
  {
    if recs != [] {
      var front, last := recs[..|recs| - 1], recs[|recs| - 1];
      ChunkOfDay(front, target, d, key);
      BinInDay(last.ts, target);
      var day := Chunk(front, Day, d);
      assert (day + [last])[..|day|] == day;
    }
  }

  lemma {:induction false} OutOfDay(recs: seq<Rec>, target: nat, codec: Codec, keep: bool, d: int, keys: seq<int>)
    requires target > 0 && MS_PER_DAY % target == 0 && Live(recs, target, keys)
    ensures Live(Chunk(recs, Day, d), target, KeysOfDay(keys, d))
    ensures Chunk(OutFor(recs, target, codec, keep, keys), Day, d)
         == OutFor(Chunk(recs, Day, d), target, codec, keep, KeysOfDay(keys, d))
  {
    KeysOfDayShape(keys, d);
    forall key | key in KeysOfDay(keys, d)
      ensures Chunk(Chunk(recs, Day, d), Bin(target), key) != []
    {
      ChunkOfDay(recs, target, d, key);
    }
    if keys != [] {
      var front, key := keys[..|keys| - 1], keys[|keys| - 1];
      OutOfDay(recs, target, codec, keep, d, front);
      OutBins(recs, target, codec, keep, keys);
      var out := OutFor(recs, target, codec, keep, keys);
      assert out[..|out| - 1] == OutFor(recs, target, codec, keep, front);
      BinInDay(out[|out| - 1].ts, target);
      if DayOf(key) == d {
        ChunkOfDay(recs, target, d, key);
        var ks := KeysOfDay(keys, d);
        assert ks[..|ks| - 1] == KeysOfDay(front, d);
      } else {
        assert KeysOfDay(keys, d) == KeysOfDay(front, d);
      }
    }
  }

  /** When the bin width divides a day, the outputs routed to a day are exactly the binning of that
      day's own records: no merge mixes days. */
  lemma BinningCommutesWithRouting(recs: seq<Rec>, target: nat, codec: Codec, keep: bool, d: int)
    requires target > 0 && MS_PER_DAY % target == 0
    ensures Chunk(Binned(recs, target, codec, keep), Day, d) == Binned(Chunk(recs, Day, d), target, codec, keep)
  {
    var keys := Keys(recs, Bin(target));
    var day := Chunk(recs, Day, d);
    KeysShape(recs, Bin(target));
    KeysShape(day, Bin(target));
    OutOfDay(recs, target, codec, keep, d, keys);
    KeysOfDayShape(keys, d);
    forall x
      ensures x in KeysOfDay(keys, d) <==> x in Keys(day, Bin(target))
    {
      KeyOfDay(recs, target, d, x);
    }
    UpUnique(KeysOfDay(keys, d), Keys(day, Bin(target)));
  }

  lemma KeyOfDay(recs: seq<Rec>, target: nat, d: int, key: int)
    requires target > 0 && MS_PER_DAY % target == 0
    ensures key in Keys(recs, Bin(target)) && DayOf(key) == d <==> key in Keys(Chunk(recs, Day, d), Bin(target))
  {
    var day := Chunk(recs, Day, d);
    KeysOccur(recs, target, key);
    KeysOccur(day, target, key);
    ChunkMembers(recs, Day, d);
    if Occurs(recs, target, key) && DayOf(key) == d {
      var r :| r in recs && BinStart(r.ts, target) == key;
      BinInDay(r.ts, target);
      assert r in day;
    }
    if Occurs(day, target, key) {
      var r :| r in day && BinStart(r.ts, target) == key;
      BinInDay(r.ts, target);
    }
  }
}
