/**
  Whether healing files every record under the UTC day of the record itself. An output is filed by its
  own timestamp, which is the start of its bin unless a lone record is kept, so a bin that begins on an
  earlier day takes its records there.
*/
module HealOwnDay {
  import opened Wrappers
  import opened Calendar
  import opened IdxRecord
  import opened BinMerge
  import opened HealTicker

  // ---------- one source shard ----------

  /** The i-th bin of the shard has a record dated `d`. */
  ghost predicate HoldsDay(recs: seq<Rec>, c: Config, i: nat, d: int)
    requires c.target > 0
  {
    var x := Binnable(recs, c.ticker);
    var keys := Keys(x, Bin(c.target));
    i < |keys| && exists r :: r in Chunk(x, Bin(c.target), keys[i]) && DayOf(r.ts) == d
  }

  /** The records of `out` whose index is in `on`. */
  ghost function Picked(out: seq<Rec>, on: int -> bool): multiset<Rec>
  {
    if out == [] then multiset{}
    else
      Picked(out[..|out| - 1], on) + if on(|out| - 1) then multiset{out[|out| - 1]} else multiset{}
  }

  ghost function BinsOf(recs: seq<Rec>, c: Config, d: int): int -> bool
    requires c.target > 0
  {
    i => i >= 0 && HoldsDay(recs, c, i, d)
  }

  /** The outputs of a shard whose bin has a record dated `d`. */
  ghost function OwnParts(c: Config, d: int): Shard -> multiset<Rec>
    requires c.target > 0
  {
    (s: Shard) => Picked(ShardOut(s.recs, c), BinsOf(s.recs, c, d))
  }

  /** All outputs of the source shards made of records dated `d`, whatever day they are filed under. */
  ghost function OwnTotal(shards: seq<Shard>, c: Config, d: int): multiset<Rec>
    requires c.target > 0
  {
    Sum(OwnParts(c, d), shards)
  }

  /** Every record of the ticker goes into an output of its own day; read off the shard. */
  ghost predicate StaysOnDay(recs: seq<Rec>, c: Config)
    requires c.target > 0
  {
    forall r :: r in recs && r.ticker == c.ticker ==> DayOf(LandingTs(recs, r, c)) == DayOf(r.ts)
  }

  lemma OutputOf(recs: seq<Rec>, c: Config, i: nat, r: Rec)
    requires c.target > 0 && i < |Keys(Binnable(recs, c.ticker), Bin(c.target))|
    requires r in Chunk(Binnable(recs, c.ticker), Bin(c.target), Keys(Binnable(recs, c.ticker), Bin(c.target))[i])
    ensures i < |ShardOut(recs, c)| && ShardOut(recs, c)[i].ts == LandingTs(recs, r, c)
    ensures r in recs && r.ticker == c.ticker
  {
    var x := Binnable(recs, c.ticker);
    OutLands(recs, c, i, r);
    RestampTs(Binned(x, c.target, c.codec, !c.resampled));
    ChunkMembers(x, Bin(c.target), Keys(x, Bin(c.target))[i]);
    BinnableMembers(recs, c.ticker, r);
  }

  lemma SomeInBin(recs: seq<Rec>, c: Config, i: nat) returns (r: Rec)
    requires c.target > 0 && i < |ShardOut(recs, c)|
    ensures i < |Keys(Binnable(recs, c.ticker), Bin(c.target))|
    ensures r in Chunk(Binnable(recs, c.ticker), Bin(c.target), Keys(Binnable(recs, c.ticker), Bin(c.target))[i])
  {
    var x := Binnable(recs, c.ticker);
    RestampTs(Binned(x, c.target, c.codec, !c.resampled));
    KeysShape(x, Bin(c.target));
    var keys := Keys(x, Bin(c.target));
    assert keys[i] in keys;
    r := Chunk(x, Bin(c.target), keys[i])[0];
  }

  lemma LandsOnOwn(recs: seq<Rec>, c: Config, i: nat, d: int)
    requires c.target > 0 && i < |ShardOut(recs, c)| && StaysOnDay(recs, c)
    ensures HoldsDay(recs, c, i, d) <==> DayOf(ShardOut(recs, c)[i].ts) == d
  {
    var some := SomeInBin(recs, c, i);
    OutputOf(recs, c, i, some);
    if HoldsDay(recs, c, i, d) {
      var x := Binnable(recs, c.ticker);
      var r :| r in Chunk(x, Bin(c.target), Keys(x, Bin(c.target))[i]) && DayOf(r.ts) == d;
      OutputOf(recs, c, i, r);
    }
  }

  lemma {:induction false} PickedByDay(out: seq<Rec>, on: int -> bool, d: int)
    requires forall i :: 0 <= i < |out| ==> (on(i) <==> DayOf(out[i].ts) == d)
    ensures Picked(out, on) == multiset(Chunk(out, Day, d))
  {
    if out != [] {
      PickedByDay(out[..|out| - 1], on, d);
    }
  }

  lemma {:induction false} PickedHas(out: seq<Rec>, on: int -> bool, i: nat)
    requires i < |out| && on(i)
    ensures out[i] in Picked(out, on)
  {
    if i < |out| - 1 {
      PickedHas(out[..|out| - 1], on, i);
    }
  }

  lemma {:induction false} PickedFrom(out: seq<Rec>, on: int -> bool, o: Rec) returns (i: nat)
    requires o in Picked(out, on)
    ensures i < |out| && on(i) && out[i] == o
  {
    if on(|out| - 1) && out[|out| - 1] == o {
      i := |out| - 1;
    } else {
      i := PickedFrom(out[..|out| - 1], on, o);
    }
  }

  lemma OwnIsRouted(s: Shard, c: Config, d: int)
    requires c.target > 0 && StaysOnDay(s.recs, c)
    ensures OwnParts(c, d)(s) == Parts(c, d)(s)
  {
    var out := ShardOut(s.recs, c);
    forall i | 0 <= i < |out|
      ensures BinsOf(s.recs, c, d)(i) <==> DayOf(out[i].ts) == d
    {
      LandsOnOwn(s.recs, c, i, d);
    }
    PickedByDay(out, BinsOf(s.recs, c, d), d);
  }

  /** The output of a record is among those of its day. */
  lemma OwnHas(s: Shard, c: Config, r: Rec) returns (o: Rec)
    requires c.target > 0 && r in s.recs && r.ticker == c.ticker
    ensures o in OwnParts(c, DayOf(r.ts))(s) && o.ts == LandingTs(s.recs, r, c)
  {
    var i := BinOf(s.recs, c, r);
    OutputOf(s.recs, c, i, r);
    o := ShardOut(s.recs, c)[i];
    assert HoldsDay(s.recs, c, i, DayOf(r.ts));
    PickedHas(ShardOut(s.recs, c), BinsOf(s.recs, c, DayOf(r.ts)), i);
  }

  lemma OwnIsNotLater(s: Shard, c: Config, d: int, o: Rec)
    requires c.target > 0 && o in OwnParts(c, d)(s)
    ensures DayOf(o.ts) <= d
  {
    var i := PickedFrom(ShardOut(s.recs, c), BinsOf(s.recs, c, d), o);
    var x := Binnable(s.recs, c.ticker);
    var r :| r in Chunk(x, Bin(c.target), Keys(x, Bin(c.target))[i]) && DayOf(r.ts) == d;
    OutputOf(s.recs, c, i, r);
    NotLater(s.recs, r, c);
  }

  lemma NotLater(recs: seq<Rec>, r: Rec, c: Config)
    requires c.target > 0
    ensures DayOf(LandingTs(recs, r, c)) <= DayOf(r.ts)
  {
    assert BinStart(r.ts, c.target) <= r.ts;
  }

  // ---------- sums over the shards ----------

  lemma {:induction false} SumSame(f: Shard -> multiset<Rec>, g: Shard -> multiset<Rec>, shards: seq<Shard>)
    requires forall i :: 0 <= i < |shards| ==> f(shards[i]) == g(shards[i])
    ensures Sum(f, shards) == Sum(g, shards)
  {
    if shards != [] {
      SumSame(f, g, shards[..|shards| - 1]);
    }
  }

  lemma {:induction false} SumMembers(f: Shard -> multiset<Rec>, shards: seq<Shard>, o: Rec)
    ensures o in Sum(f, shards) <==> exists i :: 0 <= i < |shards| && o in f(shards[i])
  {
    if shards != [] {
      SumMembers(f, shards[..|shards| - 1], o);
    }
  }

  lemma DayTotalOnDay(shards: seq<Shard>, c: Config, d: int, o: Rec)
    requires c.target > 0 && o in DayTotal(shards, c, d)
    ensures DayOf(o.ts) == d
  {
    SumMembers(Parts(c, d), shards, o);
    var i :| 0 <= i < |shards| && o in Parts(c, d)(shards[i]);
    ChunkMembers(ShardOut(shards[i].recs, c), Day, d);
    assert o in Chunk(ShardOut(shards[i].recs, c), Day, d);
  }

  lemma OwnTotalNotLater(shards: seq<Shard>, c: Config, d: int, o: Rec)
    requires c.target > 0 && o in OwnTotal(shards, c, d)
    ensures DayOf(o.ts) <= d
  {
    SumMembers(OwnParts(c, d), shards, o);
    var i :| 0 <= i < |shards| && o in OwnParts(c, d)(shards[i]);
    OwnIsNotLater(shards[i], c, d, o);
  }

  lemma OwnTotalHas(shards: seq<Shard>, c: Config, i: nat, r: Rec) returns (o: Rec)
    requires c.target > 0 && i < |shards| && r in shards[i].recs && r.ticker == c.ticker
    ensures o in OwnTotal(shards, c, DayOf(r.ts)) && o.ts == LandingTs(shards[i].recs, r, c)
  {
    o := OwnHas(shards[i], c, r);
    SumMembers(OwnParts(c, DayOf(r.ts)), shards, o);
  }

  // ---------- the whole tree ----------

  ghost predicate AllStay(shards: seq<Shard>, c: Config)
    requires c.target > 0
  {
    forall i :: 0 <= i < |shards| ==> StaysOnDay(shards[i].recs, c)
  }

  lemma OwnIsDayTotal(shards: seq<Shard>, c: Config, d: int)
    requires c.target > 0 && AllStay(shards, c)
    ensures OwnTotal(shards, c, d) == DayTotal(shards, c, d)
  {
    forall i | 0 <= i < |shards|
      ensures OwnParts(c, d)(shards[i]) == Parts(c, d)(shards[i])
    {
      OwnIsRouted(shards[i], c, d);
    }
    SumSame(OwnParts(c, d), Parts(c, d), shards);
  }

  /** Each day of the healed tree holds the outputs of that day's own closed records and the records of a
      shard that was already there and is not healed. */
  ghost predicate KeptOnOwnDay(all: seq<Shard>, c: Config, today: int, tree: Tree)
    requires c.target > 0
  {
    forall d :: OwnDayKept(all, c, today, tree, d)
  }

  ghost predicate OwnDayKept(all: seq<Shard>, c: Config, today: int, tree: Tree, d: int)
    requires c.target > 0
  {
    multiset(Content(tree, d)) == OwnTotal(Closed(all, today), c, d) + OpenTotal(all, today, d)
  }

  /** When everything stays on its day both ways of counting are the same. */
  lemma SameAsConserved(all: seq<Shard>, c: Config, today: int, tree: Tree)
    requires c.target > 0 && AllStay(Closed(all, today), c)
    ensures KeptOnOwnDay(all, c, today, tree) <==> Conserved(all, c, today, tree)
  {
    forall d
      ensures OwnDayKept(all, c, today, tree, d) <==> DayKept(all, c, today, tree, d)
    {
      OwnIsDayTotal(Closed(all, today), c, d);
    }
    if KeptOnOwnDay(all, c, today, tree) {
      forall d ensures DayKept(all, c, today, tree, d) {
        assert OwnDayKept(all, c, today, tree, d);
      }
    }
    if Conserved(all, c, today, tree) {
      forall d ensures OwnDayKept(all, c, today, tree, d) {
        assert DayKept(all, c, today, tree, d);
      }
    }
  }

  /** A carried shard leaves no room for closed records of today. */
  lemma NoneOfToday(all: seq<Shard>, c: Config, today: int, tree: Tree)
    requires c.target > 0 && IsHealed(tree, all, c, today) && DistinctDates(all) && Carried(all, today).Some?
    requires KeptOnOwnDay(all, c, today, tree)
    ensures OwnTotal(Closed(all, today), c, today) == multiset{}
  {
    CarriedAt(all, today);
    var i :| 0 <= i < |all| && all[i].date >= today && Carried(all, today) == Some(all[i]);
    var own := OwnTotal(Closed(all, today), c, today);
    assert OwnDayKept(all, c, today, tree, today) && OwnDayKept(all, c, today, tree, all[i].date);
    HealedContent(all, c, today, tree, today);
    OpenIsShard(all, today, i);
    if all[i].date == today {
      NothingAdded(multiset(all[i].recs), own);
    } else {
      HealedContent(all, c, today, tree, all[i].date);
      forall o
        ensures o !in own
      {
        if o in own {
          OwnTotalNotLater(Closed(all, today), c, today, o);
          assert o in multiset(all[i].recs);
          DayTotalOnDay(Closed(all, today), c, all[i].date, o);
        }
      }
      assert own == multiset{};
    }
  }

  lemma KeptMeansStays(all: seq<Shard>, c: Config, today: int, tree: Tree, i: nat, r: Rec)
    requires c.target > 0 && IsHealed(tree, all, c, today) && DistinctDates(all)
    requires KeptOnOwnDay(all, c, today, tree)
    requires i < |Closed(all, today)| && r in Closed(all, today)[i].recs && r.ticker == c.ticker
    ensures DayOf(LandingTs(Closed(all, today)[i].recs, r, c)) == DayOf(r.ts)
  {
    var d := DayOf(r.ts);
    var o := OwnTotalHas(Closed(all, today), c, i, r);
    if Carried(all, today).Some? {
      NoneOfToday(all, c, today, tree);
    }
    assert OwnDayKept(all, c, today, tree, d);
    HealedContent(all, c, today, tree, d);
    assert o in DayTotal(Closed(all, today), c, d);
    DayTotalOnDay(Closed(all, today), c, d, o);
  }

  /** Every closed record of the ticker is filed under its own day and every unhealed shard kept if and
      only if there is nothing to lose and no bin takes a record to another day. */
  lemma EveryRecordOnItsDayExactlyWhen(all: seq<Shard>, c: Config, today: int, tree: Tree)
    requires c.target > 0 && IsHealed(tree, all, c, today) && DistinctDates(all)
    ensures KeptOnOwnDay(all, c, today, tree) <==> NothingToLose(all, c, today) && AllStay(Closed(all, today), c)
  {
    var closed := Closed(all, today);
    if KeptOnOwnDay(all, c, today, tree) {
      forall i, r | 0 <= i < |closed| && r in closed[i].recs && r.ticker == c.ticker
        ensures DayOf(LandingTs(closed[i].recs, r, c)) == DayOf(r.ts)
      {
        KeptMeansStays(all, c, today, tree, i, r);
      }
    }
    if AllStay(closed, c) {
      SameAsConserved(all, c, today, tree);
      HealConservesExactlyWhen(all, c, today, tree);
    }
  }

  /** A bin width that divides a day takes no record to another day. */
  lemma DivisorsStay(shards: seq<Shard>, c: Config)
    requires c.target > 0 && MS_PER_DAY % c.target == 0
    ensures AllStay(shards, c)
  {
    forall i, r | 0 <= i < |shards| && r in shards[i].recs
      ensures DayOf(LandingTs(shards[i].recs, r, c)) == DayOf(r.ts)
    {
      BinInDay(r.ts, c.target);
    }
  }

  // ---------- trees that misfile or drop records ----------

  lemma OneRecordTree(all: seq<Shard>, c: Config, today: int, r: Rec)
    requires c.target > 0 && |all| == 1 && all[0].date < today && all[0].recs == [r] && r.ticker == c.ticker
    ensures Closed(all, today) == all && Carried(all, today).None? && DistinctDates(all)
    ensures NothingToLose(all, c, today)
  {
    assert all == [] + [all[0]] && all[1..] == [];
    CarriedAt(all, today);
    CarriedSnoc([], all[0], today);
  }

  lemma OneRecordDay(all: seq<Shard>, c: Config, today: int, tree: Tree, r: Rec, d: int)
    requires c.target > 0 && |all| == 1 && all[0].date < today && all[0].recs == [r] && r.ticker == c.ticker
    requires IsHealed(tree, all, c, today)
    ensures Content(tree, d) == [] <==> DayOf(LandingTs([r], r, c)) != d
  {
    OneRecordTree(all, c, today, r);
    HealedContent(all, c, today, tree, d);
    NothingStagedExactly(all, c, d);
    EmptyContent(Content(tree, d));
    assert r in all[0].recs;
    assert LandsOn(all[0], c, d) <==> DayOf(LandingTs([r], r, c)) == d;
  }

  /** One resampled record whose bin starts on an earlier day, as 1 ms after midnight in bins of 50 000 s:
      the output is under its own timestamp's day, and the record's own day is empty. */
  lemma WideBinIsMisfiled(c: Config, r: Rec, all: seq<Shard>, today: int, tree: Tree)
    requires c.target > 0 && c.resampled && r.ticker == c.ticker && DayOf(BinStart(r.ts, c.target)) != DayOf(r.ts)
    requires |all| == 1 && all[0].date < today && all[0].recs == [r] && IsHealed(tree, all, c, today)
    ensures Content(tree, DayOf(r.ts)) == [] && Content(tree, DayOf(BinStart(r.ts, c.target))) != []
    ensures Conserved(all, c, today, tree) && !KeptOnOwnDay(all, c, today, tree)
  {
    OneRecordTree(all, c, today, r);
    OneRecordDay(all, c, today, tree, r, DayOf(r.ts));
    OneRecordDay(all, c, today, tree, r, DayOf(BinStart(r.ts, c.target)));
    HealConservesExactlyWhen(all, c, today, tree);
    EveryRecordOnItsDayExactlyWhen(all, c, today, tree);
    assert r in all[0].recs;
    assert !StaysOnDay(all[0].recs, c);
  }

  /** Healing keeps one ticker: with nothing carried, a tree without its records comes out empty. */
  lemma OtherTickersAreDropped(all: seq<Shard>, c: Config, today: int, tree: Tree, d: int)
    requires c.target > 0 && IsHealed(tree, all, c, today) && Carried(all, today).None?
    requires forall i, r :: 0 <= i < |all| && r in all[i].recs ==> r.ticker != c.ticker
    ensures Content(tree, d) == []
  {
    var closed := Closed(all, today);
    HealedContent(all, c, today, tree, d);
    NothingStagedExactly(closed, c, d);
    ClosedMembers(all, today);
    assert forall i :: 0 <= i < |closed| ==> closed[i] in closed;
    EmptyContent(Content(tree, d));
  }
}
