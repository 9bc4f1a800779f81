/** The merger: chunked provider streams, the heap of their heads and the cycle clock together. */
module MergeIdx {
  import opened Wrappers
  import opened SourceStreams
  import opened KWayMerge
  import opened CycleEmit

  ghost predicate Streaming<I>(sources: seq<SourceStream<I>>, ss: Streams<I>)
    reads sources
  {
    && |sources| == |ss|
    && (forall i, j :: 0 <= i < j < |sources| ==> sources[i] != sources[j])
    && (forall i :: 0 <= i < |sources| ==> sources[i].Valid() && sources[i].Remaining() == ss[i])
  }

  /** Opens every file. */
  method Open<I>(files: seq<IdxFile<I>>) returns (sources: seq<SourceStream<I>>)
    ensures fresh(sources) && Streaming(sources, Contents(files))
  {
    sources := [];
    for n := 0 to |files|
      invariant fresh(sources) && Streaming(sources, Contents(files[..n]))
    {
      var s := new SourceStream(files[n]);
      sources := sources + [s];
      assert Contents(files[..n + 1]) == Contents(files[..n]) + [files[n].recs];
    }
    assert files[..|files|] == files;
  }

  function Contents<I>(files: seq<IdxFile<I>>): Streams<I>
  {
    seq(|files|, i requires 0 <= i < |files| => files[i].recs)
  }

  /** The heap of the first records. */
  method Seed<I>(sources: seq<SourceStream<I>>, ghost ss: Streams<I>) returns (heap: set<Entry>)
    requires Streaming(sources, ss)
    modifies sources
    ensures Streaming(sources, ss) && HeapOf(heap, ss)
  {
    heap := {};
    for n := 0 to |sources|
      invariant Streaming(sources, ss)
      invariant forall e :: e in heap ==> e.source < n && ss[e.source] != [] && e.ts == ss[e.source][0].ts
      invariant forall i :: 0 <= i < n && ss[i] != [] ==> Entry(ss[i][0].ts, i) in heap
    {
      var ts := sources[n].PeekTs();
      if ts.Some? {
        heap := heap + {Entry(ts.value, n)};
      }
    }
  }

  /** Re-arming one stream's entry keeps the heap exact. */
  lemma HeapRearmed<I>(heap: set<Entry>, ss: Streams<I>, e: Entry, heap': set<Entry>)
    requires HeapOf(heap, ss) && e in heap
    requires var tail := ss[e.source][1..];
             heap' == if tail != [] then heap - {e} + {Entry(tail[0].ts, e.source)} else heap - {e}
    ensures HeapOf(heap', ss[e.source := ss[e.source][1..]])
  {
    assert forall y :: y in heap - {e} ==> y.source != e.source;
  }

  /** Takes the next record of the merge and re-arms the heap for its stream. */
  method Next<I>(sources: seq<SourceStream<I>>, ghost ss: Streams<I>, heap: set<Entry>)
    returns (x: Tagged<I>, heap': set<Entry>, ghost ss': Streams<I>)
    requires Streaming(sources, ss) && HeapOf(heap, ss) && heap != {}
    modifies sources
    ensures Least(ss, |ss|) == Some(x.source) && x == Tagged(x.source, ss[x.source][0])
    ensures ss' == ss[x.source := ss[x.source][1..]]
    ensures Streaming(sources, ss') && HeapOf(heap', ss')
  {
    var e, rest := PopMax(heap);
    HeapPicksLeast(heap, ss, e);
    var i := e.source;
    var r := sources[i].Pop();
    x := Tagged(i, r.value);
    ss' := ss[i := ss[i][1..]];
    var ts := sources[i].PeekTs();
    heap' := if ts.Some? then rest + {Entry(ts.value, i)} else rest;
    HeapRearmed(heap, ss, e, heap');
  }

  /** All composites of the merged files, in order. */
  function Composites<I, P, C>(env: Env<I, P, C>, cycle: int, ss: Streams<I>): seq<Emit<C>>
    requires cycle > 0
  {
    var m := Merge(ss);
    if m == [] then [] else EmitAll(env, m[0].rec.ts, EvalsOf(env, cycle, |ss|, m))
  }

  lemma SortedMerge<I>(ss: Streams<I>)
    requires AllAscending(ss)
    ensures TsSorted(Merge(ss))
  {
    MergeIsSorted(ss);
    var m := Merge(ss);
    forall j, k | 0 <= j < k < |m|
      ensures m[j].rec.ts <= m[k].rec.ts
    {
      assert Before(m[j], m[k]);
    }
  }

  /** After `merged`, the streams `rest` produce exactly the records still to come. */
  ghost predicate Ahead<I>(ss: Streams<I>, merged: seq<Tagged<I>>, rest: Streams<I>)
  {
    |rest| == |ss| && merged + Merge(rest) == Merge(ss)
  }

  lemma AheadStep<I>(ss: Streams<I>, merged: seq<Tagged<I>>, rest: Streams<I>, i: nat)
    requires AllAscending(ss) && Ahead(ss, merged, rest) && Least(rest, |rest|) == Some(i)
    ensures var x := Tagged(i, rest[i][0]);
            var after := rest[i := rest[i][1..]];
            && Ahead(ss, merged + [x], after)
            && Total(after) < Total(rest)
            && |merged| < |Merge(ss)| && Merge(ss)[|merged|] == x
            && (merged != [] ==> merged[|merged| - 1].rec.ts <= x.rec.ts)
  {
    var x := Tagged(i, rest[i][0]);
    var after := rest[i := rest[i][1..]];
    TotalDrops(rest, i);
    SortedMerge(ss);
    assert Merge(rest) == [x] + Merge(after);
    assert merged + Merge(rest) == (merged + [x]) + Merge(after);
    assert Merge(ss)[|merged|] == x;
    assert merged != [] ==> Merge(ss)[|merged| - 1] == merged[|merged| - 1];
  }

  /** Feeding the clock leaves the streams alone. */
  method Feed<I, P, C>(sources: seq<SourceStream<I>>, emitter: Emitter<I, P, C>, ghost rest: Streams<I>, x: Tagged<I>)
    requires Streaming(sources, rest)
    requires emitter.Valid() && x.source < emitter.providers
    requires if emitter.seen == [] then emitter.anchor == x.rec.ts
             else emitter.seen[|emitter.seen| - 1].rec.ts <= x.rec.ts
    modifies emitter
    ensures Streaming(sources, rest)
    ensures emitter.Valid() && emitter.seen == old(emitter.seen) + [x]
  {
    emitter.OnRecord(x);
  }

  /** One turn of the merge loop. */
  method Turn<I, P, C>(sources: seq<SourceStream<I>>, emitter: Emitter<I, P, C>, heap: set<Entry>,
                       ghost ss: Streams<I>, merged: seq<Tagged<I>>, ghost rest: Streams<I>)
    returns (merged': seq<Tagged<I>>, heap': set<Entry>, ghost rest': Streams<I>)
    requires AllAscending(ss) && Streaming(sources, rest) && HeapOf(heap, rest) && heap != {}
    requires emitter.Valid() && emitter.seen == merged && emitter.providers == |ss|
    requires Ahead(ss, merged, rest) && (Merge(ss) != [] ==> emitter.anchor == Merge(ss)[0].rec.ts)
    modifies sources, emitter
    ensures Streaming(sources, rest') && HeapOf(heap', rest') && Total(rest') < Total(rest)
    ensures emitter.Valid() && emitter.seen == merged' && Ahead(ss, merged', rest')
  {
    var x;
    x, heap', rest' := Next(sources, rest, heap);
    AheadStep(ss, merged, rest, x.source);
    Feed(sources, emitter, rest', x);
    merged' := merged + [x];
  }

  /** Opens the files, fills the heap and anchors the clock at the earliest record. */
  method Start<I, P, C>(files: seq<IdxFile<I>>, env: Env<I, P, C>, cycle: int)
    returns (sources: seq<SourceStream<I>>, heap: set<Entry>, emitter: Emitter<I, P, C>)
    requires cycle > 0
    ensures fresh(sources) && fresh(emitter)
    ensures Streaming(sources, Contents(files)) && HeapOf(heap, Contents(files))
    ensures emitter.Valid() && emitter.seen == [] && emitter.providers == |files|
    ensures emitter.env == env && emitter.cycle == cycle
    ensures Merge(Contents(files)) != [] ==> emitter.anchor == Merge(Contents(files))[0].rec.ts
  {
    sources := Open(files);
    heap := Seed(sources, Contents(files));
    var anchor := 0;
    if heap != {} {
      var e, _ := PopMax(heap);
      HeapPicksLeast(heap, Contents(files), e);
      anchor := e.ts;
    } else {
      assert Least(Contents(files), |files|).None?;
    }
    emitter := new Emitter(env, cycle, anchor, |files|);
  }

  /** Runs the merge loop until every stream is exhausted. */
  method Pump<I, P, C>(sources: seq<SourceStream<I>>, emitter: Emitter<I, P, C>, heap: set<Entry>, ghost ss: Streams<I>)
    returns (merged: seq<Tagged<I>>)
    requires AllAscending(ss) && Streaming(sources, ss) && HeapOf(heap, ss)
    requires emitter.Valid() && emitter.seen == [] && emitter.providers == |ss|
    requires Merge(ss) != [] ==> emitter.anchor == Merge(ss)[0].rec.ts
    modifies sources, emitter
    ensures merged == Merge(ss) && emitter.Valid() && emitter.seen == merged
  {
    var h := heap;
    ghost var rest := ss;
    merged := [];
    while h != {}
      invariant Streaming(sources, rest) && HeapOf(h, rest)
      invariant emitter.Valid() && emitter.seen == merged && Ahead(ss, merged, rest)
      decreases Total(rest)
    {
      merged, h, rest := Turn(sources, emitter, h, ss, merged, rest);
    }
    assert Least(rest, |rest|).None?;
    assert merged + [] == merged;
  }

  /** Merges files whose records are time-ascending. With a zero cycle the boundary loop would
      never end. */
  method MergeFiles<I, P, C>(files: seq<IdxFile<I>>, env: Env<I, P, C>, cycle: int)
    returns (out: seq<Emit<C>>, merged: seq<Tagged<I>>)
    requires cycle > 0 && AllAscending(Contents(files))
    ensures merged == Merge(Contents(files))
    ensures out == Composites(env, cycle, Contents(files))
    ensures forall i, j :: 0 <= i < j < |out| ==> out[i].boundary < out[j].boundary
    ensures forall earliest, x :: IsEarliest(Contents(files), earliest) ==>
              (x in out <==> Emitted(env, cycle, Contents(files), earliest, x))
  {
    var sources, heap, emitter := Start(files, env, cycle);
    merged := Pump(sources, emitter, heap, Contents(files));
    emitter.Flush();
    out := emitter.out;
    CompositesIncrease(env, cycle, Contents(files));
    forall earliest, x | IsEarliest(Contents(files), earliest)
      ensures x in out <==> Emitted(env, cycle, Contents(files), earliest, x)
    {
      CompositesAre(env, cycle, Contents(files), earliest, x);
    }
  }

  // ---------- what a provider's slot holds at a boundary ----------

  function RecsBelow<I>(recs: seq<Rec<I>>, b: int): seq<Rec<I>>
  {
    if recs == [] then []
    else RecsBelow(recs[..|recs| - 1], b) + if recs[|recs| - 1].ts < b then [recs[|recs| - 1]] else []
  }

  lemma RecsBelowSnoc<I>(recs: seq<Rec<I>>, r: Rec<I>, b: int)
    ensures RecsBelow(recs + [r], b) == if r.ts < b then RecsBelow(recs, b) + [r] else RecsBelow(recs, b)
  {
    assert (recs + [r])[..|recs|] == recs;
  }

  lemma {:induction false} OfBelow<I>(m: seq<Tagged<I>>, b: int, i: nat)
    ensures Of(Below(m, b), i) == RecsBelow(Of(m, i), b)
  {
    if m != [] {
      var front, x := m[..|m| - 1], m[|m| - 1];
      assert m == front + [x];
      OfBelow(front, b, i);
      assert Below(m, b) == if x.rec.ts < b then Below(front, b) + [x] else Below(front, b);
      OfSnoc(front, x, i);
      OfSnoc(Below(front, b), x, i);
      RecsBelowSnoc(Of(front, i), x.rec, b);
    }
  }

  /** At every evaluated boundary each provider's slot is determined by exactly that provider's
      records before the boundary. */
  lemma SlotsAtBoundary<I, P, C>(env: Env<I, P, C>, cycle: int, ss: Streams<I>, e: nat, i: nat)
    requires cycle > 0 && AllAscending(ss) && i < |ss|
    ensures var m := Merge(ss);
            var evals := EvalsOf(env, cycle, |ss|, m);
            e < |evals| ==>
              && m != [] && |evals[e].slots| == |ss|
              && evals[e].slots[i] == FoldRecs(env, m[0].rec.ts, i, RecsBelow(ss[i], evals[e].boundary))
  {
    var m := Merge(ss);
    var evals := EvalsOf(env, cycle, |ss|, m);
    if e < |evals| {
      SortedMerge(ss);
      EvaluatedWithUpdatesBelow(env, cycle, |ss|, m, e);
      OfBelow(m, evals[e].boundary, i);
      MergeKeepsEachStream(ss, i);
    }
  }

  /** Composites come out at evaluated boundaries only, in strictly increasing order. */
  lemma {:induction false} EmitIncreases<I, P, C>(env: Env<I, P, C>, anchor: int, evals: seq<Eval<P>>)
    requires forall i, j :: 0 <= i < j < |evals| ==> evals[i].boundary < evals[j].boundary
    ensures forall x :: x in EmitAll(env, anchor, evals) ==> Evaluated(evals, x.boundary)
    ensures forall i, j :: 0 <= i < j < |EmitAll(env, anchor, evals)| ==>
              EmitAll(env, anchor, evals)[i].boundary < EmitAll(env, anchor, evals)[j].boundary
  {
    if evals != [] {
      var front, e := evals[..|evals| - 1], evals[|evals| - 1];
      var before := EmitAll(env, anchor, front);
      EmitIncreases(env, anchor, front);
      assert evals == front + [e];
      forall x | x in EmitAll(env, anchor, evals)
        ensures Evaluated(evals, x.boundary)
      {
        EvaluatedSnoc(front, e, x.boundary);
      }
      forall i | 0 <= i < |before|
        ensures before[i].boundary < e.boundary
      {
        assert before[i] in before;
        assert Evaluated(front, before[i].boundary);
      }
    }
  }

  // ---------- the whole output, from the files alone ----------

  /** File `i` has a record `j`. */
  predicate Has<I>(ss: Streams<I>, i: int, j: int) { 0 <= i < |ss| && 0 <= j < |ss[i]| }

  /** The earliest timestamp of all files. */
  ghost predicate IsEarliest<I>(ss: Streams<I>, ts: int)
  {
    && (exists i, j :: Has(ss, i, j) && ss[i][j].ts == ts)
    && (forall i, j :: Has(ss, i, j) ==> ts <= ss[i][j].ts)
  }

  /** Some file has a record in [lo, hi). */
  ghost predicate HasUpdate<I>(ss: Streams<I>, lo: int, hi: int)
  {
    exists i, j :: Has(ss, i, j) && lo <= ss[i][j].ts < hi
  }

  /** A provider's entry after its records, each applied at its time since the earliest record. */
  function Replayed<I, P, C>(env: Env<I, P, C>, earliest: int, i: nat, recs: seq<Rec<I>>): Option<P>
  {
    if recs == [] then None
    else
      var r := recs[|recs| - 1];
      match Replayed(env, earliest, i, recs[..|recs| - 1])
      case None => Some(env.newAt(i, r.index, r.ts - earliest))
      case Some(p) => Some(env.updateAt(p, r.index, r.ts - earliest))
  }

  function EntriesBefore<I, P, C>(env: Env<I, P, C>, earliest: int, ss: Streams<I>, b: int): seq<Option<P>>
  {
    seq(|ss|, i requires 0 <= i < |ss| => Replayed(env, earliest, i, RecsBelow(ss[i], b)))
  }

  /** A whole number of cycles after the earliest record. */
  ghost predicate OnGrid(earliest: int, cycle: int, b: int) { exists k :: b == earliest + k * cycle }

  /** A boundary is due a whole number of cycles after the earliest record, if some file has a record in the
      cycle that ends there. */
  ghost predicate DueAt<I>(ss: Streams<I>, cycle: int, earliest: int, b: int)
  {
    OnGrid(earliest, cycle, b) && HasUpdate(ss, b - cycle, b)
  }

  /** The composite of a due boundary: of all entries as they were, at the time since the earliest record. */
  ghost predicate Emitted<I, P, C>(env: Env<I, P, C>, cycle: int, ss: Streams<I>, earliest: int, x: Emit<C>)
  {
    && DueAt(ss, cycle, earliest, x.boundary)
    && env.vwap(EntriesBefore(env, earliest, ss, x.boundary), x.boundary - earliest) == Some(x.composite)
  }

  lemma {:induction false} OfMember<I>(m: seq<Tagged<I>>, i: nat, r: Rec<I>)
    requires r in Of(m, i)
    ensures exists k :: 0 <= k < |m| && m[k] == Tagged(i, r)
  {
    if m[0] != Tagged(i, r) {
      OfMember(m[1..], i, r);
      var k :| 0 <= k < |m[1..]| && m[1..][k] == Tagged(i, r);
      assert m[k + 1] == Tagged(i, r);
    }
  }

  /** Every record of a file is in the merge, and every one in the merge is a file's. */
  lemma MergedOf<I>(ss: Streams<I>, i: nat, j: nat) returns (k: nat)
    requires Has(ss, i, j)
    ensures k < |Merge(ss)| && Merge(ss)[k] == Tagged(i, ss[i][j])
  {
    MergeKeepsEachStream(ss, i);
    OfMember(Merge(ss), i, ss[i][j]);
    k :| 0 <= k < |Merge(ss)| && Merge(ss)[k] == Tagged(i, ss[i][j]);
  }

  lemma MergedFrom<I>(ss: Streams<I>, k: nat) returns (i: nat, j: nat)
    requires k < |Merge(ss)|
    ensures Has(ss, i, j) && Merge(ss)[k] == Tagged(i, ss[i][j])
  {
    MergeSources(ss);
    i := Merge(ss)[k].source;
    j :| 0 <= j < |ss[i]| && ss[i][j] == Merge(ss)[k].rec;
  }

  lemma EarliestIsFirst<I>(ss: Streams<I>, ts: int)
    requires AllAscending(ss) && IsEarliest(ss, ts)
    ensures Merge(ss) != [] && Merge(ss)[0].rec.ts == ts
  {
    SortedMerge(ss);
    var i, j :| Has(ss, i, j) && ss[i][j].ts == ts;
    var k := MergedOf(ss, i, j);
    var i', j' := MergedFrom(ss, 0);
  }

  lemma UpdatesMerged<I>(ss: Streams<I>, lo: int, hi: int)
    ensures HasUpdate(ss, lo, hi) <==> exists k :: 0 <= k < |Merge(ss)| && lo <= Merge(ss)[k].rec.ts < hi
  {
    var m := Merge(ss);
    if HasUpdate(ss, lo, hi) {
      var i, j :| Has(ss, i, j) && lo <= ss[i][j].ts < hi;
      var k := MergedOf(ss, i, j);
    }
    forall k | 0 <= k < |m| && lo <= m[k].rec.ts < hi
      ensures HasUpdate(ss, lo, hi)
    {
      var i, j := MergedFrom(ss, k);
    }
  }

  lemma {:induction false} FoldIsReplay<I, P, C>(env: Env<I, P, C>, earliest: int, i: nat, recs: seq<Rec<I>>)
    requires forall j :: 0 <= j < |recs| ==> earliest <= recs[j].ts
    ensures FoldRecs(env, earliest, i, recs) == Replayed(env, earliest, i, recs)
  {
    if recs != [] {
      FoldIsReplay(env, earliest, i, recs[..|recs| - 1]);
    }
  }

  /** In time order the records below a boundary are the leading ones. */
  lemma {:induction false} BelowIsLeading<I>(recs: seq<Rec<I>>, b: int, n: nat)
    requires n <= |recs| && (forall j :: 0 <= j < n ==> recs[j].ts < b) && (forall j :: n <= j < |recs| ==> b <= recs[j].ts)
    ensures RecsBelow(recs, b) == recs[..n]
  {
    if recs != [] {
      var front := recs[..|recs| - 1];
      BelowIsLeading(front, b, if n == |recs| then n - 1 else n);
      assert n < |recs| ==> front[..n] == recs[..n];
    }
  }

  lemma {:induction false} BelowFrom<I>(recs: seq<Rec<I>>, b: int, earliest: int)
    requires forall j :: 0 <= j < |recs| ==> earliest <= recs[j].ts
    ensures forall j :: 0 <= j < |RecsBelow(recs, b)| ==> earliest <= RecsBelow(recs, b)[j].ts
  {
    if recs != [] {
      BelowFrom(recs[..|recs| - 1], b, earliest);
    }
  }

  lemma SlotsAreEntries<I, P, C>(env: Env<I, P, C>, cycle: int, ss: Streams<I>, earliest: int, e: nat)
    requires cycle > 0 && AllAscending(ss) && IsEarliest(ss, earliest)
    requires e < |EvalsOf(env, cycle, |ss|, Merge(ss))|
    ensures var eval := EvalsOf(env, cycle, |ss|, Merge(ss))[e];
            eval.slots == EntriesBefore(env, earliest, ss, eval.boundary)
  {
    var eval := EvalsOf(env, cycle, |ss|, Merge(ss))[e];
    EarliestIsFirst(ss, earliest);
    SlotsCounted(env, cycle, ss, e);
    forall i | 0 <= i < |ss|
      ensures eval.slots[i] == EntriesBefore(env, earliest, ss, eval.boundary)[i]
    {
      SlotsAtBoundary(env, cycle, ss, e, i);
      assert forall j :: 0 <= j < |ss[i]| ==> Has(ss, i, j);
      BelowFrom(ss[i], eval.boundary, earliest);
      FoldIsReplay(env, earliest, i, RecsBelow(ss[i], eval.boundary));
    }
  }

  lemma SlotsCounted<I, P, C>(env: Env<I, P, C>, cycle: int, ss: Streams<I>, e: nat)
    requires cycle > 0 && AllAscending(ss) && Merge(ss) != [] && e < |EvalsOf(env, cycle, |ss|, Merge(ss))|
    ensures |EvalsOf(env, cycle, |ss|, Merge(ss))[e].slots| == |ss|
  {
    SortedMerge(ss);
    EvaluatedWithUpdatesBelow(env, cycle, |ss|, Merge(ss), e);
  }

  lemma {:induction false} EmitFrom<I, P, C>(env: Env<I, P, C>, anchor: int, evals: seq<Eval<P>>, x: Emit<C>) returns (e: nat)
    requires x in EmitAll(env, anchor, evals)
    ensures e < |evals| && evals[e].boundary == x.boundary
    ensures env.vwap(evals[e].slots, SimNow(anchor, x.boundary)) == Some(x.composite)
  {
    var last := evals[|evals| - 1];
    if last.boundary == x.boundary && env.vwap(last.slots, SimNow(anchor, x.boundary)) == Some(x.composite) {
      e := |evals| - 1;
    } else {
      e := EmitFrom(env, anchor, evals[..|evals| - 1], x);
    }
  }

  lemma {:induction false} EmitHas<I, P, C>(env: Env<I, P, C>, anchor: int, evals: seq<Eval<P>>, e: nat)
    requires e < |evals| && env.vwap(evals[e].slots, SimNow(anchor, evals[e].boundary)).Some?
    ensures Emit(evals[e].boundary, env.vwap(evals[e].slots, SimNow(anchor, evals[e].boundary)).value)
            in EmitAll(env, anchor, evals)
  {
    if e < |evals| - 1 {
      EmitHas(env, anchor, evals[..|evals| - 1], e);
    }
  }

  lemma BoundaryAfterFirst<I, P, C>(env: Env<I, P, C>, cycle: int, ss: Streams<I>, b: int)
    requires cycle > 0 && AllAscending(ss) && Merge(ss) != []
    requires Evaluated(EvalsOf(env, cycle, |ss|, Merge(ss)), b)
    ensures b > Merge(ss)[0].rec.ts && OnGrid(Merge(ss)[0].rec.ts, cycle, b)
  {
    var m := Merge(ss);
    SortedMerge(ss);
    EvaluatedExactlyAtUpdates(env, cycle, |ss|, m, b);
    var j :| 0 <= j < |m| && BoundaryOf(m[0].rec.ts, cycle, m[j].rec.ts) == b;
    var k := (m[j].rec.ts - m[0].rec.ts) / cycle + 1;
    BoundaryUnique(m[0].rec.ts, cycle, m[j].rec.ts, k);
    assert b == m[0].rec.ts + k * cycle;
  }

  /** An evaluation at a due boundary, with the entries as they were, at the right time. */
  ghost predicate EvalIs<I, P, C>(env: Env<I, P, C>, cycle: int, ss: Streams<I>, earliest: int, eval: Eval<P>)
  {
    && DueAt(ss, cycle, earliest, eval.boundary)
    && env.vwap(eval.slots, SimNow(earliest, eval.boundary))
       == env.vwap(EntriesBefore(env, earliest, ss, eval.boundary), eval.boundary - earliest)
  }

  lemma EvaluationIs<I, P, C>(env: Env<I, P, C>, cycle: int, ss: Streams<I>, earliest: int, e: nat)
    requires cycle > 0 && AllAscending(ss) && IsEarliest(ss, earliest)
    requires e < |EvalsOf(env, cycle, |ss|, Merge(ss))|
    ensures EvalIs(env, cycle, ss, earliest, EvalsOf(env, cycle, |ss|, Merge(ss))[e])
  {
    EvaluatedIsDue(env, cycle, ss, earliest, EvalsOf(env, cycle, |ss|, Merge(ss))[e].boundary);
    SlotsAreEntries(env, cycle, ss, earliest, e);
  }

  lemma EmittedFrom<I, P, C>(env: Env<I, P, C>, cycle: int, ss: Streams<I>, earliest: int, eval: Eval<P>, x: Emit<C>)
    requires EvalIs(env, cycle, ss, earliest, eval) && eval.boundary == x.boundary
    ensures env.vwap(eval.slots, SimNow(earliest, x.boundary)) == Some(x.composite) <==> Emitted(env, cycle, ss, earliest, x)
  {
  }

  lemma EmitHasAt<I, P, C>(env: Env<I, P, C>, anchor: int, evals: seq<Eval<P>>, e: nat, x: Emit<C>)
    requires e < |evals| && evals[e].boundary == x.boundary
    requires env.vwap(evals[e].slots, SimNow(anchor, x.boundary)) == Some(x.composite)
    ensures x in EmitAll(env, anchor, evals)
  {
    EmitHas(env, anchor, evals, e);
  }

  /** A composite that comes out belongs to an evaluation. */
  lemma CompositeFrom<I, P, C>(env: Env<I, P, C>, cycle: int, ss: Streams<I>, x: Emit<C>) returns (e: nat)
    requires cycle > 0 && Merge(ss) != [] && x in Composites(env, cycle, ss)
    ensures e < |EvalsOf(env, cycle, |ss|, Merge(ss))|
    ensures var eval := EvalsOf(env, cycle, |ss|, Merge(ss))[e];
            eval.boundary == x.boundary
            && env.vwap(eval.slots, SimNow(Merge(ss)[0].rec.ts, x.boundary)) == Some(x.composite)
  {
    e := EmitFrom(env, Merge(ss)[0].rec.ts, EvalsOf(env, cycle, |ss|, Merge(ss)), x);
  }

  lemma EmittedIsDue<I, P, C>(env: Env<I, P, C>, cycle: int, ss: Streams<I>, earliest: int, x: Emit<C>)
    requires cycle > 0 && AllAscending(ss) && IsEarliest(ss, earliest) && x in Composites(env, cycle, ss)
    ensures Emitted(env, cycle, ss, earliest, x)
  {
    EarliestIsFirst(ss, earliest);
    var e := CompositeFrom(env, cycle, ss, x);
    EvaluationIs(env, cycle, ss, earliest, e);
    EmittedFrom(env, cycle, ss, earliest, EvalsOf(env, cycle, |ss|, Merge(ss))[e], x);
  }

  lemma DueIsEmitted<I, P, C>(env: Env<I, P, C>, cycle: int, ss: Streams<I>, earliest: int, x: Emit<C>)
    requires cycle > 0 && AllAscending(ss) && IsEarliest(ss, earliest) && Emitted(env, cycle, ss, earliest, x)
    ensures x in Composites(env, cycle, ss)
  {
    EarliestIsFirst(ss, earliest);
    DueIsEvaluated(env, cycle, ss, earliest, x.boundary);
    var e := EvaluatedAt(EvalsOf(env, cycle, |ss|, Merge(ss)), x.boundary);
    EvaluationIs(env, cycle, ss, earliest, e);
    EmittedFrom(env, cycle, ss, earliest, EvalsOf(env, cycle, |ss|, Merge(ss))[e], x);
    EmitHasAt(env, earliest, EvalsOf(env, cycle, |ss|, Merge(ss)), e, x);
  }

  lemma EvaluatedAt<P>(evals: seq<Eval<P>>, b: int) returns (e: nat)
    requires Evaluated(evals, b)
    ensures e < |evals| && evals[e].boundary == b
  {
    e :| 0 <= e < |evals| && evals[e].boundary == b;
  }

  /** The merger emits exactly the composites that are due. */
  lemma CompositesAre<I, P, C>(env: Env<I, P, C>, cycle: int, ss: Streams<I>, earliest: int, x: Emit<C>)
    requires cycle > 0 && AllAscending(ss) && IsEarliest(ss, earliest)
    ensures x in Composites(env, cycle, ss) <==> Emitted(env, cycle, ss, earliest, x)
  {
    if x in Composites(env, cycle, ss) {
      EmittedIsDue(env, cycle, ss, earliest, x);
    } else if Emitted(env, cycle, ss, earliest, x) {
      DueIsEmitted(env, cycle, ss, earliest, x);
    }
  }

  lemma EvaluatedIsDue<I, P, C>(env: Env<I, P, C>, cycle: int, ss: Streams<I>, earliest: int, b: int)
    requires cycle > 0 && AllAscending(ss) && IsEarliest(ss, earliest)
    requires Evaluated(EvalsOf(env, cycle, |ss|, Merge(ss)), b)
    ensures DueAt(ss, cycle, earliest, b) && SimNow(earliest, b) == b - earliest
  {
    EarliestIsFirst(ss, earliest);
    BoundaryAfterFirst(env, cycle, ss, b);
    var k :| b == earliest + k * cycle;
    EvaluatedExactlyWhenCycleHasUpdate(env, cycle, |ss|, Merge(ss), k);
    UpdatesMerged(ss, b - cycle, b);
  }

  lemma DueIsEvaluated<I, P, C>(env: Env<I, P, C>, cycle: int, ss: Streams<I>, earliest: int, b: int)
    requires cycle > 0 && AllAscending(ss) && IsEarliest(ss, earliest)
    requires DueAt(ss, cycle, earliest, b)
    ensures Evaluated(EvalsOf(env, cycle, |ss|, Merge(ss)), b)
  {
    EarliestIsFirst(ss, earliest);
    var k :| b == earliest + k * cycle;
    UpdatesMerged(ss, b - cycle, b);
    EvaluatedExactlyWhenCycleHasUpdate(env, cycle, |ss|, Merge(ss), k);
  }

  lemma CompositesIncrease<I, P, C>(env: Env<I, P, C>, cycle: int, ss: Streams<I>)
    requires cycle > 0 && AllAscending(ss)
    ensures var out := Composites(env, cycle, ss);
            forall i, j :: 0 <= i < j < |out| ==> out[i].boundary < out[j].boundary
  {
    var m := Merge(ss);
    if m != [] {
      SortedMerge(ss);
      EvalsIncrease(env, cycle, |ss|, m);
      EmitIncreases(env, m[0].rec.ts, EvalsOf(env, cycle, |ss|, m));
    }
  }
}
