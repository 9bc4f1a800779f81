/** What merging several time-ascending streams means, and the heap order that produces it. */
module KWayMerge {
  import opened Wrappers
  import opened SourceStreams

  const USIZE_MAX: nat := 0xffff_ffff_ffff_ffff

  /** A record and the stream it came from. */
  datatype Tagged<I> = Tagged(source: nat, rec: Rec<I>)

  type Streams<I> = seq<seq<Rec<I>>>

  ghost predicate Ascending<I>(s: seq<Rec<I>>)
  {
    forall i, j :: 0 <= i < j < |s| ==> s[i].ts <= s[j].ts
  }

  ghost predicate AllAscending<I>(ss: Streams<I>)
  {
    forall i :: 0 <= i < |ss| ==> Ascending(ss[i])
  }

  // ---------- the heap ----------

  datatype Entry = Entry(ts: int, source: nat)

  /** The max-heap order on inverted keys: first the negated timestamp, then the inverted index. */
  predicate Less(a: Entry, b: Entry)
  {
    -a.ts < -b.ts || (-a.ts == -b.ts && USIZE_MAX - a.source < USIZE_MAX - b.source)
  }

  /** Removes the greatest entry. */
  method PopMax(heap: set<Entry>) returns (e: Entry, rest: set<Entry>)
    requires heap != {}
    ensures e in heap && rest == heap - {e}
    ensures forall x :: x in rest ==> Less(x, e)
  {
    e :| e in heap;
    var left := heap - {e};
    while left != {}
      invariant left <= heap && e in heap
      invariant forall x :: x in heap && x !in left ==> x == e || Less(x, e)
      decreases |left|
    {
      var x :| x in left;
      if Less(e, x) {
        e := x;
      }
      left := left - {x};
    }
    rest := heap - {e};
  }

  // ---------- the merged sequence ----------

  function Total<I>(ss: Streams<I>): nat
  {
    if ss == [] then 0 else |ss[0]| + Total(ss[1..])
  }

  lemma {:induction false} TotalDrops<I>(ss: Streams<I>, i: nat)
    requires i < |ss| && ss[i] != []
    ensures Total(ss[i := ss[i][1..]]) == Total(ss) - 1
  {
    if i > 0 {
      assert ss[i := ss[i][1..]][1..] == ss[1..][i - 1 := ss[i][1..]];
      TotalDrops(ss[1..], i - 1);
    } else {
      assert ss[i := ss[i][1..]][1..] == ss[1..];
    }
  }

  /** The stream among the first `n` whose head comes first in (timestamp, stream) order. */
  function Least<I>(ss: Streams<I>, n: nat): (r: Option<nat>)
    requires n <= |ss|
    ensures r.Some? ==> r.value < n && ss[r.value] != []
    ensures r.None? <==> forall i :: 0 <= i < n ==> ss[i] == []
    ensures r.Some? ==> forall i :: 0 <= i < n && ss[i] != [] && i != r.value ==>
                          ss[r.value][0].ts < ss[i][0].ts || (ss[r.value][0].ts == ss[i][0].ts && r.value < i)
  {
    if n == 0 then None
    else
      var best := Least(ss, n - 1);
      if ss[n - 1] != [] && (best.None? || ss[n - 1][0].ts < ss[best.value][0].ts) then Some(n - 1) else best
  }

  function Merge<I>(ss: Streams<I>): seq<Tagged<I>>
    decreases Total(ss)
  {
    var best := Least(ss, |ss|);
    if best.None? then []
    else
      var i := best.value;
      TotalDrops(ss, i);
      [Tagged(i, ss[i][0])] + Merge(ss[i := ss[i][1..]])
  }

  /** The heap of all non-exhausted heads: exactly one entry each, with the true head timestamp. */
  ghost predicate HeapOf<I>(heap: set<Entry>, ss: Streams<I>)
  {
    && (forall e :: e in heap ==> e.source < |ss| && ss[e.source] != [] && e.ts == ss[e.source][0].ts)
    && (forall i :: 0 <= i < |ss| && ss[i] != [] ==> Entry(ss[i][0].ts, i) in heap)
  }

  /** Popping such a heap yields the next record of the merge. */
  lemma HeapPicksLeast<I>(heap: set<Entry>, ss: Streams<I>, e: Entry)
    requires HeapOf(heap, ss) && e in heap
    requires forall x :: x in heap && x != e ==> Less(x, e)
    ensures Least(ss, |ss|) == Some(e.source)
  {
    var best := Least(ss, |ss|);
    assert best.Some?;
    var x := Entry(ss[best.value][0].ts, best.value);
    assert x in heap;
  }

  // ---------- main results about the merged sequence ----------

  /** The records of one stream in the merged sequence. */
  function Of<I>(m: seq<Tagged<I>>, i: nat): seq<Rec<I>>
  {
    if m == [] then [] else (if m[0].source == i then [m[0].rec] else []) + Of(m[1..], i)
  }

  /** Nothing is lost, added or reordered within a stream: the merged records of each stream are
      that stream. */
  lemma {:induction false} MergeKeepsEachStream<I>(ss: Streams<I>, k: nat)
    requires k < |ss|
    ensures Of(Merge(ss), k) == ss[k]
    decreases Total(ss)
  {
    var best := Least(ss, |ss|);
    if best.Some? {
      var i := best.value;
      TotalDrops(ss, i);
      var rest := ss[i := ss[i][1..]];
      MergeKeepsEachStream(rest, k);
      assert Merge(ss)[1..] == Merge(rest);
    }
  }

  lemma {:induction false} MergeSources<I>(ss: Streams<I>)
    ensures |Merge(ss)| == Total(ss)
    ensures forall j :: 0 <= j < |Merge(ss)| ==> Merge(ss)[j].source < |ss| && Merge(ss)[j].rec in ss[Merge(ss)[j].source]
    decreases Total(ss)
  {
    var best := Least(ss, |ss|);
    if best.Some? {
      var i := best.value;
      TotalDrops(ss, i);
      MergeSources(ss[i := ss[i][1..]]);
    } else {
      NothingLeft(ss);
    }
  }

  lemma {:induction false} NothingLeft<I>(ss: Streams<I>)
    requires forall i :: 0 <= i < |ss| ==> ss[i] == []
    ensures Total(ss) == 0
  {
    if ss != [] {
      NothingLeft(ss[1..]);
    }
  }

  predicate Before<I>(a: Tagged<I>, b: Tagged<I>)
  {
    a.rec.ts < b.rec.ts || (a.rec.ts == b.rec.ts && a.source <= b.source)
  }

  /** The least head precedes every record still in the streams. */
  lemma HeadFirst<I>(ss: Streams<I>, i: nat, s: nat, r: Rec<I>)
    requires AllAscending(ss) && Least(ss, |ss|) == Some(i)
    requires s < |ss| && r in ss[s]
    ensures Before(Tagged(i, ss[i][0]), Tagged(s, r))
  {
    var x :| 0 <= x < |ss[s]| && ss[s][x] == r;
    assert ss[s][0].ts <= r.ts;
  }

  ghost predicate InOrder<I>(m: seq<Tagged<I>>)
  {
    forall j, k :: 0 <= j < k < |m| ==> Before(m[j], m[k])
  }

  lemma ConsInOrder<I>(x: Tagged<I>, m: seq<Tagged<I>>)
    requires InOrder(m) && forall k :: 0 <= k < |m| ==> Before(x, m[k])
    ensures InOrder([x] + m)
  {
  }

  /** With every stream ascending, the merged sequence is sorted by (timestamp, stream). */
  lemma {:induction false} MergeIsSorted<I>(ss: Streams<I>)
    requires AllAscending(ss)
    ensures InOrder(Merge(ss))
    decreases Total(ss)
  {
    var best := Least(ss, |ss|);
    if best.Some? {
      var i := best.value;
      TotalDrops(ss, i);
      var rest := ss[i := ss[i][1..]];
      var m := Merge(rest);
      assert AllAscending(rest);
      MergeIsSorted(rest);
      MergeSources(rest);
      forall k | 0 <= k < |m|
        ensures Before(Tagged(i, ss[i][0]), m[k])
      {
        assert m[k].rec in ss[m[k].source];
        HeadFirst(ss, i, m[k].source, m[k].rec);
      }
      ConsInOrder(Tagged(i, ss[i][0]), m);
    }
  }
}
