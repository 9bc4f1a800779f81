/**
  The composite-cycle clock of the merger: the last state of every provider, and one composite
  per cycle boundary that had an update. The provider entry and the composite are opaque
  deterministic functions.
*/
module CycleEmit {
  import opened Wrappers
  import opened Arith
  import opened SourceStreams
  import opened KWayMerge

  /** `newAt(source, index, clock)`, `updateAt(entry, index, clock)`, `vwap(slots, clock)`. */
  datatype Env<!I, !P, !C> = Env(
    newAt: (nat, I, int) -> P, updateAt: (P, I, int) -> P, vwap: (seq<Option<P>>, int) -> Option<C>)

  datatype Eval<P> = Eval(boundary: int, slots: seq<Option<P>>)

  datatype Emit<C> = Emit(boundary: int, composite: C)

  /** The simulated clock, anchored at the earliest record. */
  function SimNow(anchor: int, ms: int): int { Max(ms - anchor, 0) }

  // ---------- provider slots ----------

  function FoldRecs<I, P, C>(env: Env<I, P, C>, anchor: int, i: nat, recs: seq<Rec<I>>): Option<P>
  {
    if recs == [] then None
    else
      var r := recs[|recs| - 1];
      match FoldRecs(env, anchor, i, recs[..|recs| - 1])
      case None => Some(env.newAt(i, r.index, SimNow(anchor, r.ts)))
      case Some(p) => Some(env.updateAt(p, r.index, SimNow(anchor, r.ts)))
  }

  function SlotsOf<I, P, C>(env: Env<I, P, C>, anchor: int, n: nat, m: seq<Tagged<I>>): seq<Option<P>>
  {
    seq(n, i requires 0 <= i < n => FoldRecs(env, anchor, i, Of(m, i)))
  }

  lemma {:induction false} OfSnoc<I>(m: seq<Tagged<I>>, x: Tagged<I>, i: nat)
    ensures Of(m + [x], i) == if x.source == i then Of(m, i) + [x.rec] else Of(m, i)
  {
    if m == [] {
      assert Of([x], i) == (if x.source == i then [x.rec] else []) + Of([x][1..], i);
    } else {
      assert (m + [x])[1..] == m[1..] + [x];
      OfSnoc(m[1..], x, i);
    }
  }

  lemma SlotsSnoc<I, P, C>(env: Env<I, P, C>, anchor: int, n: nat, m: seq<Tagged<I>>, x: Tagged<I>)
    requires x.source < n
    ensures var before := SlotsOf(env, anchor, n, m);
            var now := SimNow(anchor, x.rec.ts);
            SlotsOf(env, anchor, n, m + [x]) == before[x.source :=
              Some(if before[x.source].None? then env.newAt(x.source, x.rec.index, now)
                   else env.updateAt(before[x.source].value, x.rec.index, now))]
  {
    forall i: nat | i < n
      ensures Of(m + [x], i) == if x.source == i then Of(m, i) + [x.rec] else Of(m, i)
    {
      OfSnoc(m, x, i);
    }
    var recs := Of(m, x.source);
    assert (recs + [x.rec])[..|recs|] == recs;
  }

  // ---------- boundaries ----------

  /** The end of the cycle, counted from `first`, that contains `ts`. */
  function BoundaryOf(first: int, cycle: int, ts: int): int
    requires cycle > 0
  {
    first + ((ts - first) / cycle + 1) * cycle
  }

  lemma BoundaryUnique(first: int, cycle: int, ts: int, k: int)
    requires cycle > 0
    ensures first + (k - 1) * cycle <= ts < first + k * cycle <==> BoundaryOf(first, cycle, ts) == first + k * cycle
  {
    var q := (ts - first) / cycle;
    assert k * cycle == (k - 1) * cycle + cycle;
    assert (q + 1) * cycle == q * cycle + cycle;
    if first + (k - 1) * cycle <= ts < first + k * cycle {
      DivModOf(ts - first, cycle, k - 1, ts - first - (k - 1) * cycle);
    }
    assert ts - first == q * cycle + (ts - first) % cycle;
    if BoundaryOf(first, cycle, ts) == first + k * cycle {
      assert (q + 1) * cycle == k * cycle;
    }
  }

  /** A later timestamp is in the same cycle exactly when it is before that cycle's end. */
  lemma SameCycle(first: int, cycle: int, last: int, ts: int)
    requires cycle > 0 && last <= ts
    ensures BoundaryOf(first, cycle, ts) == BoundaryOf(first, cycle, last) <==> ts < BoundaryOf(first, cycle, last)
  {
    var k := (last - first) / cycle + 1;
    BoundaryUnique(first, cycle, last, k);
    BoundaryUnique(first, cycle, ts, k);
  }

  ghost predicate TsSorted<I>(m: seq<Tagged<I>>)
  {
    forall j, k :: 0 <= j < k < |m| ==> m[j].rec.ts <= m[k].rec.ts
  }

  /** The evaluated boundaries and the slots each was evaluated with, after updates `m`: one per
      cycle that has an update, with the state after that cycle's last update. */
  function EvalsOf<I, P, C>(env: Env<I, P, C>, cycle: int, n: nat, m: seq<Tagged<I>>): seq<Eval<P>>
    requires cycle > 0
  {
    if m == [] then []
    else
      var first := m[0].rec.ts;
      var prev := EvalsOf(env, cycle, n, m[..|m| - 1]);
      var e := Eval(BoundaryOf(first, cycle, m[|m| - 1].rec.ts), SlotsOf(env, first, n, m));
      (if prev != [] && prev[|prev| - 1].boundary == e.boundary then prev[..|prev| - 1] else prev) + [e]
  }

  function EmitAll<I, P, C>(env: Env<I, P, C>, anchor: int, evals: seq<Eval<P>>): seq<Emit<C>>
  {
    if evals == [] then []
    else
      var e := evals[|evals| - 1];
      var c := env.vwap(e.slots, SimNow(anchor, e.boundary));
      EmitAll(env, anchor, evals[..|evals| - 1]) + if c.Some? then [Emit(e.boundary, c.value)] else []
  }

  /** All but the current cycle have been evaluated, and `next` ends the current cycle. */
  ghost predicate Clocked<I, P, C>(env: Env<I, P, C>, cycle: int, n: nat, m: seq<Tagged<I>>, next: Option<int>,
                                   slots: seq<Option<P>>, evals: seq<Eval<P>>)
    requires cycle > 0
  {
    if m == [] then next.None? && evals == []
    else
      && next == Some(BoundaryOf(m[0].rec.ts, cycle, m[|m| - 1].rec.ts))
      && evals + [Eval(next.value, slots)] == EvalsOf(env, cycle, n, m)
  }

  class Emitter<I, P, C> {
    const env: Env<I, P, C>
    const cycle: int
    const anchor: int
    const providers: nat
    var next: Option<int>
    var dirty: bool
    var slots: seq<Option<P>>
    var out: seq<Emit<C>>
    ghost var seen: seq<Tagged<I>>
    ghost var evals: seq<Eval<P>>

    ghost predicate Valid()
      reads this
    {
      && cycle > 0
      && slots == SlotsOf(env, anchor, providers, seen)
      && out == EmitAll(env, anchor, evals)
      && TsSorted(seen)
      && (dirty <==> seen != [])
      && (seen != [] ==> anchor == seen[0].rec.ts)
      && Clocked(env, cycle, providers, seen, next, slots, evals)
    }

    constructor (env: Env<I, P, C>, cycle: int, anchor: int, providers: nat)
      requires cycle > 0
      ensures Valid() && seen == []
      ensures this.env == env && this.cycle == cycle && this.anchor == anchor && this.providers == providers
    {
      this.env, this.cycle, this.anchor, this.providers := env, cycle, anchor, providers;
      next, dirty, out, seen, evals := None, false, [], [], [];
      slots := seq(providers, _ => None);
      new;
      assert slots == SlotsOf(env, anchor, providers, seen);
    }

    /** Evaluates the composite at a boundary and records it if there is one. */
    method Evaluate(boundary: int)
      modifies this`out, this`evals
      requires out == EmitAll(env, anchor, evals)
      ensures evals == old(evals) + [Eval(boundary, slots)]
      ensures out == EmitAll(env, anchor, evals)
    {
      var c := env.vwap(slots, SimNow(anchor, boundary));
      if c.Some? {
        out := out + [Emit(boundary, c.value)];
      }
      evals := evals + [Eval(boundary, slots)];
      assert evals[..|evals| - 1] == old(evals);
    }

    /** Moves the clock past every boundary at or before `ts`; only the first can be dirty. */
    method Advance(ts: int)
      requires Valid() && seen != [] && seen[|seen| - 1].rec.ts <= ts
      modifies this`next, this`dirty, this`out, this`evals
      ensures old(next).Some? && next == Some(BoundaryOf(anchor, cycle, ts))
      ensures out == EmitAll(env, anchor, evals)
      ensures evals == if ts >= old(next).value then old(evals) + [Eval(old(next).value, slots)] else old(evals)
    {
      ghost var k := (seen[|seen| - 1].rec.ts - anchor) / cycle + 1;
      BoundaryUnique(anchor, cycle, seen[|seen| - 1].rec.ts, k);
      while ts >= next.value
        invariant next.Some? && next.value == anchor + k * cycle && anchor + (k - 1) * cycle <= ts
        invariant old(next).value <= next.value && out == EmitAll(env, anchor, evals)
        invariant dirty ==> next == old(next) && evals == old(evals)
        invariant !dirty ==> ts >= old(next).value && evals == old(evals) + [Eval(old(next).value, slots)]
        decreases ts - next.value
      {
        if dirty {
          Evaluate(next.value);
          dirty := false;
        }
        assert (k + 1) * cycle == k * cycle + cycle;
        next := Some(next.value + cycle);
        k := k + 1;
      }
      BoundaryUnique(anchor, cycle, ts, k);
    }

    method UpdateSlot(x: Tagged<I>)
      requires x.source < providers && slots == SlotsOf(env, anchor, providers, seen)
      modifies this`slots
      ensures slots == SlotsOf(env, anchor, providers, seen + [x])
    {
      var now := SimNow(anchor, x.rec.ts);
      SlotsSnoc(env, anchor, providers, seen, x);
      match slots[x.source] {
        case Some(entry) => slots := slots[x.source := Some(env.updateAt(entry, x.rec.index, now))];
        case None => slots := slots[x.source := Some(env.newAt(x.source, x.rec.index, now))];
      }
    }

    /** One record of the merged stream. */
    method OnRecord(x: Tagged<I>)
      requires Valid() && x.source < providers
      requires if seen == [] then anchor == x.rec.ts else seen[|seen| - 1].rec.ts <= x.rec.ts
      modifies this
      ensures Valid() && seen == old(seen) + [x]
    {
      var ts := x.rec.ts;
      if next.None? {
        next := Some(ts + cycle);
        BoundaryUnique(anchor, cycle, ts, 1);
      } else {
        Advance(ts);
      }
      UpdateSlot(x);
      dirty := true;
      seen := seen + [x];
      SortedSnoc(old(seen), x);
      ClockedStep(env, cycle, providers, old(seen), x, old(next), old(slots), old(evals), next, slots, evals);
    }

    /** The final flush: the last boundary is evaluated too. */
    method Flush()
      requires Valid()
      modifies this`out, this`evals
      ensures seen == [] ==> evals == []
      ensures evals == EvalsOf(env, cycle, providers, seen)
      ensures out == EmitAll(env, anchor, evals)
    {
      if dirty {
        Evaluate(next.value);
      }
    }
  }

  lemma SortedSnoc<I>(m: seq<Tagged<I>>, x: Tagged<I>)
    requires TsSorted(m) && (m != [] ==> m[|m| - 1].rec.ts <= x.rec.ts)
    ensures TsSorted(m + [x])
  {
  }

  lemma ClockedStep<I, P, C>(env: Env<I, P, C>, cycle: int, n: nat, m: seq<Tagged<I>>, x: Tagged<I>,
                             next: Option<int>, slots: seq<Option<P>>, evals: seq<Eval<P>>,
                             next': Option<int>, slots': seq<Option<P>>, evals': seq<Eval<P>>)
    requires cycle > 0 && Clocked(env, cycle, n, m, next, slots, evals)
    requires m != [] ==> m[|m| - 1].rec.ts <= x.rec.ts
    requires var first := (m + [x])[0].rec.ts;
             && next' == Some(BoundaryOf(first, cycle, x.rec.ts))
             && slots' == SlotsOf(env, first, n, m + [x])
    requires evals' == if m != [] && x.rec.ts >= next.value then evals + [Eval(next.value, slots)] else evals
    ensures Clocked(env, cycle, n, m + [x], next', slots', evals')
  {
    EvalsSnoc(env, cycle, n, m, x);
    if m != [] {
      var prev := EvalsOf(env, cycle, n, m);
      assert prev[|prev| - 1].boundary == next.value && prev[..|prev| - 1] == evals;
      SameCycle(m[0].rec.ts, cycle, m[|m| - 1].rec.ts, x.rec.ts);
    }
  }

  lemma EvalsSnoc<I, P, C>(env: Env<I, P, C>, cycle: int, n: nat, m: seq<Tagged<I>>, x: Tagged<I>)
    requires cycle > 0
    ensures var first := (m + [x])[0].rec.ts;
            var b := BoundaryOf(first, cycle, x.rec.ts);
            EvalsOf(env, cycle, n, m + [x])
              == Kept(EvalsOf(env, cycle, n, m), b) + [Eval(b, SlotsOf(env, first, n, m + [x]))]
  {
    assert (m + [x])[..|m|] == m;
  }

  // ---------- main results about the evaluations ----------

  /** The updates before a boundary. */
  function Below<I>(m: seq<Tagged<I>>, b: int): seq<Tagged<I>>
  {
    if m == [] then []
    else Below(m[..|m| - 1], b) + if m[|m| - 1].rec.ts < b then [m[|m| - 1]] else []
  }

  lemma {:induction false} BelowAll<I>(m: seq<Tagged<I>>, b: int)
    requires forall j :: 0 <= j < |m| ==> m[j].rec.ts < b
    ensures Below(m, b) == m
  {
    if m != [] {
      BelowAll(m[..|m| - 1], b);
    }
  }

  /** The evaluations of all but the last update that survive the last one. */
  function Kept<P>(prev: seq<Eval<P>>, b: int): seq<Eval<P>>
  {
    if prev != [] && prev[|prev| - 1].boundary == b then prev[..|prev| - 1] else prev
  }

  /** Boundaries strictly increase, and the last one ends the last update's cycle. */
  lemma {:induction false} EvalsIncrease<I, P, C>(env: Env<I, P, C>, cycle: int, n: nat, m: seq<Tagged<I>>)
    requires cycle > 0 && m != [] && TsSorted(m)
    ensures var evals := EvalsOf(env, cycle, n, m);
            && evals != []
            && evals[|evals| - 1].boundary == BoundaryOf(m[0].rec.ts, cycle, m[|m| - 1].rec.ts)
            && forall i, j :: 0 <= i < j < |evals| ==> evals[i].boundary < evals[j].boundary
  {
    var front, x := m[..|m| - 1], m[|m| - 1];
    if front != [] {
      EvalsIncrease(env, cycle, n, front);
      BoundaryMono(m[0].rec.ts, cycle, front[|front| - 1].rec.ts, x.rec.ts);
    }
  }

  ghost predicate Ends<I>(m: seq<Tagged<I>>, first: int, cycle: int, b: int)
    requires cycle > 0
  {
    exists j :: 0 <= j < |m| && BoundaryOf(first, cycle, m[j].rec.ts) == b
  }

  ghost predicate Evaluated<P>(evals: seq<Eval<P>>, b: int)
  {
    exists i :: 0 <= i < |evals| && evals[i].boundary == b
  }

  lemma EvaluatedSnoc<P>(evals: seq<Eval<P>>, e: Eval<P>, b: int)
    ensures Evaluated(evals + [e], b) <==> Evaluated(evals, b) || e.boundary == b
  {
    assert (evals + [e])[|evals|] == e;
    assert forall i :: 0 <= i < |evals| ==> (evals + [e])[i] == evals[i];
  }

  lemma EndsSnoc<I>(m: seq<Tagged<I>>, x: Tagged<I>, first: int, cycle: int, b: int)
    requires cycle > 0
    ensures Ends(m + [x], first, cycle, b) <==> Ends(m, first, cycle, b) || BoundaryOf(first, cycle, x.rec.ts) == b
  {
    assert (m + [x])[|m|] == x;
    assert forall i :: 0 <= i < |m| ==> (m + [x])[i] == m[i];
  }

  /** A boundary is evaluated exactly when it ends the cycle of some update. */
  lemma {:induction false} EvaluatedExactlyAtUpdates<I, P, C>(
      env: Env<I, P, C>, cycle: int, n: nat, m: seq<Tagged<I>>, b: int)
    requires cycle > 0 && m != []
    ensures Evaluated(EvalsOf(env, cycle, n, m), b) <==> Ends(m, m[0].rec.ts, cycle, b)
  {
    var front, x := m[..|m| - 1], m[|m| - 1];
    var first := m[0].rec.ts;
    var prev := EvalsOf(env, cycle, n, front);
    var e := Eval(BoundaryOf(first, cycle, x.rec.ts), SlotsOf(env, first, n, m));
    assert m == front + [x];
    EndsSnoc(front, x, first, cycle, b);
    EvaluatedSnoc(Kept(prev, e.boundary), e, b);
    if prev != [] {
      EvaluatedSnoc(prev[..|prev| - 1], prev[|prev| - 1], b);
      assert prev == prev[..|prev| - 1] + [prev[|prev| - 1]];
    }
    if front != [] {
      EvaluatedExactlyAtUpdates(env, cycle, n, front, b);
    }
  }

  lemma LastEvaluation<I, P, C>(env: Env<I, P, C>, cycle: int, n: nat, m: seq<Tagged<I>>)
    requires cycle > 0 && m != [] && TsSorted(m)
    ensures var evals := EvalsOf(env, cycle, n, m);
            evals != [] && evals[|evals| - 1].slots
                           == SlotsOf(env, m[0].rec.ts, n, Below(m, evals[|evals| - 1].boundary))
  {
    var x := m[|m| - 1];
    BoundaryUnique(m[0].rec.ts, cycle, x.rec.ts, (x.rec.ts - m[0].rec.ts) / cycle + 1);
    BelowAll(m, BoundaryOf(m[0].rec.ts, cycle, x.rec.ts));
  }

  lemma BelowSnoc<I>(m: seq<Tagged<I>>, x: Tagged<I>, b: int)
    requires b <= x.rec.ts
    ensures Below(m + [x], b) == Below(m, b)
  {
    assert (m + [x])[..|m|] == m;
  }

  /** All but the last evaluation were there before the last update, and it is not before their
      boundary. */
  lemma EarlierEvaluation<I, P, C>(env: Env<I, P, C>, cycle: int, n: nat, m: seq<Tagged<I>>, x: Tagged<I>, i: nat)
    requires cycle > 0 && m != [] && TsSorted(m + [x]) && i < |EvalsOf(env, cycle, n, m + [x])| - 1
    ensures i < |EvalsOf(env, cycle, n, m)| && EvalsOf(env, cycle, n, m + [x])[i] == EvalsOf(env, cycle, n, m)[i]
    ensures EvalsOf(env, cycle, n, m)[i].boundary <= x.rec.ts
  {
    var evals := EvalsOf(env, cycle, n, m + [x]);
    var b := BoundaryOf(m[0].rec.ts, cycle, x.rec.ts);
    EvalsSnoc(env, cycle, n, m, x);
    EvalsIncrease(env, cycle, n, m + [x]);
    assert evals[i].boundary < evals[|evals| - 1].boundary == b;
    EarlierBoundary(env, cycle, n, m, i, x.rec.ts);
  }

  /** Every evaluation sees exactly the updates before its boundary. */
  lemma {:induction false} EvaluatedWithUpdatesBelow<I, P, C>(
      env: Env<I, P, C>, cycle: int, n: nat, m: seq<Tagged<I>>, i: nat)
    requires cycle > 0 && m != [] && TsSorted(m) && i < |EvalsOf(env, cycle, n, m)|
    ensures var e := EvalsOf(env, cycle, n, m)[i];
            e.slots == SlotsOf(env, m[0].rec.ts, n, Below(m, e.boundary))
  {
    if i == |EvalsOf(env, cycle, n, m)| - 1 {
      LastEvaluation(env, cycle, n, m);
    } else {
      var front, x := m[..|m| - 1], m[|m| - 1];
      assert m == front + [x];
      FrontNotEmpty(env, cycle, n, m);
      EarlierEvaluation(env, cycle, n, front, x, i);
      EvaluatedWithUpdatesBelow(env, cycle, n, front, i);
      BelowSnoc(front, x, EvalsOf(env, cycle, n, front)[i].boundary);
    }
  }

  lemma FrontNotEmpty<I, P, C>(env: Env<I, P, C>, cycle: int, n: nat, m: seq<Tagged<I>>)
    requires cycle > 0 && m != []
    ensures |EvalsOf(env, cycle, n, m)| > 1 ==> |m| > 1
  {
    if |m| == 1 {
      var none: seq<Tagged<I>> := [];
      assert m == none + [m[0]];
      EvalsSnoc(env, cycle, n, none, m[0]);
    }
  }

  lemma EarlierBoundary<I, P, C>(env: Env<I, P, C>, cycle: int, n: nat, m: seq<Tagged<I>>, i: nat, ts: int)
    requires cycle > 0 && m != [] && i < |EvalsOf(env, cycle, n, m)|
    requires EvalsOf(env, cycle, n, m)[i].boundary < BoundaryOf(m[0].rec.ts, cycle, ts)
    ensures EvalsOf(env, cycle, n, m)[i].boundary <= ts
  {
    var b := EvalsOf(env, cycle, n, m)[i].boundary;
    EvaluatedExactlyAtUpdates(env, cycle, n, m, b);
    var j :| 0 <= j < |m| && BoundaryOf(m[0].rec.ts, cycle, m[j].rec.ts) == b;
    BoundaryGap(m[0].rec.ts, cycle, m[j].rec.ts, ts);
  }

  /** In terms of the clock: the boundary `n` cycles after the first update is evaluated exactly
      when some update falls in the cycle before it, so no update misses a boundary. */
  lemma EvaluatedExactlyWhenCycleHasUpdate<I, P, C>(
      env: Env<I, P, C>, cycle: int, n: nat, m: seq<Tagged<I>>, k: int)
    requires cycle > 0 && m != []
    ensures var b := m[0].rec.ts + k * cycle;
            Evaluated(EvalsOf(env, cycle, n, m), b) <==>
            exists j :: 0 <= j < |m| && b - cycle <= m[j].rec.ts < b
  {
    var first := m[0].rec.ts;
    var b := first + k * cycle;
    EvaluatedExactlyAtUpdates(env, cycle, n, m, b);
    assert (k - 1) * cycle == k * cycle - cycle;
    forall j | 0 <= j < |m|
      ensures BoundaryOf(first, cycle, m[j].rec.ts) == b <==> b - cycle <= m[j].rec.ts < b
    {
      BoundaryUnique(first, cycle, m[j].rec.ts, k);
    }
  }

  lemma BoundaryMono(first: int, cycle: int, a: int, b: int)
    requires cycle > 0 && a <= b
    ensures BoundaryOf(first, cycle, a) <= BoundaryOf(first, cycle, b)
  {
    var j, k := (a - first) / cycle + 1, (b - first) / cycle + 1;
    BoundaryUnique(first, cycle, a, j);
    BoundaryUnique(first, cycle, b, k);
    MulMono(k + 1, Max(j, k + 1), cycle);
    assert (k + 1) * cycle == k * cycle + cycle;
    assert j <= k;
    MulMono(j, k, cycle);
  }

  /** A record's cycle starts at or after every earlier boundary. */
  lemma BoundaryGap(first: int, cycle: int, a: int, b: int)
    requires cycle > 0
    ensures BoundaryOf(first, cycle, a) < BoundaryOf(first, cycle, b) ==> BoundaryOf(first, cycle, a) <= b
  {
    var j, k := (a - first) / cycle + 1, (b - first) / cycle + 1;
    BoundaryUnique(first, cycle, b, k);
    if j >= k {
      MulMono(k, j, cycle);
    } else {
      MulMono(j, k - 1, cycle);
    }
  }
}
