/** The index record the healer and the writers move around, and stable sorting by time. */
module IdxRecord {
  const U8_MAX: nat := 0xff
  const U16_MAX: nat := 0xffff
  const U32_MAX: nat := 0xffff_ffff

  /** Timestamps come from an unsigned wire clock, so they are never negative. Integer widths:
      volumes 32 bits; `ci` and `ticks` 16; `count`, `confidence`, `accepted`, `rejected` 8. */
  datatype Rec = Rec(
    ts: nat, ticker: nat, provider: nat, count: nat, sequence: nat,
    bid: real, ask: real, vbid: nat, vask: nat, ci: nat, ticks: nat,
    confidence: nat, accepted: nat, rejected: nat, flags: bv8)

  ghost predicate SortedByTs(s: seq<Rec>)
  {
    forall i, j :: 0 <= i < j < |s| ==> s[i].ts <= s[j].ts
  }

  /** Puts `r` after every record that is not later than it. */
  function Insert(s: seq<Rec>, r: Rec): (out: seq<Rec>)
    ensures multiset(out) == multiset(s) + multiset{r}
  {
    if s == [] then [r]
    else
      var front, last := s[..|s| - 1], s[|s| - 1];
      assert s == front + [last];
      if last.ts <= r.ts then s + [r] else Insert(front, r) + [last]
  }

  lemma {:induction false} InsertSorted(s: seq<Rec>, r: Rec)
    requires SortedByTs(s)
    ensures SortedByTs(Insert(s, r))
  {
    if s != [] && s[|s| - 1].ts > r.ts {
      var front, last := s[..|s| - 1], s[|s| - 1];
      var out := Insert(front, r);
      InsertSorted(front, r);
      forall i | 0 <= i < |out|
        ensures out[i].ts <= last.ts
      {
        assert out[i] in multiset(out);
        assert out[i] in multiset(front) || out[i] == r;
      }
    }
  }

  /** The stable sort by timestamp. */
  function SortByTs(s: seq<Rec>): (out: seq<Rec>)
    ensures multiset(out) == multiset(s)
  {
    if s == [] then []
    else
      assert s == s[..|s| - 1] + [s[|s| - 1]];
      Insert(SortByTs(s[..|s| - 1]), s[|s| - 1])
  }

  lemma {:induction false} SortSorts(s: seq<Rec>)
    ensures SortedByTs(SortByTs(s))
  {
    if s != [] {
      SortSorts(s[..|s| - 1]);
      InsertSorted(SortByTs(s[..|s| - 1]), s[|s| - 1]);
    }
  }

  /** Sorting keeps the order of equal timestamps: the records of any one timestamp come out in
      the order they went in. */
  function At(s: seq<Rec>, ts: nat): seq<Rec>
  {
    if s == [] then []
    else At(s[..|s| - 1], ts) + if s[|s| - 1].ts == ts then [s[|s| - 1]] else []
  }

  lemma AtSnoc(s: seq<Rec>, r: Rec, ts: nat)
    ensures At(s + [r], ts) == if r.ts == ts then At(s, ts) + [r] else At(s, ts)
  {
    assert (s + [r])[..|s|] == s;
  }

  lemma AtInsertFront(front: seq<Rec>, last: Rec, out: seq<Rec>, r: Rec, ts: nat)
    requires r.ts < last.ts
    requires At(out, ts) == if r.ts == ts then At(front, ts) + [r] else At(front, ts)
    ensures At(out + [last], ts) == if r.ts == ts then At(front + [last], ts) + [r] else At(front + [last], ts)
  {
    AtSnoc(out, last, ts);
    AtSnoc(front, last, ts);
  }

  lemma InsertSnoc(front: seq<Rec>, last: Rec, r: Rec)
    ensures Insert(front + [last], r) ==
            if last.ts <= r.ts then front + [last] + [r] else Insert(front, r) + [last]
  {
    assert (front + [last])[..|front|] == front;
  }

  lemma {:induction false} AtInsert(s: seq<Rec>, r: Rec, ts: nat)
    ensures At(Insert(s, r), ts) == if r.ts == ts then At(s, ts) + [r] else At(s, ts)
  {
    if s == [] {
      AtSnoc(s, r, ts);
      assert Insert(s, r) == s + [r];
    } else {
      var front, last := s[..|s| - 1], s[|s| - 1];
      assert s == front + [last];
      InsertSnoc(front, last, r);
      if last.ts <= r.ts {
        AtSnoc(s, r, ts);
      } else {
        AtInsert(front, r, ts);
        AtInsertFront(front, last, Insert(front, r), r, ts);
      }
    }
  }

  lemma {:induction false} SortIsStable(s: seq<Rec>, ts: nat)
    ensures At(SortByTs(s), ts) == At(s, ts)
  {
    if s != [] {
      SortIsStable(s[..|s| - 1], ts);
      AtInsert(SortByTs(s[..|s| - 1]), s[|s| - 1], ts);
    }
  }
}
