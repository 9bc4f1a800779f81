/**
  Process-wide request pacing: a mutex-held `next` instant that `reserve` pushes one gap
  past the slot it grants and that `back_off` pushes past a retry delay.

  Instants and durations are integer nanoseconds. Every call holds the mutex for its whole
  body, so an interleaving of any number of threads is a sequence of calls, each with the
  clock reading its own thread took, in whatever order the mutex was granted.
*/
module RequestLimiter {
  import opened Wrappers
  import opened Arith

  const NS_PER_MS: nat := 1_000_000
  const NS_PER_SEC: nat := 1_000_000_000

  datatype Call = Reserve(now: int) | BackOff(now: int, delay: nat)

  function GapFor(perSec: nat): nat
    requires perSec > 0
  {
    (1000 / perSec) * NS_PER_MS
  }

  function Step(next: int, gap: nat, c: Call): int
  {
    match c
    case Reserve(now) => Max(next, now) + gap
    case BackOff(now, delay) => Max(next, now + delay)
  }

  /** `next` after a sequence of calls. */
  function After(next: int, gap: nat, calls: seq<Call>): int
    decreases |calls|
  {
    if calls == [] then next else After(Step(next, gap, calls[0]), gap, calls[1..])
  }

  /** The start slots granted to the `Reserve` calls, in call order. */
  function Slots(next: int, gap: nat, calls: seq<Call>): seq<int>
    decreases |calls|
  {
    if calls == [] then []
    else
      var rest := Slots(Step(next, gap, calls[0]), gap, calls[1..]);
      if calls[0].Reserve? then [Max(next, calls[0].now)] + rest else rest
  }

  /** The clock readings of the `Reserve` calls, aligned with `Slots`. */
  function Readings(calls: seq<Call>): seq<int>
  {
    if calls == [] then []
    else if calls[0].Reserve? then [calls[0].now] + Readings(calls[1..])
    else Readings(calls[1..])
  }

  class Limiter {
    const gap: nat
    var next: int
    const start: int
    ghost var calls: seq<Call>

    ghost predicate Valid()
      reads this
    {
      next == After(start, gap, calls)
    }

    ghost function Granted(): seq<int>
      reads this
    {
      Slots(start, gap, calls)
    }

    constructor (perSec: nat, now: int)
      requires perSec > 0
      ensures Valid() && calls == [] && gap == GapFor(perSec) && start == now
    {
      gap := (1000 / perSec) * NS_PER_MS;
      next := now;
      start := now;
      calls := [];
    }

    /** Grants the next slot and says how long the caller must wait for it. */
    method Reserve(now: int) returns (wait: nat)
      requires Valid()
      modifies this
      ensures Valid() && calls == old(calls) + [Call.Reserve(now)]
      ensures Granted() == old(Granted()) + [now + wait]
    {
      var at := if next < now then now else next;
      Snoc(start, gap, calls, Call.Reserve(now));
      next := at + gap;
      calls := calls + [Call.Reserve(now)];
      wait := at - now;
    }

    /** Pushes every later slot past `now + delay`. */
    method BackOff(now: int, delay: nat)
      requires Valid()
      modifies this
      ensures Valid() && calls == old(calls) + [Call.BackOff(now, delay)]
      ensures Granted() == old(Granted())
    {
      Snoc(start, gap, calls, Call.BackOff(now, delay));
      if next < now + delay {
        next := now + delay;
      }
      calls := calls + [Call.BackOff(now, delay)];
    }
  }

  lemma {:induction false} Snoc(next: int, gap: nat, calls: seq<Call>, c: Call)
    ensures After(next, gap, calls + [c]) == Step(After(next, gap, calls), gap, c)
    ensures Slots(next, gap, calls + [c]) == Slots(next, gap, calls)
                                             + if c.Reserve? then [Max(After(next, gap, calls), c.now)] else []
    decreases |calls|
  {
    if calls != [] {
      assert (calls + [c])[1..] == calls[1..] + [c];
      Snoc(Step(next, gap, calls[0]), gap, calls[1..], c);
    }
  }

  // ---------- what every sequence of calls keeps ----------

  ghost predicate Spaced(slots: seq<int>, gap: nat)
  {
    forall i, j :: 0 <= i < j < |slots| ==> slots[j] >= slots[i] + gap
  }

  /** No slot precedes the state it was granted from, and consecutive slots are a gap apart,
      whatever the clock readings were. */
  lemma {:induction false} SlotsAreSpaced(next: int, gap: nat, calls: seq<Call>)
    ensures Spaced(Slots(next, gap, calls), gap)
    ensures forall i :: 0 <= i < |Slots(next, gap, calls)| ==> Slots(next, gap, calls)[i] >= next
    decreases |calls|
  {
    if calls != [] {
      SlotsAreSpaced(Step(next, gap, calls[0]), gap, calls[1..]);
    }
  }

  /** Each slot is at or after the clock reading its caller passed. */
  lemma {:induction false} SlotsFollowReadings(next: int, gap: nat, calls: seq<Call>)
    ensures |Slots(next, gap, calls)| == |Readings(calls)|
    ensures forall i :: 0 <= i < |Readings(calls)| ==> Slots(next, gap, calls)[i] >= Readings(calls)[i]
    decreases |calls|
  {
    if calls != [] {
      SlotsFollowReadings(Step(next, gap, calls[0]), gap, calls[1..]);
    }
  }

  lemma {:induction false} Append(next: int, gap: nat, before: seq<Call>, after: seq<Call>)
    ensures Slots(next, gap, before + after)
         == Slots(next, gap, before) + Slots(After(next, gap, before), gap, after)
    decreases |before|
  {
    if before == [] {
      assert before + after == after;
    } else {
      assert (before + after)[1..] == before[1..] + after;
      Append(Step(next, gap, before[0]), gap, before[1..], after);
    }
  }

  /** Every slot granted after a back-off respects it. */
  lemma BackOffIsRespected(next: int, gap: nat, before: seq<Call>, now: int, delay: nat, after: seq<Call>)
    ensures var calls := before + [BackOff(now, delay)] + after;
            var granted := Slots(next, gap, calls);
            var earlier := |Readings(before)|;
            earlier <= |granted| &&
            forall i :: earlier <= i < |granted| ==> granted[i] >= now + delay
  {
    var upTo := before + [BackOff(now, delay)];
    var later := Slots(After(next, gap, upTo), gap, after);
    assert Slots(next, gap, upTo + after) == Slots(next, gap, before) + later
        && After(next, gap, upTo) >= now + delay by {
      Append(next, gap, upTo, after);
      Snoc(next, gap, before, BackOff(now, delay));
    }
    assert |Slots(next, gap, before)| == |Readings(before)| by { SlotsFollowReadings(next, gap, before); }
    SlotsAreSpaced(After(next, gap, upTo), gap, after);
  }

  /** `x` is a gap after every slot. */
  ghost predicate AfterSlots(slots: seq<int>, gap: nat, x: int)
  {
    forall i :: 0 <= i < |slots| ==> slots[i] + gap <= x
  }

  /** `x` is past every back-off. */
  ghost predicate PastBackOffs(calls: seq<Call>, x: int)
  {
    forall i :: 0 <= i < |calls| && calls[i].BackOff? ==> calls[i].now + calls[i].delay <= x
  }

  lemma AfterSlotsCons(slot: int, slots: seq<int>, gap: nat, x: int)
    ensures AfterSlots([slot] + slots, gap, x) <==> slot + gap <= x && AfterSlots(slots, gap, x)
  {
    var all := [slot] + slots;
    assert all[0] == slot && forall i :: 0 <= i < |slots| ==> all[i + 1] == slots[i];
  }

  lemma PastBackOffsCons(c: Call, calls: seq<Call>, x: int)
    ensures PastBackOffs([c] + calls, x) <==> (c.BackOff? ==> c.now + c.delay <= x) && PastBackOffs(calls, x)
  {
    var all := [c] + calls;
    assert all[0] == c && forall i :: 0 <= i < |calls| ==> all[i + 1] == calls[i];
  }

  /** The state after a sequence of calls is the least instant that is not before the start, a gap after
      every slot granted, and past every back-off. */
  lemma {:induction false} NextIsLeast(next: int, gap: nat, calls: seq<Call>, x: int)
    ensures After(next, gap, calls) <= x <==>
            next <= x && AfterSlots(Slots(next, gap, calls), gap, x) && PastBackOffs(calls, x)
    decreases |calls|
  {
    if calls != [] {
      var next' := Step(next, gap, calls[0]);
      NextIsLeast(next', gap, calls[1..], x);
      assert calls == [calls[0]] + calls[1..];
      PastBackOffsCons(calls[0], calls[1..], x);
      AfterSlotsCons(Max(next, calls[0].now), Slots(next', gap, calls[1..]), gap, x);
    }
  }

  /** Nobody waits longer than the earlier calls demand: a slot is the least instant from its caller's
      reading on that is not before the start, a gap after every earlier slot, and past every back-off. */
  lemma SlotIsEarliest(next: int, gap: nat, before: seq<Call>, now: int, x: int)
    ensures var earlier, slots := Slots(next, gap, before), Slots(next, gap, before + [Reserve(now)]);
            && |slots| == |earlier| + 1 && slots[..|earlier|] == earlier
            && (slots[|earlier|] <= x <==>
                  now <= x && next <= x && AfterSlots(earlier, gap, x) && PastBackOffs(before, x))
  {
    Snoc(next, gap, before, Reserve(now));
    NextIsLeast(next, gap, before, x);
  }

  // ---------- requests per second ----------

  /** How many slots fall in `[from, to)`. */
  function InWindow(slots: seq<int>, from: int, to: int): nat
  {
    if slots == [] then 0
    else (if from <= slots[0] < to then 1 else 0) + InWindow(slots[1..], from, to)
  }

  lemma {:induction false} WindowBound(slots: seq<int>, gap: nat, low: int, from: int, to: int)
    requires Spaced(slots, gap)
    requires forall i :: 0 <= i < |slots| ==> slots[i] >= low
    ensures InWindow(slots, from, to) > 0 ==> (InWindow(slots, from, to) - 1) * gap < to - Max(low, from)
    decreases |slots|
  {
    if slots != [] {
      var rest := slots[1..];
      if from <= slots[0] < to {
        WindowBound(rest, gap, slots[0] + gap, from, to);
        var c := InWindow(rest, from, to);
        assert c > 0 ==> c * gap == (c - 1) * gap + gap;
      } else {
        WindowBound(rest, gap, low, from, to);
      }
    }
  }

  /** `n` callers that all read clock 0 on a fresh limiter. */
  function Burst(n: nat): seq<Call>
  {
    if n == 0 then [] else [Reserve(0)] + Burst(n - 1)
  }

  lemma {:induction false} BurstFillsWindow(next: int, gap: nat, n: nat, to: int)
    requires 0 <= next && next + n * gap < to
    ensures InWindow(Slots(next, gap, Burst(n + 1)), 0, to) == n + 1
    decreases n
  {
    assert Burst(n + 1)[1..] == Burst(n);
    if n == 0 {
      assert Burst(1) == [Reserve(0)];
      assert Slots(next, gap, Burst(1)) == [next];
    } else {
      assert n * gap == (n - 1) * gap + gap;
      BurstFillsWindow(next + gap, gap, n - 1, to);
      assert Slots(next, gap, Burst(n + 1)) == [next] + Slots(next + gap, gap, Burst(n));
      assert n * gap >= 0;
    }
  }

  ghost predicate WindowHolds(perSec: nat, next: int, calls: seq<Call>, from: int)
    requires perSec > 0
  {
    InWindow(Slots(next, GapFor(perSec), calls), from, from + NS_PER_SEC) <= perSec
  }

  /** Any half-open second holds at most `perSec` granted slots, for every interleaving,
      exactly when `perSec` divides 1000: the gap is in whole milliseconds, rounded down. */
  lemma RateHoldsExactlyForDivisors(perSec: nat)
    requires perSec > 0
    ensures (forall next, calls, from :: WindowHolds(perSec, next, calls, from)) <==> 1000 % perSec == 0
  {
    var gap := GapFor(perSec);
    GapBudget(perSec);
    if 1000 % perSec == 0 {
      forall next, calls, from
        ensures WindowHolds(perSec, next, calls, from)
      {
        var slots := Slots(next, gap, calls);
        SlotsAreSpaced(next, gap, calls);
        WindowBound(slots, gap, next, from, from + NS_PER_SEC);
        var c := InWindow(slots, from, from + NS_PER_SEC);
        if c > perSec {
          MulMono(perSec, c - 1, gap);
        }
      }
    } else {
      BurstFillsWindow(0, gap, perSec, NS_PER_SEC);
      assert !WindowHolds(perSec, 0, Burst(perSec + 1), 0);
    }
  }

  lemma GapBudget(perSec: nat)
    requires perSec > 0
    ensures perSec * GapFor(perSec) == (1000 - 1000 % perSec) * NS_PER_MS
  {
    var q := 1000 / perSec;
    assert perSec * q == 1000 - 1000 % perSec;
    assert perSec * (q * NS_PER_MS) == (perSec * q) * NS_PER_MS;
  }
}
