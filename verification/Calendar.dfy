/** UTC days on an integer epoch-millisecond clock. A day number counts days since the epoch. */
module Calendar {
  const MS_PER_DAY: nat := 86_400_000
  const MS_PER_HOUR: nat := 3_600_000

  /** The UTC date of a timestamp; dates before the epoch are negative (floored, not truncated). */
  function DayOf(ts: int): (d: int)
    ensures DayStart(d) <= ts < DayStart(d) + MS_PER_DAY
  {
    ts / MS_PER_DAY
  }

  function DayStart(d: int): int
  {
    d * MS_PER_DAY
  }

  /** The half-open day window decides the date. */
  lemma InDay(ts: int, d: int)
    ensures DayStart(d) <= ts < DayStart(d) + MS_PER_DAY <==> DayOf(ts) == d
  {
  }
}
