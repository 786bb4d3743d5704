/**
 * Calendar arithmetic used by the loan engine, standing in for the date
 * library calls of the source (startOfDay, differenceInDays, addDays, isToday).
 *
 * An instant is a whole number of milliseconds since the Unix epoch, read in
 * UTC: there are no time zones and no daylight-saving shifts, so every
 * calendar day is exactly `MsPerDay` milliseconds long.
 */
module Dates {

  type Timestamp = int

  const MsPerDay: int := 86_400_000

  /** The number of the calendar day an instant falls on (day 0 starts at the epoch). */
  function Day(t: Timestamp): int
  {
    t / MsPerDay
  }

  /** The first instant of the calendar day that `t` falls on. */
  function StartOfDay(t: Timestamp): (r: Timestamp)
    ensures r <= t < r + MsPerDay
    ensures Day(r) == Day(t)
    ensures r % MsPerDay == 0
  {
    Day(t) * MsPerDay
  }

  /** The two instants fall on the same calendar day. */
  predicate IsSameDay(a: Timestamp, b: Timestamp)
  {
    Day(a) == Day(b)
  }

  /**
   * The number of full 24-hour periods from `earlier` to `later`, negative when
   * `later` comes first; a period that is not complete does not count, so the
   * result is truncated toward zero.
   */
  function DifferenceInDays(later: Timestamp, earlier: Timestamp): (r: int)
    ensures r > 0 ==> r * MsPerDay <= later - earlier < (r + 1) * MsPerDay
    ensures r < 0 ==> (r - 1) * MsPerDay < later - earlier <= r * MsPerDay
    ensures r == 0 <==> -MsPerDay < later - earlier < MsPerDay
  {
    var d := later - earlier;
    if d >= 0 then d / MsPerDay else -((-d) / MsPerDay)
  }

  /** The instant `n` whole days after `t`. */
  function AddDays(t: Timestamp, n: int): (r: Timestamp)
    ensures Day(r) == Day(t) + n
    ensures DifferenceInDays(r, t) == n
    ensures r - StartOfDay(r) == t - StartOfDay(t)
  {
    t + n * MsPerDay
  }

  /** On day starts, the full-day difference is exactly the difference of day numbers. */
  lemma DifferenceOfDayStarts(a: Timestamp, b: Timestamp)
    ensures DifferenceInDays(StartOfDay(a), StartOfDay(b)) == Day(a) - Day(b)
  {
    var k := Day(a) - Day(b);
    assert StartOfDay(a) - StartOfDay(b) == k * MsPerDay;
    if k >= 0 {
      assert (k * MsPerDay) / MsPerDay == k;
    } else {
      assert ((-k) * MsPerDay) / MsPerDay == -k;
    }
  }

  /** Swapping the two instants negates the full-day difference. */
  lemma DifferenceAntisymmetric(a: Timestamp, b: Timestamp)
    ensures DifferenceInDays(a, b) == -DifferenceInDays(b, a)
  {
  }

  /** Ordering of day starts agrees with ordering of day numbers. */
  lemma StartOfDayOrder(a: Timestamp, b: Timestamp)
    ensures StartOfDay(a) < StartOfDay(b) <==> Day(a) < Day(b)
    ensures StartOfDay(a) == StartOfDay(b) <==> Day(a) == Day(b)
  {
    var da, db := Day(a), Day(b);
    if da < db {
      assert da * MsPerDay < db * MsPerDay;
    } else if da > db {
      assert da * MsPerDay > db * MsPerDay;
    }
  }
}
