/** Wall-clock arithmetic in the user's local time zone.

    The zone is a fixed offset from UTC, so a local calendar day is a block of
    exactly 24 hours. Within that assumption, setting the local hour to 04:00
    (keeping the date) and asking for the local day of the week are exact. */
module LocalTime {

  /** Milliseconds in a day: 24 * 60 * 60 * 1000. */
  const DayMs: int := 86_400_000

  /** Milliseconds from local midnight to 04:00. */
  const FourAmMs: int := 14_400_000

  /** A time zone: local time = UTC time + offsetMs. */
  datatype Zone = Zone(offsetMs: int)

  /** Number of the local calendar day holding instant `t` (day 0 holds local
      1970-01-01). Division is floor division, also before the epoch. */
  function LocalDay(t: int, z: Zone): int
  {
    (t + z.offsetMs) / DayMs
  }

  /** Milliseconds since local midnight at instant `t`. */
  function TimeOfDay(t: int, z: Zone): (r: int)
    ensures 0 <= r < DayMs
  {
    (t + z.offsetMs) % DayMs
  }

  /** An instant is its local day's start plus its time of day. */
  lemma DaySplit(t: int, z: Zone)
    ensures t == LocalDay(t, z) * DayMs + TimeOfDay(t, z) - z.offsetMs
  {
  }

  /** Floor division by a day of a value written as whole days plus a
      remainder inside one day. */
  lemma DivDay(q: int, rem: int)
    requires 0 <= rem < DayMs
    ensures (q * DayMs + rem) / DayMs == q
    ensures (q * DayMs + rem) % DayMs == rem
  {
  }

  /** `Date.setHours(4, 0, 0, 0)`: the instant at 04:00:00.000 local time on
      the same local calendar day as `t`. */
  function At4am(t: int, z: Zone): (r: int)
    ensures LocalDay(r, z) == LocalDay(t, z)
    ensures TimeOfDay(r, z) == FourAmMs
  {
    DivDay(LocalDay(t, z), FourAmMs);
    LocalDay(t, z) * DayMs + FourAmMs - z.offsetMs
  }

  /** The two properties of At4am pin it down: any instant on the same local
      day whose time of day is 04:00 is At4am's result. */
  lemma At4amUnique(t: int, u: int, z: Zone)
    requires LocalDay(u, z) == LocalDay(t, z)
    requires TimeOfDay(u, z) == FourAmMs
    ensures u == At4am(t, z)
  {
    DaySplit(u, z);
  }

  /** A later local day starts after every instant of an earlier one, so its
      04:00 lies after any instant of the earlier day. */
  lemma At4amOfLaterDay(t: int, u: int, z: Zone)
    requires LocalDay(u, z) > LocalDay(t, z)
    ensures At4am(u, z) > t
  {
    DaySplit(t, z);
    assert LocalDay(u, z) * DayMs >= (LocalDay(t, z) + 1) * DayMs;
  }

  /** Adding whole days moves the local day by the same count. */
  lemma ShiftDays(t: int, n: int, z: Zone)
    ensures LocalDay(t + n * DayMs, z) == LocalDay(t, z) + n
    ensures TimeOfDay(t + n * DayMs, z) == TimeOfDay(t, z)
  {
    DaySplit(t, z);
    DivDay(LocalDay(t, z) + n, TimeOfDay(t, z));
    assert t + n * DayMs + z.offsetMs == (LocalDay(t, z) + n) * DayMs + TimeOfDay(t, z);
  }

  /** `Date.getDay()`: 0 is Sunday, ..., 6 is Saturday. Local 1970-01-01 was a
      Thursday (4). */
  function DayOfWeek(t: int, z: Zone): (r: int)
    ensures 0 <= r < 7
  {
    (LocalDay(t, z) + 4) % 7
  }

  predicate IsSunday(t: int, z: Zone)
  {
    DayOfWeek(t, z) == 0
  }

  /** Local 1970-01-01, the instant `-offset`, was a Thursday. */
  lemma EpochThursday(z: Zone)
    ensures LocalDay(-z.offsetMs, z) == 0
    ensures DayOfWeek(-z.offsetMs, z) == 4
  {
  }

  /** The next local day is the next weekday, Saturday wrapping to Sunday. */
  lemma DayOfWeekNext(t: int, z: Zone)
    ensures DayOfWeek(t + DayMs, z) == (DayOfWeek(t, z) + 1) % 7
  {
    ShiftDays(t, 1, z);
  }

  /** The weekday repeats every seven days: the Sunday after a Sunday is one
      week later. */
  lemma SundayWeekly(t: int, z: Zone)
    requires IsSunday(t, z)
    ensures IsSunday(t + 7 * DayMs, z)
    ensures !IsSunday(t + DayMs, z)
  {
    ShiftDays(t, 7, z);
    ShiftDays(t, 1, z);
  }

  /** `new Date(x).getTime()` for a finite number `x`: the time value is
      truncated toward zero to whole milliseconds. */
  function TimeValue(x: real): (r: int)
    ensures x >= 0.0 ==> r as real <= x < r as real + 1.0
    ensures x < 0.0 ==> r as real - 1.0 < x <= r as real
  {
    if x >= 0.0 then x.Floor else -((-x).Floor)
  }

  /** Truncation never drops below a whole number the input already reaches. */
  lemma TimeValueAtLeast(x: real, n: int)
    requires x >= n as real
    ensures TimeValue(x) >= n
  {
  }
}
