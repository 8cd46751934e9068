/**
 The two calendar windows of the summary cards: "this month" and "this
 week" (the days from the most recent Sunday on).

 `InMonth` and `InWeek` compare calendar days, which is what the summary
 evidently means and what the rest of the model uses. The code as written
 compares instants instead: a record's `YYYY-MM-DD` date is read as UTC
 midnight while the start of the week is a local-time instant that keeps
 the current time of day. `AsWrittenInWeek` models that comparison, and
 the lemmas below show which records it loses.
 */
module Windows {
  import opened Ledger

  const MinutesPerDay: int := 1440

  /** Day number of the Sunday that starts the week containing `now`. */
  function WeekStart(now: Date): (s: int)
    ensures DayOfWeek(s) == 0
    ensures s <= DayNumber(now) < s + 7
  {
    var n := DayNumber(now);
    n - DayOfWeek(n)
  }

  /** `d` lies in the calendar month (and year) of `now`. */
  predicate InMonth(d: Date, now: Date) {
    d.year == now.year && d.month == now.month
  }

  /** `d` is on or after the Sunday that starts the week of `now`; later dates count too. */
  predicate InWeek(d: Date, now: Date) {
    DayNumber(d) >= WeekStart(now)
  }

  /**
   The week window holds exactly the days from the Sunday that starts the
   week of `now` (the one Sunday in the seven days up to and including
   `now`), with no end; a day a week or more before `now` is outside.
   */
  lemma InWeekCharacterized(d: Date, now: Date)
    ensures InWeek(now, now)
    ensures forall s :: DayOfWeek(s) == 0 && s <= DayNumber(now) < s + 7 ==> (InWeek(d, now) <==> DayNumber(d) >= s)
    ensures DayNumber(d) < DayNumber(now) - 6 ==> !InWeek(d, now)
  {
    forall s | DayOfWeek(s) == 0 && s <= DayNumber(now) < s + 7
      ensures InWeek(d, now) <==> DayNumber(d) >= s
    {
      SundayUnique(s, WeekStart(now));
    }
  }

  /** Two Sundays less than a week apart are the same day. */
  lemma SundayUnique(a: int, b: int)
    requires DayOfWeek(a) == 0 && DayOfWeek(b) == 0
    requires a - 7 < b < a + 7
    ensures a == b
  {
    var qa := (a + 4) / 7;
    var qb := (b + 4) / 7;
    assert a + 4 == 7 * qa && b + 4 == 7 * qb;
    MultipleBounds(7, qa - qb);
    assert a - b == 7 * (qa - qb);
  }

  /**
   The moment at which the summary is computed: the local calendar date,
   the local minute of the day, and the zone offset in minutes
   (local time = UTC + offset).
   */
  datatype Clock = Clock(today: Date, minuteOfDay: int, offsetMinutes: int)

  predicate ValidClock(c: Clock) {
    0 <= c.minuteOfDay < MinutesPerDay && -MinutesPerDay < c.offsetMinutes < MinutesPerDay
  }

  /** A `YYYY-MM-DD` string parsed by `new Date` denotes UTC midnight of that day (minutes since the epoch). */
  function RecordInstant(d: Date): int {
    DayNumber(d) * MinutesPerDay
  }

  /**
   The start of the week as computed with `setDate(getDate() - getDay())`:
   local midnight of the week's Sunday plus the current local time of day,
   expressed in UTC minutes.
   */
  function AsWrittenWeekStartInstant(c: Clock): int {
    WeekStart(c.today) * MinutesPerDay + c.minuteOfDay - c.offsetMinutes
  }

  /** The weekly test as written: record instant `>=` start-of-week instant. */
  predicate AsWrittenInWeek(d: Date, c: Clock) {
    RecordInstant(d) >= AsWrittenWeekStartInstant(c)
  }

  /** The test as written never admits a day before the week's Sunday. */
  lemma AsWrittenWithinWeek(d: Date, c: Clock)
    requires ValidClock(c)
    ensures AsWrittenInWeek(d, c) ==> InWeek(d, c.today)
  {
  }

  /**
   Records dated on the Sunday that opens the week are dropped by the test
   as written whenever the local time of day is later than the zone
   offset: always west of Greenwich, and east of it later in the day.
   */
  lemma AsWrittenDropsWeekStart(d: Date, c: Clock)
    requires ValidClock(c)
    requires DayNumber(d) == WeekStart(c.today)
    requires c.minuteOfDay > c.offsetMinutes
    ensures InWeek(d, c.today)
    ensures !AsWrittenInWeek(d, c)
  {
  }

  /** Day numbers in January 2024: the first of the month is day 19723, a Monday. */
  lemma January2024(day: int)
    requires 1 <= day <= 31
    ensures DayNumber(Date(2024, 1, day)) == 19722 + day
    ensures DayOfWeek(19722 + day) == (day % 7)
  {
    var y := 2023;
    assert y / 400 == 5;
    assert y - 5 * 400 == 23;
    assert (1 + 9) % 12 == 10;
    assert (153 * 10 + 2) / 5 == 306;
    assert 23 / 4 == 5 && 23 / 100 == 0;
  }

  /**
   A concrete case: at noon on Wednesday 2024-01-17 in UTC-5, an expense
   dated Sunday 2024-01-14 is in the week but not in the weekly total as written.
   */
  lemma AsWrittenSundayCounterexample()
    ensures InWeek(Date(2024, 1, 14), Date(2024, 1, 17))
    ensures !AsWrittenInWeek(Date(2024, 1, 14), Clock(Date(2024, 1, 17), 720, -300))
  {
    January2024(17);
    January2024(14);
    AsWrittenDropsWeekStart(Date(2024, 1, 14), Clock(Date(2024, 1, 17), 720, -300));
  }
}
