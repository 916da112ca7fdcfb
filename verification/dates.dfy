/** Saturday-based week arithmetic (lib/date-utils.ts) on integer day
    numbers: day 0 is 1970-01-01, a Thursday, and weekdays count as
    JavaScript's getDay does, 0 = Sunday … 6 = Saturday. */
module Dates {

  const SecondsPerDay: int := 86400
  const Friday: int := 5
  const Saturday: int := 6

  function DayOfWeek(day: int): (w: int)
    ensures 0 <= w < 7
    ensures w == Saturday <==> day % 7 == 2
  {
    (day + 4) % 7
  }

  /** Days since the most recent Saturday, given today's weekday. */
  function DaysSinceSaturday(dayOfWeek: int): (n: int)
    requires 0 <= dayOfWeek < 7
    ensures 0 <= n <= 6
    ensures n == 0 <==> dayOfWeek == Saturday
    ensures (dayOfWeek - n) % 7 == Saturday
  {
    if dayOfWeek == 6 then 0 else (dayOfWeek + 1) % 7
  }

  /** Stepping back a whole number of weeks keeps the weekday. */
  lemma {:induction false} WeekdayPeriodic(day: int, weeks: nat)
    ensures DayOfWeek(day - 7 * weeks) == DayOfWeek(day)
  {
    if weeks > 0 {
      WeekdayPeriodic(day, weeks - 1);
      assert day - 7 * weeks == (day - 7 * (weeks - 1)) - 7;
    }
  }

  /** getWeekStart: the Saturday that opens the week containing `today`. */
  function WeekStart(today: int): (start: int)
    ensures DayOfWeek(start) == Saturday
    ensures start <= today < start + 7
  {
    today - DaysSinceSaturday(DayOfWeek(today))
  }

  /** No Saturday lies strictly between WeekStart(today) and today. */
  lemma WeekStartIsLatestSaturday(today: int, day: int)
    requires WeekStart(today) <= day <= today
    requires DayOfWeek(day) == Saturday
    ensures day == WeekStart(today)
  {
    var start := WeekStart(today);
    assert day % 7 == 2 && start % 7 == 2;
    assert 0 <= day - start < 7;
  }

  /** getDaysSinceSaturday, read off today's day number. */
  function GetDaysSinceSaturday(today: int): (n: int)
    ensures 0 <= n <= 6
    ensures today - n == WeekStart(today)
    ensures n == 0 <==> DayOfWeek(today) == Saturday
  {
    DaysSinceSaturday(DayOfWeek(today))
  }

  /** isInCurrentWeek on an instant counted in seconds. */
  function IsInCurrentWeek(instant: int, today: int): (inWeek: bool)
    ensures inWeek <==> instant >= (today - GetDaysSinceSaturday(today)) * SecondsPerDay
    ensures today * SecondsPerDay <= instant ==> inWeek
    ensures instant < (today - 6) * SecondsPerDay ==> !inWeek
  {
    instant >= WeekStart(today) * SecondsPerDay
  }

  /** Membership only grows as the instant moves later, and on a Saturday
      the current week starts at today's own midnight. */
  lemma CurrentWeekMembership(instant: int, later: int, today: int)
    ensures IsInCurrentWeek(instant, today) && instant <= later ==> IsInCurrentWeek(later, today)
    ensures DayOfWeek(today) == Saturday ==>
              (IsInCurrentWeek(instant, today) <==> instant >= today * SecondsPerDay)
  {
  }

  /** getCurrentWeekDescription: the first and last day of the week, as
      day numbers, in place of the formatted text. */
  function CurrentWeekSpan(today: int): (span: (int, int))
    ensures span.1 == span.0 + 6
    ensures DayOfWeek(span.0) == Saturday && DayOfWeek(span.1) == Friday
    ensures span.0 <= today <= span.1
  {
    var start := WeekStart(today);
    (start, start + 6)
  }
}
