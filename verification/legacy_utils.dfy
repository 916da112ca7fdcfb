/** calculateProjectHealth and formatHours of lib/utils.ts: a 0-100 health
    score from the week's hours against the target and the week's commits,
    and the four status bands. */
module LegacyUtils {
  import Dates
  import GitHub
  import TrendAnalysis

  datatype HealthLevel = Excellent | Good | Warning | Critical

  /** ProjectHealth without the project record itself. */
  datatype ProjectHealth = ProjectHealth(
    weeklyHours: real,
    targetHours: real,
    commits: nat,
    healthScore: int,
    status: HealthLevel)

  /** `Math.round`: halves round up. */
  function Round(x: real): (n: int)
    ensures x - 0.5 < n as real <= x + 0.5
  {
    (x + 0.5).Floor
  }

  /** The week of date-fns with Saturday as its first day, in seconds: from
      the opening Saturday's midnight to the last second of Friday. */
  function WeekBounds(today: int): (bounds: (int, int))
    ensures bounds.0 == Dates.WeekStart(today) * Dates.SecondsPerDay
    ensures bounds.1 == bounds.0 + 7 * Dates.SecondsPerDay - 1
  {
    var start := Dates.WeekStart(today) * Dates.SecondsPerDay;
    (start, start + 7 * Dates.SecondsPerDay - 1)
  }

  /** `isWithinInterval(date, { start, end })`, both ends included. */
  function CountWithin(dates: seq<int>, start: int, end: int): (n: nat)
    ensures n <= |dates|
  {
    if |dates| == 0 then 0
    else (if start <= dates[0] <= end then 1 else 0) + CountWithin(dates[1..], start, end)
  }

  /** The inclusive week of this file counts the same commits as the
      half-open buckets of the GitHub client. */
  lemma {:induction false} InclusiveWeekIsBucket(dates: seq<int>, today: int)
    ensures var bounds := WeekBounds(today);
            CountWithin(dates, bounds.0, bounds.1) == GitHub.CountInWeek(dates, Dates.WeekStart(today))
  {
    if |dates| > 0 {
      InclusiveWeekIsBucket(dates[1..], today);
    }
  }

  /** `timeEntries.reduce((sum, entry) => sum + entry.duration, 0)`; no
      clamping here. */
  function SumDurations(durations: seq<int>): int
  {
    if |durations| == 0 then 0 else durations[0] + SumDurations(durations[1..])
  }

  lemma {:induction false} SumDurationsNonNegative(durations: seq<int>)
    requires forall i :: 0 <= i < |durations| ==> durations[i] >= 0
    ensures SumDurations(durations) >= 0
  {
    if |durations| > 0 {
      SumDurationsNonNegative(durations[1..]);
    }
  }

  /** Up to 60 points for hours against the target: below the target the
      points are proportional to the hours, 60 for the whole target. */
  function TimeScore(weeklyHours: real, targetWeeklyHours: real): (s: real)
    requires targetWeeklyHours > 0.0
    ensures s <= 60.0
    ensures s == 60.0 <==> weeklyHours >= targetWeeklyHours
    ensures weeklyHours >= 0.0 ==> s >= 0.0
    ensures weeklyHours < targetWeeklyHours ==> s * targetWeeklyHours == 60.0 * weeklyHours
  {
    var ratio := weeklyHours / targetWeeklyHours;
    RatioAtLeastOne(weeklyHours, targetWeeklyHours);
    ScaledRatio(weeklyHours, targetWeeklyHours);
    if ratio * 60.0 < 60.0 then ratio * 60.0 else 60.0
  }

  /** Sixty times the ratio, scaled back by the target, is sixty times the
      hours. */
  lemma ScaledRatio(hours: real, target: real)
    requires target > 0.0
    ensures (hours / target * 60.0) * target == 60.0 * hours
  {
    var ratio := hours / target;
    assert ratio * target == hours;
    assert (ratio * 60.0) * target == 60.0 * (ratio * target);
  }

  lemma RatioAtLeastOne(hours: real, target: real)
    requires target > 0.0
    ensures hours / target >= 1.0 <==> hours >= target
    ensures hours >= 0.0 ==> hours / target >= 0.0
  {
    var ratio := hours / target;
    assert ratio * target == hours;
  }

  /** 10 points a commit, at most 40. */
  function CommitScore(commits: nat): (s: int)
    ensures 0 <= s <= 40
    ensures s == 40 <==> commits >= 4
  {
    if commits * 10 < 40 then commits * 10 else 40
  }

  /** No commits score 0; each of the first four commits adds 10 points and
      any further one adds nothing. */
  lemma CommitScoreSteps(n: nat)
    ensures CommitScore(0) == 0
    ensures n < 4 ==> CommitScore(n + 1) == CommitScore(n) + 10
    ensures n >= 4 ==> CommitScore(n + 1) == CommitScore(n)
  {
  }

  /** The status bands of the rounded score. */
  function Status(healthScore: int): (level: HealthLevel)
    ensures level == Excellent <==> healthScore >= 80
    ensures level == Good <==> 60 <= healthScore < 80
    ensures level == Warning <==> 40 <= healthScore < 60
    ensures level == Critical <==> healthScore < 40
  {
    if healthScore >= 80 then Excellent
    else if healthScore >= 60 then Good
    else if healthScore >= 40 then Warning
    else Critical
  }

  function Grade(level: HealthLevel): nat
  {
    match level
    case Excellent => 3
    case Good => 2
    case Warning => 1
    case Critical => 0
  }

  /** A higher score never gets a worse status. */
  lemma StatusMonotone(s1: int, s2: int)
    requires s1 <= s2
    ensures Grade(Status(s1)) <= Grade(Status(s2))
  {
  }

  /** calculateProjectHealth, with the week given by `today`, the commits'
      dates and the entries' durations in seconds. The source divides by
      the target without a guard, so the target must be positive. */
  function CalculateProjectHealth(
    targetWeeklyHours: real, commitDates: seq<int>, durations: seq<int>, today: int): (h: ProjectHealth)
    requires targetWeeklyHours > 0.0
    ensures h.healthScore <= 100
    ensures (forall i :: 0 <= i < |durations| ==> durations[i] >= 0) ==> h.healthScore >= 0
    ensures h.status == Status(h.healthScore)
    ensures h.targetHours == targetWeeklyHours
    ensures h.commits == GitHub.CountInWeek(commitDates, Dates.WeekStart(today))
    ensures h.weeklyHours * 3600.0 == SumDurations(durations) as real
    ensures h == Assess(h.weeklyHours, targetWeeklyHours, h.commits)
  {
    var bounds := WeekBounds(today);
    var commits := CountWithin(commitDates, bounds.0, bounds.1);
    InclusiveWeekIsBucket(commitDates, today);
    var weeklyHours := SumDurations(durations) as real / 3600.0;
    if forall i :: 0 <= i < |durations| ==> durations[i] >= 0 then
      SumDurationsNonNegative(durations);
      Assess(weeklyHours, targetWeeklyHours, commits)
    else
      Assess(weeklyHours, targetWeeklyHours, commits)
  }

  function Assess(weeklyHours: real, targetWeeklyHours: real, commits: nat): (h: ProjectHealth)
    requires targetWeeklyHours > 0.0
    ensures h.weeklyHours == weeklyHours && h.targetHours == targetWeeklyHours && h.commits == commits
    ensures h.healthScore <= 100
    ensures weeklyHours >= 0.0 ==> h.healthScore >= 0
    ensures h.healthScore == Round(TimeScore(weeklyHours, targetWeeklyHours) + CommitScore(commits) as real)
    ensures h.status == Status(h.healthScore)
  {
    var healthScore := Round(TimeScore(weeklyHours, targetWeeklyHours) + CommitScore(commits) as real);
    ProjectHealth(weeklyHours, targetWeeklyHours, commits, healthScore, Status(healthScore))
  }

  /** Meeting the target with four commits is a perfect score. */
  lemma FullMarks(weeklyHours: real, targetWeeklyHours: real, commits: nat)
    requires targetWeeklyHours > 0.0 && weeklyHours >= targetWeeklyHours && commits >= 4
    ensures Assess(weeklyHours, targetWeeklyHours, commits).healthScore == 100
    ensures Assess(weeklyHours, targetWeeklyHours, commits).status == Excellent
  {
  }

  /** No hours and no commits score 0, which is critical. */
  lemma NoActivityIsCritical(targetWeeklyHours: real)
    requires targetWeeklyHours > 0.0
    ensures Assess(0.0, targetWeeklyHours, 0).healthScore == 0
    ensures Assess(0.0, targetWeeklyHours, 0).status == Critical
  {
    assert TimeScore(0.0, targetWeeklyHours) * targetWeeklyHours == 0.0;
  }

  /** More hours against the same target and more commits never lower the
      health score. */
  lemma AssessMonotone(h1: real, h2: real, targetWeeklyHours: real, c1: nat, c2: nat)
    requires targetWeeklyHours > 0.0 && h1 <= h2 && c1 <= c2
    ensures Assess(h1, targetWeeklyHours, c1).healthScore <= Assess(h2, targetWeeklyHours, c2).healthScore
    ensures Grade(Assess(h1, targetWeeklyHours, c1).status) <= Grade(Assess(h2, targetWeeklyHours, c2).status)
  {
    TimeScoreMonotone(h1, h2, targetWeeklyHours);
    var s1 := Assess(h1, targetWeeklyHours, c1).healthScore;
    var s2 := Assess(h2, targetWeeklyHours, c2).healthScore;
    RoundMonotone(TimeScore(h1, targetWeeklyHours) + CommitScore(c1) as real,
                  TimeScore(h2, targetWeeklyHours) + CommitScore(c2) as real);
    StatusMonotone(s1, s2);
  }

  lemma TimeScoreMonotone(h1: real, h2: real, targetWeeklyHours: real)
    requires targetWeeklyHours > 0.0 && h1 <= h2
    ensures TimeScore(h1, targetWeeklyHours) <= TimeScore(h2, targetWeeklyHours)
  {
    var r1, r2 := h1 / targetWeeklyHours, h2 / targetWeeklyHours;
    assert r1 * targetWeeklyHours == h1 && r2 * targetWeeklyHours == h2;
    TrendAnalysis.ScaleOrderIff(r1, r2, targetWeeklyHours);
  }

  lemma RoundMonotone(x: real, y: real)
    requires x <= y
    ensures Round(x) <= Round(y)
  {
  }

  /** formatHours' choice of unit; the text itself is not modelled. */
  datatype HoursLabel = Minutes(minutes: int) | Hours(hours: real)

  function FormatHours(hours: real): (shown: HoursLabel)
    ensures shown.Minutes? <==> hours < 1.0
    ensures shown.Minutes? ==> shown.minutes == Round(hours * 60.0) && shown.minutes <= 60
    ensures shown.Hours? ==> shown.hours == hours
    ensures hours >= 0.0 ==> (shown.Minutes? ==> 0 <= shown.minutes)
  {
    if hours < 1.0 then Minutes(Round(hours * 60.0)) else Hours(hours)
  }

  /** Shown in minutes, a duration converts back to within half a minute of
      the hours it came from; shown in hours, it is exact. */
  lemma FormatHoursRoundTrip(hours: real)
    ensures var shown := FormatHours(hours);
            match shown
            case Minutes(m) => hours * 60.0 - 0.5 < m as real <= hours * 60.0 + 0.5 && m <= 60
            case Hours(h) => h == hours && h >= 1.0
  {
  }
}
