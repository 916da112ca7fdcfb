/** The pure part of fetchTogglTimeEntries (app/lib/toggl.ts): keep the
    project's entries, keep this week's, clamp running timers to zero,
    convert seconds to hours and round to two decimals. */
module Toggl {
  import opened Types
  import Dates

  const SecondsPerHour: int := 3600

  /** A time entry: its project, its duration in seconds (negative while the
      timer runs) and its start instant in seconds. */
  datatype TimeEntry = TimeEntry(projectId: int, duration: int, start: int)

  /** The outcome of the time-entries request. */
  datatype FetchResult = Entries(entries: seq<TimeEntry>) | AccessDenied | Failed

  /** TogglTimeData without the weekly series, which this function never
      fills in. */
  datatype TimeData = TimeData(projectId: string, weeklyHours: real, totalEntries: nat)

  /** `entry.project_id === parseInt(projectId)`. `parsedId` is None when
      the id does not parse; NaN equals nothing, so then no entry is kept. */
  function ProjectEntries(entries: seq<TimeEntry>, parsedId: Option<int>): (kept: seq<TimeEntry>)
    ensures |kept| <= |entries|
    ensures forall e :: e in kept <==> e in entries && parsedId == Some(e.projectId)
    ensures forall e :: multiset(kept)[e] == if parsedId == Some(e.projectId) then multiset(entries)[e] else 0
    ensures parsedId.None? ==> kept == []
  {
    if |entries| == 0 then []
    else
      var rest := ProjectEntries(entries[1..], parsedId);
      assert multiset(entries) == multiset{entries[0]} + multiset(entries[1..]) by {
        assert entries == [entries[0]] + entries[1..];
      }
      if parsedId == Some(entries[0].projectId) then [entries[0]] + rest else rest
  }

  /** `new Date(entry.start) >= weekStart`. */
  function EntriesSince(entries: seq<TimeEntry>, from: int): (kept: seq<TimeEntry>)
    ensures |kept| <= |entries|
    ensures forall e :: e in kept <==> e in entries && e.start >= from
    ensures forall e :: multiset(kept)[e] == if e.start >= from then multiset(entries)[e] else 0
  {
    if |entries| == 0 then []
    else
      var rest := EntriesSince(entries[1..], from);
      assert multiset(entries) == multiset{entries[0]} + multiset(entries[1..]) by {
        assert entries == [entries[0]] + entries[1..];
      }
      if entries[0].start >= from then [entries[0]] + rest else rest
  }

  /** A running timer reports a negative duration; it counts as 0. */
  function ClampedDuration(duration: int): (d: nat)
    ensures duration >= 0 ==> d == duration
    ensures duration < 0 ==> d == 0
  {
    if duration < 0 then 0 else duration
  }

  /** The reduce over the week's entries: clamped seconds over 3600. */
  function TotalHours(entries: seq<TimeEntry>): (hours: real)
    ensures hours >= 0.0
    ensures (forall i :: 0 <= i < |entries| ==> entries[i].duration <= 0) ==> hours == 0.0
  {
    if |entries| == 0 then 0.0
    else
      var rest := TotalHours(entries[1..]);
      assert forall i :: 1 <= i < |entries| ==> entries[i] == entries[1..][i - 1];
      ClampedDuration(entries[0].duration) as real / SecondsPerHour as real + rest
  }

  /** The hours are the clamped seconds, summed, over 3600. */
  lemma {:induction false} TotalHoursIsSeconds(entries: seq<TimeEntry>)
    ensures TotalHours(entries) * SecondsPerHour as real == TotalSeconds(entries) as real
  {
    if |entries| > 0 {
      TotalHoursIsSeconds(entries[1..]);
    }
  }

  function TotalSeconds(entries: seq<TimeEntry>): nat
  {
    if |entries| == 0 then 0 else ClampedDuration(entries[0].duration) + TotalSeconds(entries[1..])
  }

  /** `Math.round(x * 100) / 100`; JavaScript rounds halves up. */
  function Round2(x: real): (r: real)
    ensures x - 0.005 < r <= x + 0.005
    ensures (r * 100.0).Floor as real == r * 100.0
    ensures x >= 0.0 ==> r >= 0.0
  {
    var n := (x * 100.0 + 0.5).Floor;
    n as real / 100.0
  }

  /** Rounding twice is rounding once: a value with two decimals is kept. */
  lemma RoundTwiceIsRoundOnce(x: real)
    ensures Round2(Round2(x)) == Round2(x)
  {
    var n := (x * 100.0 + 0.5).Floor;
    assert Round2(x) * 100.0 == n as real;
    assert (n as real + 0.5).Floor == n;
  }

  /** fetchTogglTimeEntries after the request, on day `today`: the week is
      the one getWeekStart gives, opening on the latest Saturday. A 403 and
      every other failure give zero hours and zero entries. */
  function TimeEntriesData(projectId: string, parsedId: Option<int>, result: FetchResult, today: int)
    : (data: TimeData)
    ensures data.projectId == projectId
    ensures data.weeklyHours >= 0.0
    ensures !result.Entries? ==> data.weeklyHours == 0.0 && data.totalEntries == 0
    ensures result.Entries? ==>
              && data.totalEntries == |ProjectEntries(result.entries, parsedId)|
              && data.totalEntries <= |result.entries|
    ensures result.Entries? ==>
              var exact := TotalHours(EntriesSince(ProjectEntries(result.entries, parsedId),
                                                   Dates.WeekStart(today) * Dates.SecondsPerDay));
              && data.weeklyHours == Round2(exact)
              && exact - 0.005 < data.weeklyHours <= exact + 0.005
    ensures parsedId.None? ==> data.weeklyHours == 0.0 && data.totalEntries == 0
  {
    match result
    case Entries(all) =>
      var projectEntries := ProjectEntries(all, parsedId);
      var weekly := EntriesSince(projectEntries, Dates.WeekStart(today) * Dates.SecondsPerDay);
      TimeData(projectId, Round2(TotalHours(weekly)), |projectEntries|)
    case _ => TimeData(projectId, 0.0, 0)
  }
}
