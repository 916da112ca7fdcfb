/** The pure part of app/lib/github.ts: bucketing one repository's commits
    into the tracked weeks, and combining the repositories of a project.
    Commit dates are instants in seconds; week labels are day numbers. */
module GitHub {
  import opened Types
  import Dates
  import TrendAnalysis

  /** generateWeekStarts(12): every fetch covers twelve weeks. */
  const TrackedWeeks: nat := 12

  // ---------------------------------------------------------------------
  // Counting commits

  /** A commit at `instant` falls in the week opening on day `weekStart`:
      from that day's midnight up to, not including, seven days later. */
  predicate InWeek(instant: int, weekStart: int)
  {
    weekStart * Dates.SecondsPerDay <= instant < (weekStart + 7) * Dates.SecondsPerDay
  }

  /** `commits.filter(... in the week ...).length`. */
  function CountInWeek(dates: seq<int>, weekStart: int): (n: nat)
    ensures n <= |dates|
    ensures n == 0 <==> forall i :: 0 <= i < |dates| ==> !InWeek(dates[i], weekStart)
    ensures n == |dates| <==> forall i :: 0 <= i < |dates| ==> InWeek(dates[i], weekStart)
  {
    if |dates| == 0 then 0
    else
      var rest := CountInWeek(dates[1..], weekStart);
      assert forall i :: 1 <= i < |dates| ==> dates[i] == dates[1..][i - 1];
      (if InWeek(dates[0], weekStart) then 1 else 0) + rest
  }

  /** `commits.filter(date >= currentWeekStart).length`. */
  function CountSince(dates: seq<int>, from: int): (n: nat)
    ensures n <= |dates|
    ensures n == 0 <==> forall i :: 0 <= i < |dates| ==> dates[i] < from
  {
    if |dates| == 0 then 0
    else
      var rest := CountSince(dates[1..], from);
      assert forall i :: 1 <= i < |dates| ==> dates[i] == dates[1..][i - 1];
      (if dates[0] >= from then 1 else 0) + rest
  }

  /** The weekly buckets of fetchGitHubCommits: one sample per label, its
      commit count, and no hours yet. */
  function WeeklyBuckets(dates: seq<int>, weekStarts: seq<int>): (weeks: seq<WeekSample>)
    ensures |weeks| == |weekStarts|
    ensures forall i :: 0 <= i < |weekStarts| ==>
              weeks[i] == WeekSample(weekStarts[i], CountInWeek(dates, weekStarts[i]), 0.0)
  {
    seq(|weekStarts|, i requires 0 <= i < |weekStarts| =>
      WeekSample(weekStarts[i], CountInWeek(dates, weekStarts[i]), 0.0))
  }

  function SumCommits(weeks: seq<WeekSample>): nat
  {
    if |weeks| == 0 then 0 else weeks[0].commits + SumCommits(weeks[1..])
  }

  /** Labels at least a week apart, in increasing order. */
  predicate WeekApart(weekStarts: seq<int>)
  {
    forall i, j :: 0 <= i < j < |weekStarts| ==> weekStarts[i] + 7 <= weekStarts[j]
  }

  /** How many of the weeks contain `instant`. */
  function WeeksContaining(instant: int, weekStarts: seq<int>): nat
  {
    if |weekStarts| == 0 then 0
    else (if InWeek(instant, weekStarts[0]) then 1 else 0) + WeeksContaining(instant, weekStarts[1..])
  }

  /** Weeks a week apart do not overlap, so an instant is in at most one. */
  lemma {:induction false} AtMostOneWeek(instant: int, weekStarts: seq<int>)
    requires WeekApart(weekStarts)
    ensures WeeksContaining(instant, weekStarts) <= 1
  {
    if |weekStarts| > 0 {
      var rest := weekStarts[1..];
      assert WeekApart(rest) by {
        forall i, j | 0 <= i < j < |rest|
          ensures rest[i] + 7 <= rest[j]
        {
          assert rest[i] == weekStarts[i + 1] && rest[j] == weekStarts[j + 1];
        }
      }
      AtMostOneWeek(instant, rest);
      if InWeek(instant, weekStarts[0]) {
        NoLaterWeek(instant, weekStarts);
      }
    }
  }

  lemma {:induction false} NoLaterWeek(instant: int, weekStarts: seq<int>)
    requires |weekStarts| > 0 && WeekApart(weekStarts)
    requires instant < (weekStarts[0] + 7) * Dates.SecondsPerDay
    ensures WeeksContaining(instant, weekStarts[1..]) == 0
  {
    var rest := weekStarts[1..];
    if |rest| > 0 {
      assert rest[0] == weekStarts[1];
      assert !InWeek(instant, rest[0]);
      var tail := weekStarts[..1] + rest[1..];
      assert |tail| == |weekStarts| - 1 && tail[0] == weekStarts[0] && tail[1..] == rest[1..];
      assert WeekApart(tail) by {
        forall i, j | 0 <= i < j < |tail|
          ensures tail[i] + 7 <= tail[j]
        {
          if i == 0 {
            assert tail[j] == weekStarts[j + 1];
          } else {
            assert tail[i] == weekStarts[i + 1] && tail[j] == weekStarts[j + 1];
          }
        }
      }
      NoLaterWeek(instant, tail);
    }
  }

  /** The summed buckets of `dates` over `weekStarts`, without building the
      samples. */
  function TotalInWeeks(dates: seq<int>, weekStarts: seq<int>): nat
  {
    if |weekStarts| == 0 then 0
    else CountInWeek(dates, weekStarts[0]) + TotalInWeeks(dates, weekStarts[1..])
  }

  /** Peeling the first commit off every bucket at once. */
  lemma {:induction false} TotalInWeeksSplit(dates: seq<int>, weekStarts: seq<int>)
    requires |dates| > 0
    ensures TotalInWeeks(dates, weekStarts)
         == WeeksContaining(dates[0], weekStarts) + TotalInWeeks(dates[1..], weekStarts)
  {
    if |weekStarts| > 0 {
      TotalInWeeksSplit(dates, weekStarts[1..]);
    }
  }

  /** With labels a week apart no commit is counted twice, so the buckets
      add up to at most the number of commits. */
  lemma {:induction false} BucketsCountEachCommitOnce(dates: seq<int>, weekStarts: seq<int>)
    requires WeekApart(weekStarts)
    ensures TotalInWeeks(dates, weekStarts) <= |dates|
  {
    if |dates| == 0 {
      ZeroCommitsZeroTotal(weekStarts);
    } else {
      TotalInWeeksSplit(dates, weekStarts);
      AtMostOneWeek(dates[0], weekStarts);
      BucketsCountEachCommitOnce(dates[1..], weekStarts);
    }
  }

  lemma {:induction false} ZeroCommitsZeroTotal(weekStarts: seq<int>)
    ensures TotalInWeeks([], weekStarts) == 0
  {
    if |weekStarts| > 0 {
      ZeroCommitsZeroTotal(weekStarts[1..]);
    }
  }

  /** The samples of WeeklyBuckets add up to TotalInWeeks. */
  lemma {:induction false} BucketSum(dates: seq<int>, weekStarts: seq<int>)
    ensures SumCommits(WeeklyBuckets(dates, weekStarts)) == TotalInWeeks(dates, weekStarts)
  {
    if |weekStarts| > 0 {
      BucketSum(dates, weekStarts[1..]);
      assert WeeklyBuckets(dates, weekStarts)[1..] == WeeklyBuckets(dates, weekStarts[1..]);
    }
  }

  /** The generated labels are a week apart. */
  lemma GeneratedWeeksApart(today: int)
    ensures WeekApart(TrendAnalysis.GenerateWeekStarts(TrackedWeeks, today))
  {
    TrendAnalysis.WeekStartsSpaced(TrackedWeeks, today);
  }

  // ---------------------------------------------------------------------
  // One repository

  /** The outcome of the commits request: the commit dates in the order the
      API lists them (newest first), a 404, or any other failure. */
  datatype FetchResult = Fetched(dates: seq<int>) | NotFound | Failed

  /** GitHubCommitData; the last commit date is the first one listed. */
  datatype CommitData = CommitData(
    repoName: string,
    weeklyCommits: nat,
    lastCommitDate: Option<int>,
    weeklyData: seq<WeekSample>,
    totalCommits: nat)

  /** Twelve labelled weeks with no commits and no hours. */
  function ZeroWeeks(today: int): (weeks: seq<WeekSample>)
    ensures |weeks| == TrackedWeeks
    ensures forall i :: 0 <= i < |weeks| ==>
              weeks[i] == WeekSample(TrendAnalysis.GenerateWeekStarts(TrackedWeeks, today)[i], 0, 0.0)
  {
    var weekStarts := TrendAnalysis.GenerateWeekStarts(TrackedWeeks, today);
    seq(|weekStarts|, i requires 0 <= i < |weekStarts| => WeekSample(weekStarts[i], 0, 0.0))
  }

  /** The weeks are the tracked ones, in generated order. */
  predicate OnTrackedWeeks(weeks: seq<WeekSample>, today: int)
  {
    var weekStarts := TrendAnalysis.GenerateWeekStarts(TrackedWeeks, today);
    |weeks| == TrackedWeeks && forall i :: 0 <= i < |weeks| ==> weeks[i].weekStart == weekStarts[i]
  }

  /** createEmptyCommitData. */
  function EmptyCommitData(repoName: string, today: int): (data: CommitData)
    ensures data.repoName == repoName
    ensures OnTrackedWeeks(data.weeklyData, today)
    ensures data.weeklyCommits == 0 && data.totalCommits == 0 && data.lastCommitDate == None
    ensures SumCommits(data.weeklyData) == 0
  {
    var weeks := ZeroWeeks(today);
    ZeroWeeksSum(weeks);
    CommitData(repoName, 0, None, weeks, 0)
  }

  lemma {:induction false} ZeroWeeksSum(weeks: seq<WeekSample>)
    requires forall i :: 0 <= i < |weeks| ==> weeks[i].commits == 0
    ensures SumCommits(weeks) == 0
  {
    if |weeks| > 0 {
      ZeroWeeksSum(weeks[1..]);
    }
  }

  /** fetchGitHubCommits after the request: the buckets, the current week's
      count, the newest commit and the total; a 404 or any error gives the
      empty data. */
  function RepoCommitData(owner: string, repo: string, result: FetchResult, today: int): (data: CommitData)
    ensures data.repoName == owner + "/" + repo
    ensures OnTrackedWeeks(data.weeklyData, today)
    ensures result.Fetched? ==>
              && data.totalCommits == |result.dates|
              && data.weeklyData == WeeklyBuckets(result.dates, TrendAnalysis.GenerateWeekStarts(TrackedWeeks, today))
              && data.weeklyCommits == CountSince(result.dates, Dates.WeekStart(today) * Dates.SecondsPerDay)
              && data.weeklyCommits <= data.totalCommits
              && SumCommits(data.weeklyData) <= data.totalCommits
              && (data.lastCommitDate.Some? <==> |result.dates| > 0)
              && (|result.dates| > 0 ==> data.lastCommitDate == Some(result.dates[0]))
    ensures !result.Fetched? ==> data == EmptyCommitData(owner + "/" + repo, today)
  {
    var repoName := owner + "/" + repo;
    match result
    case Fetched(dates) =>
      var weekStarts := TrendAnalysis.GenerateWeekStarts(TrackedWeeks, today);
      var weeks := WeeklyBuckets(dates, weekStarts);
      GeneratedWeeksApart(today);
      BucketsCountEachCommitOnce(dates, weekStarts);
      BucketSum(dates, weekStarts);
      var current := CountSince(dates, Dates.WeekStart(today) * Dates.SecondsPerDay);
      var last := if |dates| > 0 then Some(dates[0]) else None;
      CommitData(repoName, current, last, weeks, |dates|)
    case _ => EmptyCommitData(repoName, today)
  }

  /** Each bucket counts exactly the commits of its week. */
  lemma BucketCountsWeek(owner: string, repo: string, dates: seq<int>, today: int, i: int)
    requires 0 <= i < TrackedWeeks
    ensures var data := RepoCommitData(owner, repo, Fetched(dates), today);
            var w := data.weeklyData[i];
            && w.weekStart == TrendAnalysis.GenerateWeekStarts(TrackedWeeks, today)[i]
            && w.commits == CountInWeek(dates, w.weekStart)
            && w.hours == 0.0
  {
  }

  // ---------------------------------------------------------------------
  // Repository paths

  /** Index of the first `c` in `s`, if any. */
  function IndexOf(s: string, c: char): (r: Option<nat>)
    ensures r.None? <==> c !in s
    ensures r.Some? ==> r.value < |s| && s[r.value] == c && c !in s[..r.value]
  {
    if |s| == 0 then None
    else if s[0] == c then Some(0)
    else
      var rest := IndexOf(s[1..], c);
      if rest.None? then None
      else
        assert s[..rest.value + 1] == [s[0]] + s[1..][..rest.value];
        Some(rest.value + 1)
  }

  /** `const [owner, repo] = repoPath.split('/')` followed by the
      `!owner || !repo` test: the first two segments, both non-empty. A
      path without a slash has no second segment. */
  function ParseRepoPath(path: string): (r: Option<(string, string)>)
    ensures r.Some? ==>
              && r.value.0 != [] && r.value.1 != []
              && '/' !in r.value.0 && '/' !in r.value.1
              && r.value.0 + "/" + r.value.1 <= path
              && (|path| == |r.value.0| + 1 + |r.value.1| || path[|r.value.0| + 1 + |r.value.1|] == '/')
    ensures r.Some? <==>
              exists k :: 0 < k < |path| - 1 && path[k] == '/' && '/' !in path[..k] && path[k + 1] != '/'
  {
    match IndexOf(path, '/')
    case None => None
    case Some(k) =>
      var owner := path[..k];
      var after := path[k + 1..];
      var repo := match IndexOf(after, '/') case None => after case Some(m) => after[..m];
      assert path == owner + "/" + after;
      if owner == [] || repo == [] then
        NoRepoAfterFirstSlash(path, k);
        None
      else
        assert repo <= after;
        assert path[k + 1] == repo[0];
        Some((owner, repo))
  }

  /** When the first slash opens the path, ends it or is doubled, no
      position splits the path into an owner and a repository. */
  lemma NoRepoAfterFirstSlash(path: string, k: nat)
    requires k < |path| && path[k] == '/' && '/' !in path[..k]
    requires k == 0 || k + 1 == |path| || path[k + 1] == '/'
    ensures !exists j :: 0 < j < |path| - 1 && path[j] == '/' && '/' !in path[..j] && path[j + 1] != '/'
  {
    forall j | 0 < j < |path| - 1 && path[j] == '/' && '/' !in path[..j]
      ensures path[j + 1] == '/'
    {
      assert j == k;
    }
  }

  /** Joining an owner and a repository name and parsing the result gives
      them back. */
  lemma ParseJoinedPath(owner: string, repo: string)
    requires owner != [] && repo != []
    requires '/' !in owner && '/' !in repo
    ensures ParseRepoPath(owner + "/" + repo) == Some((owner, repo))
  {
    var path := owner + "/" + repo;
    IndexOfAfterPrefix(owner, repo);
    assert path[..|owner|] == owner;
    assert path[|owner| + 1..] == repo;
    assert IndexOf(repo, '/') == None;
  }

  /** Segments after the second are dropped: `owner/repo/rest` parses as
      `owner/repo`. */
  lemma ParseDropsTail(owner: string, repo: string, tail: string)
    requires owner != [] && repo != []
    requires '/' !in owner && '/' !in repo
    ensures ParseRepoPath(owner + "/" + (repo + "/" + tail)) == Some((owner, repo))
  {
    var after := repo + "/" + tail;
    var path := owner + "/" + after;
    IndexOfAfterPrefix(owner, after);
    IndexOfAfterPrefix(repo, tail);
    assert path[..|owner|] == owner;
    assert path[|owner| + 1..] == after;
    assert after[..|repo|] == repo;
  }

  lemma IndexOfAfterPrefix(owner: string, repo: string)
    requires '/' !in owner
    ensures IndexOf(owner + "/" + repo, '/') == Some(|owner|)
  {
    var path := owner + "/" + repo;
    var r := IndexOf(path, '/');
    assert path[|owner|] == '/';
    assert r.Some?;
    if r.value != |owner| {
      assert false;
    }
  }

  // ---------------------------------------------------------------------
  // A whole project

  /** The week of `weeks` labelled `weekStart` that `find` returns: the
      first one. */
  function FindWeek(weeks: seq<WeekSample>, weekStart: int): (r: Option<WeekSample>)
    ensures r.None? <==> forall i :: 0 <= i < |weeks| ==> weeks[i].weekStart != weekStart
    ensures r.Some? ==> exists i :: 0 <= i < |weeks| && weeks[i] == r.value
                                    && r.value.weekStart == weekStart
                                    && forall j :: 0 <= j < i ==> weeks[j].weekStart != weekStart
  {
    if |weeks| == 0 then None
    else if weeks[0].weekStart == weekStart then Some(weeks[0])
    else
      var r := FindWeek(weeks[1..], weekStart);
      assert forall i :: 1 <= i < |weeks| ==> weeks[i] == weeks[1..][i - 1];
      if r.Some? then
        var i :| 0 <= i < |weeks[1..]| && weeks[1..][i] == r.value && r.value.weekStart == weekStart
                 && forall j :: 0 <= j < i ==> weeks[1..][j].weekStart != weekStart;
        assert weeks[i + 1] == r.value;
        r
      else r
  }

  /** `weekData?.commits || 0`. */
  function CommitsForWeek(data: CommitData, weekStart: int): nat
  {
    match FindWeek(data.weeklyData, weekStart)
    case Some(w) => w.commits
    case None => 0
  }

  /** The reduce over the repositories for one label. */
  function CombinedCommits(repos: seq<CommitData>, weekStart: int): nat
  {
    if |repos| == 0 then 0 else CommitsForWeek(repos[0], weekStart) + CombinedCommits(repos[1..], weekStart)
  }

  /** Adding a repository adds its count for the label. */
  lemma {:induction false} CombinedCommitsAppend(repos: seq<CommitData>, extra: CommitData, weekStart: int)
    ensures CombinedCommits(repos + [extra], weekStart)
         == CombinedCommits(repos, weekStart) + CommitsForWeek(extra, weekStart)
  {
    if |repos| > 0 {
      assert (repos + [extra])[1..] == repos[1..] + [extra];
      CombinedCommitsAppend(repos[1..], extra, weekStart);
    }
  }

  /** A label no repository has combines to 0. */
  lemma {:induction false} CombinedCommitsOfMissingLabel(repos: seq<CommitData>, weekStart: int)
    requires forall r, i :: r in repos && 0 <= i < |r.weeklyData| ==> r.weeklyData[i].weekStart != weekStart
    ensures CombinedCommits(repos, weekStart) == 0
  {
    if |repos| > 0 {
      assert repos[0] in repos;
      CombinedCommitsOfMissingLabel(repos[1..], weekStart);
    }
  }

  /** `repoData.reduce((sum, repo) => sum + repo.weeklyCommits, 0)`. */
  function TotalWeeklyCommits(repos: seq<CommitData>): nat
  {
    if |repos| == 0 then 0 else repos[0].weeklyCommits + TotalWeeklyCommits(repos[1..])
  }

  datatype ProjectData = ProjectData(
    projectName: string,
    repositories: seq<CommitData>,
    totalWeeklyCommits: nat,
    weeklyData: seq<WeekSample>)

  /** One repository of the project: an invalid path gives the empty data
      under the path itself; a valid one is fetched. */
  function RepoData(path: string, result: FetchResult, today: int): (data: CommitData)
    ensures OnTrackedWeeks(data.weeklyData, today)
    ensures ParseRepoPath(path).None? ==> data == EmptyCommitData(path, today)
    ensures ParseRepoPath(path).Some? ==>
              data == RepoCommitData(ParseRepoPath(path).value.0, ParseRepoPath(path).value.1, result, today)
  {
    match ParseRepoPath(path)
    case None => EmptyCommitData(path, today)
    case Some((owner, repo)) => RepoCommitData(owner, repo, result, today)
  }

  /** The repositories' data, one per path, in order. */
  function ReposData(paths: seq<string>, results: seq<FetchResult>, today: int): (repos: seq<CommitData>)
    requires |results| == |paths|
    ensures |repos| == |paths|
    ensures forall i :: 0 <= i < |paths| ==> repos[i] == RepoData(paths[i], results[i], today)
  {
    seq(|paths|, i requires 0 <= i < |paths| => RepoData(paths[i], results[i], today))
  }

  /** fetchProjectGitHubData with the request outcomes given, one per
      repository path, in order. */
  function ProjectGitHubData(
    projectName: string, repositories: Option<seq<string>>, results: seq<FetchResult>, today: int)
    : (data: ProjectData)
    requires repositories.Some? ==> |results| == |repositories.value|
    ensures data.projectName == projectName
    ensures |data.weeklyData| == TrackedWeeks
    ensures forall i :: 0 <= i < TrackedWeeks ==>
              && data.weeklyData[i].weekStart == TrendAnalysis.GenerateWeekStarts(TrackedWeeks, today)[i]
              && data.weeklyData[i].hours == 0.0
    ensures data.totalWeeklyCommits == TotalWeeklyCommits(data.repositories)
    ensures forall i :: 0 <= i < TrackedWeeks ==>
              data.weeklyData[i].commits == CombinedCommits(data.repositories, data.weeklyData[i].weekStart)
    ensures repositories.None? || repositories.value == [] ==>
              data.repositories == [] && data.totalWeeklyCommits == 0 && data.weeklyData == ZeroWeeks(today)
    ensures repositories.Some? ==> |data.repositories| == |repositories.value|
    ensures repositories.Some? ==>
              forall i :: 0 <= i < |repositories.value| ==>
                data.repositories[i] == RepoData(repositories.value[i], results[i], today)
  {
    var weekStarts := TrendAnalysis.GenerateWeekStarts(TrackedWeeks, today);
    if repositories.None? || repositories.value == [] then
      ProjectData(projectName, [], 0, ZeroWeeks(today))
    else
      var repos := ReposData(repositories.value, results, today);
      var weeks := seq(|weekStarts|, i requires 0 <= i < |weekStarts| =>
        WeekSample(weekStarts[i], CombinedCommits(repos, weekStarts[i]), 0.0));
      ProjectData(projectName, repos, TotalWeeklyCommits(repos), weeks)
  }

  /** `weekData.commits` of the i-th tracked week, summed over repositories. */
  function ColumnSum(repos: seq<CommitData>, i: nat): nat
  {
    if |repos| == 0 then 0
    else (if i < |repos[0].weeklyData| then repos[0].weeklyData[i].commits else 0) + ColumnSum(repos[1..], i)
  }

  /** Every week of a labelled series with distinct labels is found by its
      own label. */
  lemma FindOwnWeek(weeks: seq<WeekSample>, i: int)
    requires 0 <= i < |weeks|
    requires TrendAnalysis.UniqueLabels(weeks)
    ensures FindWeek(weeks, weeks[i].weekStart) == Some(weeks[i])
  {
    var r := FindWeek(weeks, weeks[i].weekStart);
    var k :| 0 <= k < |weeks| && weeks[k] == r.value && r.value.weekStart == weeks[i].weekStart
             && forall j :: 0 <= j < k ==> weeks[j].weekStart != weeks[i].weekStart;
    if k != i {
      assert false;
    }
  }

  lemma TrackedWeeksUnique(weeks: seq<WeekSample>, today: int)
    requires OnTrackedWeeks(weeks, today)
    ensures TrendAnalysis.UniqueLabels(weeks)
  {
    TrendAnalysis.WeekStartsSpaced(TrackedWeeks, today);
  }

  /** When every repository reports the tracked weeks, the combined count of
      a week is the sum, over the repositories, of their counts for the same
      week. */
  lemma {:induction false} CombinedIsColumnSum(repos: seq<CommitData>, today: int, i: int)
    requires 0 <= i < TrackedWeeks
    requires forall k :: 0 <= k < |repos| ==> OnTrackedWeeks(repos[k].weeklyData, today)
    ensures CombinedCommits(repos, TrendAnalysis.GenerateWeekStarts(TrackedWeeks, today)[i]) == ColumnSum(repos, i)
  {
    if |repos| > 0 {
      var weeks := repos[0].weeklyData;
      TrackedWeeksUnique(weeks, today);
      FindOwnWeek(weeks, i);
      CombinedIsColumnSum(repos[1..], today, i);
    }
  }
}
