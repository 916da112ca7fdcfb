/** The pure steps of buildProjectPulseData (app/lib/data-builder.ts): the
    per-project record and the summary over all projects. The fetched
    series are inputs. */
module DataBuilder {
  import opened Types
  import TrendAnalysis
  import Projects

  /** The hours series used when a project has no Toggl id or there is no
      Toggl token: the commit weeks with zero hours. */
  function FallbackHours(githubWeeks: seq<WeekSample>): (weeks: seq<WeekSample>)
    ensures |weeks| == |githubWeeks|
    ensures forall i :: 0 <= i < |weeks| ==>
              weeks[i] == WeekSample(githubWeeks[i].weekStart, githubWeeks[i].commits, 0.0)
  {
    seq(|githubWeeks|, i requires 0 <= i < |githubWeeks| =>
      WeekSample(githubWeeks[i].weekStart, githubWeeks[i].commits, 0.0))
  }

  /** Joining the commit weeks with their own fallback gives the fallback
      back: every week keeps its commits and has no hours. */
  lemma MergeWithFallback(githubWeeks: seq<WeekSample>)
    ensures Projects.MergeWeeklyData(githubWeeks, FallbackHours(githubWeeks)) == FallbackHours(githubWeeks)
  {
    var fallback := FallbackHours(githubWeeks);
    var merged := Projects.MergeWeeklyData(githubWeeks, fallback);
    forall i | 0 <= i < |githubWeeks|
      ensures merged[i].hours == 0.0
    {
      Projects.MergedHours(githubWeeks, fallback, i);
      assert fallback[i].weekStart == githubWeeks[i].weekStart;
    }
  }

  /** `hoursTrend.recent / targetWeeklyHours * 100` for a positive target,
      else 0. */
  function HoursProgress(recentHours: real, targetWeeklyHours: real): (p: real)
    ensures targetWeeklyHours <= 0.0 ==> p == 0.0
    ensures targetWeeklyHours > 0.0 ==> p * targetWeeklyHours == recentHours * 100.0
    ensures targetWeeklyHours > 0.0 ==> (p >= 100.0 <==> recentHours >= targetWeeklyHours)
  {
    if targetWeeklyHours > 0.0 then
      var p := recentHours / targetWeeklyHours * 100.0;
      TrendAnalysis.ScaleOrderIff(100.0, p, targetWeeklyHours);
      p
    else 0.0
  }

  /** For a positive target the progress is the target completion ratio in
      percent. */
  lemma ProgressIsCompletionPercent(recentHours: real, targetWeeklyHours: real)
    requires targetWeeklyHours > 0.0
    ensures HoursProgress(recentHours, targetWeeklyHours)
         == TrendAnalysis.TargetCompletion(recentHours, targetWeeklyHours) * 100.0
  {
  }

  /** What one project brings to the build: the combined commit weeks, and
      the hours weeks, or None when it has no Toggl id or there is no
      token. */
  datatype ProjectInput = ProjectInput(githubWeeks: seq<WeekSample>, togglWeeks: Option<seq<WeekSample>>)

  /** The hours series joined with the commit weeks: Toggl's weeks when
      there are any, the fallback otherwise. */
  function HoursWeeks(input: ProjectInput): (weeks: seq<WeekSample>)
    ensures input.togglWeeks.Some? ==> weeks == input.togglWeeks.value
    ensures input.togglWeeks.None? ==> weeks == FallbackHours(input.githubWeeks)
  {
    match input.togglWeeks
    case Some(weeks) => weeks
    case None => FallbackHours(input.githubWeeks)
  }

  /** The body of the per-project loop: join the series, score, classify. */
  function BuildProjectPulse(project: Project, input: ProjectInput, config: ScoreConfig): (p: ProjectPulse)
    ensures p.project == project
    ensures |p.weeklyData| == |input.githubWeeks|
    ensures forall i :: 0 <= i < |p.weeklyData| ==>
              p.weeklyData[i].weekStart == input.githubWeeks[i].weekStart
              && p.weeklyData[i].commits == input.githubWeeks[i].commits
    ensures p.weeklyData == Projects.MergeWeeklyData(input.githubWeeks, HoursWeeks(input))
    ensures p.commitTrend == TrendAnalysis.CalculateTrend(p.weeklyData, TrendAnalysis.Commits)
    ensures p.hoursTrend == TrendAnalysis.CalculateTrend(p.weeklyData, TrendAnalysis.Hours)
    ensures var score := TrendAnalysis.TrendBasedPulseScore(p.commitTrend, p.hoursTrend, project.targetWeeklyHours, config);
            p.pulseScore == score.pulseScore && p.trendScore == score.trendScore
    ensures p.pulseScore >= 0.0
    ensures p.hoursTarget == project.targetWeeklyHours
    ensures p.hoursProgress == HoursProgress(p.hoursTrend.recent, project.targetWeeklyHours)
    ensures p.trendStatus == TrendAnalysis.GetTrendStatus(p.commitTrend, p.hoursTrend)
    ensures p.healthStatus == Projects.EnhancedHealthStatus(p.pulseScore, p.commitTrend, p.hoursTrend, config)
    ensures (p.weeklyCommits, p.weeklyHours) == Projects.CurrentWeek(p.weeklyData)
    ensures input.togglWeeks.None? ==>
              p.hoursTrend == ZeroTrend && p.weeklyHours == 0.0 && p.hoursProgress == 0.0
  {
    var merged := Projects.MergeWeeklyData(input.githubWeeks, HoursWeeks(input));
    var score := Projects.EnhancedPulseScore(merged, project.targetWeeklyHours, config);
    NoTogglNoHours(input, project.targetWeeklyHours);
    Assemble(project, merged, score, config)
  }

  /** A project without Toggl data has the zero hours trend, no hours this
      week and no progress, whatever its target. */
  lemma NoTogglNoHours(input: ProjectInput, targetWeeklyHours: real)
    ensures input.togglWeeks.None? ==>
              var merged := Projects.MergeWeeklyData(input.githubWeeks, HoursWeeks(input));
              && TrendAnalysis.CalculateTrend(merged, TrendAnalysis.Hours) == ZeroTrend
              && Projects.CurrentWeek(merged).1 == 0.0
              && HoursProgress(ZeroTrend.recent, targetWeeklyHours) == 0.0
  {
    if input.togglWeeks.None? {
      FallbackHoursTrend(input.githubWeeks);
    }
  }

  /** Without Toggl the hours trend is the zero trend and the current week
      has no hours. */
  lemma FallbackHoursTrend(githubWeeks: seq<WeekSample>)
    ensures var merged := Projects.MergeWeeklyData(githubWeeks, FallbackHours(githubWeeks));
            && TrendAnalysis.CalculateTrend(merged, TrendAnalysis.Hours) == ZeroTrend
            && Projects.CurrentWeek(merged).1 == 0.0
  {
    var merged := Projects.MergeWeeklyData(githubWeeks, FallbackHours(githubWeeks));
    MergeWithFallback(githubWeeks);
    assert TrendAnalysis.MetricAllZero(merged, TrendAnalysis.Hours);
    TrendAnalysis.AllZeroSeries(merged, TrendAnalysis.Hours);
  }

  function Assemble(project: Project, merged: seq<WeekSample>, score: Projects.EnhancedScore, config: ScoreConfig)
    : (p: ProjectPulse)
    ensures p.project == project && p.weeklyData == merged
    ensures p.pulseScore == score.pulseScore && p.trendScore == score.trendScore
    ensures p.hoursTrend == score.hoursTrend && p.commitTrend == score.commitTrend
    ensures p.weeklyCommits == score.weeklyCommits && p.weeklyHours == score.weeklyHours
    ensures p.hoursTarget == project.targetWeeklyHours
    ensures p.hoursProgress == HoursProgress(p.hoursTrend.recent, project.targetWeeklyHours)
    ensures p.trendStatus == TrendAnalysis.GetTrendStatus(p.commitTrend, p.hoursTrend)
    ensures p.healthStatus == Projects.EnhancedHealthStatus(p.pulseScore, p.commitTrend, p.hoursTrend, config)
  {
    ProjectPulse(
      project := project,
      weeklyCommits := score.weeklyCommits,
      weeklyHours := score.weeklyHours,
      weeklyData := merged,
      commitTrend := score.commitTrend,
      hoursTrend := score.hoursTrend,
      pulseScore := score.pulseScore,
      trendScore := score.trendScore,
      healthStatus := Projects.EnhancedHealthStatus(score.pulseScore, score.commitTrend, score.hoursTrend, config),
      trendStatus := TrendAnalysis.GetTrendStatus(score.commitTrend, score.hoursTrend),
      hoursTarget := project.targetWeeklyHours,
      hoursProgress := HoursProgress(score.hoursTrend.recent, project.targetWeeklyHours))
  }

  /** The loop over the loaded projects: one record per project, in order. */
  function BuildAll(projects: seq<Project>, inputs: seq<ProjectInput>, config: ScoreConfig): (pulses: seq<ProjectPulse>)
    requires |inputs| == |projects|
    ensures |pulses| == |projects|
    ensures forall i :: 0 <= i < |projects| ==> pulses[i] == BuildProjectPulse(projects[i], inputs[i], config)
    ensures forall i :: 0 <= i < |projects| ==> pulses[i].project == projects[i] && pulses[i].pulseScore >= 0.0
  {
    seq(|projects|, i requires 0 <= i < |projects| => BuildProjectPulse(projects[i], inputs[i], config))
  }

  // ---------------------------------------------------------------------
  // Summary

  function CountHealth(pulses: seq<ProjectPulse>, h: HealthStatus): (n: nat)
    ensures n <= |pulses|
    ensures n == 0 <==> forall i :: 0 <= i < |pulses| ==> pulses[i].healthStatus != h
    ensures n == |pulses| <==> forall i :: 0 <= i < |pulses| ==> pulses[i].healthStatus == h
  {
    if |pulses| == 0 then 0
    else
      var rest := CountHealth(pulses[1..], h);
      assert forall i :: 1 <= i < |pulses| ==> pulses[i] == pulses[1..][i - 1];
      (if pulses[0].healthStatus == h then 1 else 0) + rest
  }

  function CountTrend(pulses: seq<ProjectPulse>, t: TrendStatus): (n: nat)
    ensures n <= |pulses|
    ensures n == 0 <==> forall i :: 0 <= i < |pulses| ==> pulses[i].trendStatus != t
    ensures n == |pulses| <==> forall i :: 0 <= i < |pulses| ==> pulses[i].trendStatus == t
  {
    if |pulses| == 0 then 0
    else
      var rest := CountTrend(pulses[1..], t);
      assert forall i :: 1 <= i < |pulses| ==> pulses[i] == pulses[1..][i - 1];
      (if pulses[0].trendStatus == t then 1 else 0) + rest
  }

  /** `p.githubRepo && p.githubRepo.length > 0`. */
  predicate HasRepos(list: Option<seq<string>>)
  {
    list.Some? && |list.value| > 0
  }

  function CountPublic(projects: seq<Project>): (n: nat)
    ensures n <= |projects|
    ensures n == 0 <==> forall i :: 0 <= i < |projects| ==> !HasRepos(projects[i].githubRepo)
    ensures n == |projects| <==> forall i :: 0 <= i < |projects| ==> HasRepos(projects[i].githubRepo)
  {
    if |projects| == 0 then 0
    else
      var rest := CountPublic(projects[1..]);
      assert forall i :: 1 <= i < |projects| ==> projects[i] == projects[1..][i - 1];
      (if HasRepos(projects[0].githubRepo) then 1 else 0) + rest
  }

  function CountPrivate(projects: seq<Project>): (n: nat)
    ensures n <= |projects|
    ensures n == 0 <==> forall i :: 0 <= i < |projects| ==> !HasRepos(projects[i].githubRepoPrivate)
    ensures n == |projects| <==> forall i :: 0 <= i < |projects| ==> HasRepos(projects[i].githubRepoPrivate)
  {
    if |projects| == 0 then 0
    else
      var rest := CountPrivate(projects[1..]);
      assert forall i :: 1 <= i < |projects| ==> projects[i] == projects[1..][i - 1];
      (if HasRepos(projects[0].githubRepoPrivate) then 1 else 0) + rest
  }

  function SumWeeklyCommits(pulses: seq<ProjectPulse>): nat
  {
    if |pulses| == 0 then 0 else pulses[0].weeklyCommits + SumWeeklyCommits(pulses[1..])
  }

  function SumWeeklyHours(pulses: seq<ProjectPulse>): real
  {
    if |pulses| == 0 then 0.0 else pulses[0].weeklyHours + SumWeeklyHours(pulses[1..])
  }

  function SumTargetHours(pulses: seq<ProjectPulse>): real
  {
    if |pulses| == 0 then 0.0 else pulses[0].hoursTarget + SumTargetHours(pulses[1..])
  }

  datatype Summary = Summary(
    totalProjects: nat,
    publicProjects: nat,
    privateProjects: nat,
    activeProjects: nat,
    slowingProjects: nat,
    dormantProjects: nat,
    totalWeeklyCommits: nat,
    totalWeeklyHours: real,
    totalTargetHours: real,
    improvingProjects: nat,
    decliningProjects: nat,
    stableProjects: nat)

  /** Every project is in exactly one health tier. */
  lemma {:induction false} HealthPartition(pulses: seq<ProjectPulse>)
    ensures CountHealth(pulses, Active) + CountHealth(pulses, Slowing) + CountHealth(pulses, Dormant) == |pulses|
  {
    if |pulses| > 0 {
      HealthPartition(pulses[1..]);
    }
  }

  /** Every project has exactly one trend status. */
  lemma {:induction false} TrendPartition(pulses: seq<ProjectPulse>)
    ensures CountTrend(pulses, Improving) + CountTrend(pulses, Declining) + CountTrend(pulses, Steady) == |pulses|
  {
    if |pulses| > 0 {
      TrendPartition(pulses[1..]);
    }
  }

  /** The summary block of buildProjectPulseData. */
  function Summarize(projects: seq<Project>, pulses: seq<ProjectPulse>): (s: Summary)
    ensures s.totalProjects == |pulses|
    ensures s.activeProjects + s.slowingProjects + s.dormantProjects == s.totalProjects
    ensures s.improvingProjects + s.decliningProjects + s.stableProjects == s.totalProjects
    ensures s.activeProjects == CountHealth(pulses, Active)
    ensures s.slowingProjects == CountHealth(pulses, Slowing)
    ensures s.dormantProjects == CountHealth(pulses, Dormant)
    ensures s.improvingProjects == CountTrend(pulses, Improving)
    ensures s.decliningProjects == CountTrend(pulses, Declining)
    ensures s.stableProjects == CountTrend(pulses, Steady)
    ensures s.publicProjects == CountPublic(projects) && s.privateProjects == CountPrivate(projects)
    ensures s.publicProjects <= |projects| && s.privateProjects <= |projects|
    ensures s.totalWeeklyCommits == SumWeeklyCommits(pulses) && s.totalWeeklyHours == SumWeeklyHours(pulses)
    ensures s.totalTargetHours == SumTargetHours(pulses)
  {
    HealthPartition(pulses);
    TrendPartition(pulses);
    Summary(
      totalProjects := |pulses|,
      publicProjects := CountPublic(projects),
      privateProjects := CountPrivate(projects),
      activeProjects := CountHealth(pulses, Active),
      slowingProjects := CountHealth(pulses, Slowing),
      dormantProjects := CountHealth(pulses, Dormant),
      totalWeeklyCommits := SumWeeklyCommits(pulses),
      totalWeeklyHours := SumWeeklyHours(pulses),
      totalTargetHours := SumTargetHours(pulses),
      improvingProjects := CountTrend(pulses, Improving),
      decliningProjects := CountTrend(pulses, Declining),
      stableProjects := CountTrend(pulses, Steady))
  }

  /** The projects' weekly targets, summed. */
  function SumProjectTargets(projects: seq<Project>): real
  {
    if |projects| == 0 then 0.0 else projects[0].targetWeeklyHours + SumProjectTargets(projects[1..])
  }

  /** Pulses that copy their projects' targets sum to the projects' total
      target. */
  lemma {:induction false} TargetHoursOfProjects(projects: seq<Project>, pulses: seq<ProjectPulse>)
    requires |pulses| == |projects|
    requires forall i :: 0 <= i < |pulses| ==> pulses[i].hoursTarget == projects[i].targetWeeklyHours
    ensures SumTargetHours(pulses) == SumProjectTargets(projects)
  {
    if |pulses| > 0 {
      TargetHoursOfProjects(projects[1..], pulses[1..]);
    }
  }

  /** The summary of a build counts every loaded project once, in one health
      tier and one trend status, and its target total is the projects'. */
  lemma SummaryOfBuild(projects: seq<Project>, inputs: seq<ProjectInput>, config: ScoreConfig)
    requires |inputs| == |projects|
    ensures var s := Summarize(projects, BuildAll(projects, inputs, config));
            && s.totalProjects == |projects|
            && s.activeProjects + s.slowingProjects + s.dormantProjects == |projects|
            && s.improvingProjects + s.decliningProjects + s.stableProjects == |projects|
            && s.totalTargetHours == SumProjectTargets(projects)
  {
    var pulses := BuildAll(projects, inputs, config);
    TargetHoursOfProjects(projects, pulses);
  }

  /** Appending a project adds its commits and hours to the totals. */
  lemma {:induction false} SumsAppend(pulses: seq<ProjectPulse>, p: ProjectPulse)
    ensures SumWeeklyCommits(pulses + [p]) == SumWeeklyCommits(pulses) + p.weeklyCommits
    ensures SumWeeklyHours(pulses + [p]) == SumWeeklyHours(pulses) + p.weeklyHours
  {
    if |pulses| > 0 {
      assert (pulses + [p])[1..] == pulses[1..] + [p];
      SumsAppend(pulses[1..], p);
    } else {
      assert pulses + [p] == [p];
    }
  }

  /** Projects whose hours are all non-negative give a non-negative hours
      total. */
  lemma {:induction false} WeeklyHoursTotalNonNegative(pulses: seq<ProjectPulse>)
    requires forall i :: 0 <= i < |pulses| ==> pulses[i].weeklyHours >= 0.0
    ensures SumWeeklyHours(pulses) >= 0.0
  {
    if |pulses| > 0 {
      WeeklyHoursTotalNonNegative(pulses[1..]);
    }
  }
}
