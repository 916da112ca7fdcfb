/** Health tiers, the weekly-series join and the project queries of
    app/lib/projects.ts. */
module Projects {
  import opened Types
  import TrendAnalysis

  /** DEFAULT_PULSE_CONFIG. The source object has no target-completion
      multipliers, so the caller names them. */
  function DefaultPulseConfig(bonus: real, penalty: real): (config: ScoreConfig)
    ensures config.targetCompletionBonus == bonus && config.targetCompletionPenalty == penalty
    ensures config.activeThreshold >= config.slowingThreshold
    ensures config.recentWeight + config.mediumWeight + config.longerWeight == 1.0
    ensures config.recentWeight > config.mediumWeight > config.longerWeight > 0.0
  {
    ScoreConfig(
      commitWeight := 1.5, hoursWeight := 2.0,
      activeThreshold := 8.0, slowingThreshold := 4.0,
      recentWeight := 0.5, mediumWeight := 0.3, longerWeight := 0.2,
      trendWeight := 0.2,
      targetCompletionBonus := bonus, targetCompletionPenalty := penalty)
  }

  // ---------------------------------------------------------------------
  // Scores and tiers

  /** calculatePulseScore: commits and hours, each weighted. */
  function CalculatePulseScore(weeklyCommits: real, weeklyHours: real, config: ScoreConfig): (score: real)
    ensures weeklyCommits == 0.0 && weeklyHours == 0.0 ==> score == 0.0
    ensures (config.commitWeight >= 0.0 && config.hoursWeight >= 0.0
             && weeklyCommits >= 0.0 && weeklyHours >= 0.0) ==> score >= 0.0
  {
    TrendAnalysis.ProductNonNegative(weeklyCommits, config.commitWeight);
    TrendAnalysis.ProductNonNegative(weeklyHours, config.hoursWeight);
    weeklyCommits * config.commitWeight + weeklyHours * config.hoursWeight
  }

  /** More commits or more hours never lower the score when both weights
      are non-negative. */
  lemma PulseScoreMonotone(c1: real, h1: real, c2: real, h2: real, config: ScoreConfig)
    requires config.commitWeight >= 0.0 && config.hoursWeight >= 0.0
    requires c1 <= c2 && h1 <= h2
    ensures CalculatePulseScore(c1, h1, config) <= CalculatePulseScore(c2, h2, config)
  {
    var cw, hw := config.commitWeight, config.hoursWeight;
    TrendAnalysis.ScaleMonotone(c1, c2, cw);
    TrendAnalysis.ScaleMonotone(h1, h2, hw);
    assert CalculatePulseScore(c1, h1, config) == c1 * cw + h1 * hw;
    assert CalculatePulseScore(c2, h2, config) == c2 * cw + h2 * hw;
  }

  /** The score is linear in the activity: one commit scores the commit
      weight, one hour the hours weight, scores of two weeks' activity add
      up, and scaling the activity scales the score. */
  lemma PulseScoreLinear(c1: real, h1: real, c2: real, h2: real, k: real, config: ScoreConfig)
    ensures CalculatePulseScore(1.0, 0.0, config) == config.commitWeight
    ensures CalculatePulseScore(0.0, 1.0, config) == config.hoursWeight
    ensures CalculatePulseScore(c1 + c2, h1 + h2, config)
         == CalculatePulseScore(c1, h1, config) + CalculatePulseScore(c2, h2, config)
    ensures CalculatePulseScore(k * c1, k * h1, config) == k * CalculatePulseScore(c1, h1, config)
  {
    var cw, hw := config.commitWeight, config.hoursWeight;
    assert (c1 + c2) * cw == c1 * cw + c2 * cw;
    assert (h1 + h2) * hw == h1 * hw + h2 * hw;
    assert (k * c1) * cw == k * (c1 * cw);
    assert (k * h1) * hw == k * (h1 * hw);
    assert k * (c1 * cw + h1 * hw) == k * (c1 * cw) + k * (h1 * hw);
  }

  /** 2 for active, 1 for slowing, 0 for dormant. */
  function Rank(h: HealthStatus): nat
  {
    match h
    case Active => 2
    case Slowing => 1
    case Dormant => 0
  }

  /** getHealthStatus, which is also the base tier of getEnhancedHealthStatus. */
  function HealthTier(pulseScore: real, activeThreshold: real, slowingThreshold: real): (h: HealthStatus)
    ensures h == Active <==> pulseScore >= activeThreshold
    ensures h == Slowing <==> slowingThreshold <= pulseScore < activeThreshold
    ensures h == Dormant <==> pulseScore < activeThreshold && pulseScore < slowingThreshold
  {
    if pulseScore >= activeThreshold then Active
    else if pulseScore >= slowingThreshold then Slowing
    else Dormant
  }

  /** With ordered thresholds a higher score never gets a lower tier. */
  lemma HealthTierMonotone(s1: real, s2: real, activeThreshold: real, slowingThreshold: real)
    requires activeThreshold >= slowingThreshold
    requires s1 <= s2
    ensures Rank(HealthTier(s1, activeThreshold, slowingThreshold))
         <= Rank(HealthTier(s2, activeThreshold, slowingThreshold))
  {
  }

  function Promote(h: HealthStatus): HealthStatus
  {
    match h
    case Dormant => Slowing
    case Slowing => Active
    case Active => Active
  }

  function Demote(h: HealthStatus): HealthStatus
  {
    match h
    case Active => Slowing
    case Slowing => Dormant
    case Dormant => Dormant
  }

  predicate StrongRise(commitTrend: TrendStats, hoursTrend: TrendStats)
  {
    commitTrend.changePercentage > 25.0 || hoursTrend.changePercentage > 25.0
  }

  predicate StrongFall(commitTrend: TrendStats, hoursTrend: TrendStats)
  {
    commitTrend.changePercentage < -25.0 || hoursTrend.changePercentage < -25.0
  }

  /** getEnhancedHealthStatus: the base tier, moved one step up on a strong
      improving trend and one step down on a strong declining one. */
  function EnhancedHealthStatus(
    pulseScore: real, commitTrend: TrendStats, hoursTrend: TrendStats, config: ScoreConfig): (h: HealthStatus)
    ensures var base := HealthTier(pulseScore, config.activeThreshold, config.slowingThreshold);
            -1 <= Rank(h) - Rank(base) <= 1
    ensures var base := HealthTier(pulseScore, config.activeThreshold, config.slowingThreshold);
            Rank(h) > Rank(base) <==>
              && TrendAnalysis.GetTrendStatus(commitTrend, hoursTrend) == Improving
              && StrongRise(commitTrend, hoursTrend)
              && base != Active
    ensures var base := HealthTier(pulseScore, config.activeThreshold, config.slowingThreshold);
            Rank(h) < Rank(base) <==>
              && TrendAnalysis.GetTrendStatus(commitTrend, hoursTrend) == Declining
              && StrongFall(commitTrend, hoursTrend)
              && base != Dormant
  {
    var base := HealthTier(pulseScore, config.activeThreshold, config.slowingThreshold);
    var trendStatus := TrendAnalysis.GetTrendStatus(commitTrend, hoursTrend);
    if trendStatus == Improving && StrongRise(commitTrend, hoursTrend) && base != Active then
      Promote(base)
    else if trendStatus == Declining && StrongFall(commitTrend, hoursTrend) && base != Dormant then
      Demote(base)
    else
      base
  }

  /** A slowing score with commits rising 30% and steady hours is promoted
      to active. */
  lemma RisingCommitsPromoteSlowing(bonus: real, penalty: real)
    ensures var config := DefaultPulseConfig(bonus, penalty);
            var commits := TrendStats(3.0, 2.5, 2.0, Increasing, 30.0);
            var hours := TrendStats(1.0, 1.0, 1.0, Stable, 0.0);
            && HealthTier(5.0, config.activeThreshold, config.slowingThreshold) == Slowing
            && EnhancedHealthStatus(5.0, commits, hours, config) == Active
  {
  }

  /** Two stable trends never move the tier. */
  lemma StableTrendsKeepTier(pulseScore: real, commitTrend: TrendStats, hoursTrend: TrendStats, config: ScoreConfig)
    requires commitTrend.direction == Stable && hoursTrend.direction == Stable
    ensures EnhancedHealthStatus(pulseScore, commitTrend, hoursTrend, config)
         == HealthTier(pulseScore, config.activeThreshold, config.slowingThreshold)
  {
  }

  // ---------------------------------------------------------------------
  // Joining the commit series with the hours series

  /** The Map built by `togglData.forEach(week => togglMap.set(...))`: each
      later week overwrites an earlier one with the same label. */
  function HoursByWeek(toggl: seq<WeekSample>): (m: map<int, real>)
    ensures forall k :: k in m <==> exists i :: 0 <= i < |toggl| && toggl[i].weekStart == k
  {
    if |toggl| == 0 then map[]
    else
      var last := toggl[|toggl| - 1];
      var m := HoursByWeek(toggl[..|toggl| - 1]);
      assert forall i :: 0 <= i < |toggl| - 1 ==> toggl[..|toggl| - 1][i] == toggl[i];
      m[last.weekStart := last.hours]
  }

  /** `hours` is what the last week labelled `k` records. */
  predicate LastHoursFor(toggl: seq<WeekSample>, k: int, hours: real)
  {
    exists i :: 0 <= i < |toggl| && toggl[i].weekStart == k && toggl[i].hours == hours
                && forall j :: i < j < |toggl| ==> toggl[j].weekStart != k
  }

  /** The map holds, for every label, the hours of its last occurrence. */
  lemma {:induction false} HoursByWeekIsLastOccurrence(toggl: seq<WeekSample>, k: int)
    requires k in HoursByWeek(toggl)
    ensures LastHoursFor(toggl, k, HoursByWeek(toggl)[k])
  {
    var n := |toggl| - 1;
    var init := toggl[..n];
    if toggl[n].weekStart == k {
      assert toggl[n].hours == HoursByWeek(toggl)[k];
    } else {
      assert HoursByWeek(toggl)[k] == HoursByWeek(init)[k];
      HoursByWeekIsLastOccurrence(init, k);
      var i :| 0 <= i < |init| && init[i].weekStart == k && init[i].hours == HoursByWeek(init)[k]
               && forall j :: i < j < |init| ==> init[j].weekStart != k;
      assert toggl[i] == init[i];
      assert forall j :: i < j < |toggl| ==> toggl[j].weekStart != k by {
        forall j | i < j < |toggl|
          ensures toggl[j].weekStart != k
        {
          if j < n {
            assert toggl[j] == init[j];
          }
        }
      }
    }
  }

  /** `togglMap.get(weekStart) || 0`. A stored 0 and a missing label both
      read as 0. */
  function HoursLookup(m: map<int, real>, weekStart: int): real
  {
    if weekStart in m then m[weekStart] else 0.0
  }

  /** mergeWeeklyData: the commit series keeps its shape; each week takes the
      hours recorded for its label, or 0. */
  function MergeWeeklyData(github: seq<WeekSample>, toggl: seq<WeekSample>): (merged: seq<WeekSample>)
    ensures |merged| == |github|
    ensures forall i :: 0 <= i < |github| ==>
              merged[i].weekStart == github[i].weekStart && merged[i].commits == github[i].commits
  {
    var m := HoursByWeek(toggl);
    seq(|github|, i requires 0 <= i < |github| =>
      WeekSample(github[i].weekStart, github[i].commits, HoursLookup(m, github[i].weekStart)))
  }

  /** The hours of each merged week: those of the last hours week with the
      same label, or 0 when no hours week has that label. */
  lemma MergedHours(github: seq<WeekSample>, toggl: seq<WeekSample>, i: int)
    requires 0 <= i < |github|
    ensures var merged := MergeWeeklyData(github, toggl);
            var k := github[i].weekStart;
            (exists j :: 0 <= j < |toggl| && toggl[j].weekStart == k) ==> LastHoursFor(toggl, k, merged[i].hours)
    ensures var merged := MergeWeeklyData(github, toggl);
            var k := github[i].weekStart;
            (forall j :: 0 <= j < |toggl| ==> toggl[j].weekStart != k) ==> merged[i].hours == 0.0
  {
    var k := github[i].weekStart;
    if k in HoursByWeek(toggl) {
      HoursByWeekIsLastOccurrence(toggl, k);
    }
  }

  /** Two series over the same distinct labels in the same order join
      week by week. */
  lemma MergeAligned(github: seq<WeekSample>, toggl: seq<WeekSample>)
    requires |github| == |toggl|
    requires forall i :: 0 <= i < |github| ==> github[i].weekStart == toggl[i].weekStart
    requires TrendAnalysis.UniqueLabels(toggl)
    ensures MergeWeeklyData(github, toggl)
         == seq(|github|, i requires 0 <= i < |github| =>
                  WeekSample(github[i].weekStart, github[i].commits, toggl[i].hours))
  {
    var merged := MergeWeeklyData(github, toggl);
    forall i | 0 <= i < |github|
      ensures merged[i].hours == toggl[i].hours
    {
      MergedHours(github, toggl, i);
      var j :| 0 <= j < |toggl| && toggl[j].weekStart == github[i].weekStart
               && toggl[j].hours == merged[i].hours
               && forall j' :: j < j' < |toggl| ==> toggl[j'].weekStart != github[i].weekStart;
      if j != i {
        assert false;
      }
    }
  }

  /** Joining with an empty hours series zeroes every week's hours. */
  lemma MergeWithNoHours(github: seq<WeekSample>)
    ensures forall i :: 0 <= i < |github| ==>
              MergeWeeklyData(github, [])[i] == WeekSample(github[i].weekStart, github[i].commits, 0.0)
  {
  }

  // ---------------------------------------------------------------------
  // The enhanced score

  /** The current week of calculateEnhancedPulseScore: the last sample, or
      zero commits and zero hours for an empty series. */
  function CurrentWeek(weeklyData: seq<WeekSample>): (current: (nat, real))
    ensures |weeklyData| == 0 ==> current == (0, 0.0)
    ensures |weeklyData| > 0 ==>
              current == (weeklyData[|weeklyData| - 1].commits, weeklyData[|weeklyData| - 1].hours)
  {
    if |weeklyData| > 0 then
      var last := weeklyData[|weeklyData| - 1];
      (last.commits, last.hours)
    else (0, 0.0)
  }

  datatype EnhancedScore = EnhancedScore(
    pulseScore: real,
    trendScore: real,
    commitTrend: TrendStats,
    hoursTrend: TrendStats,
    weeklyCommits: nat,
    weeklyHours: real)

  lemma SeriesScoreBounds(weeklyData: seq<WeekSample>, targetWeeklyHours: real, config: ScoreConfig)
    ensures TrendAnalysis.NonNegativeHours(weeklyData) && TrendAnalysis.NonNegativeWeights(config) ==>
              TrendAnalysis.ScoreWithinBounds(
                TrendAnalysis.CalculateTrend(weeklyData, TrendAnalysis.Commits),
                TrendAnalysis.CalculateTrend(weeklyData, TrendAnalysis.Hours), targetWeeklyHours, config)
  {
    if TrendAnalysis.NonNegativeHours(weeklyData) && TrendAnalysis.NonNegativeWeights(config) {
      TrendAnalysis.PulseScoreOfNonNegativeSeries(weeklyData, targetWeeklyHours, config);
    }
  }

  /** calculateEnhancedPulseScore with the weekly target and the complete
      configuration passed explicitly. */
  function EnhancedPulseScore(weeklyData: seq<WeekSample>, targetWeeklyHours: real, config: ScoreConfig)
    : (r: EnhancedScore)
    ensures r.pulseScore >= 0.0
    ensures |weeklyData| == 0 ==> r.commitTrend == ZeroTrend && r.hoursTrend == ZeroTrend
    ensures (r.weeklyCommits, r.weeklyHours) == CurrentWeek(weeklyData)
    ensures TrendAnalysis.NonNegativeHours(weeklyData) && TrendAnalysis.NonNegativeWeights(config) ==>
              TrendAnalysis.ScoreWithinBounds(r.commitTrend, r.hoursTrend, targetWeeklyHours, config)
    ensures r.commitTrend == TrendAnalysis.CalculateTrend(weeklyData, TrendAnalysis.Commits)
    ensures r.hoursTrend == TrendAnalysis.CalculateTrend(weeklyData, TrendAnalysis.Hours)
    ensures r.pulseScore == TrendAnalysis.TrendBasedPulseScore(r.commitTrend, r.hoursTrend, targetWeeklyHours, config).pulseScore
    ensures r.trendScore == TrendAnalysis.TrendBasedPulseScore(r.commitTrend, r.hoursTrend, targetWeeklyHours, config).trendScore
  {
    var commitTrend := TrendAnalysis.CalculateTrend(weeklyData, TrendAnalysis.Commits);
    var hoursTrend := TrendAnalysis.CalculateTrend(weeklyData, TrendAnalysis.Hours);
    var score := TrendAnalysis.TrendBasedPulseScore(commitTrend, hoursTrend, targetWeeklyHours, config);
    SeriesScoreBounds(weeklyData, targetWeeklyHours, config);
    var current := CurrentWeek(weeklyData);
    EnhancedScore(score.pulseScore, score.trendScore, commitTrend, hoursTrend, current.0, current.1)
  }

  // ---------------------------------------------------------------------
  // Repositories

  /** A `null` repository list reads as an empty one. */
  function ListOrEmpty(list: Option<seq<string>>): seq<string>
  {
    if list.Some? then list.value else []
  }

  /** The public repositories followed by the private ones, as gathered for
      each project. */
  function AllRepos(project: Project): (repos: seq<string>)
    ensures |repos| == |ListOrEmpty(project.githubRepo)| + |ListOrEmpty(project.githubRepoPrivate)|
    ensures repos[..|ListOrEmpty(project.githubRepo)|] == ListOrEmpty(project.githubRepo)
    ensures repos[|ListOrEmpty(project.githubRepo)|..] == ListOrEmpty(project.githubRepoPrivate)
    ensures forall r :: r in repos <==>
              r in ListOrEmpty(project.githubRepo) || r in ListOrEmpty(project.githubRepoPrivate)
  {
    ListOrEmpty(project.githubRepo) + ListOrEmpty(project.githubRepoPrivate)
  }

  /** projectHasRepo: exact membership in either list. */
  function ProjectHasRepo(project: Project, repoName: string): (has: bool)
    ensures project.githubRepo.None? && project.githubRepoPrivate.None? ==> !has
    ensures has <==> repoName in ListOrEmpty(project.githubRepo) || repoName in ListOrEmpty(project.githubRepoPrivate)
  {
    var hasPublic := project.githubRepo.Some? && repoName in project.githubRepo.value;
    var hasPrivate := project.githubRepoPrivate.Some? && repoName in project.githubRepoPrivate.value;
    hasPublic || hasPrivate
  }

  /** A project has a repository exactly when the repository is among the
      ones gathered for it. */
  lemma HasRepoIffGathered(project: Project, repoName: string)
    ensures ProjectHasRepo(project, repoName) <==> repoName in AllRepos(project)
  {
  }
}
