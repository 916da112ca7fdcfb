/** The records the Pulse Engine passes around (app/lib/types.ts). */
module Types {

  datatype Option<T> = None | Some(value: T)

  /** One week of one project. `weekStart` is the day number (days since
      1970-01-01) of the Saturday that opens the week; it stands for the ISO
      date label, which names each day uniquely. */
  datatype WeekSample = WeekSample(weekStart: int, commits: nat, hours: real)

  datatype Direction = Increasing | Decreasing | Stable

  /** Averages over the last 2, 4 and 12 weeks and the direction derived
      from recent against longer. */
  datatype TrendStats = TrendStats(
    recent: real,
    medium: real,
    longer: real,
    direction: Direction,
    changePercentage: real)

  const ZeroTrend := TrendStats(0.0, 0.0, 0.0, Stable, 0.0)

  datatype HealthStatus = Active | Slowing | Dormant

  datatype TrendStatus = Improving | Steady | Declining

  /** Every weight and threshold of the score, passed explicitly. The two
      target-completion multipliers have no default anywhere in the source,
      so they are always supplied by the caller. */
  datatype ScoreConfig = ScoreConfig(
    commitWeight: real,
    hoursWeight: real,
    activeThreshold: real,
    slowingThreshold: real,
    recentWeight: real,
    mediumWeight: real,
    longerWeight: real,
    trendWeight: real,
    targetCompletionBonus: real,
    targetCompletionPenalty: real)

  /** A tracked project; a `None` repository list is the source's `null`. */
  datatype Project = Project(
    name: string,
    githubRepo: Option<seq<string>>,
    githubRepoPrivate: Option<seq<string>>,
    togglProjectId: string,
    targetWeeklyHours: real)

  /** The per-project output record of a build. */
  datatype ProjectPulse = ProjectPulse(
    project: Project,
    weeklyCommits: nat,
    weeklyHours: real,
    weeklyData: seq<WeekSample>,
    commitTrend: TrendStats,
    hoursTrend: TrendStats,
    pulseScore: real,
    trendScore: real,
    healthStatus: HealthStatus,
    trendStatus: TrendStatus,
    hoursTarget: real,
    hoursProgress: real)
}
