# BuildPulse pulse engine in Dafny

BuildPulse is a dashboard that judges how alive a set of side projects is.
For each project it buckets the last twelve Saturday-based weeks of GitHub
commits. It merges in Toggl tracked hours by week label and computes
two-, four- and twelve-week averages and a trend direction for each metric.
From those it derives a trend-weighted, target-adjusted pulse score, a
health tier (active / slowing / dormant), possibly shifted one step by
strong trends, and an overall trend status (improving / stable /
declining). The data builder assembles one `ProjectPulse` per project and a
summary over all of them. The older `lib/` helpers compute the same tiers
without trends and a 0-100 health score.

The model is pure functional Dafny:

- `seqs.dfy` (`Seqs`): sums, means, minima and maxima of real sequences.
- `types.dfy` (`Types`): the records — week samples, trend statistics,
  statuses, the ten-field score configuration, projects, project pulses.
- `dates.dfy` (`Dates`): Saturday-based week arithmetic on day numbers.
  Day 0 is 1970-01-01, a Thursday, and weekdays are numbered as
  `getDay` numbers them.
- `trend.dfy` (`TrendAnalysis`): trends, averages, direction, multipliers,
  target adjustment, pulse score, trend status, week labels.
- `projects.dfy` (`Projects`): configuration, legacy score, health tiers,
  enhanced health, weekly merge, enhanced pulse score, repository lists.
- `github.dfy` (`GitHub`): weekly commit buckets, empty data, repository
  path parsing, the per-project combination.
- `toggl.dfy` (`Toggl`): filtering, clamping and rounding of time entries.
- `builder.dfy` (`DataBuilder`): one project's pulse and the summary.
- `legacy_projects.dfy` (`LegacyProjects`), `legacy_utils.dfy`
  (`LegacyUtils`): `lib/projects.ts` and `lib/utils.ts`.

Representation choices:

- A week label (an ISO date string in the source) is the day number of its
  Saturday.
- An instant (a commit date, an entry's start) is an integer count of
  seconds; a week spans `[day * 86400, (day + 7) * 86400)`.
- Numbers are `real`s.
- `Math.round(x)` is `floor(x + 0.5)`.
- The current day is a parameter `today`. Each network response is a
  parameter: a `FetchResult` that holds the decoded body, a 404/403 or a
  failure.

## Model

| member | source | states |
|---|---|---|
| Dates.DayOfWeek | lib/date-utils.ts:6 | the weekday lies in 0..6 and is Saturday exactly on the days congruent to 2 mod 7 |
| Dates.DaysSinceSaturday | lib/date-utils.ts:9 | the days since Saturday lie in 0..6, are 0 only on a Saturday, and stepping back that many days lands on a Saturday |
| Dates.WeekdayPeriodic | lib/date-utils.ts:6-12 | stepping back any whole number of weeks keeps the weekday |
| Dates.WeekStart | lib/date-utils.ts:4-16 | the week start is a Saturday no later than today and less than seven days before it |
| Dates.WeekStartIsLatestSaturday | lib/date-utils.ts:4-16 | no other Saturday lies between the week start and today |
| Dates.GetDaysSinceSaturday | lib/date-utils.ts:43-48 | the day count lies in 0..6, subtracting it from today gives the week start, and it is 0 exactly on Saturdays |
| Dates.IsInCurrentWeek | lib/date-utils.ts:21-24 | an instant is in the current week iff it is at or after the midnight that opens the week; everything from today's midnight on is in, nothing from six days before today's midnight is |
| Dates.CurrentWeekMembership | lib/date-utils.ts:21-24 | membership only grows as the instant moves later, and on a Saturday the current week starts at that day's own midnight |
| Dates.CurrentWeekSpan | lib/date-utils.ts:29-38 | the described week runs from a Saturday to the Friday six days later and contains today |
| Seqs.Mean | app/lib/trend-analysis.ts:46-54 | the mean times the count is the sum, and an empty sequence averages to 0 |
| Seqs.Minimum | app/lib/trend-analysis.ts:46-54 | the minimum is an element and no element is smaller |
| Seqs.Maximum | app/lib/trend-analysis.ts:46-54 | the maximum is an element and no element is larger |
| Seqs.MeanBetween | app/lib/trend-analysis.ts:46-54 | a mean lies between the smallest and the largest value it averages |
| Seqs.MeanWithin | app/lib/trend-analysis.ts:46-54 | a mean of values within [lo, hi] lies within [lo, hi] |
| Seqs.SumBounds | app/lib/trend-analysis.ts:49-51 | a sum of n values within [lo, hi] lies within [n lo, n hi] |
| Seqs.ZeroSumOfNonNegative | app/lib/trend-analysis.ts:49-51 | a zero sum of non-negative values has every value zero |
| Seqs.SumOfRepeat | app/lib/trend-analysis.ts:49-53 | n copies of x add up to n × x, so a value whose n copies give a sum is that sum over n |
| TrendAnalysis.Values | app/lib/trend-analysis.ts:50 | the selected metric of every week, in order |
| TrendAnalysis.InsertByRecency | app/lib/trend-analysis.ts:18-20 | insertion keeps the most-recent-first order and adds exactly one element, and keeps the order strict for a fresh label |
| TrendAnalysis.SortMostRecentFirst | app/lib/trend-analysis.ts:18-20 | the sort is a permutation in most-recent-first order, strictly so when the labels are unique |
| TrendAnalysis.StrictOrderIsUnique | app/lib/trend-analysis.ts:18-20 | two strictly ordered permutations of the same weeks are equal, so the sort's result is determined |
| TrendAnalysis.SortOfOldestFirst | app/lib/trend-analysis.ts:18-20 | sorting an oldest-first series is reversing it |
| TrendAnalysis.CalculateAverage | app/lib/trend-analysis.ts:46-54 | the average is the arithmetic mean: giving every week the average keeps the total (so average × count = sum); it lies between the least and the greatest value; an empty window averages to 0 |
| TrendAnalysis.TrendDirection | app/lib/trend-analysis.ts:59-82 | with no longer-term activity a rise is +100% increasing and otherwise 0% stable; otherwise the percentage is the relative change and the direction is stable strictly inside ±10%, increasing at or above 10% and decreasing at or below -10% |
| TrendAnalysis.DirectionByRatio | app/lib/trend-analysis.ts:70-79 | for a positive baseline, increasing iff recent ≥ 1.1 × longer, decreasing iff recent ≤ 0.9 × longer, stable strictly between |
| TrendAnalysis.TwoBusyWeeksExample | app/lib/trend-analysis.ts:59-82 | a recent average of 10 against a twelve-week average of 20/12 is an increasing trend of exactly +500% |
| TrendAnalysis.CalculateTrend | app/lib/trend-analysis.ts:6-41 | an empty series gives the all-zero trend; otherwise recent, medium and longer are the averages of the 2, 4 and 12 most recent weeks after sorting, each within its window's values, and the direction and percentage are those of recent against longer |
| TrendAnalysis.TrendIgnoresInputOrder | app/lib/trend-analysis.ts:18-20 | with unique week labels the trend does not depend on the order of the input |
| TrendAnalysis.TrendOfNonNegativeSeries | app/lib/trend-analysis.ts:6-41 | non-negative data gives non-negative averages, and a zero twelve-week average forces a zero recent average and a stable 0% trend |
| TrendAnalysis.AllZeroSeries | app/lib/trend-analysis.ts:6-41 | an all-zero metric gives the all-zero stable trend |
| TrendAnalysis.ZeroAverageZeroPrefix | app/lib/trend-analysis.ts:23-29 | when a non-negative window averages to zero, so does every prefix of it |
| TrendAnalysis.ZeroLongerZeroRecent | app/lib/trend-analysis.ts:23-29 | on non-negative weeks, a zero twelve-week average forces a zero two-week average |
| TrendAnalysis.TrendMultiplier | app/lib/trend-analysis.ts:163-176 | stable gives 1; increasing gives at most 1.5, more than 1 for a positive change and exactly the 1.5 cap from a 50% change; decreasing gives a factor in [0.7, 1], below 1 for any non-zero change and exactly the 0.7 floor from a 30% change |
| TrendAnalysis.MultiplierOfComputedTrend | app/lib/trend-analysis.ts:116-117 | the multiplier of any computed trend lies in [0.7, 1.5], at least 1.1 when the trend is increasing and at most 0.9 when it is decreasing |
| TrendAnalysis.MultiplierOfDirection | app/lib/trend-analysis.ts:59-82 | whatever averages it compares, the direction rule yields a multiplier in [0.7, 1.5], at least 1.1 when increasing and at most 0.9 when decreasing |
| TrendAnalysis.TargetAdjustment | app/lib/trend-analysis.ts:140-158 | at or above the target the factor is at most 1.5 and, with a non-negative bonus, at least 1; exactly on target it is 1; from 70% to below 100% it is 1; below 70% it is at least 0.6 and, with a non-negative penalty, at most 1; a positive bonus above the target gives more than 1, reaching the 1.5 cap once (completion - 1) × bonus is 0.5; a positive penalty below 70% gives less than 1, reaching the 0.6 floor once (1 - completion) × penalty is 0.4 |
| TrendAnalysis.TargetAdjustmentMonotone | app/lib/trend-analysis.ts:140-158 | with non-negative multipliers the factor never falls as completion grows |
| TrendAnalysis.PenaltyOrdered | app/lib/trend-analysis.ts:153-156 | a larger shortfall penalty never raises the factor, and because the penalty is capped at 0.4 the 0.6 floor never takes effect |
| TrendAnalysis.TargetAdjustmentStepAtSeventyPercent | app/lib/trend-analysis.ts:149-156 | below 70% the factor is at most 1 - min(0.3 × penalty, 0.4), while at 70% it is exactly 1: the adjustment jumps at 70% |
| TrendAnalysis.TargetCompletion | app/lib/trend-analysis.ts:122 | completion is recent hours over the target, and 1 when the target is not positive |
| TrendAnalysis.TrendScore | app/lib/trend-analysis.ts:119 | with a non-negative base and weight and multipliers in [0.7, 1.5], the trend score lies between 0.7 and 1.5 times base × weight; two neutral multipliers give exactly base × weight |
| TrendAnalysis.TrendScoreAgainstNeutral | app/lib/trend-analysis.ts:116-119 | with a positive base and weight, the trend score is above base × weight exactly when the two multipliers sum to more than 2, and below it exactly when they sum to less |
| TrendAnalysis.TrendScoreMonotone | app/lib/trend-analysis.ts:116-119 | with a non-negative base and weight, raising either multiplier never lowers the trend score, and swapping the commit and hours multipliers changes nothing |
| TrendAnalysis.AdjustedScore | app/lib/trend-analysis.ts:129-132 | the final score is never negative, lies within [0.6, 1.5] times a non-negative total for an adjustment in that range, and is max(0, total) for a neutral adjustment; for a non-negative total an adjustment of at least 1 never lowers it and one in [0, 1] never raises it; for a positive total an adjustment above 1 strictly raises it and one in [0, 1) strictly lowers it; a non-positive total scores 0 |
| TrendAnalysis.AdjustedScoreMonotone | app/lib/trend-analysis.ts:129-132 | for a non-negative total a larger adjustment never gives a lower score |
| TrendAnalysis.TrendBasedPulseScore | app/lib/trend-analysis.ts:87-135 | the trend score is the trend score of the base score with the two trends' multipliers and the trend weight; the pulse score is the adjusted score of base plus trend score under the target adjustment of the recent hours' completion; it is never negative, lies within [0.6, 1.5] times that total when weights and total are non-negative, and is max(0, total) without a positive target |
| TrendAnalysis.TargetSteersScore | app/lib/trend-analysis.ts:122-132 | with non-negative weights, a positive target and a non-negative total, recent hours at or above the target never lower the score below the total, and recent hours under 70% of the target never raise it above; with a positive total, recent hours above the target and a positive bonus strictly raise the score, and recent hours under 70% of the target and a positive penalty strictly lower it |
| TrendAnalysis.CompletionAgainstTarget | app/lib/trend-analysis.ts:122 | for a positive target, the completion ratio is at least 1 exactly when the recent hours meet the target, above 1 exactly when they exceed it, and below 0.7 exactly when they fall under 70% of it |
| TrendAnalysis.PulseScoreOfNonNegativeSeries | app/lib/trend-analysis.ts:87-135 | for non-negative data and weights the base score is non-negative, the trend score lies within [0.7, 1.5] × base × trend weight, and the pulse score lies within [0.6, 1.5] × (base + trend) |
| TrendAnalysis.GetTrendStatus | app/lib/trend-analysis.ts:181-197 | improving iff one metric increases and the other does not decrease; declining iff one decreases and the other does not increase |
| TrendAnalysis.TrendStatusSymmetric | app/lib/trend-analysis.ts:185-196 | the status does not depend on which trend is the commits' one, agreeing trends give their own status, and opposite trends cancel to stable |
| TrendAnalysis.DaysToSaturday | app/lib/trend-analysis.ts:211-212 | the week-label step back is the same day count as getDaysSinceSaturday's |
| TrendAnalysis.WeekLabel | app/lib/trend-analysis.ts:206-215 | the i-th label back is the current week start minus 7i days |
| TrendAnalysis.GenerateWeekStarts | app/lib/trend-analysis.ts:202-219 | exactly weeksCount labels, oldest first, each a Saturday opening the week of its sample day, consecutive ones seven days apart, the last being the current week |
| TrendAnalysis.WeekStartsSpaced | app/lib/trend-analysis.ts:202-219 | any two labels j ≥ i are 7 (j - i) days apart, so labels are strictly increasing and distinct |
| Projects.DefaultPulseConfig | app/lib/projects.ts:7-17 | the default keeps active ≥ slowing threshold and weights recent > medium > longer > 0 summing to 1, with the bonus and penalty as given |
| Projects.CalculatePulseScore | app/lib/projects.ts:36-42 | no activity scores 0, and non-negative inputs and weights score non-negatively |
| Projects.PulseScoreLinear | app/lib/projects.ts:36-42 | the score is the weighted sum: one commit scores the commit weight, one hour the hours weight, the scores of two activities add up, and scaling commits and hours by k scales the score by k |
| Projects.PulseScoreMonotone | app/lib/projects.ts:36-42 | with non-negative weights more commits or hours never lower the score |
| Projects.HealthTier | app/lib/projects.ts:124-135 | active iff the score reaches the active threshold, slowing iff it reaches only the slowing threshold, dormant otherwise |
| Projects.HealthTierMonotone | app/lib/projects.ts:124-135 | with ordered thresholds a higher score never gives a lower tier |
| Projects.EnhancedHealthStatus | app/lib/projects.ts:87-119 | the result is at most one tier from the score's tier; it is higher iff the trend status is improving, one change exceeds +25% and the tier is not already active; lower iff declining, one change is below -25% and the tier is not already dormant |
| Projects.StableTrendsKeepTier | app/lib/projects.ts:104-118 | two stable trends leave the score's tier unchanged |
| Projects.RisingCommitsPromoteSlowing | app/lib/projects.ts:104-110 | with the default thresholds a score of 5 is slowing, and commits rising 30% with steady hours promote it to active |
| Projects.HoursByWeek | app/lib/projects.ts:145-148 | the map has a key exactly for every Toggl week label |
| Projects.HoursByWeekIsLastOccurrence | app/lib/projects.ts:145-148 | for a repeated label the map holds the hours of its last occurrence |
| Projects.MergeWeeklyData | app/lib/projects.ts:140-156 | the merge keeps the GitHub series' length, labels and commit counts |
| Projects.MergedHours | app/lib/projects.ts:151-155 | each merged week carries the hours of the last Toggl week with its label, and 0 when there is none |
| Projects.MergeAligned | app/lib/projects.ts:140-156 | merging two series over the same unique labels pairs their commits and hours index by index |
| Projects.MergeWithNoHours | app/lib/projects.ts:140-156 | merging with no Toggl data zeroes every week's hours and keeps the rest |
| Projects.CurrentWeek | app/lib/projects.ts:70-72 | the current week's commits and hours come from the series' last entry, 0 and 0 for an empty series |
| Projects.EnhancedPulseScore | app/lib/projects.ts:47-82 | the commit and hours trends are those computed from the weekly series, the pulse and trend scores are the trend-based scores of those trends, the pulse score is never negative, an empty series gives zero trends, the weekly figures are the current week's, and non-negative data and weights keep every score within its bounds |
| Projects.AllRepos | app/lib/projects.ts:187-201 | the list is the public repositories followed, in order, by the private ones; a null list contributes nothing |
| Projects.ProjectHasRepo | app/lib/projects.ts:213-217 | true iff the name is in the public or the private list, a null list counting as empty; never for a project with neither |
| Projects.HasRepoIffGathered | app/lib/projects.ts:213-217 | a project has a repository iff that repository is among its gathered public and private repositories |
| GitHub.CountInWeek | app/lib/github.ts:60-63 | the count never exceeds the commits, is 0 iff no commit falls in the week, and is all of them iff every commit does |
| GitHub.CountSince | app/lib/github.ts:73-76 | the count never exceeds the commits and is 0 iff every commit is before the week start |
| GitHub.WeeklyBuckets | app/lib/github.ts:55-70 | one bucket per label, carrying the label, the commits in that week and 0 hours |
| GitHub.AtMostOneWeek | app/lib/github.ts:55-70 | with labels at least a week apart, an instant falls in at most one bucket |
| GitHub.BucketsCountEachCommitOnce | app/lib/github.ts:55-70 | with labels a week apart, the buckets together count no commit twice |
| GitHub.BucketSum | app/lib/github.ts:55-70 | the buckets' commits add up to the number of (commit, week) memberships |
| GitHub.GeneratedWeeksApart | app/lib/trend-analysis.ts:202-219 | the twelve generated labels are a week apart, so their buckets are disjoint |
| GitHub.ZeroWeeks | app/lib/github.ts:102-107 | twelve weeks on the generated labels with no commits and no hours |
| GitHub.EmptyCommitData | app/lib/github.ts:101-116 | empty data keeps the name, has zero counts and no last commit, on the twelve tracked weeks |
| GitHub.RepoCommitData | app/lib/github.ts:17-96 | the name is owner/repo on the tracked weeks; fetched commits give the weekly buckets of their dates, a total equal to their number, a this-week count of the commits at or after the week start's midnight, and the first listed date as the last commit date iff there is one; a 404 or any failure gives the empty data |
| GitHub.BucketCountsWeek | app/lib/github.ts:55-70 | each fetched bucket carries its generated label, the count of commits in that week and 0 hours |
| GitHub.IndexOf | app/lib/github.ts:143 | the first position of the character, or none iff it does not occur |
| GitHub.ParseRepoPath | app/lib/github.ts:142-147 | a parse yields two non-empty slash-free segments that, joined by a slash, start the path and end at its end or at a slash; and a path parses exactly when its first slash has a non-empty owner before it and a character other than a slash right after it |
| GitHub.ParseDropsTail | app/lib/github.ts:143 | segments after the second are dropped: owner/repo/rest parses as owner and repo |
| GitHub.ParseJoinedPath | app/lib/github.ts:142-149 | joining a non-empty slash-free owner and repository parses back to the same pair |
| GitHub.FindWeek | app/lib/github.ts:159 | the first week with the label, or none iff no week has it |
| GitHub.FindOwnWeek | app/lib/github.ts:159 | with unique labels, looking up a week's own label finds that week |
| GitHub.CombinedCommitsAppend | app/lib/github.ts:158-161 | adding a repository adds its commits for the week to the combined count |
| GitHub.CombinedCommitsOfMissingLabel | app/lib/github.ts:158-161 | a label absent from every repository combines to 0 commits |
| GitHub.CombinedIsColumnSum | app/lib/github.ts:156-168 | on the tracked weeks the combined count of week i is the sum of every repository's i-th bucket |
| GitHub.RepoData | app/lib/github.ts:142-150 | an unparsable path gives empty data under the path's name; otherwise the owner/repo fetch result |
| GitHub.ProjectGitHubData | app/lib/github.ts:121-176 | one entry per repository path, each the data of that path's own fetch; twelve weeks on the generated labels with 0 hours whose commits combine all repositories; a total that sums them; no repositories and zero weeks when the list is null or empty |
| Toggl.ProjectEntries | app/lib/toggl.ts:62-64 | an entry is kept as often as it occurs when its project id is the parsed id and never otherwise, so none are kept when the id does not parse |
| Toggl.EntriesSince | app/lib/toggl.ts:71-74 | an entry is kept as often as it occurs when it starts at or after the week start and never otherwise |
| Toggl.ClampedDuration | app/lib/toggl.ts:78 | a negative (running) duration counts as 0, any other as itself |
| Toggl.TotalHours | app/lib/toggl.ts:76-81 | the hours are never negative and are 0 when no entry has a positive duration |
| Toggl.TotalHoursIsSeconds | app/lib/toggl.ts:76-81 | the hours times 3600 are the clamped seconds summed |
| Toggl.Round2 | app/lib/toggl.ts:104 | the result lies on the hundredths grid and within half a hundredth of the value, the nearest such point with halves rounding up, and is non-negative for a non-negative value |
| Toggl.RoundTwiceIsRoundOnce | app/lib/toggl.ts:104 | rounding an already rounded value changes nothing |
| Toggl.TimeEntriesData | app/lib/toggl.ts:22-116 | a 403 or any failure gives 0 hours and 0 entries; otherwise the entry count is the project's entries and the hours are the clamped total of the entries since the start of today's week (the latest Saturday), rounded to hundredths and within half a hundredth of it |
| DataBuilder.FallbackHours | app/lib/data-builder.ts:72-81 | without Toggl the hours series is the GitHub series with every hour 0 |
| DataBuilder.MergeWithFallback | app/lib/data-builder.ts:72-85 | merging the GitHub series with its zero-hours copy gives that copy |
| DataBuilder.FallbackHoursTrend | app/lib/data-builder.ts:72-95 | without Toggl the hours trend is the zero trend and the current week has 0 hours |
| DataBuilder.HoursProgress | app/lib/data-builder.ts:116 | progress is recent hours over the target in percent, 0 without a positive target, and reaches 100 iff the target is met |
| DataBuilder.ProgressIsCompletionPercent | app/lib/data-builder.ts:116 | progress is the pulse score's target completion times 100 |
| DataBuilder.Assemble | app/lib/data-builder.ts:97-117 | the pulse carries the score's pulse and trend scores, trends and weekly figures, the target, the progress, the trend status and the enhanced health of that score |
| DataBuilder.BuildProjectPulse | app/lib/data-builder.ts:52-119 | the weekly data is the GitHub weeks joined with the Toggl hours, or with the zero-hours fallback when there are none; the trends are computed from that series and the pulse and trend scores are their trend-based scores; health and trend status follow from them; the weekly figures are the current week's; with no Toggl data the hours trend, hours and progress are zero |
| DataBuilder.HoursWeeks | app/lib/data-builder.ts:67-81 | the Toggl weeks when there are any, the commit weeks with zero hours otherwise |
| DataBuilder.NoTogglNoHours | app/lib/data-builder.ts:72-81 | without Toggl data the merged series has the zero hours trend, no hours this week and zero progress |
| DataBuilder.BuildAll | app/lib/data-builder.ts:52-126 | one pulse per project, in order, each built from that project's inputs |
| DataBuilder.HealthPartition | app/lib/data-builder.ts:133-135 | the active, slowing and dormant counts add up to the number of projects |
| DataBuilder.TrendPartition | app/lib/data-builder.ts:139-141 | the improving, declining and stable counts add up to the number of projects |
| DataBuilder.Summarize | app/lib/data-builder.ts:128-142 | each health and trend count is the number of pulses with that tier or status, and they partition the projects; the public and private counts are the projects with a non-empty list; the totals are the sums of the weekly figures and of the targets |
| DataBuilder.SummaryOfBuild | app/lib/data-builder.ts:51-142 | the summary of a build counts every loaded project once, in one tier and one trend status, and its target total is the projects' targets summed |
| DataBuilder.CountHealth | app/lib/data-builder.ts:133-135 | the count is 0 iff no pulse has the tier and all pulses iff every one has it |
| DataBuilder.CountTrend | app/lib/data-builder.ts:139-141 | the count is 0 iff no pulse has the status and all pulses iff every one has it |
| DataBuilder.CountPublic | app/lib/data-builder.ts:131 | the count is 0 iff no project has a non-empty public list and all projects iff every one has |
| DataBuilder.CountPrivate | app/lib/data-builder.ts:132 | the count is 0 iff no project has a non-empty private list and all projects iff every one has |
| DataBuilder.TargetHoursOfProjects | app/lib/data-builder.ts:138 | pulses that copy their projects' targets sum to the projects' total target |
| DataBuilder.SumsAppend | app/lib/data-builder.ts:136-137 | adding a project adds its weekly commits and hours to the totals |
| DataBuilder.WeeklyHoursTotalNonNegative | app/lib/data-builder.ts:137 | non-negative weekly hours total to a non-negative sum |
| LegacyProjects.CalculatePulseScore | lib/projects.ts:30-36 | no activity scores 0, and non-negative inputs and weights score non-negatively |
| LegacyProjects.LegacyPulseScoreLinear | lib/projects.ts:6-36 | the older score is the same weighted sum: one commit scores the commit weight (1.5 by default), one hour the hours weight (2 by default), scores add up and scale with the activity |
| LegacyProjects.DefaultScoreMonotone | lib/projects.ts:6-11 | with the default weights more commits or hours never lower the score |
| LegacyProjects.GetHealthStatus | lib/projects.ts:41-52 | active iff the score reaches the active threshold, slowing iff only the slowing one, dormant otherwise |
| LegacyProjects.DefaultTierMonotone | lib/projects.ts:6-11 | with the default thresholds 10 and 5 a higher score never gives a lower tier |
| LegacyProjects.Includes | lib/projects.ts:107 | substring search: true iff the needle occurs at some offset of the haystack |
| LegacyProjects.ProjectHasRepoAsWritten | lib/projects.ts:106-108 | as written: never for a null repository, always for the exact name |
| LegacyProjects.SubstringMatchesOtherRepo | lib/projects.ts:106-108 | as written, a project on acme/api-server is reported to have acme/api and api |
| LegacyProjects.ProjectHasRepo | lib/projects.ts:106-108 | as intended: true iff the project's repository is exactly the name |
| LegacyProjects.ExactMatchOnly | lib/projects.ts:106-108 | the intended test never accepts a null repository and accepts only what the as-written test accepts |
| LegacyUtils.Round | lib/utils.ts:35 | the rounded integer lies in (x - 0.5, x + 0.5] |
| LegacyUtils.WeekBounds | lib/utils.ts:6-13 | the week runs from the week start's midnight to the last second before the next Saturday |
| LegacyUtils.InclusiveWeekIsBucket | lib/utils.ts:23-26 | counting commits in the inclusive week gives the GitHub client's half-open weekly count |
| LegacyUtils.SumDurationsNonNegative | lib/utils.ts:29 | non-negative durations sum to a non-negative total |
| LegacyUtils.TimeScore | lib/utils.ts:33 | the time score is at most 60, is 60 iff the target is met, is non-negative for non-negative hours, and below the target is 60 × hours / target (stated as score × target == 60 × hours) |
| LegacyUtils.CommitScore | lib/utils.ts:34 | the commit score lies in 0..40 and is 40 iff there are at least four commits |
| LegacyUtils.CommitScoreSteps | lib/utils.ts:34 | no commits score 0, each of the first four commits adds exactly 10 points, and any further commit adds nothing |
| LegacyUtils.Status | lib/utils.ts:38-42 | excellent iff at least 80, good iff in [60, 80), warning iff in [40, 60), critical iff below 40 |
| LegacyUtils.StatusMonotone | lib/utils.ts:38-42 | a higher score never gets a worse status |
| LegacyUtils.Assess | lib/utils.ts:33-51 | the score is the rounded sum of the time and commit scores, at most 100, non-negative for non-negative hours, with its band's status |
| LegacyUtils.CalculateProjectHealth | lib/utils.ts:15-52 | the result is the assessment of the current week's commits and the summed seconds over 3600 against the target: the score is at most 100, non-negative for non-negative durations, and its band is the status |
| LegacyUtils.FullMarks | lib/utils.ts:33-35 | meeting the target with four commits scores exactly 100, excellent |
| LegacyUtils.NoActivityIsCritical | lib/utils.ts:33-42 | no hours and no commits score exactly 0, which is critical |
| LegacyUtils.AssessMonotone | lib/utils.ts:33-42 | more hours against the same target and more commits never lower the score or worsen the status |
| LegacyUtils.TimeScoreMonotone | lib/utils.ts:33 | more hours against the same target never lower the time score |
| LegacyUtils.FormatHours | lib/utils.ts:54-59 | minutes iff under one hour, with the rounded minute count at most 60; otherwise the hours themselves |
| LegacyUtils.FormatHoursRoundTrip | lib/utils.ts:54-59 | a minute label is within half a minute of the hours it shows and at most 60; an hour label shows the hours themselves, at least 1 |

## Left out

- Network requests, tokens, headers, the GitHub rate-limit query, logging, file reading and writing (`loadProjects`, `saveBuildData`, `loadBuildData`, `runFullBuild`): I/O. Response bodies and project lists are parameters.
- Clocks and time zones: `today` is a parameter, dates are whole seconds, and every date is taken in UTC. The source uses local time and milliseconds.
- ISO date strings: week labels are day numbers, and `toISOString().split('T')[0]` is the identity on them.
- The 84-day `since` and the 28-day `start_date` request windows: these select what the server returns, and the model takes the returned list as given.
- IEEE floating point: NaN, infinities and rounding error. Reals are exact, so a division by a zero target (`lib/utils.ts:33`) is excluded by a precondition rather than giving Infinity.
- `toFixed` and emoji text for display; `formatHours` keeps its unit choice and number, not the string.
- `getProjectsWithGitHub`, `getProjectsWithToggl` and `getActiveProjects`: filters over the loaded file that the pulse engine does not call.
- `parseInt(projectId)` is an input: `Toggl.ProjectEntries` receives its result, with None for NaN.
- `Toggl.TimeEntriesData`: does not produce the weekly hours series, because the source's `fetchTogglTimeEntries` never fills one. The builder takes the weekly hours series as an input (`DataBuilder.ProjectInput.togglWeeks`), and its absence is the branch at `app/lib/data-builder.ts:72-81`.
- The call `calculateTrendBasedPulseScore(commitTrend, hoursTrend, config)` at `app/lib/projects.ts:63-67` passes three arguments to a four-parameter function, and `app/lib/data-builder.ts:95` passes the target hours where the configuration belongs. The model passes the target and the configuration to their parameters. The bonus and penalty multipliers have no default anywhere, so they are parameters of `Projects.DefaultPulseConfig`.
- `TrendAnalysis.CalculateTrend`: the sort compares label dates, and equal labels keep their input order (a stable sort). The model sorts by insertion, which is stable too, and proves order independence only for unique labels, which the generated weeks always have.
- `TrendAnalysis.TargetAdjustment`: below 70% of the target the adjustment is `max(0.6, 1 - min((1 - c) × penalty, 0.4))`. It jumps to 1 at exactly 70%; it does not grow continuously. The model follows the code (`TrendAnalysis.TargetAdjustmentStepAtSeventyPercent`).
- `LegacyUtils.CalculateProjectHealth`: requires a positive target, because the source divides by it unguarded.
- Dashboard components, server-side loading of the saved build and the API routes: presentation around the engine.

## Findings

| source | as written | input that shows it | evidently intended | confidence | as-written member | corrected member |
|---|---|---|---|---|---|---|
| lib/projects.ts:106-108 | `project.githubRepo?.includes(repoName)` where `githubRepo` is declared a single `string` (lib/types.ts:4), so `includes` is a substring test. The same field is spread as an array at lib/projects.ts:88-89 and its `length` is printed as a repository count at scripts/test-build.ts:82, so the projects file may hold an array there, and then `includes` is an exact match; the defect exists only when the file stores a string | a project whose repository is the string `acme/api-server` is reported to have `acme/api` and `api` | the project's repository equals `repoName` | low, not executed | LegacyProjects.SubstringMatchesOtherRepo | LegacyProjects.ProjectHasRepo |
