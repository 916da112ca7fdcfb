/** The older scoring helpers of lib/projects.ts, over the older project
    record of lib/types.ts, whose public repository is a single optional
    string. */
module LegacyProjects {
  import opened Types
  import Projects

  /** The four-field PulseScoreConfig of the older code. */
  datatype LegacyConfig = LegacyConfig(
    commitWeight: real,
    hoursWeight: real,
    activeThreshold: real,
    slowingThreshold: real)

  const DefaultConfig := LegacyConfig(1.5, 2.0, 10.0, 5.0)

  datatype LegacyProject = LegacyProject(
    name: string,
    githubRepo: Option<string>,
    githubRepoPrivate: seq<string>,
    targetWeeklyHours: real)

  /** The same weighted sum as the newer calculatePulseScore, with the
      older configuration. */
  function CalculatePulseScore(weeklyCommits: real, weeklyHours: real, config: LegacyConfig): (score: real)
    ensures weeklyCommits == 0.0 && weeklyHours == 0.0 ==> score == 0.0
    ensures (config.commitWeight >= 0.0 && config.hoursWeight >= 0.0
             && weeklyCommits >= 0.0 && weeklyHours >= 0.0) ==> score >= 0.0
  {
    Projects.CalculatePulseScore(weeklyCommits, weeklyHours, WithWeights(config))
  }

  /** The newer configuration record carrying the older weights and
      thresholds; the fields the older code lacks are 0. */
  function WithWeights(config: LegacyConfig): (c: ScoreConfig)
    ensures c.commitWeight == config.commitWeight && c.hoursWeight == config.hoursWeight
    ensures c.activeThreshold == config.activeThreshold && c.slowingThreshold == config.slowingThreshold
  {
    ScoreConfig(config.commitWeight, config.hoursWeight, config.activeThreshold, config.slowingThreshold,
                0.0, 0.0, 0.0, 0.0, 0.0, 0.0)
  }

  /** With the default weights the score never falls as commits or hours
      grow. */
  lemma DefaultScoreMonotone(c1: real, h1: real, c2: real, h2: real)
    requires c1 <= c2 && h1 <= h2
    ensures CalculatePulseScore(c1, h1, DefaultConfig) <= CalculatePulseScore(c2, h2, DefaultConfig)
  {
    Projects.PulseScoreMonotone(c1, h1, c2, h2, WithWeights(DefaultConfig));
  }

  /** The older score is the same linear form: one commit scores the
      commit weight (1.5 by default), one hour the hours weight (2 by
      default), and scores add up and scale with the activity. */
  lemma LegacyPulseScoreLinear(c1: real, h1: real, c2: real, h2: real, k: real, config: LegacyConfig)
    ensures CalculatePulseScore(1.0, 0.0, config) == config.commitWeight
    ensures CalculatePulseScore(0.0, 1.0, config) == config.hoursWeight
    ensures CalculatePulseScore(1.0, 0.0, DefaultConfig) == 1.5
    ensures CalculatePulseScore(0.0, 1.0, DefaultConfig) == 2.0
    ensures CalculatePulseScore(c1 + c2, h1 + h2, config)
         == CalculatePulseScore(c1, h1, config) + CalculatePulseScore(c2, h2, config)
    ensures CalculatePulseScore(k * c1, k * h1, config) == k * CalculatePulseScore(c1, h1, config)
  {
    Projects.PulseScoreLinear(c1, h1, c2, h2, k, WithWeights(config));
    Projects.PulseScoreLinear(c1, h1, c2, h2, k, WithWeights(DefaultConfig));
  }

  /** getHealthStatus: the three tiers by the two thresholds. */
  function GetHealthStatus(pulseScore: real, config: LegacyConfig): (h: HealthStatus)
    ensures h == Active <==> pulseScore >= config.activeThreshold
    ensures h == Slowing <==> config.slowingThreshold <= pulseScore < config.activeThreshold
    ensures h == Dormant <==> pulseScore < config.activeThreshold && pulseScore < config.slowingThreshold
  {
    Projects.HealthTier(pulseScore, config.activeThreshold, config.slowingThreshold)
  }

  /** With the default thresholds (10 over 5) a higher score never gets a
      lower tier. */
  lemma DefaultTierMonotone(s1: real, s2: real)
    requires s1 <= s2
    ensures Projects.Rank(GetHealthStatus(s1, DefaultConfig)) <= Projects.Rank(GetHealthStatus(s2, DefaultConfig))
  {
    Projects.HealthTierMonotone(s1, s2, DefaultConfig.activeThreshold, DefaultConfig.slowingThreshold);
  }

  // ---------------------------------------------------------------------
  // projectHasRepo

  /** `needle` occurs in `hay` starting at offset `i`. */
  predicate OccursAt(hay: string, needle: string, i: nat)
  {
    i + |needle| <= |hay| && hay[i..i + |needle|] == needle
  }

  /** `hay.includes(needle)` on strings: `needle` occurs at some offset. */
  function Includes(hay: string, needle: string): (r: bool)
    ensures needle <= hay ==> r
    ensures r ==> |needle| <= |hay|
    ensures r <==> exists i: nat :: OccursAt(hay, needle, i)
    decreases |hay|
  {
    if needle <= hay then
      assert OccursAt(hay, needle, 0);
      true
    else if |hay| <= |needle| then
      assert forall i: nat :: !OccursAt(hay, needle, i);
      false
    else
      var r := Includes(hay[1..], needle);
      assert forall i: nat :: OccursAt(hay, needle, i + 1) <==> OccursAt(hay[1..], needle, i);
      assert !OccursAt(hay, needle, 0);
      assert forall i: nat :: OccursAt(hay, needle, i) ==> i == 0 || OccursAt(hay[1..], needle, i - 1);
      r
  }

  /** projectHasRepo as written: the public repository field is a string,
      so `includes` is a substring test. */
  function ProjectHasRepoAsWritten(project: LegacyProject, repoName: string): (has: bool)
    ensures project.githubRepo.None? ==> !has
    ensures project.githubRepo == Some(repoName) ==> has
  {
    match project.githubRepo
    case Some(repo) => Includes(repo, repoName)
    case None => false
  }

  /** A project whose repository is `acme/api-server` is reported to have
      the different repository `acme/api`, and even `api`. */
  lemma SubstringMatchesOtherRepo()
    ensures var p := LegacyProject("server", Some("acme/api-server"), [], 8.0);
            && ProjectHasRepoAsWritten(p, "acme/api")
            && ProjectHasRepoAsWritten(p, "api")
            && p.githubRepo != Some("acme/api") && p.githubRepo != Some("api")
  {
    var hay := "acme/api-server";
    assert "acme/api" <= hay;
    assert hay[5..8] == "api";
  }

  /** projectHasRepo as intended: the repository is the project's public
      repository. */
  function ProjectHasRepo(project: LegacyProject, repoName: string): (has: bool)
    ensures has <==> project.githubRepo == Some(repoName)
  {
    match project.githubRepo
    case Some(repo) => repo == repoName
    case None => false
  }

  /** The intended test accepts only the exact name, and never on a null
      repository; whatever it accepts the as-written test accepts too. */
  lemma ExactMatchOnly(project: LegacyProject, repoName: string)
    ensures project.githubRepo.None? ==> !ProjectHasRepo(project, repoName)
    ensures ProjectHasRepo(project, repoName) ==> ProjectHasRepoAsWritten(project, repoName)
    ensures ProjectHasRepo(project, repoName) && ProjectHasRepo(project, repoName + "x") ==> false
  {
  }
}
