/** The health score: four sub-scores, a weighted sum, rounding, clamping to
    [0,100], and the threshold categories. The recency sub-score depends on the
    wall clock and on `math.Exp`; it enters as the function `decay`, which gives
    the truncated `100 * e^(-days/180)` for a non-zero commit date. */
module Scorer {
  import opened Wrappers
  import opened Types
  import opened Config

  function Min(a: real, b: real): real {
    if a <= b then a else b
  }

  /** `math.Round` on an exact real: the nearest integer, halves rounded away from zero. */
  function Round(x: real): (r: int)
    ensures (r as real) - 0.5 <= x <= (r as real) + 0.5
    ensures x >= 0.0 ==> r >= 0
    ensures x >= 0.0 ==> x < (r as real) + 0.5
    ensures x < 0.0 ==> (r as real) - 0.5 < x
  {
    if x >= 0.0 then (x + 0.5).Floor else -((-x + 0.5).Floor)
  }

  lemma RoundOfInt(k: int)
    ensures Round(k as real) == k
  {
  }

  /** The clamp at the end of `CalculateHealthScore`: first the ceiling, then the floor. */
  function Clamp(score: int): (r: int)
    ensures 0 <= r <= 100
    ensures 0 <= score <= 100 ==> r == score
    ensures score > 100 ==> r == 100
    ensures score < 0 ==> r == 0
  {
    var s := if score > 100 then 100 else score;
    if s < 0 then 0 else s
  }

  /** `calculateRecencyScore` with the clock and the exponential abstracted: the zero
      time (no known commit) scores 0. */
  function RecencyScore(lastDate: Time, decay: Time -> int): (r: int)
    ensures lastDate.IsZero() ==> r == 0
    ensures !lastDate.IsZero() ==> r == decay(lastDate)
  {
    if lastDate.IsZero() then 0 else decay(lastDate)
  }

  /** `calculateVersionScore`: five points per published version, saturating at 20 versions. */
  function VersionScore(count: int): (r: int)
    ensures count >= 0 ==> 0 <= r <= 100
    ensures r == 100 <==> count >= 20
    ensures count == 0 ==> r == 0
    ensures count < 20 ==> r == count * 5
  {
    if count >= 20 then 100 else count * 5
  }

  lemma VersionScoreMonotone(a: int, b: int)
    requires a <= b
    ensures VersionScore(a) <= VersionScore(b)
  {
  }

  /** `calculateCommitScore`: ten points per monthly commit, capped at 100. */
  function CommitScore(commitsPerMonth: real): (r: real)
    ensures r == Min(100.0, 10.0 * commitsPerMonth)
    ensures commitsPerMonth >= 0.0 ==> 0.0 <= r <= 100.0
    ensures commitsPerMonth >= 10.0 ==> r == 100.0
  {
    var score := commitsPerMonth * 10.0;
    if score > 100.0 then 100.0 else score
  }

  /** `calculateCommunityScore`: the average of stars/10 and 2*contributors, capped at
      100 only after averaging. */
  function CommunityScore(stars: int, contributors: int): (r: real)
    ensures r == Min(100.0, (stars as real / 10.0 + 2.0 * contributors as real) / 2.0)
    ensures stars >= 0 && contributors >= 0 ==> 0.0 <= r <= 100.0
  {
    var starScore := stars as real / 10.0;
    var contribScore := contributors as real * 2.0;
    var score := (starScore + contribScore) / 2.0;
    if score > 100.0 then 100.0 else score
  }

  /** The same average with each ramp capped at 100 before averaging. */
  function CommunityScoreCappedPerRamp(stars: int, contributors: int): real {
    (Min(100.0, stars as real / 10.0) + Min(100.0, 2.0 * contributors as real)) / 2.0
  }

  /** The cap applies after averaging: 3000 stars and no contributors earn the full 100,
      where capping each ramp first would give 50. */
  lemma CommunityCapsAfterAveraging()
    ensures CommunityScore(3000, 0) == 100.0
    ensures CommunityScoreCappedPerRamp(3000, 0) == 50.0
  {
  }

  /** The four sub-scores before weighting. */
  datatype SubScores = SubScores(recency: int, version: int, commit: real, community: real)

  /** The sub-scores of a fetched record: without a repository URL, commit activity
      defaults to a neutral 50 and community to 0. */
  function ComputeSubScores(m: ModuleMetadata, decay: Time -> int): SubScores {
    var recency := RecencyScore(m.lastCommitDate, decay);
    var version := VersionScore(m.versionCount);
    if m.repositoryURL != "" then
      SubScores(recency, version, CommitScore(m.commitFrequency), CommunityScore(m.stars, m.contributors))
    else
      SubScores(recency, version, 50.0, 0.0)
  }

  function WeightedTotal(s: SubScores, c: ScoringConfig): real {
    (s.recency as real * c.recencyWeight)
    + (s.version as real * c.versionFreqWeight)
    + (s.commit * c.commitActivityWeight)
    + (s.community * c.communityWeight)
  }

  /** `CalculateHealthScore`: nil metadata scores exactly 0, and every score lies in
      [0,100] whatever the weights. */
  function CalculateHealthScore(metadata: Option<ModuleMetadata>, config: ScoringConfig, decay: Time -> int): (score: int)
    ensures 0 <= score <= 100
    ensures metadata.None? ==> score == 0
  {
    match metadata
    case None => 0
    case Some(m) => Clamp(Round(WeightedTotal(ComputeSubScores(m, decay), config)))
  }

  /** Without a repository URL the commit sub-score is exactly 50 and the community
      sub-score exactly 0, so commit frequency, stars and contributors have no effect. */
  lemma NoRepositoryIgnoresRepoSignals(m: ModuleMetadata, config: ScoringConfig, decay: Time -> int,
                                       frequency: real, stars: int, contributors: int)
    requires m.repositoryURL == ""
    ensures ComputeSubScores(m, decay).commit == 50.0 && ComputeSubScores(m, decay).community == 0.0
    ensures CalculateHealthScore(Some(m), config, decay)
         == CalculateHealthScore(Some(m.(commitFrequency := frequency, stars := stars, contributors := contributors)), config, decay)
  {
  }

  /** An empty record (what a failed fetch leaves behind) scores round(50 * commit weight),
      not 0: its only non-zero sub-score is the neutral commit default. */
  lemma EmptyMetadataScore(config: ScoringConfig, decay: Time -> int)
    ensures CalculateHealthScore(Some(EmptyMetadata), config, decay)
         == Clamp(Round(50.0 * config.commitActivityWeight))
  {
    var s := ComputeSubScores(EmptyMetadata, decay);
    assert s == SubScores(0, 0, 50.0, 0.0);
    assert WeightedTotal(s, config) == 50.0 * config.commitActivityWeight;
  }

  lemma MulBound(w: real, x: real)
    requires w >= 0.0 && 0.0 <= x <= 100.0
    ensures 0.0 <= x * w <= 100.0 * w
  {
  }

  predicate SubScoresInRange(s: SubScores) {
    0 <= s.recency <= 100 && 0 <= s.version <= 100
    && 0.0 <= s.commit <= 100.0 && 0.0 <= s.community <= 100.0
  }

  /** Four products each within [0, 100 * weight] add up to within [0, 100 * total weight]. */
  lemma SumOfBoundedTerms(a: real, b: real, c: real, d: real, wa: real, wb: real, wc: real, wd: real)
    requires 0.0 <= a <= 100.0 * wa && 0.0 <= b <= 100.0 * wb
    requires 0.0 <= c <= 100.0 * wc && 0.0 <= d <= 100.0 * wd
    ensures 0.0 <= a + b + c + d <= 100.0 * (wa + wb + wc + wd)
  {
  }

  /** A weighted sum of in-range sub-scores is at most 100 times the sum of the weights. */
  lemma WeightedTotalBound(s: SubScores, config: ScoringConfig)
    requires WeightsNonNegative(config) && SubScoresInRange(s)
    ensures 0.0 <= WeightedTotal(s, config) <= 100.0 * WeightSum(config)
  {
    MulBound(config.recencyWeight, s.recency as real);
    MulBound(config.versionFreqWeight, s.version as real);
    MulBound(config.commitActivityWeight, s.commit);
    MulBound(config.communityWeight, s.community);
    SumOfBoundedTerms(s.recency as real * config.recencyWeight, s.version as real * config.versionFreqWeight,
                      s.commit * config.commitActivityWeight, s.community * config.communityWeight,
                      config.recencyWeight, config.versionFreqWeight,
                      config.commitActivityWeight, config.communityWeight);
  }

  /** When the weights are non-negative and sum to at most 1, the counts are
      non-negative and the recency sub-score is within [0,100], the weighted sum already
      lies in [0,100] and the clamp never changes the rounded score. */
  lemma ClampInactiveForCalibratedWeights(m: ModuleMetadata, config: ScoringConfig, decay: Time -> int)
    requires WeightsNonNegative(config) && WeightSum(config) <= 1.0
    requires m.versionCount >= 0 && m.commitFrequency >= 0.0 && m.stars >= 0 && m.contributors >= 0
    requires 0 <= RecencyScore(m.lastCommitDate, decay) <= 100
    ensures var total := WeightedTotal(ComputeSubScores(m, decay), config);
      0.0 <= total <= 100.0 && CalculateHealthScore(Some(m), config, decay) == Round(total)
  {
    var s := ComputeSubScores(m, decay);
    assert SubScoresInRange(s);
    WeightedTotalBound(s, config);
    var total := WeightedTotal(s, config);
    assert 0 <= Round(total) <= 100;
  }

  /** `CategorizeHealth`: the first threshold, from the top, that the score reaches. */
  function CategorizeHealth(score: int, config: ScoringConfig): (c: HealthCategory)
    ensures IsHealthCategory(c)
    ensures c == Healthy <==> score >= config.healthyThreshold
    ensures c == Warning <==> config.warningThreshold <= score < config.healthyThreshold
    ensures c == Stale <==> config.staleThreshold <= score && score < config.warningThreshold && score < config.healthyThreshold
    ensures c == Risky <==> score < config.staleThreshold && score < config.warningThreshold && score < config.healthyThreshold
  {
    if score >= config.healthyThreshold then Healthy
    else if score >= config.warningThreshold then Warning
    else if score >= config.staleThreshold then Stale
    else Risky
  }

  /** With descending thresholds a higher score never lands in a worse category, and
      every score below the stale threshold is risky. */
  lemma CategorizeMonotone(a: int, b: int, config: ScoringConfig)
    requires ThresholdsDescending(config) && a <= b
    ensures CategorizeHealth(b, config) <= CategorizeHealth(a, config)
    ensures a < config.staleThreshold ==> CategorizeHealth(a, config) == Risky
  {
  }

  /** The categorisation test table, under the default thresholds. */
  lemma DefaultCategories()
    ensures CategorizeHealth(80, DefaultScoringConfig()) == Healthy
    ensures CategorizeHealth(60, DefaultScoringConfig()) == Warning
    ensures CategorizeHealth(40, DefaultScoringConfig()) == Stale
    ensures CategorizeHealth(20, DefaultScoringConfig()) == Risky
  {
  }

  /** The "new and active" test case: a commit made just now, which the truncating decay
      scores 99 or 100, 25 versions, 10 commits a month, 1000 stars and 50 contributors
      score 100, which is healthy. */
  lemma NewAndActiveScenario(m: ModuleMetadata, decay: Time -> int)
    requires m.repositoryURL != "" && !m.lastCommitDate.IsZero() && 99 <= decay(m.lastCommitDate) <= 100
    requires m.versionCount == 25 && m.commitFrequency == 10.0 && m.stars == 1000 && m.contributors == 50
    ensures CalculateHealthScore(Some(m), DefaultScoringConfig(), decay) == 100
    ensures CategorizeHealth(100, DefaultScoringConfig()) == Healthy
  {
    var s := ComputeSubScores(m, decay);
    assert s.version == 100 && s.commit == 100.0 && s.community == 100.0;
    var total := WeightedTotal(s, DefaultScoringConfig());
    assert 99.6 <= total <= 100.0;
    assert Round(total) == 100;
  }

  /** The "old and stale" test case: a commit two years back (a recency of at most 10),
      5 versions, no commits, 10 stars and one contributor score at most 9, which is risky. */
  lemma OldAndStaleScenario(m: ModuleMetadata, decay: Time -> int)
    requires m.repositoryURL != "" && !m.lastCommitDate.IsZero() && 0 <= decay(m.lastCommitDate) <= 10
    requires m.versionCount == 5 && m.commitFrequency == 0.0 && m.stars == 10 && m.contributors == 1
    ensures var score := CalculateHealthScore(Some(m), DefaultScoringConfig(), decay);
      0 <= score <= 9 && CategorizeHealth(score, DefaultScoringConfig()) == Risky
  {
    var s := ComputeSubScores(m, decay);
    assert s.version == 25 && s.commit == 0.0 && s.community == 1.5;
    var total := WeightedTotal(s, DefaultScoringConfig());
    assert total == s.recency as real * 0.4 + 5.3;
    assert total <= 9.3;
  }
}
