/** Audit configuration and its defaults. The cache directory, cache lifetime and
    API tokens of the Go `AuditConfig` are read by nothing in the audit and are
    not part of this model. */
module Config {

  /** Weights of the four sub-scores and the three category thresholds. */
  datatype ScoringConfig = ScoringConfig(
    recencyWeight: real,
    versionFreqWeight: real,
    commitActivityWeight: real,
    communityWeight: real,
    healthyThreshold: int,
    warningThreshold: int,
    staleThreshold: int)

  /** Allow-list, block-list and the two opt-in warnings. */
  datatype LicensePolicy = LicensePolicy(
    allowedLicenses: seq<string>,
    blockedLicenses: seq<string>,
    warnOnCopyleft: bool,
    warnOnUnknown: bool)

  datatype AuditConfig = AuditConfig(
    projectPath: string,
    includeIndirect: bool,
    fetchRepoMetadata: bool,
    scoring: ScoringConfig,
    licensePolicy: LicensePolicy,
    ignoreModules: seq<string>)

  predicate WeightsNonNegative(c: ScoringConfig) {
    c.recencyWeight >= 0.0 && c.versionFreqWeight >= 0.0
    && c.commitActivityWeight >= 0.0 && c.communityWeight >= 0.0
  }

  function WeightSum(c: ScoringConfig): real {
    c.recencyWeight + c.versionFreqWeight + c.commitActivityWeight + c.communityWeight
  }

  predicate ThresholdsDescending(c: ScoringConfig) {
    c.healthyThreshold >= c.warningThreshold >= c.staleThreshold
  }

  /** The defaults: recency counts double, the weights sum to one and the
      thresholds fall strictly from healthy to stale. */
  function DefaultScoringConfig(): (c: ScoringConfig)
    ensures WeightsNonNegative(c) && WeightSum(c) == 1.0
    ensures c.recencyWeight == 2.0 * c.versionFreqWeight
    ensures c.versionFreqWeight == c.commitActivityWeight == c.communityWeight
    ensures 100 > c.healthyThreshold > c.warningThreshold > c.staleThreshold > 0
  {
    ScoringConfig(0.4, 0.2, 0.2, 0.2, 70, 50, 30)
  }

  /** Go's zero `LicensePolicy{}`: nothing allowed or blocked explicitly, no warnings. */
  const ZeroLicensePolicy := LicensePolicy([], [], false, false)

  /** The default policy is a five-entry allow-list of permissive licenses, with no
      block-list and both warnings on. */
  function DefaultLicensePolicy(): (p: LicensePolicy)
    ensures |p.allowedLicenses| == 5 && p.blockedLicenses == []
    ensures "MIT" in p.allowedLicenses && "ISC" in p.allowedLicenses
    ensures p.warnOnCopyleft && p.warnOnUnknown
  {
    LicensePolicy(["MIT", "Apache-2.0", "BSD-3-Clause", "BSD-2-Clause", "ISC"], [], true, true)
  }

  /** The configuration the `scan`, `check` and `report` commands audit with: the project
      path and the default scoring; every other field keeps its Go zero value, so no
      indirect modules, no repository metadata and no ignores. */
  function CommandConfig(projectPath: string): AuditConfig {
    AuditConfig(projectPath, false, false, DefaultScoringConfig(), ZeroLicensePolicy, [])
  }
}
