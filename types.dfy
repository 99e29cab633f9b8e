/** The audit's shared records and its two enumerations. Go declares both
    enumerations as named `int` types, so any integer is a value of them; the
    four named constants are the ones the audit itself produces. */
module Types {
  import opened Wrappers

  /** Overall health of a dependency; the ordinal grows as health worsens. */
  type HealthCategory = int

  const Healthy: HealthCategory := 0
  const Warning: HealthCategory := 1
  const Stale: HealthCategory := 2
  const Risky: HealthCategory := 3

  predicate IsHealthCategory(h: HealthCategory) {
    Healthy <= h <= Risky
  }

  /** `HealthCategory.String`: the constant's own name, "Unknown" for any other integer. */
  function HealthCategoryName(h: HealthCategory): (name: string)
    ensures name == "Unknown" <==> !IsHealthCategory(h)
  {
    if h == Healthy then "Healthy"
    else if h == Warning then "Warning"
    else if h == Stale then "Stale"
    else if h == Risky then "Risky"
    else "Unknown"
  }

  /** Reads a category back from its name; the partner of `HealthCategoryName`. */
  function HealthCategoryFromName(name: string): Option<HealthCategory> {
    if name == "Healthy" then Some(Healthy)
    else if name == "Warning" then Some(Warning)
    else if name == "Stale" then Some(Stale)
    else if name == "Risky" then Some(Risky)
    else None
  }

  /** Each of the four categories has its own name, and the name gives it back;
      every other integer is printed as a name that reads back as nothing. */
  lemma HealthCategoryNameRoundTrip(h: HealthCategory)
    ensures IsHealthCategory(h) ==> HealthCategoryFromName(HealthCategoryName(h)) == Some(h)
    ensures !IsHealthCategory(h) ==> HealthCategoryFromName(HealthCategoryName(h)) == None
  {
  }

  /** Risk attached to a license; the ordinal grows with the legal obligations. */
  type LicenseRisk = int

  const LicensePermissive: LicenseRisk := 0
  const LicenseCopyleft: LicenseRisk := 1
  const LicenseRestrictive: LicenseRisk := 2
  const LicenseUnknown: LicenseRisk := 3

  predicate IsLicenseRisk(r: LicenseRisk) {
    LicensePermissive <= r <= LicenseUnknown
  }

  /** `LicenseRisk.String`: `LicenseUnknown` and every out-of-range integer both print "Unknown". */
  function LicenseRiskName(r: LicenseRisk): (name: string)
    ensures name == "Unknown" <==> r == LicenseUnknown || !IsLicenseRisk(r)
  {
    if r == LicensePermissive then "Permissive"
    else if r == LicenseCopyleft then "Copyleft"
    else if r == LicenseRestrictive then "Restrictive"
    else if r == LicenseUnknown then "Unknown"
    else "Unknown"
  }

  function LicenseRiskFromName(name: string): Option<LicenseRisk> {
    if name == "Permissive" then Some(LicensePermissive)
    else if name == "Copyleft" then Some(LicenseCopyleft)
    else if name == "Restrictive" then Some(LicenseRestrictive)
    else if name == "Unknown" then Some(LicenseUnknown)
    else None
  }

  /** The four tiers read back from their names; an out-of-range integer reads back as `LicenseUnknown`. */
  lemma LicenseRiskNameRoundTrip(r: LicenseRisk)
    ensures IsLicenseRisk(r) ==> LicenseRiskFromName(LicenseRiskName(r)) == Some(r)
    ensures !IsLicenseRisk(r) ==> LicenseRiskFromName(LicenseRiskName(r)) == Some(LicenseUnknown)
  {
  }

  /** Go's `time.Time`, reduced to what the audit asks of it: whether it is the zero time. */
  datatype Time = ZeroTime | At(instant: int) {
    predicate IsZero() { ZeroTime? }
  }

  /** Raw signals gathered for one module. Zero means "no signal", not an error. */
  datatype ModuleMetadata = ModuleMetadata(
    repositoryURL: string,
    stars: int,
    forks: int,
    openIssues: int,
    lastCommitDate: Time,
    commitFrequency: real,
    contributors: int,
    versionCount: int)

  /** `&ModuleMetadata{}`: every field at its zero value. */
  const EmptyMetadata := ModuleMetadata("", 0, 0, 0, ZeroTime, 0.0, 0, 0)

  /** The audit's output record for one module. `metadata` is Go's nullable pointer. */
  datatype ModuleHealth = ModuleHealth(
    path: string,
    version: string,
    healthScore: int,
    healthCategory: HealthCategory,
    license: string,
    licenseRisk: LicenseRisk,
    footprintRisk: real,
    lastPublished: Time,
    transitiveDeps: int,
    directDep: bool,
    metadata: Option<ModuleMetadata>)
}
