# go_dep_audit in Dafny

This project models the audit core of go_dep_audit, a tool that audits the third-party
dependencies of a Go project. The model covers the following steps:

- It obtains the module list from `go list`, or falls back to parsing `go.mod` line by line.
- It filters that list by main module, ignore entries and indirectness.
- For every remaining module it fetches metadata from the Go module proxy.
- It computes a 0–100 health score from four weighted sub-scores and maps it to Healthy,
  Warning, Stale or Risky.
- It detects and classifies the license.
- It sets every module's footprint risk to 0.

The model also covers functions of the core that neither the audit nor the commands call:

- the allow/block license policy check (`CheckLicensePolicy`);
- the per-module footprint (`CalculateFootprint`), which is always zero;
- the project footprint count (`CalculateProjectFootprint`).

The three CLI commands that consume the results are modelled too:

- `scan`: a per-category tally and the Risky/Stale table.
- `check`: a threshold gate with an exit status.
- `report`: a Markdown table and the choice of output targets.

Everything outside the program becomes a parameter:

| Source dependency | Parameter |
|---|---|
| HTTP transport | `get: string -> HttpResult`, returning a transport error or a status with the decoded `.info` body |
| `go list` result | `graph: Result<seq<Module>>` |
| File system | `readFile: string -> Option<seq<string>>`, returning the lines of a file |
| File creation | `createErr: string -> Option<string>` |
| Clock and exponential recency decay | `decay: Time -> int`, the recency sub-score of a non-zero commit date |

Modules follow the source files:

| Module | File | Contents |
|---|---|---|
| `Wrappers` | `wrappers.dfy` | Option and Result |
| `Strings` | `strings.dfy` | the ASCII subset of Go's `strings`/`strconv` that the core uses |
| `Types` | `types.dfy` | `types.go` |
| `Config` | `config.dfy` | `config.go` |
| `License` | `license.dfy` | `license.go` |
| `Scorer` | `scorer.dfy` | `scorer.go` |
| `Parser` | `parser.dfy` | `parser.go`'s go.mod scanner |
| `Fetch` | `fetcher.dfy` | `fetcher.go` |
| `Footprint` | `footprint.dfy` | `footprint.go` |
| `Audit` | `audit.dfy` | `audit.go` |
| `ScanCommand`, `CheckCommand`, `ReportCommand` | `scan_command.dfy`, `check_command.dfy`, `report_command.dfy` | the three CLI files |

Loops in the source are methods with loop invariants. Each method is proved equal to a
specification function, and the properties are proved about that function. This applies to:

- the go.mod scanner;
- `parseModuleLine`;
- the policy check;
- the filter;
- the indexed result slice;
- the footprint count;
- the tally, the row selection, the gate and the Markdown writer.

Behaviours of the code that the model states as they are:

- **A failed fetch.** The module is audited "with partial info" (`pkg/audit/audit.go:85-88`):
  the metadata becomes an empty, non-nil record, not an absent one. That record keeps the
  neutral commit-activity default of 50, so it scores 10 under the default weights, not 0, and
  is Risky (`Audit.FailedFetchScoresTen`).
- **The community sub-score.** The comments at `pkg/audit/scorer.go:92-93` give each ramp its
  own target (1000 stars, 50 contributors). The code averages the two ramps first and caps only
  the average (`pkg/audit/scorer.go:98-102`). So 3000 stars and no contributors score 100, not
  the 50 that capping each ramp first would give.
- **Sub-score ranges.** The version score saturates at 100 from 20 versions on, and the commit
  and community scores are capped at 100. The recency score has no upper cap: a proxy time in
  the future gives more than 100. No sub-score is floored at 0. Only the final score is clamped
  to [0,100].
- **Thresholds.** Nothing in the code makes the thresholds descending. The model states
  monotonicity of categorisation only under descending thresholds.
- **The version list.** It is never read (`pkg/audit/fetcher.go:111-117`), so `VersionCount`
  is always 0. The repository statistics are never filled in either. So, under the default
  weights and with a recency in [0,100], no module scores above 50
  (`Audit.AuditedScoreAtMostFifty`). A recency above 100 can lift a score past 50.
- **A comment after `require (`.** This defeats the block: the line is read as a single-line
  require of a module named "(" (`Parser.CommentedBlockOpener`).

## Model

| member | source | states |
|---|---|---|
| `Types.HealthCategoryName` | pkg/audit/types.go:15-28 | the name is "Unknown" exactly for values outside the four categories |
| `Types.HealthCategoryNameRoundTrip` | pkg/audit/types.go:15-28 | reading a category's name back yields that category, so the four names are distinct; any other value reads back as no category |
| `Types.LicenseRiskName` | pkg/audit/types.go:40-53 | the name is "Unknown" exactly for `LicenseUnknown` and for out-of-range values |
| `Types.LicenseRiskNameRoundTrip` | pkg/audit/types.go:40-53 | the four risk names read back to their risk; out-of-range values read back as `LicenseUnknown` |
| `Config.DefaultScoringConfig` | pkg/audit/config.go:41-51 | weights are non-negative and sum to 1, recency counts double each other weight, thresholds fall strictly from healthy to warning to stale, all within (0,100) |
| `Config.DefaultLicensePolicy` | pkg/audit/config.go:62-68 | a five-entry allow-list containing MIT and ISC, no block-list, both warnings on |
| `License.DetectLicense` | pkg/audit/license.go:9-25 | detection never fails and always reports "Unknown", for GitHub paths and all others |
| `License.ClassifyPrecedence` | pkg/audit/license.go:28-41 | Permissive iff a permissive keyword occurs in the lower-cased text; Copyleft iff a copyleft keyword occurs and no permissive one; Restrictive iff only a restrictive one occurs; Unknown iff none occurs |
| `License.ClassifyIgnoresCase` | pkg/audit/license.go:29 | upper- or lower-casing the license text never changes its classification |
| `License.AgplKeywordRedundant` | pkg/audit/license.go:34 | any text containing "agpl" already contains "gpl", so the "agpl" case adds nothing |
| `License.DetectedLicenseIsUnknownRisk` | pkg/audit/license.go:19-40 | whatever the module, the detected license classifies as `LicenseUnknown` |
| `License.CheckLicensePolicy` | pkg/audit/license.go:44-82 | the loop with early returns, `found` flag and appended warnings computes exactly the policy verdict |
| `License.BlockTakesPrecedence` | pkg/audit/license.go:49-53 | a license matching any blocked entry is rejected with the single "explicitly blocked" warning, whatever the allow-list says |
| `License.EmptyBlockedEntryBlocksAll` | pkg/audit/license.go:49-53 | an empty blocked entry blocks every license |
| `License.StrictWhitelist` | pkg/audit/license.go:56-71 | with a non-empty allow-list, a license that is neither blocked nor allowed is rejected with the single "not in the allowed list" warning |
| `License.NoListsAllowEverything` | pkg/audit/license.go:44-82 | with empty block and allow lists every license is allowed |
| `License.VerdictWarnings` | pkg/audit/license.go:73-81 | a rejection carries exactly one warning; an acceptance carries at most one warning, the copyleft warning iff its toggle is on and the tier is Copyleft, the unknown warning iff its toggle is on and the tier is Unknown |
| `License.DefaultPolicyRejectsDetected` | pkg/audit/license.go:56-71 | under the default policy the detected "Unknown" license is rejected as not in the allowed list |
| `License.DefaultEntriesPermissive` | pkg/audit/license.go:31-33 | each default allow-list entry classifies as Permissive |
| `License.DefaultPolicyAllowsItsEntries` | pkg/audit/license.go:44-82 | under the default policy each allow-list entry is allowed with no warning |
| `Scorer.Round` | pkg/audit/scorer.go:45 | the rounded value is within one half of the total, and non-negative for a non-negative total; a tie is rounded away from zero |
| `Scorer.Clamp` | pkg/audit/scorer.go:46-51 | the result lies in [0,100]: scores already in range are unchanged, scores above 100 become 100 and scores below 0 become 0 |
| `Scorer.RecencyScore` | pkg/audit/scorer.go:55-68 | a zero date scores 0; any other date scores what the decay gives it |
| `Scorer.VersionScore` | pkg/audit/scorer.go:70-78 | five points per version below 20 versions, 100 exactly from 20 versions on; in [0,100] for non-negative counts, and 0 for no versions |
| `Scorer.VersionScoreMonotone` | pkg/audit/scorer.go:70-78 | more versions never score lower |
| `Scorer.CommitScore` | pkg/audit/scorer.go:80-88 | min(100, 10·c): in [0,100] for c ≥ 0 and 100 from 10 commits a month |
| `Scorer.CommunityScore` | pkg/audit/scorer.go:90-103 | min(100, (stars/10 + 2·contributors)/2), in [0,100] for non-negative inputs |
| `Scorer.CommunityCapsAfterAveraging` | pkg/audit/scorer.go:98-102 | 3000 stars alone score 100, where capping each ramp first would give 50 |
| `Scorer.CalculateHealthScore` | pkg/audit/scorer.go:9-53 | every score lies in [0,100] whatever the weights, and missing metadata scores 0 |
| `Scorer.NoRepositoryIgnoresRepoSignals` | pkg/audit/scorer.go:26-37 | without a repository URL commit activity is 50 and community 0, and the score ignores commit frequency, stars and contributors |
| `Scorer.EmptyMetadataScore` | pkg/audit/scorer.go:26-45 | an empty record scores the clamped rounding of 50 × commit weight |
| `Scorer.WeightedTotalBound` | pkg/audit/scorer.go:39-42 | with non-negative weights and sub-scores in [0,100] the weighted total lies in [0, 100 × weight sum] |
| `Scorer.ClampInactiveForCalibratedWeights` | pkg/audit/scorer.go:39-52 | with non-negative weights summing to at most 1 and in-range inputs, the clamp never changes the rounded total |
| `Scorer.CategorizeHealth` | pkg/audit/scorer.go:106-117 | first match from the top: Healthy iff score ≥ healthy threshold, Warning iff below it and ≥ warning threshold, Stale iff below both and ≥ stale threshold, otherwise Risky |
| `Scorer.CategorizeMonotone` | pkg/audit/scorer.go:106-117 | with descending thresholds a higher score never gets a worse category, and every score below the stale threshold is Risky |
| `Scorer.DefaultCategories` | pkg/audit/scorer_test.go:61-81 | under the defaults 80, 60, 40 and 20 are Healthy, Warning, Stale and Risky |
| `Scorer.NewAndActiveScenario` | pkg/audit/scorer_test.go:17-29 | the "new and active" record scores 100, which is Healthy |
| `Scorer.OldAndStaleScenario` | pkg/audit/scorer_test.go:30-42 | the "old and stale" record, with a recency of at most 10, scores at most 9, which is Risky |
| `Parser.ParseModuleLine` | pkg/audit/parser.go:104-119 | path and version are the first two fields, indirect iff some field is "indirect", never the main module |
| `Parser.ScanStep` | pkg/audit/parser.go:74-98 | one turn of the scanner loop computes the line's step of the state machine |
| `Parser.ParseGoMod` | pkg/audit/parser.go:62-102 | an unreadable file is an error, and otherwise the loop carrying `inRequire` yields exactly the modules of the line-by-line state machine |
| `Parser.ParseLinesAppend` | pkg/audit/parser.go:69-101 | parsing concatenated files yields the modules of the first followed by those of the second, read from the block state the first leaves behind, so modules come out in file order |
| `Parser.ParsedAtMostOnePerLine` | pkg/audit/parser.go:88-98 | there are never more modules than lines |
| `Parser.ParsedNeverMain` | pkg/audit/parser.go:104-108 | no parsed module is marked main |
| `Parser.NoRequireNoModules` | pkg/audit/parser.go:79-98 | a file in which no line mentions "require" yields no modules and leaves no block open |
| `Parser.ScanOpener` | pkg/audit/parser.go:79-82 | "require (" opens a block and yields nothing, whatever the state |
| `Parser.ScanSkipped` | pkg/audit/parser.go:74-77 | a blank line or a line starting with "//" yields nothing and leaves the block state unchanged |
| `Parser.ScanCloser` | pkg/audit/parser.go:83-86 | ")" closes an open block and yields nothing |
| `Parser.ScanEntry` | pkg/audit/parser.go:93-98 | inside a block, any other line not starting with "/" yields the module of its first two fields when it has at least two, else nothing |
| `Parser.ScanSingleRequire` | pkg/audit/parser.go:88-92 | a "require " line yields the module of fields 2 and 3 when it has at least three fields, else nothing, and leaves the state alone |
| `Parser.SingleRequireLine` | pkg/audit/parser.go:88-92 | the file "require p v" yields exactly the direct module p at v |
| `Parser.ScanIndirectEntry` | pkg/audit/parser.go:93-98 | a tab-indented block entry "p v // indirect" yields p at v marked indirect |
| `Parser.RequireBlockEntry` | pkg/audit/parser.go:73-99 | a three-line require block holding one indirect entry yields exactly that indirect module |
| `Parser.CommentedBlockOpener` | pkg/audit/parser.go:79-92 | "require ( // c" does not open a block: it yields a module named "(" at version "//" |
| `Fetch.ProxyURLsDistinct` | pkg/audit/fetcher.go:68-94 | an `.info` URL never equals a version-list URL |
| `Fetch.ProxyInfoURLInjective` | pkg/audit/fetcher.go:68 | different versions of one module are fetched from different URLs |
| `Fetch.ProxyURLsIgnoreCase` | pkg/audit/fetcher.go:68 | module paths differing only in letter case use the same proxy URLs |
| `Fetch.FetchProxyInfo` | pkg/audit/fetcher.go:67-91 | success exactly for a 200 reply whose body decodes, and then the decoded document is returned |
| `Fetch.FetchVersionList` | pkg/audit/fetcher.go:93-118 | success exactly for a 200 reply, and the list is then always empty |
| `Fetch.GetRepoURL` | pkg/audit/fetcher.go:121-130 | the URL is empty or starts with "https://github.com/", and empty for paths not under "github.com/" |
| `Fetch.RepoURLOfRepository` | pkg/audit/fetcher.go:122-126 | "github.com/o/r" maps to "https://github.com/o/r" |
| `Fetch.RepoURLDropsSubdirectories` | pkg/audit/fetcher.go:123-125 | "github.com/o/r/sub" maps to "https://github.com/o/r" |
| `Fetch.RepoURLNeedsRepository` | pkg/audit/fetcher.go:124 | "github.com/o" has fewer than three parts and no URL |
| `Fetch.FetchedMetadata` | pkg/audit/fetcher.go:34-65 | an error exactly when the proxy-info step fails; otherwise the proxy's time as commit date, version count 0, the repository URL only when enabled and found, and every repository statistic 0 |
| `Fetch.FetchModuleMetadata` | pkg/audit/fetcher.go:34-65 | the step-by-step record update computes exactly that metadata |
| `Footprint.CalculateFootprint` | pkg/audit/footprint.go:11-32 | every module's footprint is all zeros |
| `Footprint.CalculateProjectFootprint` | pkg/audit/footprint.go:35-48 | transitive count = number of indirect modules, within [0, len]; weight = len; depth 0; an empty list gives all zeros |
| `Footprint.DirectPlusIndirect` | pkg/audit/footprint.go:36-45 | direct and indirect counts add up to the number of modules |
| `Footprint.CountIndirectAppend` | pkg/audit/footprint.go:38-42 | the indirect count of a concatenation is the sum of the counts |
| `Footprint.NoIndirectIffAllDirect` | pkg/audit/footprint.go:38-45 | the transitive count is 0 iff every module is direct |
| `Footprint.AllIndirectIffCountIsLength` | pkg/audit/footprint.go:38-45 | the transitive count is the list length iff every module is indirect |
| `Audit.ModulesFound` | pkg/audit/audit.go:12-21 | no module list exactly when both `go list` and go.mod fail; the graph wins when it exists |
| `Audit.FilterModules` | pkg/audit/audit.go:24-47 | the filter loop with its ignore scan and `ignored` flag computes exactly the target list |
| `Audit.TargetsMembership` | pkg/audit/audit.go:24-47 | a module is audited iff it is listed, has a path, is not main, equals no ignore entry exactly (no prefix or glob), and is direct unless indirect modules are included |
| `Audit.TargetsAppend` | pkg/audit/audit.go:24-47 | filtering commutes with concatenation, so targets keep the list's order |
| `Audit.TargetsShrinkAndSettle` | pkg/audit/audit.go:24-47 | filtering never adds modules, and filtering again changes nothing |
| `Audit.AuditedModule` | pkg/audit/audit.go:102-113 | the record carries the module's path and version, and is direct iff the module is not indirect |
| `Audit.AuditedModuleReport` | pkg/audit/audit.go:84-112 | metadata is never absent (a failed fetch leaves the empty record), the score is in [0,100] with its category, license risk is that of the license and is Unknown, footprint 0, publication date = commit date |
| `Audit.AuditSingleModule` | pkg/audit/audit.go:82-114 | never fails and returns exactly that record |
| `Audit.AuditResults` | pkg/audit/audit.go:50-77 | one result per target; result i has target i's path, version and directness |
| `Audit.AuditTargets` | pkg/audit/audit.go:50-77 | filling the pre-sized array slot by slot gives exactly those results |
| `Audit.AuditModules` | pkg/audit/audit.go:10-80 | an error, prefixed "failed to parse modules: ", exactly when both sources fail; otherwise the results of the filtered list, in order |
| `Audit.FailedFetchScoresTen` | pkg/audit/audit.go:84-92 | a module whose proxy lookup fails scores 10 under the default weights, which is Risky |
| `Audit.ZeroStatsScoreAtMostFifty` | pkg/audit/scorer.go:39-45 | a record without versions, commit frequency, stars or contributors scores at most 50 under the defaults, given a recency in [0,100] |
| `Audit.AuditedScoreAtMostFifty` | pkg/audit/audit.go:84-92 | with the default weights and a recency in [0,100], no audited module scores above 50, so none is Healthy |
| `ScanCommand.TallyCategories` | internal/cli/scan.go:34-37 | each category's count (missing keys reading 0) is the number of results in it |
| `ScanCommand.CategoryCountsSum` | internal/cli/scan.go:34-44 | the four printed counts never exceed the total and sum to it when every category is in range |
| `ScanCommand.SelectProblemRows` | internal/cli/scan.go:50-54 | the row loop keeps exactly the Risky and Stale results |
| `ScanCommand.ProblemRowsMembership` | internal/cli/scan.go:50-54 | a result is a row iff it is Risky or Stale |
| `ScanCommand.ProblemRowsAppend` | internal/cli/scan.go:50-54 | row selection commutes with concatenation, so rows keep result order |
| `ScanCommand.TableShownIffRows` | internal/cli/scan.go:46 | the table is printed iff it has at least one row |
| `ScanCommand.Summarize` | internal/cli/scan.go:33-56 | tally, then rows only when the table is printed, gives the total, the four counts and every problem row |
| `ScanCommand.RunScan` | internal/cli/scan.go:19-59 | an audit error is returned before any summary; otherwise the summary of the audit under the command configuration |
| `ScanCommand.ScanReportsOnlyDirect` | internal/cli/scan.go:20-24 | `scan` leaves indirect modules out, so every result it reports is a direct dependency |
| `CheckCommand.OffendingMembership` | internal/cli/check.go:38-44 | a result gets a FAIL line iff its score is strictly below the threshold |
| `CheckCommand.OffendingIffBelow` | internal/cli/check.go:37-44 | there is an offending result iff some score is below the threshold |
| `CheckCommand.GateResults` | internal/cli/check.go:37-44 | `failed` is raised iff some score is below the threshold, with one FAIL line per offending result in result order |
| `CheckCommand.CheckOutcomeOf` | internal/cli/check.go:46-51 | exit status 1 iff some score is below the threshold, with one line per offender; when no score is below it, status 0 with only "All checks passed." |
| `CheckCommand.RunCheck` | internal/cli/check.go:26-52 | an error, prefixed "failed to parse modules: ", exactly when the audit finds no module list; otherwise the gate's outcome for the audited results |
| `CheckCommand.EmptyResultsPass` | internal/cli/check.go:37-51 | an empty result list passes |
| `CheckCommand.UnreachableProxyFailsCheck` | internal/cli/check.go:37-48 | if the proxy lookup fails for any audited module, `check` with the default threshold 50 exits with status 1 |
| `ReportCommand.MarkdownRows` | internal/cli/report.go:88-91 | one row per result, row i rendering result i |
| `ReportCommand.GenerateMarkdownReport` | internal/cli/report.go:83-93 | the four header lines, then exactly one row per result in order |
| `ReportCommand.MarkdownRowCells` | internal/cli/report.go:89-90 | split at its borders, a row gives back the path, version, score, category name and license, each padded by one space |
| `ReportCommand.ReportPlan` | internal/cli/report.go:40-59 | JSON goes to standard output iff neither path is set; with both set the JSON file is written before the Markdown file; a file that cannot be created is the error, the JSON one first; a Markdown file that cannot be created ends the run with the JSON file already written; without an error, exactly one write per set path in that order, or a single write to standard output when neither is set |
| `ReportCommand.WriteReports` | internal/cli/report.go:40-61 | the sequence of steps performs exactly that plan, keeping the writes made before a failure |
| `ReportCommand.RunReport` | internal/cli/report.go:29-62 | an audit error is returned with nothing written; otherwise the plan for the audited results |
| `Strings.FieldsJoin` | pkg/audit/parser.go:89 | words without white space joined by single spaces split back into exactly those words |
| `Strings.JoinSplit` | pkg/audit/fetcher.go:123 | joining the parts of a split gives back the original string |
| `Strings.LowerOfUpper` | pkg/audit/license.go:29 | lower-casing an upper-cased string equals lower-casing the string |
| `Strings.IntToStringRoundTrip` | internal/cli/check.go:40 | the decimal rendering of a score parses back to it |

## Left out

- **Concurrency.** The goroutines, the `sync.WaitGroup` and the ten-slot semaphore in
  `AuditModules` are not modelled. Each goroutine writes only its own slot, so the model fills
  the slots in a sequential loop.
- **The zeroed-record error branch in `AuditModules`** (`pkg/audit/audit.go:64-70`). It is
  unreachable, because `auditSingleModule` never returns an error, so the model has no such
  branch.
- **HTTP.** The client, its timeout, request construction, `context` cancellation and JSON
  decoding of the proxy's `.info` body are outside the model. The transport is the parameter
  `get`, which returns the already-decoded body or `None`.
- **`GetModuleGraph`.** Running `go list -m -json all` and decoding its output are outside
  the model. The outcome is the parameter `graph`.
- **File reading.** `os.Stat`, `os.Open` and `bufio.Scanner` are outside the model. A file is
  the sequence of its lines, or `None` when it cannot be opened. Scanner read errors are not
  modelled.
- **Time.** `time.Since`, `math.Exp` and the truncating `int` conversion in
  `calculateRecencyScore` are not modelled. The recency of a non-zero date is the parameter
  `decay`. `time.Time` is abstracted to "zero" or "some instant".
- **Float64 rounding.** The model computes over exact reals. `math.Round` is rounding half
  away from zero on a real.
- `Scorer.Round`: the conversion `int(math.Round(totalScore))` (`pkg/audit/scorer.go:45`) is
  not modelled for totals outside the int64 range. There Go's result is
  implementation-dependent (the minimum int on amd64, which the clamp turns into 0). The
  model's unbounded integer clamps such a total to 100 instead.
- **Unicode.** Case mapping and white space are ASCII only.
- **Output formatting.** Printing is not modelled. This covers:
  - the audit's "Warning: 'go list' failed … falling back" message (`pkg/audit/audit.go:16`);
  - `tabwriter`, `os.Exit` and JSON encoding;
  - the "report saved" messages.

  What each command returns instead:
  - `scan` returns the numbers and rows it prints;
  - `check` returns its lines and exit status;
  - `report` returns the ordered write actions it performed and the error it ended with.
- **`generateJSONReport` / `generateMarkdownReport`.** The creation of their files is modelled
  only as `createErr`. Write errors after creation are not modelled.
- **Unused configuration.** The fields `CacheDir`, `CacheTTL`, `GitHubToken` and `GitLabToken`
  are never read by the core.
- **Untracked fields.** The `Module` fields `Time`, `Dir`, `GoMod`, `GoVersion` and `Replace`
  are not tracked by the filter, the parser or the scorer.
- **cobra wiring.** `internal/cli/root.go` and `cmd/go-dep-audit/main.go` hold no logic.
- `Parser.ScanEntry`: stated only for entries whose path does not start with "/"; the source skips lines starting with "//", and a path starting with a single "/" is left to the general scanner definition.
- `Parser.ScanIndirectEntry`: stated only for entries whose path does not start with "/"; the source skips lines starting with "//", and a path starting with a single "/" is left to the general scanner definition.
- `Parser.RequireBlockEntry`: stated only for entries whose path does not start with "/"; the source skips lines starting with "//", and a path starting with a single "/" is left to the general scanner definition.
