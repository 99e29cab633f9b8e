/** The `scan` command: audit the project with the default scoring, tally the results
    per health category and pick out the Risky and Stale ones for the problem table.
    The printed layout and the tab-aligned table writer are not modelled; the summary
    carries the numbers and rows they print. */
module ScanCommand {
  import opened Wrappers
  import opened Types
  import opened Config
  import opened Parser
  import opened Fetch
  import opened Audit

  /** A Go map read: a missing key reads as 0. */
  function CountOf(counts: map<HealthCategory, int>, c: HealthCategory): int {
    if c in counts then counts[c] else 0
  }

  /** How many results carry category `c`. */
  function CategoryCount(results: seq<ModuleHealth>, c: HealthCategory): nat {
    if results == [] then 0
    else CategoryCount(results[..|results| - 1], c) + (if results[|results| - 1].healthCategory == c then 1 else 0)
  }

  /** The tally loop: each result increments the count of its own category. */
  method TallyCategories(results: seq<ModuleHealth>) returns (counts: map<HealthCategory, int>)
    ensures forall c :: CountOf(counts, c) == CategoryCount(results, c)
  {
    counts := map[];
    var i := 0;
    while i < |results|
      invariant 0 <= i <= |results|
      invariant forall c :: CountOf(counts, c) == CategoryCount(results[..i], c)
    {
      var category := results[i].healthCategory;
      assert results[..i + 1][..i] == results[..i];
      counts := counts[category := CountOf(counts, category) + 1];
      i := i + 1;
    }
    assert results[..|results|] == results;
  }

  /** The four printed counts never exceed the number of results, and add up to it
      exactly when every category is one of the four. */
  lemma {:induction false} CategoryCountsSum(results: seq<ModuleHealth>)
    ensures CategoryCount(results, Healthy) + CategoryCount(results, Warning)
          + CategoryCount(results, Stale) + CategoryCount(results, Risky) <= |results|
    ensures (forall i :: 0 <= i < |results| ==> IsHealthCategory(results[i].healthCategory)) ==>
      CategoryCount(results, Healthy) + CategoryCount(results, Warning)
      + CategoryCount(results, Stale) + CategoryCount(results, Risky) == |results|
  {
    if results != [] {
      var init := results[..|results| - 1];
      CategoryCountsSum(init);
      assert forall i :: 0 <= i < |init| ==> init[i] == results[i];
    }
  }

  /** Whether a result belongs in the problem table. */
  predicate IsProblem(r: ModuleHealth) {
    r.healthCategory == Risky || r.healthCategory == Stale
  }

  /** The Risky and Stale results, in result order. */
  function ProblemRows(results: seq<ModuleHealth>): seq<ModuleHealth> {
    if results == [] then []
    else
      var last := results[|results| - 1];
      ProblemRows(results[..|results| - 1]) + (if IsProblem(last) then [last] else [])
  }

  /** The row loop: keep each Risky or Stale result, in order. */
  method SelectProblemRows(results: seq<ModuleHealth>) returns (rows: seq<ModuleHealth>)
    ensures rows == ProblemRows(results)
  {
    rows := [];
    var i := 0;
    while i < |results|
      invariant 0 <= i <= |results|
      invariant rows == ProblemRows(results[..i])
    {
      var res := results[i];
      assert results[..i + 1][..i] == results[..i];
      if res.healthCategory == Risky || res.healthCategory == Stale {
        rows := rows + [res];
      }
      i := i + 1;
    }
    assert results[..|results|] == results;
  }

  /** A row is in the table iff it is a result whose category is Risky or Stale. */
  lemma {:induction false} ProblemRowsMembership(results: seq<ModuleHealth>, r: ModuleHealth)
    ensures r in ProblemRows(results) <==> r in results && (r.healthCategory == Risky || r.healthCategory == Stale)
  {
    if results != [] {
      var init := results[..|results| - 1];
      assert results == init + [results[|results| - 1]];
      ProblemRowsMembership(init, r);
    }
  }

  /** Selection commutes with concatenation: the table keeps the results' order. */
  lemma {:induction false} ProblemRowsAppend(a: seq<ModuleHealth>, b: seq<ModuleHealth>)
    ensures ProblemRows(a + b) == ProblemRows(a) + ProblemRows(b)
  {
    if b == [] {
      assert a + b == a;
    } else {
      var init := b[..|b| - 1];
      assert (a + b)[..|a + b| - 1] == a + init;
      assert (a + b)[|a + b| - 1] == b[|b| - 1];
      ProblemRowsAppend(a, init);
    }
  }

  /** The table is printed iff it has at least one row: a positive Risky or Stale count
      means some result is selected, and a selected result makes one of them positive. */
  lemma {:induction false} TableShownIffRows(results: seq<ModuleHealth>)
    ensures CategoryCount(results, Risky) > 0 || CategoryCount(results, Stale) > 0 <==> ProblemRows(results) != []
  {
    if results != [] {
      TableShownIffRows(results[..|results| - 1]);
    }
  }

  /** What `scan` reports: the total, the four category counts, and the problem rows
      (none when the table is not printed). */
  datatype ScanSummary = ScanSummary(
    total: int, healthy: int, warning: int, stale: int, risky: int, problems: seq<ModuleHealth>)

  function SummaryOf(results: seq<ModuleHealth>): ScanSummary {
    ScanSummary(|results|, CategoryCount(results, Healthy), CategoryCount(results, Warning),
                CategoryCount(results, Stale), CategoryCount(results, Risky), ProblemRows(results))
  }

  /** The summary part of `runScan`: tally, then select rows only when the table is printed. */
  method Summarize(results: seq<ModuleHealth>) returns (s: ScanSummary)
    ensures s == SummaryOf(results)
  {
    var counts := TallyCategories(results);
    var rows: seq<ModuleHealth> := [];
    if CountOf(counts, Risky) > 0 || CountOf(counts, Stale) > 0 {
      rows := SelectProblemRows(results);
    } else {
      TableShownIffRows(results);
    }
    s := ScanSummary(|results|, CountOf(counts, Healthy), CountOf(counts, Warning),
                     CountOf(counts, Stale), CountOf(counts, Risky), rows);
  }

  /** `runScan`: an audit error is returned before anything is tallied; otherwise the
      summary of the audited results. */
  method RunScan(projectPath: string, graph: Result<seq<Module>>, readFile: string -> Option<seq<string>>,
                 get: string -> HttpResult, decay: Time -> int)
    returns (r: Result<ScanSummary>)
    ensures var config := CommandConfig(projectPath);
      var found := ModulesFound(graph, readFile(projectPath + "/go.mod"));
      && (r.Err? <==> found.None?)
      && (r.Ok? ==> r.value == SummaryOf(AuditResults(Fetcher(config, get), Targets(found.value, config), config, decay)))
  {
    var config := CommandConfig(projectPath);
    var results := AuditModules(config, graph, readFile, get, decay);
    if results.Err? {
      return Err(results.error);
    }
    var summary := Summarize(results.value);
    return Ok(summary);
  }

  /** `scan` never includes indirect modules, so every result it reports is a direct
      dependency. */
  lemma ScanReportsOnlyDirect(projectPath: string, modules: seq<Module>, get: string -> HttpResult, decay: Time -> int)
    ensures var config := CommandConfig(projectPath);
      var results := AuditResults(Fetcher(config, get), Targets(modules, config), config, decay);
      forall i :: 0 <= i < |results| ==> results[i].directDep
  {
    var config := CommandConfig(projectPath);
    var targets := Targets(modules, config);
    forall i | 0 <= i < |targets|
      ensures !targets[i].indirect
    {
      TargetsMembership(modules, config, targets[i]);
    }
  }
}
