/** The `report` command: audit the project with the default scoring and write the
    results as JSON and/or as a Markdown table. File creation is a parameter that says
    which paths cannot be created (and why); JSON encoding is not modelled, so a JSON
    write carries the results it would encode. */
module ReportCommand {
  import opened Wrappers
  import opened Strings
  import opened Types
  import opened Config
  import opened Parser
  import opened Fetch
  import opened Audit

  /** The four lines written before the rows: title, blank line, column names, rule. */
  const MarkdownHeader := [
    "# Dependency Audit Report",
    "",
    "| Module | Version | Score | Category | License |",
    "|--------|---------|-------|----------|---------|"]

  /** The cells of a row after its opening border: each cell padded by one space on
      either side and closed by a border. */
  function BorderedCells(cells: seq<string>): string {
    if cells == [] then "" else " " + cells[0] + " |" + BorderedCells(cells[1..])
  }

  /** A row's five cells; the category is written by its name. */
  function RowCells(r: ModuleHealth): seq<string> {
    [r.path, r.version, IntToString(r.healthScore), HealthCategoryName(r.healthCategory), r.license]
  }

  /** One table row, "| path | version | score | category | license |". */
  function MarkdownRow(r: ModuleHealth): string {
    "|" + BorderedCells(RowCells(r))
  }

  /** The table rows, one per result in result order. */
  function MarkdownRows(results: seq<ModuleHealth>): (rows: seq<string>)
    ensures |rows| == |results|
    ensures forall i :: 0 <= i < |results| ==> rows[i] == MarkdownRow(results[i])
  {
    if results == [] then []
    else MarkdownRows(results[..|results| - 1]) + [MarkdownRow(results[|results| - 1])]
  }

  /** The Markdown file: the header, then one row per result in result order. */
  function MarkdownLines(results: seq<ModuleHealth>): seq<string> {
    MarkdownHeader + MarkdownRows(results)
  }

  /** `generateMarkdownReport` once the file is open: the four header lines one after
      another, then a loop writing one row per result. */
  method GenerateMarkdownReport(results: seq<ModuleHealth>) returns (lines: seq<string>)
    ensures lines == MarkdownLines(results)
  {
    lines := [];
    var h := 0;
    while h < |MarkdownHeader|
      invariant 0 <= h <= |MarkdownHeader|
      invariant lines == MarkdownHeader[..h]
    {
      lines := lines + [MarkdownHeader[h]];
      h := h + 1;
    }
    var i := 0;
    while i < |results|
      invariant 0 <= i <= |results|
      invariant lines == MarkdownHeader + MarkdownRows(results[..i])
    {
      assert results[..i + 1][..i] == results[..i];
      lines := lines + [MarkdownRow(results[i])];
      i := i + 1;
    }
    assert results[..|results|] == results;
  }

  /** A decimal rendering holds digits and at most a minus sign, never a cell border. */
  lemma NoBarInNumber(n: int)
    ensures '|' !in IntToString(n)
  {
    if n < 0 {
      assert IntToString(n) == "-" + NatToString(-n);
    }
  }

  /** The five category names contain no cell border either. */
  lemma NoBarInCategoryName(c: HealthCategory)
    ensures '|' !in HealthCategoryName(c)
  {
  }

  /** Each cell with its padding. */
  function Padded(cells: seq<string>): (padded: seq<string>)
    ensures |padded| == |cells|
    ensures forall i :: 0 <= i < |cells| ==> padded[i] == " " + cells[i] + " "
  {
    if cells == [] then [] else [" " + cells[0] + " "] + Padded(cells[1..])
  }

  /** Splitting the bordered cells at the borders gives back the padded cells, followed
      by the empty text after the last border, when no cell holds a border itself. */
  lemma {:induction false} SplitBorderedCells(cells: seq<string>)
    requires forall i :: 0 <= i < |cells| ==> '|' !in cells[i]
    ensures Split(BorderedCells(cells), '|') == Padded(cells) + [""]
  {
    if cells != [] {
      var first := " " + cells[0] + " ";
      var rest := BorderedCells(cells[1..]);
      assert '|' !in cells[0];
      assert BorderedCells(cells) == first + ['|'] + rest;
      SplitCons(first, '|', rest);
      SplitBorderedCells(cells[1..]);
    }
  }

  /** A row reads back: split at its borders it gives an empty text, the path, version,
      score, category name and license, each padded by one space, and an empty text,
      provided the path, version and license contain no border themselves. */
  lemma MarkdownRowCells(r: ModuleHealth)
    requires '|' !in r.path && '|' !in r.version && '|' !in r.license
    ensures var parts := Split(MarkdownRow(r), '|');
      && |parts| == 7 && parts[0] == "" && parts[6] == ""
      && parts[1] == " " + r.path + " " && parts[2] == " " + r.version + " "
      && parts[3] == " " + IntToString(r.healthScore) + " "
      && parts[4] == " " + HealthCategoryName(r.healthCategory) + " "
      && parts[5] == " " + r.license + " "
  {
    var cells := RowCells(r);
    NoBarInNumber(r.healthScore);
    NoBarInCategoryName(r.healthCategory);
    SplitBorderedCells(cells);
    assert MarkdownRow(r) == "" + ['|'] + BorderedCells(cells);
    SplitCons("", '|', BorderedCells(cells));
  }

  /** What `report` does with the results, in order. */
  datatype ReportAction =
    | WriteJSON(path: string, results: seq<ModuleHealth>)
    | WriteMarkdown(path: string, lines: seq<string>)
    | JSONToStdout(results: seq<ModuleHealth>)

  /** What `report` has done when it returns: the actions it performed, in order, and the
      error it returned, if any. A file written before a later failure stays written. */
  datatype ReportRun = ReportRun(actions: seq<ReportAction>, err: Option<string>)

  /** The output-target selection: the JSON file first when its path is set, then the
      Markdown file when its path is set, and JSON on standard output when neither is.
      A file that cannot be created ends the command with its error, after whatever was
      written before it. */
  function ReportPlan(results: seq<ModuleHealth>, outputJSON: string, outputMD: string,
                      createErr: string -> Option<string>): (r: ReportRun)
    ensures r.err.Some? <==> (outputJSON != "" && createErr(outputJSON).Some?) || (outputMD != "" && createErr(outputMD).Some?)
    ensures outputJSON != "" && createErr(outputJSON).Some? ==> r == ReportRun([], createErr(outputJSON))
    ensures outputJSON != "" && createErr(outputJSON).None? && outputMD != "" && createErr(outputMD).Some? ==>
      r == ReportRun([WriteJSON(outputJSON, results)], createErr(outputMD))
    ensures outputJSON == "" && outputMD != "" && createErr(outputMD).Some? ==> r == ReportRun([], createErr(outputMD))
    ensures r.err.None? ==> (JSONToStdout(results) in r.actions <==> outputJSON == "" && outputMD == "")
    ensures r.err.None? && outputJSON != "" && outputMD != "" ==>
      r.actions == [WriteJSON(outputJSON, results), WriteMarkdown(outputMD, MarkdownLines(results))]
    ensures r.err.None? ==>
      r.actions == (if outputJSON != "" then [WriteJSON(outputJSON, results)] else [])
                 + (if outputMD != "" then [WriteMarkdown(outputMD, MarkdownLines(results))] else [])
                 + (if outputJSON == "" && outputMD == "" then [JSONToStdout(results)] else [])
  {
    var json := if outputJSON != "" then [WriteJSON(outputJSON, results)] else [];
    if outputJSON != "" && createErr(outputJSON).Some? then ReportRun([], createErr(outputJSON))
    else if outputMD != "" && createErr(outputMD).Some? then ReportRun(json, createErr(outputMD))
    else if outputJSON == "" && outputMD == "" then ReportRun([JSONToStdout(results)], None)
    else if outputMD == "" then ReportRun(json, None)
    else ReportRun(json + [WriteMarkdown(outputMD, MarkdownLines(results))], None)
  }

  /** The writing half of `runReport`, step by step. */
  method WriteReports(results: seq<ModuleHealth>, outputJSON: string, outputMD: string,
                      createErr: string -> Option<string>) returns (r: ReportRun)
    ensures r == ReportPlan(results, outputJSON, outputMD, createErr)
  {
    var actions: seq<ReportAction> := [];
    if outputJSON != "" {
      var failure := createErr(outputJSON);
      if failure.Some? {
        return ReportRun(actions, failure);
      }
      actions := actions + [WriteJSON(outputJSON, results)];
    }
    if outputMD != "" {
      var failure := createErr(outputMD);
      if failure.Some? {
        return ReportRun(actions, failure);
      }
      var lines := GenerateMarkdownReport(results);
      actions := actions + [WriteMarkdown(outputMD, lines)];
    }
    if outputJSON == "" && outputMD == "" {
      actions := actions + [JSONToStdout(results)];
    }
    return ReportRun(actions, None);
  }

  /** `runReport`: an audit error is returned before anything is written; otherwise the
      results go where the two output paths say. */
  method RunReport(projectPath: string, outputJSON: string, outputMD: string, graph: Result<seq<Module>>,
                   readFile: string -> Option<seq<string>>, get: string -> HttpResult, decay: Time -> int,
                   createErr: string -> Option<string>)
    returns (r: ReportRun)
    ensures var config := CommandConfig(projectPath);
      var found := ModulesFound(graph, readFile(projectPath + "/go.mod"));
      && (found.None? ==> r.actions == [] && r.err.Some?)
      && (found.Some? ==> r == ReportPlan(AuditResults(Fetcher(config, get), Targets(found.value, config), config, decay),
                                         outputJSON, outputMD, createErr))
  {
    var config := CommandConfig(projectPath);
    var results := AuditModules(config, graph, readFile, get, decay);
    if results.Err? {
      return ReportRun([], Some(results.error));
    }
    r := WriteReports(results.value, outputJSON, outputMD, createErr);
  }
}
