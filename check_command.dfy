/** The `check` command: audit the project with the default scoring and fail when any
    module scores below the threshold. Printing becomes a sequence of output lines and
    the process exit an exit code. */
module CheckCommand {
  import opened Wrappers
  import opened Strings
  import opened Types
  import opened Config
  import opened Parser
  import opened Fetch
  import opened Audit

  /** The `--fail-threshold` default. */
  const DefaultFailThreshold := 50

  const PassedMessage := "All checks passed."

  /** The results scoring strictly below the threshold, in result order. */
  function Offending(results: seq<ModuleHealth>, threshold: int): seq<ModuleHealth> {
    if results == [] then []
    else
      var last := results[|results| - 1];
      Offending(results[..|results| - 1], threshold) + (if last.healthScore < threshold then [last] else [])
  }

  /** The line printed for an offending result. */
  function FailLine(r: ModuleHealth, threshold: int): string {
    "FAIL: " + r.path + "@" + r.version + " (Score: " + IntToString(r.healthScore)
      + ") is below threshold " + IntToString(threshold)
  }

  function FailLines(offending: seq<ModuleHealth>, threshold: int): (lines: seq<string>)
    ensures |lines| == |offending|
    ensures forall i :: 0 <= i < |lines| ==> lines[i] == FailLine(offending[i], threshold)
  {
    seq(|offending|, i requires 0 <= i < |offending| => FailLine(offending[i], threshold))
  }

  /** A result is offending iff it is a result scoring below the threshold. */
  lemma {:induction false} OffendingMembership(results: seq<ModuleHealth>, threshold: int, r: ModuleHealth)
    ensures r in Offending(results, threshold) <==> r in results && r.healthScore < threshold
  {
    if results != [] {
      var init := results[..|results| - 1];
      assert results == init + [results[|results| - 1]];
      OffendingMembership(init, threshold, r);
    }
  }

  /** There is something to report iff some result scores below the threshold. */
  lemma {:induction false} OffendingIffBelow(results: seq<ModuleHealth>, threshold: int)
    ensures Offending(results, threshold) != [] <==> exists i :: 0 <= i < |results| && results[i].healthScore < threshold
  {
    if results != [] {
      var init := results[..|results| - 1];
      OffendingIffBelow(init, threshold);
      assert forall i :: 0 <= i < |init| ==> init[i] == results[i];
    }
  }

  /** The gate loop: print one FAIL line per offending result and raise the `failed`
      flag. */
  method GateResults(results: seq<ModuleHealth>, threshold: int) returns (lines: seq<string>, failed: bool)
    ensures failed <==> exists i :: 0 <= i < |results| && results[i].healthScore < threshold
    ensures lines == FailLines(Offending(results, threshold), threshold)
  {
    lines := [];
    failed := false;
    var i := 0;
    while i < |results|
      invariant 0 <= i <= |results|
      invariant lines == FailLines(Offending(results[..i], threshold), threshold)
      invariant failed <==> exists k :: 0 <= k < i && results[k].healthScore < threshold
    {
      var res := results[i];
      assert results[..i + 1][..i] == results[..i];
      if res.healthScore < threshold {
        lines := lines + [FailLine(res, threshold)];
        failed := true;
      }
      i := i + 1;
    }
    assert results[..|results|] == results;
  }

  /** How `check` ends: the lines it printed and the process exit status. */
  datatype CheckOutcome = CheckOutcome(lines: seq<string>, exitCode: int)

  /** The outcome for a list of results: exit status 1 after the FAIL lines when any
      result is below the threshold, otherwise status 0 after the success message. */
  function CheckOutcomeOf(results: seq<ModuleHealth>, threshold: int): (o: CheckOutcome)
    ensures o.exitCode == 1 <==> exists i :: 0 <= i < |results| && results[i].healthScore < threshold
    ensures o.exitCode == 0 <==> o.lines == [PassedMessage]
    ensures o.exitCode == 1 ==> |o.lines| >= 1 && |o.lines| == |Offending(results, threshold)|
    ensures !(exists i :: 0 <= i < |results| && results[i].healthScore < threshold) ==>
      o == CheckOutcome([PassedMessage], 0)
  {
    OffendingIffBelow(results, threshold);
    var offending := Offending(results, threshold);
    if offending != [] then
      var lines := FailLines(offending, threshold);
      assert lines[0][0] == 'F' != PassedMessage[0];
      CheckOutcome(lines, 1)
    else CheckOutcome([PassedMessage], 0)
  }

  /** `runCheck`: an audit error is returned unchanged; otherwise the gate decides. */
  method RunCheck(projectPath: string, threshold: int, graph: Result<seq<Module>>,
                  readFile: string -> Option<seq<string>>, get: string -> HttpResult, decay: Time -> int)
    returns (r: Result<CheckOutcome>)
    ensures var config := CommandConfig(projectPath);
      var found := ModulesFound(graph, readFile(projectPath + "/go.mod"));
      && (r.Err? <==> found.None?)
      && (r.Err? ==> HasPrefix(r.error, "failed to parse modules: "))
      && (r.Ok? ==> r.value == CheckOutcomeOf(AuditResults(Fetcher(config, get), Targets(found.value, config), config, decay), threshold))
  {
    var config := CommandConfig(projectPath);
    var results := AuditModules(config, graph, readFile, get, decay);
    if results.Err? {
      return Err(results.error);
    }
    var lines, failed := GateResults(results.value, threshold);
    if failed {
      return Ok(CheckOutcome(lines, 1));
    }
    OffendingIffBelow(results.value, threshold);
    return Ok(CheckOutcome([PassedMessage], 0));
  }

  /** An empty result list always passes. */
  lemma EmptyResultsPass(threshold: int)
    ensures CheckOutcomeOf([], threshold) == CheckOutcome([PassedMessage], 0)
  {
  }

  /** A module whose proxy lookup fails scores 10, so under the default threshold its
      project fails the check. */
  lemma UnreachableProxyFailsCheck(projectPath: string, modules: seq<Module>, get: string -> HttpResult,
                                   decay: Time -> int, k: int)
    requires var config := CommandConfig(projectPath);
      0 <= k < |Targets(modules, config)|
      && FetchProxyInfo(Fetcher(config, get), Targets(modules, config)[k].path, Targets(modules, config)[k].version).Err?
    ensures var config := CommandConfig(projectPath);
      CheckOutcomeOf(AuditResults(Fetcher(config, get), Targets(modules, config), config, decay), DefaultFailThreshold).exitCode == 1
  {
    var config := CommandConfig(projectPath);
    var f := Fetcher(config, get);
    var targets := Targets(modules, config);
    var results := AuditResults(f, targets, config, decay);
    FailedFetchScoresTen(f, targets[k], config, decay);
    assert results[k] == AuditedModule(f, targets[k], config, decay);
    assert results[k].healthScore < DefaultFailThreshold;
  }
}
