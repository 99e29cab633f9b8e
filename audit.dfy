/** The audit pipeline: obtain the module list, filter it, and score every remaining
    module. The source audits modules on goroutines behind a ten-slot semaphore, each
    writing only its own slot of a pre-sized result slice; here the slots are filled by
    a sequential loop over the indices, which yields the same slice. */
module Audit {
  import opened Wrappers
  import opened Strings
  import opened Types
  import opened Config
  import opened License
  import opened Scorer
  import opened Parser
  import opened Fetch

  /** The module list: the `go list` graph when it was obtained, otherwise what the
      go.mod file yields, and nothing when the file cannot be read either. */
  function ModulesFound(graph: Result<seq<Module>>, goMod: Option<seq<string>>): (r: Option<seq<Module>>)
    ensures r.None? <==> graph.Err? && goMod.None?
    ensures graph.Ok? ==> r == Some(graph.value)
    ensures graph.Err? && goMod.Some? ==> r == Some(ParseLines(goMod.value))
  {
    if graph.Ok? then Some(graph.value)
    else if goMod.Some? then Some(ParseLines(goMod.value))
    else None
  }

  /** Whether the filter keeps a module: it has a path, is not the main module, is not
      ignored, and is direct unless indirect modules are included. */
  predicate Keep(m: Module, config: AuditConfig) {
    && m.path != ""
    && !m.main
    && m.path !in config.ignoreModules
    && (config.includeIndirect || !m.indirect)
  }

  /** The modules the filter keeps, in their original order. */
  function Targets(modules: seq<Module>, config: AuditConfig): seq<Module> {
    if modules == [] then []
    else
      var last := modules[|modules| - 1];
      Targets(modules[..|modules| - 1], config) + (if Keep(last, config) then [last] else [])
  }

  /** Filtering commutes with concatenation, so the kept modules keep their relative order. */
  lemma {:induction false} TargetsAppend(a: seq<Module>, b: seq<Module>, config: AuditConfig)
    ensures Targets(a + b, config) == Targets(a, config) + Targets(b, config)
  {
    if b == [] {
      assert a + b == a;
    } else {
      var init := b[..|b| - 1];
      assert (a + b)[..|a + b| - 1] == a + init;
      assert (a + b)[|a + b| - 1] == b[|b| - 1];
      TargetsAppend(a, init, config);
    }
  }

  /** A module is audited iff it is in the list, has a non-empty path, is not the main
      module, equals no ignore entry exactly, and is direct or indirect ones are included. */
  lemma {:induction false} TargetsMembership(modules: seq<Module>, config: AuditConfig, m: Module)
    ensures m in Targets(modules, config) <==>
      && m in modules
      && m.path != "" && !m.main
      && (forall pattern :: pattern in config.ignoreModules ==> m.path != pattern)
      && (config.includeIndirect || !m.indirect)
  {
    if modules != [] {
      var init := modules[..|modules| - 1];
      assert modules == init + [modules[|modules| - 1]];
      TargetsMembership(init, config, m);
    }
  }

  /** Filtering never adds modules, and filtering the filtered list changes nothing. */
  lemma {:induction false} TargetsShrinkAndSettle(modules: seq<Module>, config: AuditConfig)
    ensures |Targets(modules, config)| <= |modules|
    ensures Targets(Targets(modules, config), config) == Targets(modules, config)
  {
    if modules != [] {
      var init := modules[..|modules| - 1];
      var last := modules[|modules| - 1];
      TargetsShrinkAndSettle(init, config);
      var kept := if Keep(last, config) then [last] else [];
      TargetsAppend(Targets(init, config), kept, config);
      if Keep(last, config) {
        assert [last][..0] == [];
      }
    }
  }

  /** The filter loop of `AuditModules`: skip modules without a path and the main module,
      scan the ignore list for an exact match, skip indirect modules unless included. */
  method FilterModules(modules: seq<Module>, config: AuditConfig) returns (targets: seq<Module>)
    ensures targets == Targets(modules, config)
  {
    targets := [];
    var i := 0;
    while i < |modules|
      invariant 0 <= i <= |modules|
      invariant targets == Targets(modules[..i], config)
    {
      var m := modules[i];
      assert modules[..i + 1][..i] == modules[..i];
      i := i + 1;
      if m.path == "" || m.main {
        continue;
      }
      var ignored := false;
      var j := 0;
      while j < |config.ignoreModules|
        invariant 0 <= j <= |config.ignoreModules|
        invariant !ignored && m.path !in config.ignoreModules[..j]
      {
        if m.path == config.ignoreModules[j] {
          ignored := true;
          break;
        }
        assert config.ignoreModules[..j + 1] == config.ignoreModules[..j] + [config.ignoreModules[j]];
        j := j + 1;
      }
      assert config.ignoreModules[..|config.ignoreModules|] == config.ignoreModules;
      if ignored {
        continue;
      }
      if !config.includeIndirect && m.indirect {
        continue;
      }
      targets := targets + [m];
    }
    assert modules[..|modules|] == modules;
  }

  /** What `auditSingleModule` reports for one module: the module's identity, and whether
      it is a direct dependency. */
  function AuditedModule(f: Fetcher, m: Module, config: AuditConfig, decay: Time -> int): (h: ModuleHealth)
    ensures h.path == m.path && h.version == m.version
    ensures h.directDep <==> !m.indirect
  {
    var meta := match FetchedMetadata(f, m.path, m.version)
      case Ok(fetched) => fetched
      case Err(_) => EmptyMetadata;
    var score := CalculateHealthScore(Some(meta), config.scoring, decay);
    var license := DetectLicense(m.path, m.version).value;
    ModuleHealth(m.path, m.version, score, CategorizeHealth(score, config.scoring),
                 license, ClassifyLicense(license), 0.0, meta.lastCommitDate, 0, !m.indirect, Some(meta))
  }

  /** The rest of the record: a failed fetch is replaced by an empty record, so the
      metadata is always present; the score lies in [0,100] and the category follows from
      it; the license risk is that of the detected license, which is always Unknown; the
      footprint is 0 and the publication date is the fetched commit date. */
  lemma AuditedModuleReport(f: Fetcher, m: Module, config: AuditConfig, decay: Time -> int)
    ensures var h := AuditedModule(f, m, config, decay);
      && h.metadata.Some?
      && (FetchedMetadata(f, m.path, m.version).Err? ==> h.metadata == Some(EmptyMetadata))
      && (FetchedMetadata(f, m.path, m.version).Ok? ==> h.metadata == Some(FetchedMetadata(f, m.path, m.version).value))
      && 0 <= h.healthScore <= 100
      && h.healthCategory == CategorizeHealth(h.healthScore, config.scoring)
      && h.licenseRisk == ClassifyLicense(h.license) == LicenseUnknown
      && h.footprintRisk == 0.0 && h.transitiveDeps == 0
      && h.lastPublished == h.metadata.value.lastCommitDate
  {
    DetectedLicenseIsUnknownRisk(m.path, m.version);
  }

  /** `auditSingleModule`: fetch, falling back to an empty record, then score, categorise
      and attach the detected license. It never fails. */
  method AuditSingleModule(f: Fetcher, m: Module, config: AuditConfig, decay: Time -> int) returns (h: ModuleHealth)
    ensures h == AuditedModule(f, m, config, decay)
  {
    var fetched := FetchModuleMetadata(f, m.path, m.version);
    var meta := if fetched.Ok? then fetched.value else EmptyMetadata;
    var score := CalculateHealthScore(Some(meta), config.scoring, decay);
    var category := CategorizeHealth(score, config.scoring);
    var license := DetectLicense(m.path, m.version).value;
    var licenseRisk := ClassifyLicense(license);
    var footprintRisk := 0.0;
    h := ModuleHealth(m.path, m.version, score, category, license, licenseRisk,
                      footprintRisk, meta.lastCommitDate, 0, !m.indirect, Some(meta));
  }

  /** The results slice: one audited record per target, at the target's index. */
  function AuditResults(f: Fetcher, targets: seq<Module>, config: AuditConfig, decay: Time -> int): (rs: seq<ModuleHealth>)
    ensures |rs| == |targets|
    ensures forall i :: 0 <= i < |rs| ==>
      rs[i].path == targets[i].path && rs[i].version == targets[i].version && (rs[i].directDep <==> !targets[i].indirect)
  {
    seq(|targets|, i requires 0 <= i < |targets| => AuditedModule(f, targets[i], config, decay))
  }

  /** `AuditModules`: `graph` is what `go list` produced, `readFile` reads a file by path
      (`None` when it cannot be opened), `get` is the HTTP transport and `decay` the
      recency sub-score of a commit date at the time of the audit. An error is returned
      only when both the graph and go.mod fail. */
  method AuditModules(config: AuditConfig, graph: Result<seq<Module>>, readFile: string -> Option<seq<string>>,
                      get: string -> HttpResult, decay: Time -> int)
    returns (r: Result<seq<ModuleHealth>>)
    ensures var found := ModulesFound(graph, readFile(config.projectPath + "/go.mod"));
      && (r.Err? <==> found.None?)
      && (r.Err? ==> HasPrefix(r.error, "failed to parse modules: "))
      && (r.Ok? ==> r.value == AuditResults(Fetcher(config, get), Targets(found.value, config), config, decay))
  {
    var modules: seq<Module>;
    if graph.Ok? {
      modules := graph.value;
    } else {
      var parsed := ParseGoMod(readFile(config.projectPath + "/go.mod"));
      if parsed.Err? {
        var prefix := "failed to parse modules: ";
        assert (prefix + parsed.error)[..|prefix|] == prefix;
        return Err(prefix + parsed.error);
      }
      modules := parsed.value;
    }
    var targets := FilterModules(modules, config);
    var results := AuditTargets(Fetcher(config, get), targets, config, decay);
    return Ok(results);
  }

  /** The second half of `AuditModules`: a pre-sized results array whose slot `i` receives
      the audit of target `i`. */
  method AuditTargets(f: Fetcher, targets: seq<Module>, config: AuditConfig, decay: Time -> int)
    returns (rs: seq<ModuleHealth>)
    ensures rs == AuditResults(f, targets, config, decay)
  {
    var results := new ModuleHealth[|targets|];
    var i := 0;
    while i < |targets|
      invariant 0 <= i <= |targets|
      invariant forall k :: 0 <= k < i ==> results[k] == AuditedModule(f, targets[k], config, decay)
    {
      var health := AuditSingleModule(f, targets[i], config, decay);
      results[i] := health;
      i := i + 1;
    }
    rs := results[..];
  }

  /** A module whose proxy lookup fails scores 10 under the default weights (the neutral
      commit default times its weight), which the default thresholds call Risky. */
  lemma FailedFetchScoresTen(f: Fetcher, m: Module, config: AuditConfig, decay: Time -> int)
    requires config.scoring == DefaultScoringConfig()
    requires FetchProxyInfo(f, m.path, m.version).Err?
    ensures AuditedModule(f, m, config, decay).healthScore == 10
    ensures AuditedModule(f, m, config, decay).healthCategory == Risky
  {
    EmptyMetadataScore(config.scoring, decay);
    assert 50.0 * config.scoring.commitActivityWeight == 10 as real;
    RoundOfInt(10);
  }

  /** What the fetcher can produce, or the empty record standing in for a failed fetch,
      has no version count, commit frequency, stars or contributors. */
  lemma AuditedStatsZero(f: Fetcher, m: Module, config: AuditConfig, decay: Time -> int)
    ensures var meta := AuditedModule(f, m, config, decay).metadata.value;
      meta.versionCount == 0 && meta.commitFrequency == 0.0 && meta.stars == 0 && meta.contributors == 0
  {
  }

  /** Under the default weights, a record without version count, commit frequency, stars
      or contributors scores at most 50 when the recency sub-score is within [0,100]. */
  lemma ZeroStatsScoreAtMostFifty(meta: ModuleMetadata, decay: Time -> int)
    requires meta.versionCount == 0 && meta.commitFrequency == 0.0 && meta.stars == 0 && meta.contributors == 0
    requires 0 <= RecencyScore(meta.lastCommitDate, decay) <= 100
    ensures CalculateHealthScore(Some(meta), DefaultScoringConfig(), decay) <= 50
  {
    var s := ComputeSubScores(meta, decay);
    assert s.version == 0;
    assert s.commit <= 50.0 && s.community == 0.0;
    var total := WeightedTotal(s, DefaultScoringConfig());
    assert total <= 50.0;
  }

  /** The fetcher never fills in the version count, commit frequency, stars or
      contributors, so under the default weights and a recency score within [0,100]
      no module scores above 50, and none is ever Healthy. */
  lemma AuditedScoreAtMostFifty(f: Fetcher, m: Module, config: AuditConfig, decay: Time -> int)
    requires config.scoring == DefaultScoringConfig()
    requires forall t :: 0 <= decay(t) <= 100
    ensures AuditedModule(f, m, config, decay).healthScore <= 50
    ensures AuditedModule(f, m, config, decay).healthCategory != Healthy
  {
    var h := AuditedModule(f, m, config, decay);
    AuditedStatsZero(f, m, config, decay);
    ZeroStatsScoreAtMostFifty(h.metadata.value, decay);
  }
}
