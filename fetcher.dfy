/** Metadata retrieval from the Go module proxy. The HTTP client is replaced by a
    transport function from URL to what the GET request came back with; the client's
    timeout, request construction and the request context are not modelled. */
module Fetch {
  import opened Wrappers
  import opened Strings
  import opened Types
  import opened Config

  /** The `.info` document of one module version. */
  datatype ProxyInfo = ProxyInfo(version: string, time: Time)

  /** What a GET request comes back with: a transport failure, or a status code and what
      JSON decoding makes of the body (`None` when the body does not decode). */
  datatype HttpResult =
    | RequestFailed(err: string)
    | Reply(status: int, info: Option<ProxyInfo>)

  /** `Fetcher`: the configuration and the transport in place of the HTTP client. */
  datatype Fetcher = Fetcher(config: AuditConfig, get: string -> HttpResult)

  const ProxyBase := "https://proxy.golang.org/"
  const GitHubHost := "github.com/"
  const GitHubBase := "https://github.com/"

  /** The proxy URL of a version's `.info` document; the module path is lower-cased. */
  function ProxyInfoURL(modulePath: string, version: string): string {
    ProxyBase + Lower(modulePath) + "/@v/" + version + ".info"
  }

  /** The proxy URL of a module's version list; the module path is lower-cased. */
  function VersionListURL(modulePath: string): string {
    ProxyBase + Lower(modulePath) + "/@v/list"
  }

  /** The two endpoints never share a URL: an `.info` URL ends in "o", a list URL in "t". */
  lemma ProxyURLsDistinct(modulePath: string, version: string, otherPath: string)
    ensures ProxyInfoURL(modulePath, version) != VersionListURL(otherPath)
  {
    var a := ProxyInfoURL(modulePath, version);
    var b := VersionListURL(otherPath);
    assert a[|a| - 1] == 'o';
    assert b[|b| - 1] == 't';
  }

  /** Different versions of one module are asked for at different URLs. */
  lemma ProxyInfoURLInjective(modulePath: string, v1: string, v2: string)
    requires ProxyInfoURL(modulePath, v1) == ProxyInfoURL(modulePath, v2)
    ensures v1 == v2
  {
    var head := ProxyBase + Lower(modulePath) + "/@v/";
    var a := ProxyInfoURL(modulePath, v1);
    assert a == head + v1 + ".info";
    assert |v1| == |v2|;
    assert a[|head|..|head| + |v1|] == v1;
    assert ProxyInfoURL(modulePath, v2)[|head|..|head| + |v2|] == v2;
  }

  /** Module paths that differ only in letter case are asked for at the same URLs. */
  lemma ProxyURLsIgnoreCase(modulePath: string, version: string)
    ensures ProxyInfoURL(Upper(modulePath), version) == ProxyInfoURL(modulePath, version)
    ensures VersionListURL(Upper(modulePath)) == VersionListURL(modulePath)
  {
    LowerOfUpper(modulePath);
  }

  /** `fetchProxyInfo`: a transport failure, a status other than 200 or an undecodable
      body is an error; otherwise the decoded document. */
  function FetchProxyInfo(f: Fetcher, modulePath: string, version: string): (r: Result<ProxyInfo>)
    ensures var reply := f.get(ProxyInfoURL(modulePath, version));
      r.Ok? <==> reply.Reply? && reply.status == 200 && reply.info.Some?
    ensures r.Ok? ==> f.get(ProxyInfoURL(modulePath, version)) == Reply(200, Some(r.value))
  {
    match f.get(ProxyInfoURL(modulePath, version))
    case RequestFailed(err) => Err(err)
    case Reply(status, info) =>
      if status != 200 then Err("proxy returned status: " + IntToString(status))
      else if info.None? then Err("cannot decode proxy info")
      else Ok(info.value)
  }

  /** `fetchVersionList`: fails on a transport failure or a status other than 200, and
      otherwise returns an empty list, since the body is never read. */
  function FetchVersionList(f: Fetcher, modulePath: string): (r: Result<seq<string>>)
    ensures r.Ok? <==> (f.get(VersionListURL(modulePath)).Reply? && f.get(VersionListURL(modulePath)).status == 200)
    ensures r.Ok? ==> r.value == []
  {
    match f.get(VersionListURL(modulePath))
    case RequestFailed(err) => Err(err)
    case Reply(status, _) =>
      if status != 200 then Err("proxy returned status: " + IntToString(status)) else Ok([])
  }

  /** `getRepoURL`: for a path under "github.com/", the first three "/"-separated parts
      name the host, the owner and the repository; anything else has no known repository. */
  function GetRepoURL(modulePath: string): (url: string)
    ensures url == "" || HasPrefix(url, GitHubBase)
    ensures !HasPrefix(modulePath, GitHubHost) ==> url == ""
  {
    if HasPrefix(modulePath, GitHubHost) then
      var parts := Split(modulePath, '/');
      if |parts| >= 3 then
        var url := GitHubBase + parts[1] + "/" + parts[2];
        assert url[..|GitHubBase|] == GitHubBase;
        url
      else ""
    else ""
  }

  /** "github.com/o/r" splits into the host, the owner and the rest. */
  lemma SplitGitHubPath(owner: string, rest: string)
    requires '/' !in owner
    ensures Split(GitHubHost + owner + "/" + rest, '/') == ["github.com", owner] + Split(rest, '/')
  {
    var s := GitHubHost + owner + "/" + rest;
    assert s == "github.com" + ['/'] + (owner + ['/'] + rest);
    SplitCons("github.com", '/', owner + ['/'] + rest);
    SplitCons(owner, '/', rest);
  }

  /** A repository path "github.com/o/r" maps to "https://github.com/o/r". */
  lemma RepoURLOfRepository(owner: string, repo: string)
    requires '/' !in owner && '/' !in repo
    ensures GetRepoURL(GitHubHost + owner + "/" + repo) == GitHubBase + owner + "/" + repo
  {
    var path := GitHubHost + owner + "/" + repo;
    assert path[..|GitHubHost|] == GitHubHost;
    SplitGitHubPath(owner, repo);
    SplitNoSep(repo, '/');
  }

  /** Deeper segments are dropped: "github.com/o/r/sub" maps to "https://github.com/o/r". */
  lemma RepoURLDropsSubdirectories(owner: string, repo: string, sub: string)
    requires '/' !in owner && '/' !in repo
    ensures GetRepoURL(GitHubHost + owner + "/" + repo + "/" + sub) == GitHubBase + owner + "/" + repo
  {
    var path := GitHubHost + owner + "/" + repo + "/" + sub;
    assert path == GitHubHost + owner + "/" + (repo + "/" + sub);
    assert path[..|GitHubHost|] == GitHubHost;
    SplitGitHubPath(owner, repo + "/" + sub);
    SplitCons(repo, '/', sub);
  }

  /** A path naming only an owner, "github.com/o", has fewer than three parts and no URL. */
  lemma RepoURLNeedsRepository(owner: string)
    requires '/' !in owner
    ensures GetRepoURL(GitHubHost + owner) == ""
  {
    var path := GitHubHost + owner;
    assert path == "github.com" + ['/'] + owner;
    SplitCons("github.com", '/', owner);
    SplitNoSep(owner, '/');
  }

  /** What `FetchModuleMetadata` produces: an error exactly when the proxy-info step fails;
      otherwise the commit date from the proxy, a version count of 0 (the version list is
      always empty), a repository URL only when repository metadata is enabled and the
      path is on GitHub, and every repository statistic at zero. */
  function FetchedMetadata(f: Fetcher, modulePath: string, version: string): (r: Result<ModuleMetadata>)
    ensures r.Err? <==> FetchProxyInfo(f, modulePath, version).Err?
    ensures r.Ok? ==>
      && r.value.lastCommitDate == FetchProxyInfo(f, modulePath, version).value.time
      && r.value.versionCount == 0
      && r.value.repositoryURL == (if f.config.fetchRepoMetadata then GetRepoURL(modulePath) else "")
      && r.value.stars == 0 && r.value.forks == 0 && r.value.openIssues == 0
      && r.value.contributors == 0 && r.value.commitFrequency == 0.0
  {
    match FetchProxyInfo(f, modulePath, version)
    case Err(e) => Err("failed to fetch proxy info: " + e)
    case Ok(info) =>
      var dated := EmptyMetadata.(lastCommitDate := info.time);
      var counted := match FetchVersionList(f, modulePath)
        case Ok(versions) => dated.(versionCount := |versions|)
        case Err(_) => dated;
      if f.config.fetchRepoMetadata && GetRepoURL(modulePath) != "" then
        Ok(counted.(repositoryURL := GetRepoURL(modulePath)))
      else Ok(counted)
  }

  /** `FetchModuleMetadata`: starts from an empty record and fills it in step by step. */
  method FetchModuleMetadata(f: Fetcher, modulePath: string, version: string) returns (r: Result<ModuleMetadata>)
    ensures r == FetchedMetadata(f, modulePath, version)
  {
    var meta := EmptyMetadata;
    var proxyInfo := FetchProxyInfo(f, modulePath, version);
    if proxyInfo.Err? {
      return Err("failed to fetch proxy info: " + proxyInfo.error);
    }
    meta := meta.(lastCommitDate := proxyInfo.value.time);
    var versions := FetchVersionList(f, modulePath);
    if versions.Ok? {
      meta := meta.(versionCount := |versions.value|);
    }
    if f.config.fetchRepoMetadata {
      var repoURL := GetRepoURL(modulePath);
      if repoURL != "" {
        meta := meta.(repositoryURL := repoURL);
      }
    }
    return Ok(meta);
  }
}
