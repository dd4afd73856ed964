/**
 * The dependency checks: the manifest's `dependencies` and `devDependencies`
 * are merged (a development entry wins on the same name), every entry is
 * checked against the deprecated-package list and for wildcard versions,
 * the two packages with known advisories (lodash, axios) are reported
 * whatever their version, and the licence check reports nothing.
 *
 * Reading and parsing `package.json` is outside the model: the manifest
 * arrives as a `Result`, `Err` standing for a missing or unparsable file.
 * Any failure is swallowed and the issues gathered until then are returned.
 */
module Dependencies {
  import opened Wrappers
  import opened Types
  import opened Text
  import opened OrderedMaps

  /**
   * A manifest's version field: a string, or some other JSON value (a number,
   * a boolean, null or an object), which has no `includes` method.
   */
  datatype Version = Str(s: string) | NonString

  /** The two dependency tables of a parsed manifest; an absent table spreads to nothing. */
  datatype PackageJson = PackageJson(dependencies: Option<Entries<Version>>, devDependencies: Option<Entries<Version>>)

  /** One advisory of the built-in vulnerability table. */
  datatype Vulnerability = Vulnerability(
    severity: string,
    title: string,
    description: string,
    affectedVersions: string,
    patchedVersions: string,
    cve: Option<string>,
    url: Option<string>)

  // ---------------------------------------------------------------------------
  // Merging the two tables
  // ---------------------------------------------------------------------------

  function Table(t: Option<Entries<Version>>): Entries<Version>
  {
    if t.Some? then t.value else []
  }

  /** `{ ...a, ...b }`: `b`'s entries are set into `a` one by one. */
  function Spread(a: Entries<Version>, b: Entries<Version>): Entries<Version>
  {
    if b == [] then a
    else Set(Spread(a, b[..|b| - 1]), b[|b| - 1].0, b[|b| - 1].1)
  }

  /** The merged table the analysis walks. */
  function MergeDependencies(pkg: PackageJson): Entries<Version>
  {
    Spread(Table(pkg.dependencies), Table(pkg.devDependencies))
  }

  lemma KeyedPrefix<V>(m: Entries<V>, n: nat)
    requires Keyed(m) && n <= |m|
    ensures Keyed(m[..n])
  {
  }

  /** A name is found in the spread exactly where it is found in `b`, else where it is found in `a`. */
  lemma {:induction false} SpreadGet(a: Entries<Version>, b: Entries<Version>, k: string)
    requires Keyed(a) && Keyed(b)
    ensures Keyed(Spread(a, b))
    ensures Get(Spread(a, b), k) == if Get(b, k).Some? then Get(b, k) else Get(a, k)
    decreases |b|
  {
    if b != [] {
      var init, last := b[..|b| - 1], b[|b| - 1];
      KeyedPrefix(b, |b| - 1);
      SpreadGet(a, init, k);
      SetGet(Spread(a, init), last.0, last.1, k);
      GetSnoc(b, k);
    }
  }

  /** In a keyed table the last entry is found under its own name only. */
  lemma GetSnoc<V>(b: Entries<V>, k: string)
    requires Keyed(b) && b != []
    ensures Get(b, k) == if k == b[|b| - 1].0 then Some(b[|b| - 1].1) else Get(b[..|b| - 1], k)
  {
    var init, last := b[..|b| - 1], b[|b| - 1];
    assert b == init + [last];
    assert last.0 !in Keys(init) by {
      forall j | 0 <= j < |init| ensures Keys(init)[j] != last.0 {
        assert init[j] == b[j];
      }
    }
    GetAppend(init, last.0, last.1, k);
  }

  /** The entries of `a` keep their places at the front of the spread. */
  lemma {:induction false} SpreadKeepsOrder(a: Entries<Version>, b: Entries<Version>)
    ensures |Spread(a, b)| >= |a|
    ensures Keys(Spread(a, b))[..|a|] == Keys(a)
    decreases |b|
  {
    if b != [] {
      var s := Spread(a, b[..|b| - 1]);
      SpreadKeepsOrder(a, b[..|b| - 1]);
      var r := Set(s, b[|b| - 1].0, b[|b| - 1].1);
      if b[|b| - 1].0 !in Keys(s) {
        assert Keys(r)[..|a|] == Keys(s)[..|a|];
      }
    }
  }

  /** The merged table: keyed, development versions winning, production order kept. */
  lemma MergeDependenciesGet(pkg: PackageJson, name: string)
    requires Keyed(Table(pkg.dependencies)) && Keyed(Table(pkg.devDependencies))
    ensures Keyed(MergeDependencies(pkg))
    ensures Get(MergeDependencies(pkg), name) ==
              if Get(Table(pkg.devDependencies), name).Some? then Get(Table(pkg.devDependencies), name)
              else Get(Table(pkg.dependencies), name)
    ensures |MergeDependencies(pkg)| >= |Table(pkg.dependencies)|
    ensures Keys(MergeDependencies(pkg))[..|Table(pkg.dependencies)|] == Keys(Table(pkg.dependencies))
  {
    SpreadGet(Table(pkg.dependencies), Table(pkg.devDependencies), name);
    SpreadKeepsOrder(Table(pkg.dependencies), Table(pkg.devDependencies));
  }

  // ---------------------------------------------------------------------------
  // One dependency
  // ---------------------------------------------------------------------------

  const DeprecatedPackages: seq<string> := ["request", "node-uuid", "coffee-script", "colors", "faker", "moment"]

  const FallbackAlternative: string := "Find alternative package"

  /** `getAlternative`: the replacement advice for a deprecated package. */
  function Alternative(packageName: string): string
  {
    if packageName == "request" then "Use axios or node-fetch instead"
    else if packageName == "node-uuid" then "Use uuid package instead"
    else if packageName == "coffee-script" then "Migrate to JavaScript/TypeScript"
    else if packageName == "colors" then "Use chalk instead"
    else if packageName == "faker" then "Use @faker-js/faker instead"
    else if packageName == "moment" then "Use dayjs or date-fns instead (smaller bundle)"
    else FallbackAlternative
  }

  /** Every deprecated package has its own advice, and no other name has any. */
  lemma AlternativeCoversDeprecated(packageName: string)
    ensures Alternative(packageName) != FallbackAlternative <==> packageName in DeprecatedPackages
  {
    if packageName in DeprecatedPackages {
      var i :| 0 <= i < |DeprecatedPackages| && DeprecatedPackages[i] == packageName;
      assert i < 6;
    }
  }

  /** The manifest line a dependency issue quotes; a non-string version never reaches it. */
  function Snippet(name: string, version: string): string
  {
    "\"" + name + "\": \"" + version + "\""
  }

  const DeprecatedDescription: string := "This package is no longer maintained"
  const WildcardDescription: string := "Using wildcard versions can lead to unexpected breaking changes"
  const WildcardSuggestion: string := "Use specific version or version range"

  function DeprecatedIssue(name: string, version: string, filePath: string): Issue
  {
    Issue(SeverityTag(WARNING), CategoryTag(MAINTAINABILITY), "deprecated-dependency",
          "Package \"" + name + "\" is deprecated", Some(DeprecatedDescription), filePath, 1, 0,
          Snippet(name, version), Some(Alternative(name)), false, None, None, 100)
  }

  function WildcardIssue(name: string, version: string, filePath: string): Issue
  {
    Issue(SeverityTag(WARNING), CategoryTag(BEST_PRACTICE), "wildcard-version",
          "Wildcard version detected for \"" + name + "\"", Some(WildcardDescription), filePath, 1, 0,
          Snippet(name, version), Some(WildcardSuggestion), false, None, None, 95)
  }

  /** The version test: a '*' or an 'x' anywhere. */
  predicate IsWildcard(version: string)
  {
    '*' in version || 'x' in version
  }

  /**
   * `checkDependency`: the deprecation issue, then the wildcard issue. A
   * version that is not a string throws at `includes`, after the
   * deprecation test but before anything is returned.
   */
  function CheckDependency(name: string, version: Version, filePath: string): Result<seq<Issue>>
  {
    if version.NonString? then Err("version.includes is not a function")
    else
      var deprecated := if name in DeprecatedPackages then [DeprecatedIssue(name, version.s, filePath)] else [];
      Ok(deprecated + if IsWildcard(version.s) then [WildcardIssue(name, version.s, filePath)] else [])
  }

  /** A dependency gets a deprecation issue exactly when listed, and a wildcard issue exactly for '*' or 'x'. */
  lemma CheckDependencyIssues(name: string, version: Version, filePath: string)
    ensures CheckDependency(name, version, filePath).Ok? <==> version.Str?
    ensures version.Str? ==>
      var issues := CheckDependency(name, version, filePath).value;
      |issues| <= 2 &&
      (exists i :: 0 <= i < |issues| && issues[i].rule == "deprecated-dependency") == (name in DeprecatedPackages) &&
      (exists i :: 0 <= i < |issues| && issues[i].rule == "wildcard-version") == (('*' in version.s) || ('x' in version.s)) &&
      (forall i :: 0 <= i < |issues| && issues[i].rule == "deprecated-dependency" ==>
         issues[i].suggestion == Some(Alternative(name)) && issues[i].confidence == 100) &&
      (forall i :: 0 <= i < |issues| ==> issues[i].severity == "warning" && issues[i].line == 1)
  {
    if version.Str? {
      var issues := CheckDependency(name, version, filePath).value;
      if name in DeprecatedPackages {
        assert issues[0].rule == "deprecated-dependency";
      }
      if IsWildcard(version.s) {
        assert issues[|issues| - 1].rule == "wildcard-version";
      }
    }
  }

  // ---------------------------------------------------------------------------
  // Known vulnerabilities
  // ---------------------------------------------------------------------------

  /** `mapVulnSeverity`. */
  function MapVulnSeverity(severity: string): Severity
  {
    if severity == "low" then INFO
    else if severity == "moderate" then WARNING
    else if severity == "high" then ERROR
    else if severity == "critical" then CRITICAL
    else WARNING
  }

  /** The advisory level that names each severity. */
  function VulnLevel(s: Severity): string
  {
    match s
    case INFO => "low"
    case WARNING => "moderate"
    case ERROR => "high"
    case CRITICAL => "critical"
  }

  /** The four advisory levels and the four severities correspond one to one; any other level is a warning. */
  lemma MapVulnSeverityInverse(level: string, s: Severity)
    ensures MapVulnSeverity(VulnLevel(s)) == s
    ensures level in {"low", "moderate", "high", "critical"} ==> VulnLevel(MapVulnSeverity(level)) == level
    ensures level !in {"low", "moderate", "high", "critical"} ==> MapVulnSeverity(level) == WARNING
  {
  }

  /**
   * What `knownVulnerabilities[name]` yields: the listed advisories, nothing,
   * or a member every object inherits (truthy, without `forEach`).
   */
  datatype Advisories = Listed(vulns: seq<Vulnerability>) | Unlisted | Inherited

  /** The property names every object literal inherits. */
  const InheritedNames: seq<string> := [
    "constructor", "hasOwnProperty", "isPrototypeOf", "propertyIsEnumerable", "toLocaleString",
    "toString", "valueOf", "__proto__", "__defineGetter__", "__defineSetter__",
    "__lookupGetter__", "__lookupSetter__"]

  const LodashAdvisory: Vulnerability := Vulnerability(
    "high", "Prototype Pollution", "Lodash versions before 4.17.21 are vulnerable",
    "<4.17.21", ">=4.17.21", Some("CVE-2021-23337"), Some("https://nvd.nist.gov/vuln/detail/CVE-2021-23337"))

  const AxiosAdvisory: Vulnerability := Vulnerability(
    "moderate", "SSRF via URL parsing", "Axios versions < 1.6.0 vulnerable to SSRF",
    "<1.6.0", ">=1.6.0", Some("CVE-2023-45857"), Some("https://nvd.nist.gov/vuln/detail/CVE-2023-45857"))

  function KnownVulnerabilities(name: string): Advisories
  {
    if name == "lodash" then Listed([LodashAdvisory])
    else if name == "axios" then Listed([AxiosAdvisory])
    else if name in InheritedNames then Inherited
    else Unlisted
  }

  /** Only an inherited name makes the lookup yield an inherited member. */
  lemma InheritedLookup(name: string)
    ensures KnownVulnerabilities(name).Inherited? <==> name in InheritedNames
  {
    assert "lodash" !in InheritedNames && "axios" !in InheritedNames;
  }

  /** `vuln.cve || 'N/A'`: an absent or empty identifier reads N/A. */
  function CveText(cve: Option<string>): string
  {
    if cve.Some? && cve.value != "" then cve.value else "N/A"
  }

  const VulnerableRule: string := "vulnerable-dependency"

  function VulnIssue(name: string, version: string, vuln: Vulnerability): Issue
  {
    Issue(SeverityTag(MapVulnSeverity(vuln.severity)), CategoryTag(SECURITY), VulnerableRule,
          name + " has known vulnerability: " + vuln.title,
          Some(vuln.description + "\nCVE: " + CveText(vuln.cve)), "package.json", 1, 0,
          Snippet(name, version), Some("Update to " + vuln.patchedVersions), true, None,
          Some(if vuln.url.Some? && vuln.url.value != "" then [vuln.url.value] else []), 100)
  }

  /** The issues for one dependency's advisories, in table order. */
  function AdvisoryIssues(name: string, version: string, vulns: seq<Vulnerability>): (r: seq<Issue>)
    ensures |r| == |vulns|
    ensures forall j :: 0 <= j < |r| ==> r[j] == VulnIssue(name, version, vulns[j])
  {
    seq(|vulns|, j requires 0 <= j < |vulns| => VulnIssue(name, version, vulns[j]))
  }

  /** The issues `checkVulnerabilities` reports for the first entries of a table of string versions. */
  function VulnerabilityIssues(deps: Entries<string>): Result<seq<Issue>>
  {
    if deps == [] then Ok([])
    else
      match VulnerabilityIssues(deps[..|deps| - 1])
      case Err(e) => Err(e)
      case Ok(before) =>
        var (name, version) := deps[|deps| - 1];
        match KnownVulnerabilities(name)
        case Listed(vulns) => Ok(before + AdvisoryIssues(name, version, vulns))
        case Unlisted => Ok(before)
        case Inherited => Err("vulns.forEach is not a function")
  }

  /** `checkVulnerabilities`. */
  method CheckVulnerabilities(deps: Entries<string>) returns (r: Result<seq<Issue>>)
    ensures r == VulnerabilityIssues(deps)
  {
    var issues: seq<Issue> := [];
    for i := 0 to |deps|
      invariant VulnerabilityIssues(deps[..i]) == Ok(issues)
    {
      assert deps[..i + 1][..i] == deps[..i];
      var (name, version) := deps[i];
      match KnownVulnerabilities(name)
      case Listed(vulns) =>
        issues := issues + AdvisoryIssues(name, version, vulns);
      case Unlisted =>
      case Inherited =>
        VulnerabilityIssuesStop(deps, i + 1);
        return Err("vulns.forEach is not a function");
    }
    assert deps[..|deps|] == deps;
    return Ok(issues);
  }

  /** Once the check has thrown, the later entries change nothing. */
  lemma {:induction false} VulnerabilityIssuesStop(deps: Entries<string>, n: nat)
    requires 0 < n <= |deps|
    requires VulnerabilityIssues(deps[..n]).Err?
    ensures VulnerabilityIssues(deps) == VulnerabilityIssues(deps[..n])
    decreases |deps| - n
  {
    if n < |deps| {
      assert deps[..n + 1][..n] == deps[..n];
      VulnerabilityIssuesStop(deps, n + 1);
    } else {
      assert deps[..n] == deps;
    }
  }

  /** The number of entries named lodash or axios: each has exactly one advisory. */
  function CountAdvised(deps: Entries<string>): nat
  {
    if deps == [] then 0
    else CountAdvised(deps[..|deps| - 1]) + (if deps[|deps| - 1].0 in {"lodash", "axios"} then 1 else 0)
  }

  /** The check throws exactly when some name is an inherited property. */
  lemma {:induction false} VulnerabilityIssuesFail(deps: Entries<string>)
    ensures VulnerabilityIssues(deps).Err? <==> exists i :: 0 <= i < |deps| && deps[i].0 in InheritedNames
  {
    if deps != [] {
      var init := deps[..|deps| - 1];
      VulnerabilityIssuesFail(init);
      assert forall i :: 0 <= i < |init| ==> init[i] == deps[i];
      InheritedLookup(deps[|deps| - 1].0);
    }
  }

  /** One vulnerable-dependency issue per lodash or axios entry, whatever its version. */
  lemma {:induction false} VulnerabilityIssuesCount(deps: Entries<string>)
    requires VulnerabilityIssues(deps).Ok?
    ensures |VulnerabilityIssues(deps).value| == CountAdvised(deps)
    ensures forall j :: 0 <= j < |VulnerabilityIssues(deps).value| ==>
              VulnerabilityIssues(deps).value[j].rule == VulnerableRule
  {
    if deps != [] {
      VulnerabilityIssuesCount(deps[..|deps| - 1]);
    }
  }

  /** `checkLicenses`: the licence check has no data to check against and reports nothing. */
  function CheckLicenses(deps: Entries<Version>, filePath: string): seq<Issue>
  {
    []
  }

  // ---------------------------------------------------------------------------
  // The whole analysis
  // ---------------------------------------------------------------------------

  /** The versions of a table all of whose versions are strings. */
  function Strings(deps: Entries<Version>): (r: Entries<string>)
    requires forall i :: 0 <= i < |deps| ==> deps[i].1.Str?
    ensures |r| == |deps|
    ensures forall i :: 0 <= i < |deps| ==> r[i] == (deps[i].0, deps[i].1.s)
  {
    seq(|deps|, i requires 0 <= i < |deps| => (deps[i].0, deps[i].1.s))
  }

  /**
   * The dependency loop over the first entries: the issues gathered, and
   * whether every entry was checked without throwing.
   */
  function DependencyLoop(deps: Entries<Version>, filePath: string): (r: (seq<Issue>, bool))
    ensures r.1 <==> forall i :: 0 <= i < |deps| ==> deps[i].1.Str?
  {
    if deps == [] then ([], true)
    else
      var (before, ok) := DependencyLoop(deps[..|deps| - 1], filePath);
      if !ok then (before, false)
      else
        var (name, version) := deps[|deps| - 1];
        match CheckDependency(name, version, filePath)
        case Ok(issues) => (before + issues, true)
        case Err(_) => (before, false)
  }

  /** `analyzeDependencies`, from the parsed manifest and its path. */
  function DependencyIssues(manifest: Result<PackageJson>, packageJsonPath: string): seq<Issue>
  {
    if manifest.Err? then []
    else
      var deps := MergeDependencies(manifest.value);
      var (issues, ok) := DependencyLoop(deps, packageJsonPath);
      if !ok then issues
      else
        match VulnerabilityIssues(Strings(deps))
        case Err(_) => issues
        case Ok(vulns) => issues + vulns + CheckLicenses(deps, packageJsonPath)
  }

  /** `analyzeDependencies`: every failure ends the analysis with what was gathered so far. */
  method AnalyzeDependencies(manifest: Result<PackageJson>, packageJsonPath: string) returns (issues: seq<Issue>)
    ensures issues == DependencyIssues(manifest, packageJsonPath)
  {
    issues := [];
    if manifest.Err? {
      return;
    }
    var deps := MergeDependencies(manifest.value);
    for i := 0 to |deps|
      invariant DependencyLoop(deps[..i], packageJsonPath) == (issues, true)
    {
      assert deps[..i + 1][..i] == deps[..i];
      var depIssues := CheckDependency(deps[i].0, deps[i].1, packageJsonPath);
      if depIssues.Err? {
        DependencyLoopStops(deps, i + 1, packageJsonPath);
        return;
      }
      issues := issues + depIssues.value;
    }
    assert deps[..|deps|] == deps;
    var vulnerable := CheckVulnerabilities(Strings(deps));
    if vulnerable.Err? {
      return;
    }
    issues := issues + vulnerable.value;
    issues := issues + CheckLicenses(deps, packageJsonPath);
  }

  /** Once an entry has thrown, the later entries add nothing. */
  lemma {:induction false} DependencyLoopStops(deps: Entries<Version>, n: nat, filePath: string)
    requires 0 < n <= |deps|
    requires !DependencyLoop(deps[..n], filePath).1
    ensures DependencyLoop(deps, filePath) == DependencyLoop(deps[..n], filePath)
    decreases |deps| - n
  {
    if n < |deps| {
      assert deps[..n + 1][..n] == deps[..n];
      DependencyLoopStops(deps, n + 1, filePath);
    } else {
      assert deps[..n] == deps;
    }
  }

  /**
   * A failure is swallowed: an entry whose version is not a string ends the
   * analysis with exactly the issues of the entries before it.
   */
  lemma FailureKeepsEarlierIssues(pkg: PackageJson, packageJsonPath: string, k: nat)
    requires k < |MergeDependencies(pkg)|
    requires MergeDependencies(pkg)[k].1.NonString?
    requires forall i :: 0 <= i < k ==> MergeDependencies(pkg)[i].1.Str?
    ensures DependencyIssues(Ok(pkg), packageJsonPath) == DependencyLoop(MergeDependencies(pkg)[..k], packageJsonPath).0
  {
    var deps := MergeDependencies(pkg);
    assert deps[..k + 1][..k] == deps[..k];
    var before := DependencyLoop(deps[..k], packageJsonPath);
    assert before.1;
    assert DependencyLoop(deps[..k + 1], packageJsonPath) == (before.0, false);
    DependencyLoopStops(deps, k + 1, packageJsonPath);
  }

  /**
   * When every version is a string and no name is inherited, the result is
   * the per-entry issues in table order followed by one advisory issue per
   * lodash or axios entry.
   */
  lemma CompleteAnalysis(pkg: PackageJson, packageJsonPath: string)
    requires forall i :: 0 <= i < |MergeDependencies(pkg)| ==> MergeDependencies(pkg)[i].1.Str?
    requires forall i :: 0 <= i < |MergeDependencies(pkg)| ==> MergeDependencies(pkg)[i].0 !in InheritedNames
    ensures var deps := MergeDependencies(pkg);
            var issues := DependencyIssues(Ok(pkg), packageJsonPath);
            issues[..|DependencyLoop(deps, packageJsonPath).0|] == DependencyLoop(deps, packageJsonPath).0 &&
            |issues| == |DependencyLoop(deps, packageJsonPath).0| + CountAdvised(Strings(deps))
  {
    var deps := MergeDependencies(pkg);
    var strings := Strings(deps);
    assert forall i :: 0 <= i < |strings| ==> strings[i].0 == deps[i].0;
    VulnerabilityIssuesFail(strings);
    VulnerabilityIssuesCount(strings);
  }
}
