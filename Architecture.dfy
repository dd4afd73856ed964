/**
 * The project-level architecture checks: pattern detection and the
 * anti-pattern and organisation heuristics over the list of file paths,
 * and the two complexity counters over a piece of code.
 *
 * The decision-point counts of the cyclomatic measure come from regular
 * expressions and are passed in; the control-keyword test of the cognitive
 * measure is modelled as a whole-word search.
 */
module Architecture {
  import opened Wrappers
  import opened Types
  import opened Text
  import opened OrderedMaps

  datatype ArchitecturePattern = ArchitecturePattern(name: string, detected: bool, confidence: int, violations: seq<string>)

  /** `files.some(f => f.includes(p))`. */
  predicate SomeContains(files: seq<string>, p: string)
  {
    exists i :: 0 <= i < |files| && Contains(files[i], p)
  }

  /** `files.filter(f => f.includes(p)).length`. */
  function CountContaining(files: seq<string>, p: string): (n: nat)
    ensures n <= |files|
    ensures n > 0 <==> SomeContains(files, p)
  {
    if files == [] then 0
    else
      var init := files[..|files| - 1];
      assert forall i :: 0 <= i < |init| ==> init[i] == files[i];
      CountContaining(init, p) + (if Contains(files[|files| - 1], p) then 1 else 0)
  }

  predicate HasMVC(files: seq<string>)
  {
    SomeContains(files, "/models/") && SomeContains(files, "/views/") && SomeContains(files, "/controllers/")
  }

  predicate HasMicroservices(files: seq<string>)
  {
    SomeContains(files, "/services/") && CountContaining(files, "service") > 3
  }

  predicate HasLayers(files: seq<string>)
  {
    SomeContains(files, "/domain/") && SomeContains(files, "/application/") && SomeContains(files, "/infrastructure/")
  }

  /** Some detected pattern carries the name `name`. */
  predicate Detected(patterns: seq<ArchitecturePattern>, name: string)
  {
    exists k :: 0 <= k < |patterns| && patterns[k].name == name
  }

  lemma DetectedAppend(a: seq<ArchitecturePattern>, b: seq<ArchitecturePattern>, name: string)
    ensures Detected(a + b, name) <==> Detected(a, name) || Detected(b, name)
  {
    if Detected(a + b, name) {
      var k :| 0 <= k < |a + b| && (a + b)[k].name == name;
      if k >= |a| {
        assert b[k - |a|].name == name;
      }
    }
    if Detected(b, name) {
      var k :| 0 <= k < |b| && b[k].name == name;
      assert (a + b)[|a| + k] == b[k];
    }
    if Detected(a, name) {
      var k :| 0 <= k < |a| && a[k].name == name;
      assert (a + b)[k] == a[k];
    }
  }

  lemma DetectedSingle(p: ArchitecturePattern, name: string)
    ensures Detected([p], name) <==> p.name == name
    ensures !Detected([], name)
  {
    if p.name == name {
      assert [p][0].name == name;
    }
  }

  /** The pattern present when `present` holds, and nothing otherwise. */
  function PatternIf(present: bool, p: ArchitecturePattern): seq<ArchitecturePattern>
  {
    if present then [p] else []
  }

  lemma PatternIfDetected(present: bool, p: ArchitecturePattern, name: string)
    ensures Detected(PatternIf(present, p), name) <==> present && p.name == name
  {
    DetectedSingle(p, name);
  }

  /** `detectPatterns`: MVC, Microservices and Layered Architecture, each when its directories are present. */
  function DetectPatterns(files: seq<string>): (r: seq<ArchitecturePattern>)
    ensures forall k :: 0 <= k < |r| ==> r[k].detected && r[k].violations == [] && 0 <= r[k].confidence <= 100
  {
    PatternIf(HasMVC(files), ArchitecturePattern("MVC", true, 90, []))
    + PatternIf(HasMicroservices(files), ArchitecturePattern("Microservices", true, 80, []))
    + PatternIf(HasLayers(files), ArchitecturePattern("Layered Architecture", true, 85, []))
  }

  lemma DetectPatternsName(files: seq<string>, name: string)
    ensures Detected(DetectPatterns(files), name) <==>
              (name == "MVC" && HasMVC(files))
              || (name == "Microservices" && HasMicroservices(files))
              || (name == "Layered Architecture" && HasLayers(files))
  {
    var mvc := PatternIf(HasMVC(files), ArchitecturePattern("MVC", true, 90, []));
    var micro := PatternIf(HasMicroservices(files), ArchitecturePattern("Microservices", true, 80, []));
    var layers := PatternIf(HasLayers(files), ArchitecturePattern("Layered Architecture", true, 85, []));
    PatternIfDetected(HasMVC(files), ArchitecturePattern("MVC", true, 90, []), name);
    PatternIfDetected(HasMicroservices(files), ArchitecturePattern("Microservices", true, 80, []), name);
    PatternIfDetected(HasLayers(files), ArchitecturePattern("Layered Architecture", true, 85, []), name);
    DetectedAppend(mvc, micro, name);
    DetectedAppend(mvc + micro, layers, name);
  }

  /** Each of the three patterns is reported exactly when its directories are present. */
  lemma DetectPatternsReported(files: seq<string>)
    ensures Detected(DetectPatterns(files), "MVC") <==> HasMVC(files)
    ensures Detected(DetectPatterns(files), "Microservices") <==> HasMicroservices(files)
    ensures Detected(DetectPatterns(files), "Layered Architecture") <==> HasLayers(files)
  {
    DetectPatternsName(files, "MVC");
    DetectPatternsName(files, "Microservices");
    DetectPatternsName(files, "Layered Architecture");
  }

  // ---------------------------------------------------------------- god-directory

  // The fixed texts of the architecture issues.
  const GodDirectoryDescription: string := "Large directories are hard to maintain. Consider splitting into subdirectories"
  const GodDirectorySuggestion: string := "Split into logical subdirectories"
  const FlatMessage: string := "Project structure is too flat"
  const FlatDescription: string := "Consider organizing code into logical modules/packages"
  const FlatSuggestion: string := "Organize into modules: features, common, utils, etc."
  const TestOrganizationMessage: string := "Consider organizing tests in dedicated directories"
  const TestOrganizationDescription: string := "Tests scattered across project. Better to centralize"
  const TestOrganizationSnippet: string := "Multiple test files without test directory"
  const TestOrganizationSuggestion: string := "Create __tests__ directories or centralized tests folder"
  const ConfigOrganizationMessage: string := "Many config files in root directory"
  const ConfigOrganizationDescription: string := "Consider organizing config files in a dedicated directory"
  const ConfigOrganizationSuggestion: string := "Create /config directory for configuration files"


  /** The directory key of a path: the text before its last '/', or "" when it has none. */
  function DirOf(file: string): (r: string)
    ensures '/' !in file ==> r == ""
    ensures '/' in file ==> |r| < |file| && file[|r|] == '/' && r == file[..|r|] && '/' !in file[|r| + 1..]
  {
    var k := LastIndexOf(file, '/', |file|);
    assert '/' in file ==> k >= 0;
    JsSubstring(file, 0, k)
  }

  /** The number of paths whose directory key is `dir`. */
  function CountDir(files: seq<string>, dir: string): nat
  {
    if files == [] then 0
    else CountDir(files[..|files| - 1], dir) + (if DirOf(files[|files| - 1]) == dir then 1 else 0)
  }

  /** `directoryCounts.get(dir) || 0`. */
  function Current(counts: Entries<int>, dir: string): int
  {
    match Get(counts, dir)
    case Some(n) => n
    case None => 0
  }

  /** One step of the counting loop: add one to the count of `dir`, starting it at 1. */
  function Tally(counts: Entries<int>, dir: string): Entries<int>
  {
    Set(counts, dir, Current(counts, dir) + 1)
  }

  /** `directoryCounts` after the paths `files`, directories in first-seen order. */
  function DirCounts(files: seq<string>): Entries<int>
  {
    if files == [] then [] else Tally(DirCounts(files[..|files| - 1]), DirOf(files[|files| - 1]))
  }

  lemma TallyCurrent(counts: Entries<int>, d: string, dir: string)
    requires Keyed(counts)
    ensures Keyed(Tally(counts, d))
    ensures Current(Tally(counts, d), dir) == Current(counts, dir) + (if dir == d then 1 else 0)
  {
    SetGet(counts, d, Current(counts, d) + 1, dir);
  }

  /** Each directory key is mapped to its number of paths. */
  lemma {:induction false} DirCountsCurrent(files: seq<string>, dir: string)
    ensures Keyed(DirCounts(files))
    ensures Current(DirCounts(files), dir) == CountDir(files, dir)
  {
    if files != [] {
      var init := files[..|files| - 1];
      DirCountsCurrent(init, dir);
      TallyCurrent(DirCounts(init), DirOf(files[|files| - 1]), dir);
    }
  }

  function GodDirectoryIssue(dir: string, count: nat): Issue
  {
    Issue(SeverityTag(WARNING), CategoryTag(MAINTAINABILITY), "god-directory",
          "Directory \"" + dir + "\" contains too many files (" + NatToString(count) + ")",
          Some(GodDirectoryDescription),
          dir, 1, 0, NatToString(count) + " files in one directory", Some(GodDirectorySuggestion),
          false, None, None, 90)
  }

  /** The second half of the god-object check: one issue per directory with more than 50 paths, in map order. */
  function GodIssues(counts: Entries<int>): seq<Issue>
  {
    if counts == [] then []
    else
      var last := counts[|counts| - 1];
      GodIssues(counts[..|counts| - 1]) + (if last.1 > 50 then [GodDirectoryIssue(last.0, last.1)] else [])
  }

  /** The `file` fields of a list of issues. */
  function IssueFiles(issues: seq<Issue>): (r: seq<string>)
    ensures |r| == |issues|
    ensures forall k :: 0 <= k < |r| ==> r[k] == issues[k].file
  {
    seq(|issues|, k requires 0 <= k < |issues| => issues[k].file)
  }

  /** Some entry of the map counts more than 50 paths for `dir`. */
  predicate Large(counts: Entries<int>, dir: string)
  {
    exists e :: e in counts && e.0 == dir && e.1 > 50
  }

  lemma LargeSnoc(init: Entries<int>, e: (string, int), dir: string)
    ensures Large(init + [e], dir) <==> Large(init, dir) || (e.0 == dir && e.1 > 50)
  {
    if Large(init + [e], dir) {
      var e' :| e' in init + [e] && e'.0 == dir && e'.1 > 50;
      assert e' in init || e' == e;
    }
    if Large(init, dir) {
      var e' :| e' in init && e'.0 == dir && e'.1 > 50;
      assert e' in init + [e];
    }
    if e.0 == dir && e.1 > 50 {
      assert e in init + [e];
    }
  }

  lemma LargeLast(counts: Entries<int>, dir: string)
    requires counts != []
    ensures Large(counts, dir) <==>
              Large(counts[..|counts| - 1], dir) || (counts[|counts| - 1].0 == dir && counts[|counts| - 1].1 > 50)
  {
    assert counts == counts[..|counts| - 1] + [counts[|counts| - 1]];
    LargeSnoc(counts[..|counts| - 1], counts[|counts| - 1], dir);
  }

  lemma IssueFilesAppend(a: seq<Issue>, b: seq<Issue>, file: string)
    ensures file in IssueFiles(a + b) <==> file in IssueFiles(a) || file in IssueFiles(b)
  {
    assert IssueFiles(a + b) == IssueFiles(a) + IssueFiles(b);
  }

  lemma {:induction false} GodIssuesFiles(counts: Entries<int>, dir: string)
    ensures dir in IssueFiles(GodIssues(counts)) <==> Large(counts, dir)
  {
    if counts != [] {
      var init, e := counts[..|counts| - 1], counts[|counts| - 1];
      GodIssuesFiles(init, dir);
      var here := if e.1 > 50 then [GodDirectoryIssue(e.0, e.1)] else [];
      IssueFilesAppend(GodIssues(init), here, dir);
      LargeLast(counts, dir);
    }
  }

  /** A directory is reported exactly when more than 50 of the paths lie directly in it. */
  lemma GodDirectoryReported(files: seq<string>, dir: string)
    ensures dir in IssueFiles(GodIssues(DirCounts(files))) <==> CountDir(files, dir) > 50
  {
    var counts := DirCounts(files);
    GodIssuesFiles(counts, dir);
    DirCountsCurrent(files, dir);
    if Large(counts, dir) {
      var e :| e in counts && e.0 == dir && e.1 > 50;
      EntryInKeyed(counts, e);
    }
    if CountDir(files, dir) > 50 {
      var v :| Get(counts, dir) == Some(v);
      EntryInKeyed(counts, (dir, v));
    }
  }

  // ---------------------------------------------------------------- flat-structure

  /** The largest number of '/'-separated segments of a path; -1 stands for the maximum of no values. */
  function MaxDepth(files: seq<string>): (r: int)
    ensures forall i :: 0 <= i < |files| ==> |Split(files[i], '/')| <= r
    ensures files != [] ==> exists i :: 0 <= i < |files| && |Split(files[i], '/')| == r
    ensures files == [] ==> r == -1
  {
    if files == [] then -1
    else
      var init := files[..|files| - 1];
      var m := MaxDepth(init);
      var d := |Split(files[|files| - 1], '/')|;
      assert forall i :: 0 <= i < |init| ==> init[i] == files[i];
      if d > m then d else m
  }

  function FlatIssues(files: seq<string>): seq<Issue>
  {
    var maxDepth := MaxDepth(files);
    if maxDepth < 3 && |files| > 20 then
      [Issue(SeverityTag(WARNING), CategoryTag(MAINTAINABILITY), "flat-structure", FlatMessage,
             Some(FlatDescription), "project-root", 1, 0,
             "Max depth: " + IntToString(maxDepth) + " levels",
             Some(FlatSuggestion), false, None, None, 85)]
    else []
  }

  /** The project is reported flat exactly when it has more than 20 paths and none has two '/'s. */
  lemma FlatStructureReported(files: seq<string>)
    ensures |FlatIssues(files)| <= 1
    ensures |FlatIssues(files)| == 1 <==> |files| > 20 && forall i :: 0 <= i < |files| ==> Count(files[i], '/') < 2
  {
    if |files| > 20 && forall i :: 0 <= i < |files| ==> Count(files[i], '/') < 2 {
      var i :| 0 <= i < |files| && |Split(files[i], '/')| == MaxDepth(files);
    }
  }

  /** `detectAntiPatterns` as a value: the god directories in first-seen order, then the flat-structure issue. */
  function AntiPatterns(files: seq<string>): seq<Issue>
  {
    GodIssues(DirCounts(files)) + FlatIssues(files)
  }

  /** The counting loop of `detectAntiPatterns`. */
  method CountDirectories(files: seq<string>) returns (directoryCounts: Entries<int>)
    ensures directoryCounts == DirCounts(files)
  {
    directoryCounts := [];
    for i := 0 to |files|
      invariant directoryCounts == DirCounts(files[..i])
    {
      DirCountsSnoc(files, i);
      var file := files[i];
      var dir := DirOf(file);
      var previous := Current(directoryCounts, dir);
      directoryCounts := Set(directoryCounts, dir, previous + 1);
    }
    assert files[..|files|] == files;
  }

  lemma GodIssuesSnoc(counts: Entries<int>, k: nat)
    requires k < |counts|
    ensures GodIssues(counts[..k + 1]) ==
              GodIssues(counts[..k]) + (if counts[k].1 > 50 then [GodDirectoryIssue(counts[k].0, counts[k].1)] else [])
  {
    assert counts[..k + 1][..k] == counts[..k];
  }

  lemma DirCountsSnoc(files: seq<string>, i: nat)
    requires i < |files|
    ensures DirCounts(files[..i + 1]) == Tally(DirCounts(files[..i]), DirOf(files[i]))
  {
    assert files[..i + 1][..i] == files[..i];
  }

  /** The reporting loop of `detectAntiPatterns` over the directory counts. */
  method ReportGodDirectories(directoryCounts: Entries<int>) returns (issues: seq<Issue>)
    ensures issues == GodIssues(directoryCounts)
  {
    issues := [];
    for k := 0 to |directoryCounts|
      invariant issues == GodIssues(directoryCounts[..k])
    {
      GodIssuesSnoc(directoryCounts, k);
      var dir, count := directoryCounts[k].0, directoryCounts[k].1;
      if count > 50 {
        issues := issues + [GodDirectoryIssue(dir, count)];
      }
    }
    assert directoryCounts[..|directoryCounts|] == directoryCounts;
  }

  /** `detectAntiPatterns`: count the paths per directory, report the large ones, then the flat structure. */
  method DetectAntiPatterns(files: seq<string>) returns (issues: seq<Issue>)
    ensures issues == AntiPatterns(files)
  {
    var directoryCounts := CountDirectories(files);
    issues := ReportGodDirectories(directoryCounts);
    issues := issues + FlatIssues(files);
  }

  // ---------------------------------------------------------------- organisation

  predicate HasTests(files: seq<string>)
  {
    exists i :: 0 <= i < |files| && (Contains(files[i], ".test.") || Contains(files[i], ".spec."))
  }

  predicate HasTestDir(files: seq<string>)
  {
    exists i :: 0 <= i < |files| && (Contains(files[i], "/tests/") || Contains(files[i], "/__tests__/"))
  }

  /** A path mentions `config` or ends in one of the configuration extensions. */
  predicate ConfigLike(file: string)
  {
    Contains(file, "config")
    || EndsWith(file, ".json") || EndsWith(file, ".yaml") || EndsWith(file, ".yml")
    || EndsWith(file, ".env") || EndsWith(file, ".toml")
  }

  function CountConfigLike(files: seq<string>): (n: nat)
    ensures n <= |files|
  {
    if files == [] then 0
    else CountConfigLike(files[..|files| - 1]) + (if ConfigLike(files[|files| - 1]) then 1 else 0)
  }

  /** `checkCodeOrganization`: the test-organisation issue, then the config-organisation issue. */
  function CodeOrganization(files: seq<string>): (r: seq<Issue>)
    ensures |r| <= 2
    ensures (exists k :: 0 <= k < |r| && r[k].rule == "test-organization") <==> HasTests(files) && !HasTestDir(files)
    ensures (exists k :: 0 <= k < |r| && r[k].rule == "config-organization") <==>
              CountConfigLike(files) > 5 && !SomeContains(files, "/config/")
  {
    var tests :=
      if HasTests(files) && !HasTestDir(files) then
        [Issue(SeverityTag(INFO), CategoryTag(BEST_PRACTICE), "test-organization",
               TestOrganizationMessage,
               Some(TestOrganizationDescription), "project-root", 1, 0,
               TestOrganizationSnippet,
               Some(TestOrganizationSuggestion), false, None, None, 75)]
      else [];
    var configCount := CountConfigLike(files);
    var configs :=
      if configCount > 5 && !SomeContains(files, "/config/") then
        [Issue(SeverityTag(INFO), CategoryTag(BEST_PRACTICE), "config-organization", ConfigOrganizationMessage,
               Some(ConfigOrganizationDescription), "project-root", 1, 0,
               NatToString(configCount) + " config files",
               Some(ConfigOrganizationSuggestion), false, None, None, 70)]
      else [];
    assert |tests| == 1 ==> (tests + configs)[0] == tests[0];
    assert |configs| == 1 ==> (tests + configs)[|tests|] == configs[0];
    tests + configs
  }

  /** The rules `analyzeArchitecture` can report. */
  predicate ArchitectureRule(rule: string)
  {
    rule == "god-directory" || rule == "flat-structure" || rule == "test-organization" || rule == "config-organization"
  }

  /** Every issue is reported under one of the four rules, with a confidence in [0, 100]. */
  predicate WellFormed(issues: seq<Issue>)
  {
    forall k :: 0 <= k < |issues| ==> ArchitectureRule(issues[k].rule) && 0 <= issues[k].confidence <= 100
  }

  lemma {:induction false} GodIssuesWellFormed(counts: Entries<int>)
    ensures WellFormed(GodIssues(counts))
  {
    if counts != [] {
      var init := counts[..|counts| - 1];
      GodIssuesWellFormed(init);
      var here := if counts[|counts| - 1].1 > 50 then [GodDirectoryIssue(counts[|counts| - 1].0, counts[|counts| - 1].1)] else [];
      WellFormedAppend(GodIssues(init), here);
    }
  }

  lemma WellFormedAppend(a: seq<Issue>, b: seq<Issue>)
    requires WellFormed(a) && WellFormed(b)
    ensures WellFormed(a + b)
  {
    forall k | 0 <= k < |a + b| ensures ArchitectureRule((a + b)[k].rule) && 0 <= (a + b)[k].confidence <= 100 {
      if k < |a| {
        assert (a + b)[k] == a[k];
      } else {
        assert (a + b)[k] == b[k - |a|];
      }
    }
  }

  /**
   * `analyzeArchitecture`: anti-pattern issues, then organisation issues,
   * then the circular-dependency check, which finds nothing. The detected
   * patterns are computed and dropped.
   */
  method AnalyzeArchitecture(files: seq<string>) returns (issues: seq<Issue>)
    ensures issues == AntiPatterns(files) + CodeOrganization(files)
    ensures WellFormed(issues)
  {
    var _ := DetectPatterns(files);
    var antiPatterns := DetectAntiPatterns(files);
    issues := antiPatterns;
    issues := issues + CodeOrganization(files);
    var circularDeps: seq<Issue> := [];
    assert issues + circularDeps == issues;
    issues := issues + circularDeps;
    ArchitectureWellFormed(files);
  }

  lemma ArchitectureWellFormed(files: seq<string>)
    ensures WellFormed(AntiPatterns(files) + CodeOrganization(files))
  {
    GodIssuesWellFormed(DirCounts(files));
    FlatIssuesWellFormed(files);
    CodeOrganizationWellFormed(files);
    WellFormedAppend(GodIssues(DirCounts(files)), FlatIssues(files));
    WellFormedAppend(AntiPatterns(files), CodeOrganization(files));
  }

  lemma FlatIssuesWellFormed(files: seq<string>)
    ensures WellFormed(FlatIssues(files))
  {
  }

  lemma CodeOrganizationWellFormed(files: seq<string>)
    ensures WellFormed(CodeOrganization(files))
  {
  }

  // ---------------------------------------------------------------- complexity

  function Sum(counts: seq<nat>): nat
  {
    if counts == [] then 0 else Sum(counts[..|counts| - 1]) + counts[|counts| - 1]
  }

  /**
   * `calculateCyclomaticComplexity`: 1 plus the number of matches of each
   * decision-point pattern (`matchCounts`, one per pattern; no match is 0).
   */
  method CyclomaticComplexity(matchCounts: seq<nat>) returns (complexity: int)
    ensures complexity == 1 + Sum(matchCounts)
    ensures complexity >= 1
  {
    complexity := 1;
    for i := 0 to |matchCounts|
      invariant complexity == 1 + Sum(matchCounts[..i])
    {
      assert matchCounts[..i + 1][..i] == matchCounts[..i];
      if matchCounts[i] > 0 {
        complexity := complexity + matchCounts[i];
      }
    }
    assert matchCounts[..|matchCounts|] == matchCounts;
  }

  predicate IsWordChar(c: char)
  {
    'a' <= c <= 'z' || 'A' <= c <= 'Z' || '0' <= c <= '9' || c == '_'
  }

  /** `w` occurs at `k` as a whole word (`\b` on both sides). */
  predicate WordAt(line: string, w: string, k: int)
  {
    OccursAt(line, w, k)
    && (k == 0 || !IsWordChar(line[k - 1]))
    && (k + |w| == |line| || !IsWordChar(line[k + |w|]))
  }

  const ControlKeywords: seq<string> := ["if", "for", "while", "switch", "catch"]

  /** The line holds one of the control keywords as a whole word. */
  predicate ControlLine(line: string)
  {
    exists k, j :: 0 <= k < |line| && 0 <= j < |ControlKeywords| && WordAt(line, ControlKeywords[j], k)
  }

  /** The nesting change of one line: +1 for a '{', -1 for a '}', 0 for both. */
  function NestingDelta(line: string): (d: int)
    ensures -1 <= d <= 1
  {
    (if '{' in line then 1 else 0) - (if '}' in line then 1 else 0)
  }

  /** The nesting after the lines: the sum of their deltas. */
  function Nesting(lines: seq<string>): int
  {
    if lines == [] then 0 else Nesting(lines[..|lines| - 1]) + NestingDelta(lines[|lines| - 1])
  }

  /** The cognitive complexity after the lines: each control line adds 1 plus the nesting after its own delta. */
  function Cognitive(lines: seq<string>): int
  {
    if lines == [] then 0
    else Cognitive(lines[..|lines| - 1]) + (if ControlLine(lines[|lines| - 1]) then 1 + Nesting(lines) else 0)
  }

  /** The number of control lines. */
  function ControlLines(lines: seq<string>): (n: nat)
    ensures n <= |lines|
  {
    if lines == [] then 0 else ControlLines(lines[..|lines| - 1]) + (if ControlLine(lines[|lines| - 1]) then 1 else 0)
  }

  /** While the nesting never goes negative, each control line counts at least 1. */
  lemma {:induction false} CognitiveAtLeastControlLines(lines: seq<string>)
    requires forall k :: 0 <= k <= |lines| ==> Nesting(lines[..k]) >= 0
    ensures Cognitive(lines) >= ControlLines(lines)
  {
    if lines != [] {
      var init := lines[..|lines| - 1];
      forall k | 0 <= k <= |init| ensures Nesting(init[..k]) >= 0 {
        assert init[..k] == lines[..k];
      }
      CognitiveAtLeastControlLines(init);
      assert lines[..|lines|] == lines;
    }
  }

  /** An `if` after a line that only closes a brace adds nothing: the nesting is then -1. */
  lemma UnmatchedCloseAddsNothing()
    ensures Nesting(["}", "if"]) == -1
    ensures ControlLines(["}", "if"]) == 1 && Cognitive(["}", "if"]) == 0
  {
    var lines := ["}", "if"];
    assert lines[..1] == ["}"] && lines[..1][..0] == [];
    assert WordAt("if", ControlKeywords[0], 0);
    assert !ControlLine("}") by {
      forall k, j | 0 <= k < 1 && 0 <= j < |ControlKeywords| ensures !WordAt("}", ControlKeywords[j], k) {
        assert |ControlKeywords[j]| >= 2;
      }
    }
  }

  /** `calculateCognitiveComplexity`: one pass over the '\n'-separated lines. */
  method CognitiveComplexity(code: string) returns (complexity: int)
    ensures complexity == Cognitive(Split(code, '\n'))
  {
    var lines := Split(code, '\n');
    complexity := 0;
    var nesting := 0;
    for i := 0 to |lines|
      invariant nesting == Nesting(lines[..i])
      invariant complexity == Cognitive(lines[..i])
    {
      assert lines[..i + 1][..i] == lines[..i];
      var line := lines[i];
      if '{' in line {
        nesting := nesting + 1;
      }
      if '}' in line {
        nesting := nesting - 1;
      }
      if ControlLine(line) {
        complexity := complexity + (1 + nesting);
      }
    }
    assert lines[..|lines|] == lines;
  }
}
