/**
 * The shared vocabulary of the analyser: severities, categories, languages,
 * issues, results, configuration records and rule descriptors.
 *
 * An issue carries its severity and category as the strings they are at run
 * time: issues returned by an AI reviewer are cast without checking, so a
 * consumer can meet tags outside the enumerations, and several consumers say
 * what they do with such tags.
 */
module Types {
  import opened Wrappers

  datatype Severity = INFO | WARNING | ERROR | CRITICAL

  /** The run-time tag of each severity. */
  function SeverityTag(s: Severity): string
  {
    match s
    case INFO => "info"
    case WARNING => "warning"
    case ERROR => "error"
    case CRITICAL => "critical"
  }

  /** The severity whose tag is `t`, if any. */
  function SeverityOfTag(t: string): (r: Option<Severity>)
    ensures r.Some? ==> SeverityTag(r.value) == t
    ensures forall s: Severity :: SeverityTag(s) == t ==> r == Some(s)
  {
    if t == "info" then Some(INFO)
    else if t == "warning" then Some(WARNING)
    else if t == "error" then Some(ERROR)
    else if t == "critical" then Some(CRITICAL)
    else None
  }

  datatype IssueCategory =
    | SECURITY | PERFORMANCE | MAINTAINABILITY | CODE_SMELL | BUG | BEST_PRACTICE | DOCUMENTATION

  function CategoryTag(c: IssueCategory): string
  {
    match c
    case SECURITY => "security"
    case PERFORMANCE => "performance"
    case MAINTAINABILITY => "maintainability"
    case CODE_SMELL => "code_smell"
    case BUG => "bug"
    case BEST_PRACTICE => "best_practice"
    case DOCUMENTATION => "documentation"
  }

  datatype Language =
    | JAVASCRIPT | TYPESCRIPT | PYTHON | JAVA | GO | RUST | CPP | PHP | RUBY | SWIFT
    | KOTLIN | CSHARP | SCALA | ELIXIR | DART | LUA | SHELL | SQL | HTML | CSS

  function LanguageTag(l: Language): string
  {
    match l
    case JAVASCRIPT => "javascript"
    case TYPESCRIPT => "typescript"
    case PYTHON => "python"
    case JAVA => "java"
    case GO => "go"
    case RUST => "rust"
    case CPP => "cpp"
    case PHP => "php"
    case RUBY => "ruby"
    case SWIFT => "swift"
    case KOTLIN => "kotlin"
    case CSHARP => "csharp"
    case SCALA => "scala"
    case ELIXIR => "elixir"
    case DART => "dart"
    case LUA => "lua"
    case SHELL => "shell"
    case SQL => "sql"
    case HTML => "html"
    case CSS => "css"
  }

  /** One reported finding (`AnalysisIssue`); the random `id` is not part of the model. */
  datatype Issue = Issue(
    severity: string,
    category: string,
    rule: string,
    message: string,
    description: Option<string>,
    file: string,
    line: int,
    column: int,
    codeSnippet: string,
    suggestion: Option<string>,
    fixable: bool,
    autoFix: Option<string>,
    references: Option<seq<string>>,
    confidence: int)

  /** The documented range of a confidence. */
  predicate ConfidenceInRange(confidence: int)
  {
    0 <= confidence <= 100
  }

  /** One counter per severity. */
  datatype Summary = Summary(critical: nat, error: nat, warning: nat, info: nat)

  /** The number of issues whose severity tag is `tag`. */
  function CountTag(issues: seq<Issue>, tag: string): (n: nat)
    ensures n <= |issues|
  {
    if issues == [] then 0
    else CountTag(issues[..|issues| - 1], tag) + (if issues[|issues| - 1].severity == tag then 1 else 0)
  }

  /** The severity histogram of a list of issues. */
  function Summarize(issues: seq<Issue>): Summary
  {
    Summary(
      CountTag(issues, "critical"),
      CountTag(issues, "error"),
      CountTag(issues, "warning"),
      CountTag(issues, "info"))
  }

  /** The four counters together never exceed the number of issues: each issue has one tag at most. */
  lemma {:induction false} SummarizeBounded(issues: seq<Issue>)
    ensures var s := Summarize(issues); s.critical + s.error + s.warning + s.info <= |issues|
  {
    if issues != [] {
      SummarizeBounded(issues[..|issues| - 1]);
    }
  }

  lemma {:induction false} CountTagAppend(a: seq<Issue>, b: seq<Issue>, tag: string)
    ensures CountTag(a + b, tag) == CountTag(a, tag) + CountTag(b, tag)
    decreases |b|
  {
    if b == [] {
      assert a + b == a;
    } else {
      assert (a + b)[..|a + b| - 1] == a + b[..|b| - 1];
      CountTagAppend(a, b[..|b| - 1], tag);
    }
  }

  /** The histogram of a concatenation is the sum of the histograms. */
  lemma SummarizeAppend(a: seq<Issue>, b: seq<Issue>)
    ensures Summarize(a + b).critical == Summarize(a).critical + Summarize(b).critical
    ensures Summarize(a + b).error == Summarize(a).error + Summarize(b).error
    ensures Summarize(a + b).warning == Summarize(a).warning + Summarize(b).warning
    ensures Summarize(a + b).info == Summarize(a).info + Summarize(b).info
  {
    CountTagAppend(a, b, "critical");
    CountTagAppend(a, b, "error");
    CountTagAppend(a, b, "warning");
    CountTagAppend(a, b, "info");
  }

  /** A counter is positive exactly when some issue carries the tag. */
  lemma {:induction false} CountTagPositive(issues: seq<Issue>, tag: string)
    ensures CountTag(issues, tag) > 0 <==> exists i :: 0 <= i < |issues| && issues[i].severity == tag
  {
    if issues != [] {
      var init := issues[..|issues| - 1];
      CountTagPositive(init, tag);
      if exists i :: 0 <= i < |init| && init[i].severity == tag {
        var i :| 0 <= i < |init| && init[i].severity == tag;
        assert issues[i] == init[i];
      }
      if exists i :: 0 <= i < |issues| && issues[i].severity == tag {
        var i :| 0 <= i < |issues| && issues[i].severity == tag;
        if i < |init| {
          assert init[i] == issues[i];
        }
      }
    }
  }

  /** `AnalysisResult`; the timestamp is not part of the model. */
  datatype AnalysisResult = AnalysisResult(files: nat, issues: seq<Issue>, summary: Summary, duration: int)

  datatype CacheType = Memory | Redis

  /** `CacheConfig`: `ttl` is in seconds. */
  datatype CacheConfig = CacheConfig(enabled: bool, kind: CacheType, ttl: int, redisUrl: Option<string>)

  datatype AIProviderConfig = AIProviderConfig(
    provider: string,
    apiKey: Option<string>,
    model: string,
    baseURL: Option<string>,
    maxTokens: Option<int>,
    temperature: Option<real>,
    timeout: Option<int>)

  /** `AnalyzerConfig`; `rules`, `excludeRules` and `ai` are tested for presence by the analyser. */
  datatype AnalyzerConfig = AnalyzerConfig(
    language: Language,
    rules: Option<seq<string>>,
    excludeRules: Option<seq<string>>,
    severity: Severity,
    ai: Option<AIProviderConfig>,
    cache: Option<CacheConfig>,
    parallel: Option<bool>,
    maxConcurrency: Option<int>)

  /** A syntax-tree node as the rules see it: kind, span and children. */
  datatype Node = Node(kind: string, startIndex: int, endIndex: int, children: seq<Node>)

  /** What a rule is given: the file, its text, its tree (absent when parsing failed) and its language. */
  datatype RuleContext = RuleContext(filePath: string, content: string, ast: Option<Node>, language: Language)

  /** What running a rule's check does: report issues, or throw. */
  datatype CheckOutcome = Reported(issues: seq<Issue>) | Threw(message: string)

  /** A rule descriptor; `languages` and `enabled` are what rule selection filters on. */
  datatype Rule = Rule(
    id: string,
    name: string,
    description: string,
    severity: Severity,
    category: IssueCategory,
    languages: seq<Language>,
    enabled: bool,
    check: RuleContext -> CheckOutcome)

  datatype Plugin = Plugin(name: string, version: string, rules: seq<Rule>)

  /** One issue as an AI reviewer returns it. */
  datatype AIIssue = AIIssue(
    severity: string,
    category: string,
    message: string,
    line: int,
    suggestion: string,
    confidence: int)

  /** One AI reviewer's answer. */
  datatype AIResponse = AIResponse(issues: seq<AIIssue>, summary: string, improvements: seq<string>)
}
