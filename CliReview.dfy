/**
 * The `review` command of the command-line tool: the option lookups that
 * build the analyser configuration, the single-file result, the choice of
 * reporter and the exit status.
 *
 * What the command reads from outside is a `World`: the environment
 * variables, the outcome of `stat` on the target, of the analyses and of
 * writing the report. The analyses themselves are other modules; here they
 * are outcomes given to the command.
 */
module CliReview {
  import opened Wrappers
  import opened Types
  import opened Text

  // ---------------------------------------------------------------------------
  // Option lookups
  // ---------------------------------------------------------------------------

  /** `languageMap`: the names the `--language` option understands. */
  function LanguageAlias(name: string): (r: Option<Language>)
    ensures r.Some? ==> r.value in {JAVASCRIPT, TYPESCRIPT, PYTHON, JAVA, GO, RUST}
  {
    if name == "js" || name == "javascript" then Some(JAVASCRIPT)
    else if name == "ts" || name == "typescript" then Some(TYPESCRIPT)
    else if name == "py" || name == "python" then Some(PYTHON)
    else if name == "java" then Some(JAVA)
    else if name == "go" then Some(GO)
    else if name == "rust" || name == "rs" then Some(RUST)
    else None
  }

  /** The names that select a language other than the default. */
  const OtherLanguageNames: seq<string> := ["ts", "typescript", "py", "python", "java", "go", "rust", "rs"]

  /** `parseLanguage`: the lowercased option, or "javascript" when it is absent or empty, looked up. */
  function ParseLanguage(lang: Option<string>): (r: Language)
    ensures r in {JAVASCRIPT, TYPESCRIPT, PYTHON, JAVA, GO, RUST}
  {
    var name := if lang.Some? && ToLower(lang.value) != "" then ToLower(lang.value) else "javascript";
    match LanguageAlias(name)
    case Some(l) => l
    case None => JAVASCRIPT
  }

  /** Lowercasing twice is lowercasing once. */
  lemma ToLowerTwice(s: string)
    ensures ToLower(ToLower(s)) == ToLower(s)
  {
    ToLowerIdentity(ToLower(s));
  }

  /** The option is read without regard to case. */
  lemma ParseLanguageCase(s: string)
    ensures ParseLanguage(Some(s)) == ParseLanguage(Some(ToLower(s)))
  {
    ToLowerTwice(s);
  }

  /** A language other than JavaScript is chosen exactly for the names listed for it. */
  lemma ParseLanguageOther(s: string)
    ensures ParseLanguage(Some(s)) != JAVASCRIPT <==> ToLower(s) in OtherLanguageNames
  {
  }

  /** Each language the option knows is selected by its own tag. */
  lemma ParseLanguageTag(l: Language)
    requires l in {JAVASCRIPT, TYPESCRIPT, PYTHON, JAVA, GO, RUST}
    ensures ParseLanguage(Some(LanguageTag(l))) == l
  {
    var t := LanguageTag(l);
    assert forall i :: 0 <= i < |t| ==> !('A' <= t[i] <= 'Z');
    ToLowerIdentity(t);
  }

  /** `parseSeverity`: the lowercased name looked up; an unknown name is `INFO`. */
  function ParseSeverity(severity: string): Severity
  {
    match SeverityOfTag(ToLower(severity))
    case Some(s) => s
    case None => INFO
  }

  /** Every severity is selected by its tag, in any case. */
  lemma ParseSeverityTag(s: Severity, spelled: string)
    requires ToLower(spelled) == SeverityTag(s)
    ensures ParseSeverity(spelled) == s
  {
  }

  /** A severity above `INFO` is chosen exactly for the names warning, error and critical. */
  lemma ParseSeverityAboveInfo(severity: string)
    ensures ParseSeverity(severity) != INFO <==> ToLower(severity) in ["warning", "error", "critical"]
  {
  }

  const FallbackModel: string := "gpt-4-turbo-preview"

  /** `getDefaultModel`: the provider's model, looked up as given. */
  function GetDefaultModel(provider: string): (r: string)
    ensures r in [FallbackModel, "claude-3-5-sonnet-20241022", "codellama"]
    ensures r == FallbackModel <==> provider != "anthropic" && provider != "ollama"
  {
    if provider == "openai" then FallbackModel
    else if provider == "anthropic" then "claude-3-5-sonnet-20241022"
    else if provider == "ollama" then "codellama"
    else FallbackModel
  }

  /** `envVars`: the providers with a key variable. */
  function KeyVariable(provider: string): Option<string>
  {
    if provider == "openai" then Some("OPENAI_API_KEY")
    else if provider == "anthropic" then Some("ANTHROPIC_API_KEY")
    else None
  }

  /** What `getAPIKey` returns, and the warning it prints. */
  datatype KeyLookup = KeyLookup(key: string, warning: Option<string>)

  /**
   * `getAPIKey`: the provider's variable read from the environment; without a
   * value (no variable, unset or empty) the key is '' and a warning names the
   * variable, 'undefined' when there is none, unless the provider is ollama.
   */
  function GetApiKey(provider: string, env: map<string, string>): (r: KeyLookup)
    ensures r.key != "" <==> KeyVariable(provider).Some? && KeyVariable(provider).value in env && env[KeyVariable(provider).value] != ""
    ensures r.key != "" ==> r.key == env[KeyVariable(provider).value]
    ensures r.warning.Some? <==> r.key == "" && provider != "ollama"
  {
    var variable := KeyVariable(provider);
    var key := if variable.Some? && variable.value in env then env[variable.value] else "";
    var shown := if variable.Some? then variable.value else "undefined";
    KeyLookup(key, if key == "" && provider != "ollama" then Some("Warning: " + shown + " not set. AI analysis may not work.") else None)
  }

  /** The options of `codeblaster review`. */
  datatype ReviewOptions = ReviewOptions(
    language: Option<string>,
    ai: string,
    model: Option<string>,
    severity: string,
    format: string,
    output: Option<string>,
    staged: bool,
    fix: bool,
    cache: bool,
    parallel: bool)

  predicate Truthy(s: Option<string>)
  {
    s.Some? && s.value != ""
  }

  /** The configuration the command gives the analyser. */
  function BuildConfig(options: ReviewOptions, env: map<string, string>): AnalyzerConfig
  {
    AnalyzerConfig(
      ParseLanguage(options.language),
      Some([]),
      None,
      ParseSeverity(options.severity),
      Some(AIProviderConfig(
        options.ai,
        Some(GetApiKey(options.ai, env).key),
        if Truthy(options.model) then options.model.value else GetDefaultModel(options.ai),
        None,
        Some(2000),
        Some(0.3),
        None)),
      Some(CacheConfig(options.cache, Memory, 3600, None)),
      Some(options.parallel),
      Some(5))
  }

  /**
   * The built configuration never selects rules by name, always caches in
   * memory for an hour with at most five files at a time, and always names
   * a model: the one given, or the provider's default.
   */
  lemma BuildConfigFixed(options: ReviewOptions, env: map<string, string>)
    ensures var c := BuildConfig(options, env);
            c.rules == Some([]) && c.maxConcurrency == Some(5) &&
            c.cache.Some? && c.cache.value.kind == Memory && c.cache.value.ttl == 3600 &&
            c.cache.value.enabled == options.cache &&
            c.ai.Some? && c.ai.value.model != "" &&
            (Truthy(options.model) ==> c.ai.value.model == options.model.value) &&
            (!Truthy(options.model) && options.ai == "ollama" ==> c.ai.value.model == "codellama")
  {
  }

  // ---------------------------------------------------------------------------
  // Results, reporter and exit status
  // ---------------------------------------------------------------------------

  /** The result built for a single file: one file, the issues, their histogram and no duration. */
  function SingleFileResult(issues: seq<Issue>): (r: AnalysisResult)
    ensures r.files == 1 && r.issues == issues && r.duration == 0
    ensures r.summary.critical + r.summary.error + r.summary.warning + r.summary.info <= |issues|
  {
    SummarizeBounded(issues);
    AnalysisResult(1, issues, Summarize(issues), 0)
  }

  /** The command fails when the summary counts a critical issue or an error. */
  predicate Fails(summary: Summary)
  {
    summary.critical > 0 || summary.error > 0
  }

  /** A single file fails the command exactly when one of its issues is critical or an error. */
  lemma SingleFileFails(issues: seq<Issue>)
    ensures Fails(SingleFileResult(issues).summary) <==>
              exists i :: 0 <= i < |issues| && (issues[i].severity == "critical" || issues[i].severity == "error")
  {
    CountTagPositive(issues, "critical");
    CountTagPositive(issues, "error");
  }

  datatype Reporter = JsonReporter | HtmlReporter | ConsoleReporter

  /** The `--format` switch: json, html, and the console for anything else. */
  function ChooseReporter(format: string): (r: Reporter)
    ensures r == JsonReporter <==> format == "json"
    ensures r == HtmlReporter <==> format == "html"
  {
    if format == "json" then JsonReporter
    else if format == "html" then HtmlReporter
    else ConsoleReporter
  }

  datatype Destination = File(path: string) | Stdout

  /** What the command meets outside: the environment and the outcomes of its I/O steps. */
  datatype World = World(
    env: map<string, string>,
    gitChanges: Result<AnalysisResult>,
    isDirectory: Result<bool>,
    directory: Result<AnalysisResult>,
    file: Result<seq<Issue>>,
    writeError: Option<string>)

  /** The result the command reports: staged changes, a directory, or one file. */
  function Analysis(options: ReviewOptions, world: World): Result<AnalysisResult>
  {
    if options.staged then world.gitChanges
    else
      match world.isDirectory
      case Err(e) => Err(e)
      case Ok(true) => world.directory
      case Ok(false) =>
        match world.file
        case Err(e) => Err(e)
        case Ok(issues) => Ok(SingleFileResult(issues))
  }

  /** What one run of the command did. */
  datatype Run = Run(
    config: AnalyzerConfig,
    warning: Option<string>,
    result: Option<AnalysisResult>,
    reporter: Option<Reporter>,
    destination: Option<Destination>,
    error: Option<string>,
    exitCode: nat,
    cleanedUp: bool)

  /**
   * `reviewCommand`: build the configuration, analyse, choose the reporter
   * and the destination, then exit with 1 on a critical issue or an error;
   * anything thrown on the way is reported and exits with 1 as well. Only a
   * run that does not exit reaches the analyser's clean-up.
   */
  method ReviewCommand(options: ReviewOptions, world: World) returns (run: Run)
    ensures run.config == BuildConfig(options, world.env)
    ensures run.warning == GetApiKey(options.ai, world.env).warning
    ensures run.result.Some? <==> Analysis(options, world).Ok?
    ensures run.result.Some? ==> run.result.value == Analysis(options, world).value
    ensures run.result.Some? ==> run.reporter == Some(ChooseReporter(options.format))
    ensures run.result.Some? ==> run.destination == Some(if Truthy(options.output) then File(options.output.value) else Stdout)
    ensures run.error.Some? <==> Analysis(options, world).Err? || (Truthy(options.output) && world.writeError.Some?)
    ensures run.exitCode == 0 || run.exitCode == 1
    ensures run.exitCode == 1 <==> run.error.Some? || Fails(run.result.value.summary)
    ensures run.cleanedUp <==> run.exitCode == 0
  {
    var config := BuildConfig(options, world.env);
    var warning := GetApiKey(options.ai, world.env).warning;
    run := Run(config, warning, None, None, None, None, 1, false);

    var result: AnalysisResult;
    if options.staged {
      if world.gitChanges.Err? {
        run := run.(error := Some(world.gitChanges.error));
        return;
      }
      result := world.gitChanges.value;
    } else {
      if world.isDirectory.Err? {
        run := run.(error := Some(world.isDirectory.error));
        return;
      }
      if world.isDirectory.value {
        if world.directory.Err? {
          run := run.(error := Some(world.directory.error));
          return;
        }
        result := world.directory.value;
      } else {
        if world.file.Err? {
          run := run.(error := Some(world.file.error));
          return;
        }
        var issues := world.file.value;
        result := SingleFileResult(issues);
      }
    }

    var reporter := ChooseReporter(options.format);
    var destination := if Truthy(options.output) then File(options.output.value) else Stdout;
    run := run.(result := Some(result), reporter := Some(reporter), destination := Some(destination));
    if destination.File? && world.writeError.Some? {
      run := run.(error := Some(world.writeError.value));
      return;
    }

    if Fails(result.summary) {
      return;
    }
    run := run.(exitCode := 0, cleanedUp := true);
  }
}
