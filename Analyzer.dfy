/**
 * The analyser's orchestration: which default rules a configuration
 * selects, how one file is analysed (cache first, then the registered rules
 * and the optional AI reviewer), how a directory listing is filtered and
 * its issues summarised, and how a line is looked up for a snippet.
 *
 * File contents, the directory listing, the parsing library's outcome, the
 * AI reviewer's answer, the digest behind cache keys and the clock are all
 * parameters.
 */
module Analyzer {
  import opened Wrappers
  import opened Types
  import opened Text
  import opened Cache
  import opened Plugins
  import opened Parser

  /** The rule-selection test of `loadDefaultRules`; an empty `rules` list is present, so it selects nothing. */
  predicate Selects(config: AnalyzerConfig, rule: Rule)
  {
    config.language in rule.languages
    && (config.rules.None? || rule.id in config.rules.value)
    && (config.excludeRules.None? || rule.id !in config.excludeRules.value)
  }

  /** The rules `Selects` keeps, in their order. */
  function SelectRules(config: AnalyzerConfig, rules: seq<Rule>): (r: seq<Rule>)
    ensures |r| <= |rules|
    ensures forall i :: 0 <= i < |r| ==> Selects(config, r[i])
  {
    if rules == [] then []
    else
      var last := rules[|rules| - 1];
      SelectRules(config, rules[..|rules| - 1]) + (if Selects(config, last) then [last] else [])
  }

  /** A candidate is selected exactly when it passes the test. */
  lemma {:induction false} SelectRulesMembers(config: AnalyzerConfig, rules: seq<Rule>, x: Rule)
    ensures x in SelectRules(config, rules) <==> x in rules && Selects(config, x)
  {
    if rules != [] {
      SelectRulesMembers(config, rules[..|rules| - 1], x);
      assert rules == rules[..|rules| - 1] + [rules[|rules| - 1]];
    }
  }

  /** Selection keeps the candidates' order: selecting from two lists joined joins the two selections. */
  lemma {:induction false} SelectRulesAppend(config: AnalyzerConfig, a: seq<Rule>, b: seq<Rule>)
    ensures SelectRules(config, a + b) == SelectRules(config, a) + SelectRules(config, b)
    decreases |b|
  {
    if b == [] {
      assert a + b == a;
    } else {
      assert (a + b)[..|a + b| - 1] == a + b[..|b| - 1];
      assert (a + b)[|a + b| - 1] == b[|b| - 1];
      SelectRulesAppend(config, a, b[..|b| - 1]);
    }
  }

  /** A configuration with `rules: []` selects no rule at all. */
  lemma {:induction false} EmptyRuleListSelectsNothing(config: AnalyzerConfig, rules: seq<Rule>)
    requires config.rules == Some([])
    ensures SelectRules(config, rules) == []
  {
    if rules != [] {
      EmptyRuleListSelectsNothing(config, rules[..|rules| - 1]);
    }
  }

  /** Without `rules` and `excludeRules`, every rule for the language is selected, in order. */
  lemma {:induction false} NoFiltersSelectsAllForLanguage(config: AnalyzerConfig, rules: seq<Rule>)
    requires config.rules.None? && config.excludeRules.None?
    requires forall i :: 0 <= i < |rules| ==> config.language in rules[i].languages
    ensures SelectRules(config, rules) == rules
  {
    if rules != [] {
      NoFiltersSelectsAllForLanguage(config, rules[..|rules| - 1]);
    }
  }

  /** The cache configuration used when none is given: enabled, in memory, one hour. */
  function EffectiveCacheConfig(config: AnalyzerConfig): (r: CacheConfig)
    ensures config.cache.Some? ==> r == config.cache.value
    ensures config.cache.None? ==> r.enabled && r.kind == Memory && r.ttl == 3600
  {
    match config.cache
    case Some(c) => c
    case None => CacheConfig(true, Memory, 3600, None)
  }

  /** The key one file's issues are cached under: it covers the path and the content only. */
  function CacheKey(filePath: string, content: string, digest: ((string, string)) -> string): (r: string)
    ensures StartsWith(r, "analysis:")
  {
    GenerateKey("analysis", (filePath, content), digest)
  }

  /** Line `n` (counting from 1) of `content`, or "" when there is no such line. */
  function GetLine(content: string, n: int): (r: string)
    ensures '\n' !in r
    ensures var lines := Split(content, '\n'); 1 <= n <= |lines| ==> r == lines[n - 1]
    ensures n < 1 || n > Count(content, '\n') + 1 ==> r == ""
  {
    var lines := Split(content, '\n');
    if 1 <= n <= |lines| then lines[n - 1] else ""
  }

  /** Joining lines with '\n' and asking for line `n` gives the `n`-th of them back. */
  lemma GetLineOfJoined(lines: seq<string>, n: int)
    requires lines != []
    requires forall i :: 0 <= i < |lines| ==> '\n' !in lines[i]
    requires 1 <= n <= |lines|
    ensures GetLine(Join(lines, "\n"), n) == lines[n - 1]
  {
    SplitJoin(lines, '\n');
  }

  /** The tree a rule sees: the parser's tree, or none when parsing failed. */
  function AstOf(parsed: Result<Node>): Option<Node>
  {
    match parsed
    case Ok(tree) => Some(tree)
    case Err(_) => None
  }

  /** The rules that list `language`, in registry order. */
  function ForLanguage(rules: seq<Rule>, language: Language): (r: seq<Rule>)
    ensures |r| <= |rules|
    ensures forall i :: 0 <= i < |r| ==> language in r[i].languages
  {
    if rules == [] then []
    else
      var last := rules[|rules| - 1];
      ForLanguage(rules[..|rules| - 1], language) + (if language in last.languages then [last] else [])
  }

  /** A registered rule is run on a file exactly when it lists the file's language. */
  lemma {:induction false} ForLanguageMembers(rules: seq<Rule>, language: Language, x: Rule)
    ensures x in ForLanguage(rules, language) <==> x in rules && language in x.languages
  {
    if rules != [] {
      ForLanguageMembers(rules[..|rules| - 1], language, x);
      assert rules == rules[..|rules| - 1] + [rules[|rules| - 1]];
    }
  }

  /** The rules for a language keep their registry order: filtering two lists joined joins the two results. */
  lemma {:induction false} ForLanguageAppend(a: seq<Rule>, b: seq<Rule>, language: Language)
    ensures ForLanguage(a + b, language) == ForLanguage(a, language) + ForLanguage(b, language)
    decreases |b|
  {
    if b == [] {
      assert a + b == a;
    } else {
      assert (a + b)[..|a + b| - 1] == a + b[..|b| - 1];
      assert (a + b)[|a + b| - 1] == b[|b| - 1];
      ForLanguageAppend(a, b[..|b| - 1], language);
    }
  }

  /** What one rule contributes: its issues, or nothing when it throws. */
  function Contribution(rule: Rule, context: RuleContext): seq<Issue>
  {
    match rule.check(context)
    case Reported(issues) => issues
    case Threw(_) => []
  }

  /** The issues of running `rules` one after another on `context`. */
  function CollectIssues(rules: seq<Rule>, context: RuleContext): seq<Issue>
  {
    if rules == [] then []
    else CollectIssues(rules[..|rules| - 1], context) + Contribution(rules[|rules| - 1], context)
  }

  lemma {:induction false} CollectIssuesAppend(a: seq<Rule>, b: seq<Rule>, context: RuleContext)
    ensures CollectIssues(a + b, context) == CollectIssues(a, context) + CollectIssues(b, context)
    decreases |b|
  {
    if b == [] {
      assert a + b == a;
    } else {
      assert (a + b)[..|a + b| - 1] == a + b[..|b| - 1];
      CollectIssuesAppend(a, b[..|b| - 1], context);
    }
  }

  lemma CollectIssuesSnoc(rules: seq<Rule>, i: nat, context: RuleContext)
    requires i < |rules|
    ensures CollectIssues(rules[..i + 1], context) == CollectIssues(rules[..i], context) + Contribution(rules[i], context)
  {
    assert rules[..i + 1][..i] == rules[..i];
  }

  /** A rule that throws contributes nothing, and the rules before and after it still report. */
  lemma ThrowingRuleIsIsolated(rules: seq<Rule>, k: nat, context: RuleContext)
    requires k < |rules| && rules[k].check(context).Threw?
    ensures CollectIssues(rules, context) == CollectIssues(rules[..k], context) + CollectIssues(rules[k + 1..], context)
  {
    assert rules == rules[..k + 1] + rules[k + 1..];
    CollectIssuesAppend(rules[..k + 1], rules[k + 1..], context);
    CollectIssuesSnoc(rules, k, context);
  }

  /** One AI issue as an analysis issue. */
  function FromAIIssue(filePath: string, content: string, issue: AIIssue): Issue
  {
    Issue(issue.severity, issue.category, "ai-analysis", issue.message, None, filePath,
          issue.line, 0, GetLine(content, issue.line), Some(issue.suggestion), false, None, None,
          issue.confidence)
  }

  /**
   * `runAIAnalysis`: nothing when the reviewer fails; otherwise one issue per
   * AI issue, in order, carrying its tags, message, line and confidence.
   */
  function AIIssues(filePath: string, content: string, answer: Result<AIResponse>): (r: seq<Issue>)
    ensures answer.Err? ==> r == []
    ensures answer.Ok? ==> |r| == |answer.value.issues|
    ensures answer.Ok? ==> forall i :: 0 <= i < |r| ==>
              var a := answer.value.issues[i];
              && r[i].rule == "ai-analysis" && r[i].file == filePath
              && r[i].column == 0 && !r[i].fixable
              && r[i].severity == a.severity && r[i].category == a.category
              && r[i].message == a.message && r[i].line == a.line
              && r[i].confidence == a.confidence
              && r[i].codeSnippet == GetLine(content, a.line)
  {
    match answer
    case Err(_) => []
    case Ok(response) => seq(|response.issues|, i requires 0 <= i < |response.issues| => FromAIIssue(filePath, content, response.issues[i]))
  }

  /** The extensions `analyzeDirectory` accepts. */
  const SupportedExtensions: seq<string> := [".js", ".ts", ".jsx", ".tsx", ".py", ".java", ".go", ".rs"]

  predicate IsSupported(path: string)
  {
    exists i :: 0 <= i < |SupportedExtensions| && EndsWith(path, SupportedExtensions[i])
  }

  /** A listed file: its path, its content, what parsing it gives and what the AI reviewer answers. */
  datatype SourceFile = SourceFile(path: string, content: string, parsed: Result<Node>, aiAnswer: Result<AIResponse>)

  /** The listed files whose path ends in a supported extension, in listing order. */
  function SupportedFiles(files: seq<SourceFile>): (r: seq<SourceFile>)
    ensures |r| <= |files|
    ensures forall i :: 0 <= i < |r| ==> IsSupported(r[i].path)
  {
    if files == [] then []
    else
      var last := files[|files| - 1];
      SupportedFiles(files[..|files| - 1]) + (if IsSupported(last.path) then [last] else [])
  }

  /** A file is analysed exactly when it is listed with a supported extension. */
  lemma {:induction false} SupportedFilesMembers(files: seq<SourceFile>, f: SourceFile)
    ensures f in SupportedFiles(files) <==> f in files && IsSupported(f.path)
  {
    if files != [] {
      SupportedFilesMembers(files[..|files| - 1], f);
      assert files == files[..|files| - 1] + [files[|files| - 1]];
    }
  }

  function Flatten(parts: seq<seq<Issue>>): seq<Issue>
  {
    if parts == [] then [] else Flatten(parts[..|parts| - 1]) + parts[|parts| - 1]
  }

  lemma FlattenSnoc(parts: seq<seq<Issue>>, last: seq<Issue>)
    ensures Flatten(parts + [last]) == Flatten(parts) + last
  {
    assert (parts + [last])[..|parts|] == parts;
  }

  /** The context the rules of one file see. */
  function ContextFor(filePath: string, content: string, language: Language, grammarsLoaded: bool, parsed: Result<Node>): RuleContext
  {
    RuleContext(filePath, content, AstOf(Parse(language, grammarsLoaded, parsed)), language)
  }

  /**
   * What a cache miss computes from the registry's enabled `rules`: the
   * static issues, then the AI issues when an AI reviewer is configured.
   */
  function FreshIssues(rules: seq<Rule>, withAI: bool, grammarsLoaded: bool, filePath: string, content: string,
                       parsed: Result<Node>, aiAnswer: Result<AIResponse>): seq<Issue>
  {
    var language := DetectLanguage(filePath);
    CollectIssues(ForLanguage(rules, language), ContextFor(filePath, content, language, grammarsLoaded, parsed))
    + (if withAI then AIIssues(filePath, content, aiAnswer) else [])
  }

  /** What a cache miss computes for each listed file, in order. */
  function FreshLists(rules: seq<Rule>, withAI: bool, grammarsLoaded: bool, files: seq<SourceFile>): (r: seq<seq<Issue>>)
    ensures |r| == |files|
  {
    seq(|files|, i requires 0 <= i < |files| =>
      FreshIssues(rules, withAI, grammarsLoaded, files[i].path, files[i].content, files[i].parsed, files[i].aiAnswer))
  }

  /** The cache keys of the listed files, in order. */
  function Keys(files: seq<SourceFile>, digest: ((string, string)) -> string): (r: seq<string>)
    ensures |r| == |files|
    ensures forall i :: 0 <= i < |files| ==> r[i] == CacheKey(files[i].path, files[i].content, digest)
  {
    seq(|files|, i requires 0 <= i < |files| => CacheKey(files[i].path, files[i].content, digest))
  }

  type Memory = map<string, CacheEntry<seq<Issue>>>

  /**
   * One file analysed from the cache `memory`, read at `now`: the live list
   * under its key when there is one, which leaves the cache as it is;
   * otherwise its computed issues, stored at `finished` when the cache is
   * enabled.
   */
  function FileStep(memory: Memory, key: string, computed: seq<Issue>, config: CacheConfig, now: int, finished: int)
    : (seq<Issue>, Memory)
  {
    var hit := if config.enabled then Lookup(memory, key, now) else None;
    if hit.Some? then (hit.value, memory)
    else (computed, if config.enabled then Store(memory, key, computed, finished, config.ttl) else memory)
  }

  /**
   * The files analysed one after another from the cache `memory`, given each
   * file's key and what a miss computes for it: each file's issues, and the
   * cache at the end.
   */
  function DirectoryPass(memory: Memory, keys: seq<string>, computed: seq<seq<Issue>>, config: CacheConfig, now: int)
    : (r: (seq<seq<Issue>>, Memory))
    requires |keys| == |computed|
    ensures |r.0| == |keys|
  {
    if keys == [] then ([], memory)
    else
      var n := |keys| - 1;
      var before := DirectoryPass(memory, keys[..n], computed[..n], config, now);
      var step := FileStep(before.1, keys[n], computed[n], config, now, now);
      (before.0 + [step.0], step.1)
  }

  /** A pass over one more file is the pass over the files before it, then one step. */
  lemma DirectoryPassSnoc(memory: Memory, keys: seq<string>, computed: seq<seq<Issue>>, config: CacheConfig, now: int, i: nat)
    requires |keys| == |computed| && i < |keys|
    ensures var before := DirectoryPass(memory, keys[..i], computed[..i], config, now);
            var step := FileStep(before.1, keys[i], computed[i], config, now, now);
            DirectoryPass(memory, keys[..i + 1], computed[..i + 1], config, now) == (before.0 + [step.0], step.1)
  {
    assert keys[..i + 1][..i] == keys[..i] && computed[..i + 1][..i] == computed[..i];
  }

  /** With the cache disabled, every file's issues are computed afresh and the cache stays as it was. */
  lemma {:induction false} DirectoryPassUncached(memory: Memory, keys: seq<string>, computed: seq<seq<Issue>>, config: CacheConfig, now: int)
    requires |keys| == |computed| && !config.enabled
    ensures DirectoryPass(memory, keys, computed, config, now) == (computed, memory)
  {
    if keys != [] {
      var n := |keys| - 1;
      DirectoryPassUncached(memory, keys[..n], computed[..n], config, now);
      assert computed == computed[..n] + [computed[n]];
    }
  }

  /** A pass changes what a lookup finds only under the keys it analyses. */
  lemma {:induction false} DirectoryPassOtherKeys(memory: Memory, keys: seq<string>, computed: seq<seq<Issue>>,
                                                  config: CacheConfig, now: int, other: string)
    requires |keys| == |computed| && other !in keys
    ensures Lookup(DirectoryPass(memory, keys, computed, config, now).1, other, now) == Lookup(memory, other, now)
  {
    if keys != [] {
      var n := |keys| - 1;
      assert other !in keys[..n];
      DirectoryPassOtherKeys(memory, keys[..n], computed[..n], config, now, other);
      var m := DirectoryPass(memory, keys[..n], computed[..n], config, now).1;
      if config.enabled && Lookup(m, keys[n], now).None? {
        StoreLookup(m, keys[n], computed[n], now, config.ttl, now, other);
      }
    }
  }

  /**
   * A first run: when no key is live in the cache and no two files share a
   * key, every file's issues are computed afresh, cache or not.
   */
  lemma {:induction false} DirectoryPassFirstRun(memory: Memory, keys: seq<string>, computed: seq<seq<Issue>>,
                                                 config: CacheConfig, now: int)
    requires |keys| == |computed|
    requires forall i :: 0 <= i < |keys| ==> Lookup(memory, keys[i], now).None?
    requires forall i, j :: 0 <= i < j < |keys| ==> keys[i] != keys[j]
    ensures DirectoryPass(memory, keys, computed, config, now).0 == computed
  {
    if keys != [] {
      var n := |keys| - 1;
      assert keys[n] !in keys[..n];
      DirectoryPassFirstRun(memory, keys[..n], computed[..n], config, now);
      DirectoryPassOtherKeys(memory, keys[..n], computed[..n], config, now, keys[n]);
      assert computed == computed[..n] + [computed[n]];
    }
  }

  /** Analysing a file again while its entry lives serves the stored list: the second of two files with one key gets the first one's issues. */
  lemma SecondVisitHits(memory: Memory, key: string, computed1: seq<Issue>, computed2: seq<Issue>, config: CacheConfig, now: int)
    requires config.enabled && config.ttl > 0
    requires Lookup(memory, key, now).None?
    ensures DirectoryPass(memory, [key, key], [computed1, computed2], config, now).0 == [computed1, computed1]
  {
    var keys, computed := [key, key], [computed1, computed2];
    DirectoryPassSnoc(memory, keys, computed, config, now, 0);
    DirectoryPassSnoc(memory, keys, computed, config, now, 1);
    assert keys[..0] == [] && computed[..0] == [] && keys[..2] == keys && computed[..2] == computed;
    var first := DirectoryPass(memory, keys[..1], computed[..1], config, now);
    assert first.1 == Store(memory, key, computed1, now, config.ttl);
    assert Lookup(first.1, key, now) == Some(computed1);
  }

  class CodeAnalyzer {
    const config: AnalyzerConfig
    const cache: CacheManager<seq<Issue>>
    const pluginManager: PluginManager
    /** Whether the parser's grammar modules loaded (all six, or none). */
    const grammarsLoaded: bool

    /**
     * Builds the cache and an empty registry, then runs `loadDefaultRules`,
     * which leaves the registry empty.
     */
    constructor (config: AnalyzerConfig, defaultRules: seq<Rule>, grammarsLoaded: bool)
      ensures this.config == config && this.grammarsLoaded == grammarsLoaded
      ensures fresh(cache) && cache.config == EffectiveCacheConfig(config) && cache.memoryCache == map[]
      ensures fresh(pluginManager) && pluginManager.plugins == [] && pluginManager.rules == []
    {
      this.config := config;
      this.grammarsLoaded := grammarsLoaded;
      cache := new CacheManager(EffectiveCacheConfig(config));
      pluginManager := new PluginManager();
      new;
      var _ := LoadDefaultRules(defaultRules);
    }

    /**
     * `loadDefaultRules`: each selected rule is pushed onto a fresh copy of
     * the registry's rule list, which is then dropped; `pushed` is what was
     * pushed, and the registry is not modified.
     */
    method LoadDefaultRules(allRules: seq<Rule>) returns (pushed: seq<Rule>)
      ensures pushed == SelectRules(config, allRules)
    {
      pushed := [];
      for i := 0 to |allRules|
        invariant pushed == SelectRules(config, allRules[..i])
      {
        assert allRules[..i + 1][..i] == allRules[..i];
        var rule := allRules[i];
        if Selects(config, rule) {
          var copy := pluginManager.GetAllRules();
          copy := copy + [rule];
          pushed := pushed + [rule];
        }
      }
      assert allRules[..|allRules|] == allRules;
    }

    /**
     * `runStaticAnalysis`: the issues of the enabled rules for the language,
     * in registry order; a rule that throws is skipped, a failed parse leaves
     * the tree absent.
     */
    method RunStaticAnalysis(filePath: string, content: string, language: Language, parsed: Result<Node>)
      returns (issues: seq<Issue>)
      ensures issues == CollectIssues(ForLanguage(pluginManager.GetEnabledRules(), language),
                                      ContextFor(filePath, content, language, grammarsLoaded, parsed))
    {
      var context := ContextFor(filePath, content, language, grammarsLoaded, parsed);
      var rules := ForLanguage(pluginManager.GetEnabledRules(), language);
      issues := [];
      for i := 0 to |rules|
        invariant issues == CollectIssues(rules[..i], context)
      {
        CollectIssuesSnoc(rules, i, context);
        var outcome := rules[i].check(context);
        match outcome {
          case Reported(found) =>
            issues := issues + found;
          case Threw(_) =>
        }
      }
      assert rules[..|rules|] == rules;
    }

    /**
     * `analyzeFile`: a live cached list (an empty one included) is returned
     * as it is, whatever the rules or the AI reviewer would now say; otherwise
     * the issues are computed and cached under the same key. The cache is
     * read at `now` and written at `finished`.
     */
    method AnalyzeFile(filePath: string, content: string, digest: ((string, string)) -> string,
                       parsed: Result<Node>, aiAnswer: Result<AIResponse>, now: int, finished: int)
      returns (issues: seq<Issue>)
      modifies cache
      ensures (issues, cache.memoryCache) ==
                FileStep(old(cache.memoryCache), CacheKey(filePath, content, digest),
                         FreshIssues(pluginManager.GetEnabledRules(), config.ai.Some?, grammarsLoaded, filePath, content, parsed, aiAnswer),
                         cache.config, now, finished)
    {
      var key := CacheKey(filePath, content, digest);
      var cached := cache.Get(key, now);
      if cached.Some? {
        return cached.value;
      }
      issues := ComputeIssues(filePath, content, parsed, aiAnswer);
      StoreAfterRemove(old(cache.memoryCache), key, issues, finished, cache.config.ttl);
      cache.Set(key, issues, finished);
    }

    /** The cache-miss path of `analyzeFile`: the static analysis, then the AI review when one is configured. */
    method ComputeIssues(filePath: string, content: string, parsed: Result<Node>, aiAnswer: Result<AIResponse>)
      returns (issues: seq<Issue>)
      ensures issues == FreshIssues(pluginManager.GetEnabledRules(), config.ai.Some?, grammarsLoaded, filePath, content, parsed, aiAnswer)
    {
      var language := DetectLanguage(filePath);
      var staticIssues := RunStaticAnalysis(filePath, content, language, parsed);
      issues := staticIssues;
      if config.ai.Some? {
        issues := issues + AIIssues(filePath, content, aiAnswer);
      }
    }

    /**
     * `analyzeDirectory`, either mode: the listed files with a supported
     * extension are analysed one by one at time `now`, each served from the
     * cache or computed and cached, their issues concatenated in listing
     * order and summarised by severity.
     */
    method AnalyzeDirectory(files: seq<SourceFile>, digest: ((string, string)) -> string, now: int, duration: int)
      returns (result: AnalysisResult)
      modifies cache
      ensures var analysed := SupportedFiles(files);
              var computed := FreshLists(pluginManager.GetEnabledRules(), config.ai.Some?, grammarsLoaded, analysed);
              var pass := DirectoryPass(old(cache.memoryCache), Keys(analysed, digest), computed, cache.config, now);
              && result.files == |analysed|
              && result.issues == Flatten(pass.0)
              && cache.memoryCache == pass.1
              && result.summary == Summarize(result.issues)
              && result.duration == duration
    {
      var analysed := SupportedFiles(files);
      ghost var rules := pluginManager.GetEnabledRules();
      ghost var keys, computed := Keys(analysed, digest), FreshLists(rules, config.ai.Some?, grammarsLoaded, analysed);
      var allIssues := [];
      ghost var perFile := [];
      for i := 0 to |analysed|
        invariant (perFile, cache.memoryCache) == DirectoryPass(old(cache.memoryCache), keys[..i], computed[..i], cache.config, now)
        invariant allIssues == Flatten(perFile)
      {
        DirectoryPassSnoc(old(cache.memoryCache), keys, computed, cache.config, now, i);
        var f := analysed[i];
        assert keys[i] == CacheKey(f.path, f.content, digest);
        assert computed[i] == FreshIssues(rules, config.ai.Some?, grammarsLoaded, f.path, f.content, f.parsed, f.aiAnswer);
        var issues := AnalyzeFile(f.path, f.content, digest, f.parsed, f.aiAnswer, now, now);
        FlattenSnoc(perFile, issues);
        allIssues := allIssues + issues;
        perFile := perFile + [issues];
      }
      assert keys[..|analysed|] == keys && computed[..|analysed|] == computed;
      result := AnalysisResult(|analysed|, allIssues, Summarize(allIssues), duration);
    }
  }

  /** A freshly built analyser runs no static rule at all: its registry is empty. */
  lemma FreshAnalyzerRunsNoRules(a: CodeAnalyzer, language: Language, context: RuleContext)
    requires a.pluginManager.rules == []
    ensures CollectIssues(ForLanguage(a.pluginManager.GetEnabledRules(), language), context) == []
  {
  }
}
