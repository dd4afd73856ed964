/**
 * The `init` command: the configuration object built from the prompt's
 * answers, and the two files it writes, `.codeblaster.json` (replaced) and
 * `.env` (appended to, only when a key was typed).
 *
 * The prompt itself is interactive and not modelled: its answers are the
 * input. The provider list is fixed, and the key question is asked only for
 * the first two providers. `JSON.stringify` is not modelled: the written
 * file holds the configuration value, with an absent key left out.
 */
module CliInit {
  import opened Wrappers
  import opened Text
  import opened CliReview

  /** The provider choices of the prompt, in order. */
  const ProviderChoices: seq<string> := ["OpenAI", "Anthropic", "Ollama (Local)", "Skip AI"]

  /** The key question's `when`: asked for every choice but the local one and skipping. */
  predicate AsksForKey(choice: string)
  {
    choice != "Ollama (Local)" && choice != "Skip AI"
  }

  /** The answers of the prompt; `apiKey` is absent when the question was not asked. */
  datatype Answers = Answers(
    aiProvider: string,
    apiKey: Option<string>,
    severity: string,
    rules: seq<string>,
    parallel: bool,
    cache: bool)

  /** The key answer as the prompt records it: what was typed, only if it was asked. */
  function KeyAnswer(choice: string, typed: string): (r: Option<string>)
    ensures r.Some? <==> AsksForKey(choice)
  {
    if AsksForKey(choice) then Some(typed) else None
  }

  datatype AiSection = AiSection(provider: string, apiKey: Option<string>, model: string)
  datatype AnalysisSection = AnalysisSection(severity: string, rules: seq<string>, parallel: bool, cache: bool)
  datatype InitConfig = InitConfig(version: string, ai: AiSection, analysis: AnalysisSection, ignore: seq<string>)

  const IgnoreGlobs: seq<string> := ["node_modules/**", "dist/**", "build/**", "*.min.js"]

  /** The provider name: the first space-separated word of the lowercased choice. */
  function ProviderName(choice: string): string
  {
    Split(ToLower(choice), ' ')[0]
  }

  /** `getDefaultModel` of `init`: the whole choice, lowercased, looked up in the same table as `review`'s. */
  function InitDefaultModel(choice: string): string
  {
    GetDefaultModel(ToLower(choice))
  }

  /** `getEnvVarName`: the lowercased choice's key variable, or `API_KEY`. */
  function EnvVarName(choice: string): string
  {
    match KeyVariable(ToLower(choice))
    case Some(name) => name
    case None => "API_KEY"
  }

  /** The configuration object written to `.codeblaster.json`. */
  function BuildInitConfig(answers: Answers): InitConfig
  {
    InitConfig(
      "1.0.0",
      AiSection(
        ProviderName(answers.aiProvider),
        if Truthy(answers.apiKey) then answers.apiKey else None,
        InitDefaultModel(answers.aiProvider)),
      AnalysisSection(answers.severity, answers.rules, answers.parallel, answers.cache),
      IgnoreGlobs)
  }

  /** The `.env` line, present only when a key was typed. */
  function EnvLine(answers: Answers): Option<string>
  {
    if Truthy(answers.apiKey) then Some(EnvVarName(answers.aiProvider) + "=" + answers.apiKey.value + "\n") else None
  }

  // ---------------------------------------------------------------------------
  // Properties of the configuration
  // ---------------------------------------------------------------------------

  /** The provider is a word of the lowercased choice: no spaces, and it is followed by a space or the end. */
  lemma ProviderNameFirstWord(choice: string)
    ensures var p, lower := ProviderName(choice), ToLower(choice);
            |p| <= |lower| && ' ' !in p && p == lower[..|p|] && (|p| == |lower| || lower[|p|] == ' ')
  {
    SplitFirst(ToLower(choice), ' ');
  }

  /** The first word of a lowercased choice that is a word followed by nothing or by a space. */
  lemma FirstWord(choice: string, word: string, rest: string)
    requires ToLower(choice) == word + rest
    requires forall i :: 0 <= i < |word| ==> word[i] != ' '
    requires rest == [] || rest[0] == ' '
    ensures ProviderName(choice) == word
  {
    ProviderNameFirstWord(choice);
    assert ProviderName(choice) == ToLower(choice)[..|word|];
  }

  /** The provider each choice of the prompt is stored with, in the order of the choices. */
  const StoredProviders: seq<string> := ["openai", "anthropic", "ollama", "skip"]

  /** Each choice lowercased, and what follows its first word. */
  const LoweredChoices: seq<string> := ["openai", "anthropic", "ollama (local)", "skip ai"]
  const ChoiceTails: seq<string> := ["", "", " (local)", " ai"]

  lemma ChoiceLowered(i: nat, choice: string)
    requires i < |ProviderChoices| && choice == ProviderChoices[i]
    ensures ToLower(choice) == LoweredChoices[i]
  {
    LowerIs(choice, LoweredChoices[i]);
  }

  /** Each lowercased choice is its provider word then nothing or a space, and its table model. */
  lemma ChoiceSplits(i: nat)
    requires i < |ProviderChoices|
    ensures LoweredChoices[i] == StoredProviders[i] + ChoiceTails[i]
    ensures ' ' !in StoredProviders[i]
    ensures ChoiceTails[i] == [] || ChoiceTails[i][0] == ' '
    ensures GetDefaultModel(LoweredChoices[i]) == (if i == 1 then "claude-3-5-sonnet-20241022" else FallbackModel)
  {
  }

  /**
   * The four choices of the prompt: the provider is the first word of the
   * lowercased choice, and the model is looked up on the whole lowercased
   * choice, so only Anthropic gets a model of its own. The local choice,
   * whose provider is ollama, misses the table and gets the fallback model,
   * not ollama's.
   */
  lemma ChoicesStored(i: nat, choice: string)
    requires i < |ProviderChoices| && choice == ProviderChoices[i]
    ensures ProviderName(choice) == StoredProviders[i]
    ensures InitDefaultModel(choice) == (if i == 1 then "claude-3-5-sonnet-20241022" else FallbackModel)
  {
    ChoiceLowered(i, choice);
    ChoiceSplits(i);
    StoredAs(choice, StoredProviders[i], ChoiceTails[i]);
  }

  /** A choice whose lowercase is a word then nothing or a space is stored under that word. */
  lemma StoredAs(choice: string, word: string, rest: string)
    requires ToLower(choice) == word + rest
    requires ' ' !in word
    requires rest == [] || rest[0] == ' '
    ensures ProviderName(choice) == word
  {
    FirstWord(choice, word, rest);
  }

  /**
   * As written, the local choice is stored with provider `ollama` but with
   * the fallback OpenAI model, not the `codellama` that `ollama` has in the
   * table.
   */
  lemma OllamaChoiceGetsFallbackModel()
    ensures ProviderName("Ollama (Local)") == "ollama"
    ensures InitDefaultModel("Ollama (Local)") == FallbackModel
    ensures InitDefaultModel("Ollama (Local)") != GetDefaultModel(ProviderName("Ollama (Local)"))
  {
    ChoicesStored(2, ProviderChoices[2]);
  }

  /** The default model looked up, as evidently intended, on the stored provider name. */
  function CorrectedDefaultModel(choice: string): (r: string)
    ensures r == FallbackModel <==> ProviderName(choice) != "anthropic" && ProviderName(choice) != "ollama"
  {
    GetDefaultModel(ProviderName(choice))
  }

  /**
   * With the corrected lookup each choice gets its provider's own model: the
   * local choice gets `codellama`, and every other choice the model the code
   * as written gives it.
   */
  lemma CorrectedChoicesModels(i: nat, choice: string)
    requires i < |ProviderChoices| && choice == ProviderChoices[i]
    ensures CorrectedDefaultModel(choice) == GetDefaultModel(StoredProviders[i])
    ensures i == 2 ==> CorrectedDefaultModel(choice) == "codellama"
    ensures i != 2 ==> CorrectedDefaultModel(choice) == InitDefaultModel(choice)
  {
    ChoicesStored(i, choice);
  }

  /** Only a choice spelling anthropic or ollama in some case escapes the fallback model. */
  lemma InitDefaultModelFallback(choice: string)
    ensures InitDefaultModel(choice) != FallbackModel <==> ToLower(choice) == "anthropic" || ToLower(choice) == "ollama"
  {
  }

  /** openai and anthropic name their own variable in any case; every other choice writes `API_KEY`. */
  lemma EnvVarNameChoice(choice: string)
    ensures EnvVarName(choice) == "API_KEY" <==> ToLower(choice) != "openai" && ToLower(choice) != "anthropic"
    ensures ToLower(choice) == "openai" ==> EnvVarName(choice) == "OPENAI_API_KEY"
    ensures ToLower(choice) == "anthropic" ==> EnvVarName(choice) == "ANTHROPIC_API_KEY"
  {
  }

  /**
   * The written configuration: version 1.0.0, the four ignore globs, a
   * provider without spaces, and a key exactly when a non-empty one was typed.
   */
  lemma BuildInitConfigFields(answers: Answers)
    ensures var c := BuildInitConfig(answers);
            c.version == "1.0.0" && c.ignore == IgnoreGlobs && |c.ignore| == 4 &&
            ' ' !in c.ai.provider &&
            (c.ai.apiKey.Some? <==> answers.apiKey.Some? && answers.apiKey.value != "") &&
            (c.ai.apiKey.Some? ==> c.ai.apiKey == answers.apiKey)
  {
    ProviderNameFirstWord(answers.aiProvider);
  }

  /** The local and skip choices are never asked for a key, so they store none and write no `.env` line. */
  lemma NoKeyWithoutQuestion(answers: Answers, typed: string)
    requires answers.apiKey == KeyAnswer(answers.aiProvider, typed)
    requires !AsksForKey(answers.aiProvider)
    ensures BuildInitConfig(answers).ai.apiKey.None? && EnvLine(answers).None?
  {
  }

  lemma NoEqualsInName(choice: string)
    ensures '=' !in EnvVarName(choice)
  {
    var n := EnvVarName(choice);
    assert forall i :: 0 <= i < |n| ==> n[i] != '=';
  }

  /**
   * The `.env` line is written exactly when the configuration stores a key,
   * and reading it back (name up to the first '=', value up to the newline)
   * gives the variable name and the key.
   */
  lemma EnvLineReadsBack(answers: Answers)
    ensures EnvLine(answers).Some? <==> BuildInitConfig(answers).ai.apiKey.Some?
    ensures EnvLine(answers).Some? ==>
              var line, k := EnvLine(answers).value, IndexOfChar(EnvLine(answers).value, '=');
              k < |line| && line[|line| - 1] == '\n' &&
              line[..k] == EnvVarName(answers.aiProvider) && line[k + 1..|line| - 1] == answers.apiKey.value
  {
    if EnvLine(answers).Some? {
      var name := EnvVarName(answers.aiProvider);
      var line := EnvLine(answers).value;
      NoEqualsInName(answers.aiProvider);
      assert line[|name|] == '=';
      assert IndexOfChar(line, '=') == |name|;
    }
  }

  // ---------------------------------------------------------------------------
  // The command
  // ---------------------------------------------------------------------------

  /** The working directory's two files as the command leaves them. */
  class Workspace {
    var configFile: Option<InitConfig>
    var envFile: string

    constructor(configFile: Option<InitConfig>, envFile: string)
      ensures this.configFile == configFile && this.envFile == envFile
    {
      this.configFile := configFile;
      this.envFile := envFile;
    }

    /**
     * `initCommand` after the prompt: replace `.codeblaster.json`, then
     * append the `.env` line when a key was typed. A failing write stops the
     * command with status 1; what was written before it stays.
     */
    method Init(answers: Answers, writeError: Option<string>, appendError: Option<string>) returns (exitCode: nat)
      modifies this
      ensures exitCode == 1 <==> writeError.Some? || (EnvLine(answers).Some? && appendError.Some?)
      ensures exitCode == 0 || exitCode == 1
      ensures configFile == if writeError.None? then Some(BuildInitConfig(answers)) else old(configFile)
      ensures envFile == if writeError.None? && EnvLine(answers).Some? && appendError.None?
                         then old(envFile) + EnvLine(answers).value else old(envFile)
    {
      var config := BuildInitConfig(answers);
      if writeError.Some? {
        return 1;
      }
      configFile := Some(config);
      if Truthy(answers.apiKey) {
        if appendError.Some? {
          return 1;
        }
        envFile := envFile + EnvVarName(answers.aiProvider) + "=" + answers.apiKey.value + "\n";
      }
      return 0;
    }
  }
}
