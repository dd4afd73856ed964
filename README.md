# CodeBlaster AI: a Dafny model of the review engine

CodeBlaster AI reviews source code. It runs a set of pluggable static rules
and, optionally, one or more AI reviewers over each file. It merges what the
reviewers say by voting, caches results by content, and reports issues
through a command-line tool and a web dashboard. This project models the
parts of the engine that make decisions, and proves what they promise.

One module per source file:

- `Types`: severities, categories, languages, issues and configuration records.
  Severity and category are kept as run-time strings, because AI issues arrive unchecked.
- `Cache`: entries keyed `prefix:digest` with an absolute expiry time.
  A lookup returns only fresh entries and evicts stale ones; clearing works by key prefix.
- `Plugins`: the rule registry, a class whose insertion-ordered maps of plugins and rules its methods update.
  It also covers plugin shape validation, enabling and disabling rules, and unloading.
- `Analyzer`: the `CodeAnalyzer` class.
  It covers default-rule selection, the per-file flow (cache hit, or static rules plus the AI reviewer and a cache write) and directory filtering with its summary.
- `Consensus`: Levenshtein similarity and greedy grouping of similar issues.
  It also covers the vote (majority, unanimous, weighted) and the choice of each group's representative.
- `Parser`: language detection from a file name, the grammar check, the preorder tree walk and node text slicing.
- `CodeQuality`: the built-in code-quality rules apart from their regular expressions.
  It covers positions, brace scanning, magic-number exemptions, duplicate windows and the error-handling search.
- `Architecture`: pattern and anti-pattern detection over file paths, and the two complexity counters.
- `Dependencies`: merging the manifest's dependency sections, and the deprecated, wildcard-version and advisory checks.
- `Html`: escaping and the parts of an issue card in the HTML report.
- `ConfigCommand`, `CliReview`, `CliInit`: the `config`, `review` and `init` commands of the command-line tool.
- `Backend`: the dashboard's `/analyze` and `/batch` routes, with their score, labels and language detection.
- `Text`, `OrderedMaps`, `Wrappers`: JavaScript string built-ins, `Map` ordering, and `Option`/`Result`.

Code that changes state in place is written as classes with `modifies` clauses and loops with invariants.
These are the cache, the rule registry, the analyser, the `init` command's workspace and several counting loops.
Each method is proved against a function that specifies it.
Pure lookups and transformations are functions, with lemmas relating them.

Where the code and the system's design description differ, the model follows the code:

- Consensus merging is a separate component. `CodeAnalyzer` never calls it.
- A file's cache key covers its path and content only, not the configuration.
- `loadDefaultRules` pushes the selected rules onto a copy of the list, so the registry stays empty.
  `Analyzer.FreshAnalyzerRunsNoRules` states the consequence.
- The `review` command and the dashboard pass `rules: []`.
  An empty list is present, so it selects no default rule.
- `init` looks the default model up by the whole lowercased choice.
  The `Ollama (Local)` choice therefore gets the fallback model, `gpt-4-turbo-preview` (`CliInit.ChoicesStored`); see "## Findings".
- The parser's six grammar modules are all required before any is registered, so either all six grammars are loaded or none is.
  `Parser.Parse` and `Analyzer.CodeAnalyzer` take that as a flag.
- The dashboard writes an uploaded `code` with the promise-based `fs.writeFile`, which also accepts an iterable.
  A JSON array of strings is therefore written as its strings one after another and analysed (`Backend.WrittenCode`).

## Model

| member | source | states |
|---|---|---|
| Types.SeverityOfTag | packages/core/src/types/index.ts:3-8 | a tag reads back as the severity whose tag it is, and only the four severity tags read as a severity |
| Types.CountTagPositive | packages/core/src/CodeAnalyzer.ts:194-197 | a summary counter is positive exactly when some issue carries that severity |
| Types.CountTagAppend | packages/core/src/CodeAnalyzer.ts:194-197 | the count of a severity over two issue lists joined is the sum of their counts |
| Types.SummarizeAppend | packages/core/src/CodeAnalyzer.ts:178-198 | each of the four summary counters of the concatenated per-file issues is the sum of the per-file counters |
| Types.SummarizeBounded | packages/core/src/CodeAnalyzer.ts:193-198 | the four counters together never exceed the number of issues (an issue with an unknown severity is counted nowhere) |
| Analyzer.SelectRules | packages/core/src/CodeAnalyzer.ts:42-54 | every default rule kept lists the configured language, is allowed by `rules` and is not excluded, and no more rules are kept than offered; completeness and order are `SelectRulesMembers` and `SelectRulesAppend` |
| Analyzer.SelectRulesMembers | packages/core/src/CodeAnalyzer.ts:42-54 | a candidate is kept exactly when it lists the configured language, is allowed by `rules` and is not in `excludeRules` |
| Analyzer.SelectRulesAppend | packages/core/src/CodeAnalyzer.ts:42-54 | selection keeps the candidates' order: selecting from two lists joined gives the two selections joined |
| Analyzer.EmptyRuleListSelectsNothing | packages/core/src/CodeAnalyzer.ts:48 | an empty `rules` list is present, so it selects no rule at all |
| Analyzer.NoFiltersSelectsAllForLanguage | packages/core/src/CodeAnalyzer.ts:46-50 | without `rules` and `excludeRules`, every rule for the language is kept, in order |
| Analyzer.EffectiveCacheConfig | packages/core/src/CodeAnalyzer.ts:33-35 | a given cache configuration is used as it is; without one the cache is enabled, in memory, with a one-hour lifetime |
| Analyzer.CacheKey | packages/core/src/CodeAnalyzer.ts:61 | a file's cache key lies in the `analysis` namespace |
| Analyzer.GetLine | packages/core/src/CodeAnalyzer.ts:265-268 | line n (from 1) of the content split on newlines, and "" for a line number out of range; never holds a newline |
| Analyzer.GetLineOfJoined | packages/core/src/CodeAnalyzer.ts:265-268 | asking for line n of lines joined by newlines gives the n-th line back |
| Analyzer.ForLanguage | packages/core/src/CodeAnalyzer.ts:111-113 | every enabled rule run on a file lists its language, and no more rules are run than are enabled; completeness and order are `ForLanguageMembers` and `ForLanguageAppend` |
| Analyzer.ForLanguageMembers | packages/core/src/CodeAnalyzer.ts:111-113 | a registered enabled rule is run on a file exactly when it lists the file's language |
| Analyzer.ForLanguageAppend | packages/core/src/CodeAnalyzer.ts:111-113 | the rules for a language keep their registry order: filtering two lists joined gives the two results joined |
| Analyzer.CollectIssuesAppend | packages/core/src/CodeAnalyzer.ts:115-122 | the issues of two rule lists run in turn are the first list's followed by the second's |
| Analyzer.CollectIssuesSnoc | packages/core/src/CodeAnalyzer.ts:115-122 | each rule's issues are appended after those of the rules before it |
| Analyzer.ThrowingRuleIsIsolated | packages/core/src/CodeAnalyzer.ts:116-121 | a rule that throws adds nothing, and the rules before and after it still report |
| Analyzer.AIIssues | packages/core/src/CodeAnalyzer.ts:127-157 | a failed AI review gives no issue; otherwise one issue per AI issue, in order, with rule `ai-analysis`, column 0, not fixable, the AI's tags, message, line and confidence, and the snippet taken from that line |
| Analyzer.SupportedFiles | packages/core/src/CodeAnalyzer.ts:163-166 | only files ending in one of the eight supported extensions are analysed |
| Analyzer.SupportedFilesMembers | packages/core/src/CodeAnalyzer.ts:163-166 | a file is analysed exactly when it is listed and ends in a supported extension |
| Analyzer.CodeAnalyzer.constructor | packages/core/src/CodeAnalyzer.ts:29-40 | the analyser keeps its configuration and whether the parser's grammars loaded, builds a cache with the effective cache configuration and an empty registry |
| Analyzer.CodeAnalyzer.LoadDefaultRules | packages/core/src/CodeAnalyzer.ts:42-54 | the rules pushed are exactly the selected ones, in order; they go to a copy of the registry's list, so the registry stays as it was |
| Analyzer.CodeAnalyzer.RunStaticAnalysis | packages/core/src/CodeAnalyzer.ts:88-125 | the result is the issues of the enabled rules for the language, run in order on one context, throwing rules skipped |
| Analyzer.CodeAnalyzer.ComputeIssues | packages/core/src/CodeAnalyzer.ts:68-78 | on a cache miss: the static issues, followed by the AI issues when an AI reviewer is configured |
| Analyzer.CodeAnalyzer.AnalyzeFile | packages/core/src/CodeAnalyzer.ts:56-86 | one step of `DirectoryPass`: a live cached list under the key of path and content is returned unchanged and the cache untouched; otherwise the fresh issues (static, then AI when configured) are returned and, with the cache enabled, stored at the finishing time |
| Analyzer.CodeAnalyzer.AnalyzeDirectory | packages/core/src/CodeAnalyzer.ts:159-202 | the file count is the number of supported files; the issues are the per-file lists of `DirectoryPass` over their keys, cache included, concatenated in listing order; the new cache is the pass's; the summary counts the issues by severity |
| Analyzer.DirectoryPass | packages/core/src/CodeAnalyzer.ts:177-181 | the files analysed one after another through the cache give one issue list per file |
| Analyzer.DirectoryPassUncached | packages/core/src/CodeAnalyzer.ts:62-80 | with the cache disabled every file's list is its freshly computed one and the cache is unchanged |
| Analyzer.DirectoryPassOtherKeys | packages/core/src/CodeAnalyzer.ts:62-80 | a directory pass changes what a lookup finds only under the keys of the files it analyses |
| Analyzer.DirectoryPassFirstRun | packages/core/src/CodeAnalyzer.ts:62-80 | when no key is live and no two files share a key, every file gets its freshly computed list, cache enabled or not |
| Analyzer.SecondVisitHits | packages/core/src/CodeAnalyzer.ts:62-66 | with a live cache of positive lifetime, the second of two files with the same key gets the first file's stored list, not its own |
| Analyzer.FreshAnalyzerRunsNoRules | packages/core/src/CodeAnalyzer.ts:36-54 | a freshly built analyser runs no static rule, because the default rules never reach the registry |
| Cache.GenerateKey | packages/core/src/cache/CacheManager.ts:29-35 | the key is the prefix, a colon, then the digest of the payload |
| Cache.GenerateKeyInjective | packages/core/src/cache/CacheManager.ts:29-35 | two keys with colon-free prefixes coincide only for the same prefix and the same digest |
| Cache.Lookup | packages/core/src/cache/CacheManager.ts:50-53 | a lookup finds a value exactly when the key is present and its expiry lies after now |
| Cache.Store | packages/core/src/cache/CacheManager.ts:71-74 | storing adds the key and keeps every other key |
| Cache.StoreAfterRemove | packages/core/src/cache/CacheManager.ts:50-74 | deleting a stale key before storing under it makes no difference |
| Cache.StoreLookup | packages/core/src/cache/CacheManager.ts:50-74 | a value stored at now is found until ttl seconds later and not afterwards; other keys are unaffected |
| Cache.Evict | packages/core/src/cache/CacheManager.ts:89-94 | the keys kept by a prefix clear are exactly those not starting with the prefix, with their entries unchanged |
| Cache.ClearEvictsGenerated | packages/core/src/cache/CacheManager.ts:89-94 | clearing `prefix:*` removes every key generated with that prefix |
| Cache.CacheManager.constructor | packages/core/src/cache/CacheManager.ts:10-17 | a new cache keeps its configuration and starts empty |
| Cache.CacheManager.Get | packages/core/src/cache/CacheManager.ts:37-56 | a disabled cache answers nothing and is unchanged; otherwise the live entry is returned, and a stale or missing one is deleted |
| Cache.CacheManager.Set | packages/core/src/cache/CacheManager.ts:58-75 | a disabled cache is unchanged; otherwise the value is stored with expiry now plus ttl seconds |
| Cache.CacheManager.Clear | packages/core/src/cache/CacheManager.ts:77-98 | with a non-empty pattern, the keys starting with it (first `*` removed) are deleted; otherwise everything is, enabled or not |
| Plugins.AsRule | packages/core/src/plugins/PluginManager.ts:95-102 | a raw rule has a typed view exactly when it validates, with the same id and name |
| Plugins.AsRules | packages/core/src/plugins/PluginManager.ts:90-91 | a rule array has a typed view exactly when every rule validates, element by element |
| Plugins.AsPlugin | packages/core/src/plugins/PluginManager.ts:85-93 | a raw plugin has a typed view exactly when it validates, with the same name and version |
| Plugins.RegisterRulesSnoc | packages/core/src/plugins/PluginManager.ts:20-22 | registering one more rule is one more set under its id |
| Plugins.LastWithId | packages/core/src/plugins/PluginManager.ts:20-22 | the position found carries the id and no later rule does, or no rule does |
| Plugins.RegisterRulesGet | packages/core/src/plugins/PluginManager.ts:20-22 | after registering, an id maps to the last rule carrying it; other ids are unchanged |
| Plugins.RemoveRulesGet | packages/core/src/plugins/PluginManager.ts:107-109 | unloading removes every id the plugin lists, even when another plugin registered it last, and nothing else |
| Plugins.SetEnabled | packages/core/src/plugins/PluginManager.ts:71-83 | enabling or disabling keeps the registered ids |
| Plugins.SetEnabledGet | packages/core/src/plugins/PluginManager.ts:71-83 | only the flag of the rule under that id changes; an unknown id changes nothing |
| Plugins.EnabledRules | packages/core/src/plugins/PluginManager.ts:67-69 | the enabled rules are a sub-list of the registered ones, each with its flag set |
| Plugins.EnabledRulesAppend | packages/core/src/plugins/PluginManager.ts:67-69 | filtering keeps registration order |
| Plugins.EnabledRulesMembers | packages/core/src/plugins/PluginManager.ts:67-69 | a rule is listed as enabled exactly when it is registered with its flag set |
| Plugins.LoadListingIsLoadable | packages/core/src/plugins/PluginManager.ts:31-49 | loading a directory registers exactly the valid exports of its `.js` and `.ts` files, in listing order, skipping failures |
| Plugins.PluginManager.constructor | packages/core/src/plugins/PluginManager.ts:6-7 | a new registry holds no plugin and no rule |
| Plugins.PluginManager.LoadPlugin | packages/core/src/plugins/PluginManager.ts:9-29 | succeeds exactly when the plugin validates, failing with `Invalid plugin structure: <path>`; the registry becomes the loaded one, or is unchanged |
| Plugins.PluginManager.LoadPluginsFromDirectory | packages/core/src/plugins/PluginManager.ts:31-49 | a missing directory changes nothing; otherwise the listing is loaded in order |
| Plugins.PluginManager.GetAllRules | packages/core/src/plugins/PluginManager.ts:63-65 | a fresh list of the registered rules, in registration order |
| Plugins.PluginManager.EnableRule | packages/core/src/plugins/PluginManager.ts:71-76 | the rule under the id is enabled and every other rule is as it was; the model's plugin records are not touched (the shared-object flip the source also shows through them is under Left out) |
| Plugins.PluginManager.DisableRule | packages/core/src/plugins/PluginManager.ts:78-83 | the rule under the id is disabled and every other rule is as it was; the model's plugin records are not touched (the shared-object flip the source also shows through them is under Left out) |
| Plugins.PluginManager.UnloadPlugin | packages/core/src/plugins/PluginManager.ts:104-113 | the plugin's listed rule ids and then the plugin are removed; an unknown name changes nothing |
| Plugins.PluginManager.ClearAll | packages/core/src/plugins/PluginManager.ts:115-118 | both maps are emptied |
| Parser.KnownExtensionsShort | packages/core/src/parsers/MultiLanguageParser.ts:56-96 | no extension in the table is longer than five characters |
| Parser.DetectLanguageIgnoresCase | packages/core/src/parsers/MultiLanguageParser.ts:53-99 | names equal up to case are given the same language |
| Parser.ExtensionLower | packages/core/src/parsers/MultiLanguageParser.ts:54 | the extension of the lowercased name is the lowercased extension |
| Parser.ExtensionWithoutDot | packages/core/src/parsers/MultiLanguageParser.ts:54 | a name without '.' is looked up whole |
| Parser.ExtensionIsSuffix | packages/core/src/parsers/MultiLanguageParser.ts:54 | the extension holds no '.', ends the name, and is preceded by a '.' unless it is the whole name |
| Parser.ExtensionAfterDot | packages/core/src/parsers/MultiLanguageParser.ts:54 | the text after the last '.' is the extension, whatever precedes it |
| Parser.DetectUpperCaseExtension | packages/core/src/parsers/MultiLanguageParser.ts:53-99 | `A.TS` is TypeScript: the extension is matched whatever its case |
| Parser.DetectBareName | packages/core/src/parsers/MultiLanguageParser.ts:53-99 | a bare name `go` is its own extension, so it is Go |
| Parser.DetectPathWithoutDot | packages/core/src/parsers/MultiLanguageParser.ts:53-99 | `src/go` has no '.', is looked up whole, missed, and falls back to JavaScript |
| Parser.LoadedLanguages | packages/core/src/parsers/MultiLanguageParser.ts:15-34 | all six grammars are registered when their modules load, and none when any of them fails |
| Parser.Parse | packages/core/src/parsers/MultiLanguageParser.ts:36-51 | a language without a loaded grammar is refused with `Parser not available for language: <tag>`, so every language is refused when the grammars failed to load; otherwise the library's tree |
| Parser.Preorder | packages/core/src/parsers/MultiLanguageParser.ts:101-106 | the traversal visits the node itself first |
| Parser.OfKind | packages/core/src/parsers/MultiLanguageParser.ts:110-114 | the nodes kept all have the requested type, and no more than were visited |
| Parser.OfKindAppend | packages/core/src/parsers/MultiLanguageParser.ts:110-114 | filtering keeps visiting order across concatenation |
| Parser.OfKindMembers | packages/core/src/parsers/MultiLanguageParser.ts:110-114 | a node is kept exactly when it is visited and has the requested type |
| Parser.Visit | packages/core/src/parsers/MultiLanguageParser.ts:101-114 | the traversal from a node appends that node's subtree's nodes of the requested type, in preorder |
| Parser.VisitChild | packages/core/src/parsers/MultiLanguageParser.ts:103-105 | the recursive call on one child appends that child's subtree's matches |
| Parser.PreorderOfKind | packages/core/src/parsers/MultiLanguageParser.ts:101-106 | the matches of a subtree are the node's own match followed by its children's, left to right |
| Parser.ForestOfKindSnoc | packages/core/src/parsers/MultiLanguageParser.ts:103-105 | one more child's subtree appends its matches after the earlier children's |
| Parser.FindNodes | packages/core/src/parsers/MultiLanguageParser.ts:108-116 | exactly the nodes of the given type, in preorder |
| Parser.GetNodeText | packages/core/src/parsers/MultiLanguageParser.ts:118-120 | the source between the node's start and end offsets, clamped and swapped as `substring` does |
| Consensus.Min3 | packages/core/src/ai/MultiModelConsensus.ts:146-150 | the smallest of the three candidate costs |
| Consensus.LevenshteinDistance | packages/core/src/ai/MultiModelConsensus.ts:130-156 | the table's last cell is the edit distance between the two strings |
| Consensus.FillRow | packages/core/src/ai/MultiModelConsensus.ts:141-153 | filling row i makes every cell of rows 0 to i hold the edit distance of its prefixes |
| Consensus.DistSelf | packages/core/src/ai/MultiModelConsensus.ts:130-156 | a string is at distance zero from itself |
| Consensus.DistSymmetric | packages/core/src/ai/MultiModelConsensus.ts:130-156 | the distance does not depend on the order of its arguments |
| Consensus.DistBounds | packages/core/src/ai/MultiModelConsensus.ts:130-156 | the distance lies between the difference of the lengths and the larger length |
| Consensus.DistZero | packages/core/src/ai/MultiModelConsensus.ts:130-156 | distance zero exactly for equal prefixes |
| Consensus.EditDistanceProperties | packages/core/src/ai/MultiModelConsensus.ts:130-156 | on whole strings: symmetric, zero exactly on equal strings, between the length difference and the larger length |
| Consensus.Ratio | packages/core/src/ai/MultiModelConsensus.ts:127 | the score quotient lies within [0, 1] and is 1 only for distance zero |
| Consensus.FuzzyMatch | packages/core/src/ai/MultiModelConsensus.ts:120-128 | the score lies in [0, 1] and is 1 exactly for equal strings (two empty strings included) |
| Consensus.SimilarMessagesIsFuzzy | packages/core/src/ai/MultiModelConsensus.ts:115 | the integer similarity test agrees with `fuzzyMatch > 0.7` |
| Consensus.RatioAbove | packages/core/src/ai/MultiModelConsensus.ts:115-127 | a quotient exceeds 0.7 exactly when ten times the numerator exceeds seven times the denominator |
| Consensus.FuzzyMatchProperties | packages/core/src/ai/MultiModelConsensus.ts:120-128 | the score is symmetric and never exceeds the ratio of the shorter to the longer length |
| Consensus.SimilarReflexiveSymmetric | packages/core/src/ai/MultiModelConsensus.ts:107-118 | issue similarity is reflexive and symmetric |
| Consensus.FirstSimilarGroup | packages/core/src/ai/MultiModelConsensus.ts:93-95 | the group found is the first whose first issue is similar, or none is |
| Consensus.AddToGroups | packages/core/src/ai/MultiModelConsensus.ts:97-101 | one step joins a group or opens one new group; groups stay non-empty |
| Consensus.Grouped | packages/core/src/ai/MultiModelConsensus.ts:88-105 | the groups are non-empty and no more numerous than the issues |
| Consensus.GroupSimilarIssues | packages/core/src/ai/MultiModelConsensus.ts:88-105 | the loop builds the groups of the issues taken in input order |
| Consensus.FindGroup | packages/core/src/ai/MultiModelConsensus.ts:93-95 | the search returns the first matching group |
| Consensus.AddToGroupsMembers | packages/core/src/ai/MultiModelConsensus.ts:97-101 | one step adds exactly the new issue to the groups' members |
| Consensus.GroupedIsPartition | packages/core/src/ai/MultiModelConsensus.ts:88-105 | the groups hold exactly the input issues, each once |
| Consensus.GroupedGreedy | packages/core/src/ai/MultiModelConsensus.ts:88-105 | every member is similar to its group's first issue and to no earlier group's first issue |
| Consensus.RoundedMean | packages/core/src/ai/MultiModelConsensus.ts:176-189 | the nearest integer to the mean, halves rounded up |
| Consensus.RoundedMeanIsRound | packages/core/src/ai/MultiModelConsensus.ts:189 | it agrees with `Math.round` on the real quotient |
| Consensus.BestIndex | packages/core/src/ai/MultiModelConsensus.ts:183-185 | the chosen member has the highest confidence, and is the first such |
| Consensus.MajorityThreshold | packages/core/src/ai/MultiModelConsensus.ts:160-168 | `count / total < 0.5` exactly when twice the count is below the total |
| Consensus.MeanThreshold | packages/core/src/ai/MultiModelConsensus.ts:176-180 | `sum / n < min` exactly when the sum is below min times n |
| Consensus.ApplyVoting | packages/core/src/ai/MultiModelConsensus.ts:158-193 | a group survives exactly when its strategy passes it and its mean confidence reaches the minimum; a survivor carries the group size as votes and the text "<votes>/<models> models agree" |
| Consensus.SumConfidenceBounds | packages/core/src/ai/MultiModelConsensus.ts:176 | the sum of confidences lies between n times the lowest and n times the highest |
| Consensus.RoundedMeanBetween | packages/core/src/ai/MultiModelConsensus.ts:176-189 | the rounded mean lies within the group's confidence range |
| Consensus.ApplyVotingKeepsBest | packages/core/src/ai/MultiModelConsensus.ts:183-192 | a survivor's issue is the group's first most confident member, with its confidence replaced by the rounded mean, which lies between the group's lowest and highest confidence |
| Consensus.Summaries | packages/core/src/ai/MultiModelConsensus.ts:78 | one summary per answer, in order |
| Consensus.FirstIndexPrefix | packages/core/src/ai/MultiModelConsensus.ts:79 | the first occurrence in a prefix is the first occurrence overall |
| Consensus.DedupProperties | packages/core/src/ai/MultiModelConsensus.ts:79 | the improvements keep every element once, in order of first occurrence |
| Consensus.Survivors | packages/core/src/ai/MultiModelConsensus.ts:73-75 | no more survivors than groups; which groups survive and in what order is stated by `SurvivorsMembers` and `SurvivorsOrder` |
| Consensus.MergeResults | packages/core/src/ai/MultiModelConsensus.ts:66-86 | no more issues are reported than the reviewers returned; which issues are reported, and in what order, is stated by `MergeResultsMembers` and `MergeResultsOrder` |
| Consensus.SurvivorsFromGroups | packages/core/src/ai/MultiModelConsensus.ts:73-75 | each survivor is the vote of some group |
| Consensus.SurvivorsComplete | packages/core/src/ai/MultiModelConsensus.ts:73-75 | every group that passes the vote has its voted issue reported |
| Consensus.SurvivorsAppend | packages/core/src/ai/MultiModelConsensus.ts:73-75 | the vote is taken group by group: the survivors of joined group lists are the two lists' survivors, joined |
| Consensus.SurvivorsMembers | packages/core/src/ai/MultiModelConsensus.ts:73-75 | an issue is reported exactly when some group's vote yields it |
| Consensus.SurvivorsOrder | packages/core/src/ai/MultiModelConsensus.ts:73-75 | two surviving groups are reported in group order |
| Consensus.MergeResultsFromInputs | packages/core/src/ai/MultiModelConsensus.ts:66-86 | each reported issue is one some reviewer returned, with a changed confidence; unanimous survivors have a vote per answer, majority ones at least half |
| Consensus.MergeResultsMembers | packages/core/src/ai/MultiModelConsensus.ts:66-86 | the merged issues are exactly the votes of the groups of all reviewers' issues that pass: none dropped, none invented |
| Consensus.MergeResultsOrder | packages/core/src/ai/MultiModelConsensus.ts:66-86 | surviving groups are reported in the order the grouping opened them |
| Consensus.GroupSizeBound | packages/core/src/ai/MultiModelConsensus.ts:88-105 | no group holds more issues than there are |
| Consensus.Responded | packages/core/src/ai/MultiModelConsensus.ts:31 | the answers kept are exactly the present ones, none when every provider failed |
| Consensus.AnalyzeWithConsensus | packages/core/src/ai/MultiModelConsensus.ts:20-39 | fails with `All AI providers failed` exactly when no provider answered; otherwise merges the answers given |
| CodeQuality.LineAt | packages/core/src/analyzers/code-quality-rules.ts:46 | the reported line is one more than the newlines before the match |
| CodeQuality.ColumnAt | packages/core/src/analyzers/code-quality-rules.ts:56 | the column is the distance to the newline at or before the match: between 0 and the index plus one, at least 1 off a newline |
| CodeQuality.LineStart | packages/core/src/analyzers/code-quality-rules.ts:56 | the line holding an index starts at or before it |
| CodeQuality.LineEnd | packages/core/src/analyzers/code-quality-rules.ts:57 | the line holding an index ends at or after it, within the content |
| CodeQuality.LineAtLineStart | packages/core/src/analyzers/code-quality-rules.ts:46 | the line of an index counts the newlines before its line's start |
| CodeQuality.PieceAfterNewline | packages/core/src/analyzers/code-quality-rules.ts:57 | the split piece that starts right after a newline is the first piece of the rest |
| CodeQuality.FirstPieceIsLine | packages/core/src/analyzers/code-quality-rules.ts:57 | the first piece from a line's start reaches the end of that line |
| CodeQuality.ColumnFromLineStart | packages/core/src/analyzers/code-quality-rules.ts:56 | off a newline, the column counts from 1 at the line's start |
| CodeQuality.SnippetIsMatchLine | packages/core/src/analyzers/code-quality-rules.ts:56-57 | the snippet is the whole line holding the match, and the column points at the matched character within it |
| CodeQuality.ScanEndStops | packages/core/src/analyzers/code-quality-rules.ts:36-40 | the scan stops at the first index where the brace count returns to zero, or at the content's last index |
| CodeQuality.BodyEndCharacterised | packages/core/src/analyzers/code-quality-rules.ts:33-40 | the body ends at the first index closing the header's brace, at the last index when none does, and at the header's end when nothing follows |
| CodeQuality.BraceScan | packages/core/src/analyzers/code-quality-rules.ts:33-40 | the loop stops where `BodyEnd` says |
| CodeQuality.LongFunctionAt | packages/core/src/analyzers/code-quality-rules.ts:42-62 | one issue exactly when the measured body spans more than 50 lines, with rule `long-function` and confidence 100 |
| CodeQuality.LongFunctionIssues | packages/core/src/analyzers/code-quality-rules.ts:31-63 | at most one issue per header |
| CodeQuality.LongFunctionStep | packages/core/src/analyzers/code-quality-rules.ts:32-62 | one pass of the loop reports what `LongFunctionAt` says |
| CodeQuality.LongFunction | packages/core/src/analyzers/code-quality-rules.ts:26-66 | the rule reports, header by header in match order, what `LongFunctionAt` says |
| CodeQuality.LongFunctionIssuesSnoc | packages/core/src/analyzers/code-quality-rules.ts:31-63 | each header's report follows those of the headers before it |
| CodeQuality.ConsoleLogIssues | packages/core/src/analyzers/code-quality-rules.ts:76-102 | one fixable issue per matched call, in order, on the match's line and column, with an empty auto-fix and confidence 100 |
| CodeQuality.MagicNumberAt | packages/core/src/analyzers/code-quality-rules.ts:123-142 | one issue exactly when the match's line holds neither `//` nor `const` |
| CodeQuality.MagicNumbersIssues | packages/core/src/analyzers/code-quality-rules.ts:117-146 | no more issues than matches, and no reported line holds `//` or `const` |
| CodeQuality.WindowCount | packages/core/src/analyzers/code-quality-rules.ts:162 | one window per start `i` with `i < |lines| - 5`: `|lines| - 5` windows when there are more than five lines (one for six lines), none for five lines or fewer |
| CodeQuality.Windows | packages/core/src/analyzers/code-quality-rules.ts:163 | each window is five joined lines, trimmed |
| CodeQuality.SeenAfterStep | packages/core/src/analyzers/code-quality-rules.ts:162-171 | one more window records its start line, or leaves a short window out |
| CodeQuality.RecordStarts | packages/core/src/analyzers/code-quality-rules.ts:166-170 | a step records the line for its block and for no other text |
| CodeQuality.SeenAfterStarts | packages/core/src/analyzers/code-quality-rules.ts:162-171 | the map lists, for each text, exactly its start lines |
| CodeQuality.SeenAfterGet | packages/core/src/analyzers/code-quality-rules.ts:160-171 | a text is mapped to its start lines; a text never seen, or shorter than 50, is absent |
| CodeQuality.OccurrencesAscending | packages/core/src/analyzers/code-quality-rules.ts:162-171 | start lines are listed in ascending order, each within range |
| CodeQuality.OccurrencesMembers | packages/core/src/analyzers/code-quality-rules.ts:162-171 | a start line is listed for a text exactly when the window there has that text, at least 50 long |
| CodeQuality.EntryIssues | packages/core/src/analyzers/code-quality-rules.ts:173-192 | an entry with two or more starts gives one issue per start, none otherwise |
| CodeQuality.IssueLines | packages/core/src/analyzers/code-quality-rules.ts:184 | the line of each issue, in order |
| CodeQuality.EntryIssueLines | packages/core/src/analyzers/code-quality-rules.ts:174-191 | an entry reports a line exactly when it has two or more starts and lists that line |
| CodeQuality.IssueLinesAppend | packages/core/src/analyzers/code-quality-rules.ts:173-193 | the lines of joined issue lists are those of either list |
| CodeQuality.RepeatedSnoc | packages/core/src/analyzers/code-quality-rules.ts:173-193 | a line is repeated in a longer map exactly when it is repeated before or in the new entry |
| CodeQuality.RepeatedLast | packages/core/src/analyzers/code-quality-rules.ts:173-193 | the same, stated for the map's last entry |
| CodeQuality.EmitIssuesLines | packages/core/src/analyzers/code-quality-rules.ts:173-193 | an issue is reported on a line exactly when some entry with two or more starts lists it |
| CodeQuality.DuplicateReported | packages/core/src/analyzers/code-quality-rules.ts:156-196 | a line is reported exactly when its window is at least 50 characters once trimmed and the same text starts at another window |
| CodeQuality.RecordStep | packages/core/src/analyzers/code-quality-rules.ts:166-170 | the body of the first loop pushes onto a block's starts or sets a new entry |
| CodeQuality.CollectWindows | packages/core/src/analyzers/code-quality-rules.ts:162-171 | the first loop builds the map over all windows |
| CodeQuality.CollectWindow | packages/core/src/analyzers/code-quality-rules.ts:163-170 | one window's step of the first loop |
| CodeQuality.EmitDuplicates | packages/core/src/analyzers/code-quality-rules.ts:173-193 | the second loop reports each entry's issues in insertion order |
| CodeQuality.EmitIssuesSnoc | packages/core/src/analyzers/code-quality-rules.ts:173-193 | each entry's issues follow those of the entries before it |
| CodeQuality.EmitEntry | packages/core/src/analyzers/code-quality-rules.ts:175-191 | the inner loop adds one issue per start line of a repeated block |
| CodeQuality.DuplicateCode | packages/core/src/analyzers/code-quality-rules.ts:156-196 | the rule reports what `DuplicateIssues` says for the content's lines |
| CodeQuality.SkipSpace | packages/core/src/analyzers/code-quality-rules.ts:209 | the first index that is not whitespace from a position on |
| CodeQuality.HandlerEnd | packages/core/src/analyzers/code-quality-rules.ts:209 | a handler match ends after it starts, within the text |
| CodeQuality.HandlerStart | packages/core/src/analyzers/code-quality-rules.ts:209 | every handler match starts with '.' or 't' |
| CodeQuality.FirstHandler | packages/core/src/analyzers/code-quality-rules.ts:209-217 | the leftmost handler match at or after a position, or none |
| CodeQuality.RegexTest | packages/core/src/analyzers/code-quality-rules.ts:209-217 | `test` on the global handler pattern succeeds exactly when a match starts at or after `lastIndex`, which it moves past the match, or resets to 0 on failure |
| CodeQuality.SnippetAt | packages/core/src/analyzers/code-quality-rules.ts:214-215 | the snippet is the content from the `async`, 500 characters or up to the end |
| CodeQuality.MissingHandlerIssue | packages/core/src/analyzers/code-quality-rules.ts:218-233 | the issue has rule `missing-error-handling`, severity error, confidence 80, and the `async`'s line, column and line text |
| CodeQuality.ErrorHandlingIssues | packages/core/src/analyzers/code-quality-rules.ts:206-238 | corrected reading: each `async` is reported exactly when its own snippet has no handler |
| CodeQuality.ErrorHandlingAppend | packages/core/src/analyzers/code-quality-rules.ts:212-235 | in the corrected reading each `async` is judged alone |
| CodeQuality.AsWrittenFrom | packages/core/src/analyzers/code-quality-rules.ts:212-235 | as written: no more issues than `async` matches, the handler search of each snippet starting at the `lastIndex` left by the previous one |
| CodeQuality.AsWrittenStep | packages/core/src/analyzers/code-quality-rules.ts:217 | one `test` adds an issue exactly when it fails, and leaves the next `lastIndex` |
| CodeQuality.MissingErrorHandling | packages/core/src/analyzers/code-quality-rules.ts:206-238 | the loop as written, threading the shared pattern's `lastIndex` |
| CodeQuality.AsWrittenFirstAgrees | packages/core/src/analyzers/code-quality-rules.ts:217 | for the first `async` the pattern is fresh, so both readings agree |
| CodeQuality.TwoHandledAsyncsSnippets | packages/core/src/analyzers/code-quality-rules.ts:214-215 | the two snippets of the counterexample text |
| CodeQuality.SecondAsyncOnLineTwo | packages/core/src/analyzers/code-quality-rules.ts:218 | the second `async` of the counterexample lies on line 2 |
| CodeQuality.TryBraceAt | packages/core/src/analyzers/code-quality-rules.ts:209 | `try{` is a handler match ending after the brace |
| CodeQuality.FirstTestEndsAt14 | packages/core/src/analyzers/code-quality-rules.ts:217 | a fresh `test` on the first snippet matches and leaves `lastIndex` at 14 |
| CodeQuality.ResumedTestFails | packages/core/src/analyzers/code-quality-rules.ts:217 | resumed at 14, the `test` on the second snippet fails though that snippet has a handler |
| CodeQuality.LastIndexFalsePositive | packages/core/src/analyzers/code-quality-rules.ts:209-217 | two handled `async` functions: the code as written reports the second, the corrected reading reports nothing |
| Architecture.CountContaining | packages/core/src/analyzers/ArchitectureAnalyzer.ts:55 | the number of paths containing a text is positive exactly when some path contains it |
| Architecture.DetectedAppend | packages/core/src/analyzers/ArchitectureAnalyzer.ts:36-81 | a name is detected in joined pattern lists exactly when it is in either |
| Architecture.PatternIfDetected | packages/core/src/analyzers/ArchitectureAnalyzer.ts:44-51 | a conditionally pushed pattern is detected exactly when its condition holds |
| Architecture.DetectPatterns | packages/core/src/analyzers/ArchitectureAnalyzer.ts:36-81 | every detected pattern is marked detected, has no violations and a confidence in [0, 100] |
| Architecture.DetectPatternsName | packages/core/src/analyzers/ArchitectureAnalyzer.ts:36-81 | a name is detected exactly when it is one of the three and its directories are present |
| Architecture.DetectPatternsReported | packages/core/src/analyzers/ArchitectureAnalyzer.ts:40-78 | MVC, Microservices and Layered Architecture are each reported exactly when their directory test holds |
| Architecture.DirOf | packages/core/src/analyzers/ArchitectureAnalyzer.ts:89 | a path's directory key is the text before its last '/', or "" when it has none |
| Architecture.TallyCurrent | packages/core/src/analyzers/ArchitectureAnalyzer.ts:90 | one step adds one to the count of its directory and to no other |
| Architecture.DirCountsCurrent | packages/core/src/analyzers/ArchitectureAnalyzer.ts:87-91 | each directory key is mapped to its number of paths |
| Architecture.IssueFiles | packages/core/src/analyzers/ArchitectureAnalyzer.ts:102 | the file of each issue, in order |
| Architecture.LargeSnoc | packages/core/src/analyzers/ArchitectureAnalyzer.ts:93-94 | a directory is large in a longer map exactly when it is large before or in the new entry |
| Architecture.IssueFilesAppend | packages/core/src/analyzers/ArchitectureAnalyzer.ts:93-111 | the files of joined issue lists are those of either list |
| Architecture.GodIssuesFiles | packages/core/src/analyzers/ArchitectureAnalyzer.ts:93-111 | a directory is reported exactly when its entry counts more than 50 |
| Architecture.GodDirectoryReported | packages/core/src/analyzers/ArchitectureAnalyzer.ts:86-111 | a directory is reported exactly when more than 50 of the paths lie directly in it |
| Architecture.MaxDepth | packages/core/src/analyzers/ArchitectureAnalyzer.ts:114 | the largest number of '/'-separated segments, attained by some path; -1 when there is no path, standing in for `Math.max()` of nothing, which is -Infinity |
| Architecture.FlatStructureReported | packages/core/src/analyzers/ArchitectureAnalyzer.ts:114-131 | at most one flat-structure issue, reported exactly when there are more than 20 paths and none has two '/'s |
| Architecture.CountDirectories | packages/core/src/analyzers/ArchitectureAnalyzer.ts:87-91 | the counting loop builds the directory counts, directories in first-seen order |
| Architecture.GodIssuesSnoc | packages/core/src/analyzers/ArchitectureAnalyzer.ts:93-111 | each entry's issue follows those of the entries before it |
| Architecture.DirCountsSnoc | packages/core/src/analyzers/ArchitectureAnalyzer.ts:88-91 | one more path is one more tally of its directory |
| Architecture.ReportGodDirectories | packages/core/src/analyzers/ArchitectureAnalyzer.ts:93-111 | the reporting loop gives one issue per directory with more than 50 paths, in map order |
| Architecture.DetectAntiPatterns | packages/core/src/analyzers/ArchitectureAnalyzer.ts:83-134 | the god-directory issues, then the flat-structure issue |
| Architecture.CountConfigLike | packages/core/src/analyzers/ArchitectureAnalyzer.ts:162-165 | no more configuration files than paths |
| Architecture.CodeOrganization | packages/core/src/analyzers/ArchitectureAnalyzer.ts:136-186 | at most two issues: test organisation exactly when there are test files and no test directory; config organisation exactly when more than five configuration files and no `/config/` directory |
| Architecture.GodIssuesWellFormed | packages/core/src/analyzers/ArchitectureAnalyzer.ts:93-111 | every god-directory issue is well formed |
| Architecture.WellFormedAppend | packages/core/src/analyzers/ArchitectureAnalyzer.ts:16-33 | joined well-formed issue lists are well formed |
| Architecture.AnalyzeArchitecture | packages/core/src/analyzers/ArchitectureAnalyzer.ts:12-34 | the anti-pattern issues then the organisation issues; the circular-dependency check adds nothing; all issues are under the four rules with confidences in [0, 100] |
| Architecture.ArchitectureWellFormed | packages/core/src/analyzers/ArchitectureAnalyzer.ts:12-34 | every issue of the analysis is under one of the four rules with a confidence in [0, 100] |
| Architecture.FlatIssuesWellFormed | packages/core/src/analyzers/ArchitectureAnalyzer.ts:115-131 | the flat-structure issue is well formed |
| Architecture.CodeOrganizationWellFormed | packages/core/src/analyzers/ArchitectureAnalyzer.ts:136-186 | the organisation issues are well formed |
| Architecture.CyclomaticComplexity | packages/core/src/analyzers/ArchitectureAnalyzer.ts:218-239 | 1 plus the matches of every decision-point pattern, so at least 1 |
| Architecture.NestingDelta | packages/core/src/analyzers/ArchitectureAnalyzer.ts:249-250 | a line changes the nesting by -1, 0 or +1 |
| Architecture.ControlLines | packages/core/src/analyzers/ArchitectureAnalyzer.ts:253 | no more control lines than lines |
| Architecture.CognitiveAtLeastControlLines | packages/core/src/analyzers/ArchitectureAnalyzer.ts:241-259 | while the nesting never goes negative, each control line adds at least 1 |
| Architecture.UnmatchedCloseAddsNothing | packages/core/src/analyzers/ArchitectureAnalyzer.ts:249-255 | an `if` after a line that only closes a brace adds nothing, the nesting being -1 |
| Architecture.CognitiveComplexity | packages/core/src/analyzers/ArchitectureAnalyzer.ts:241-259 | one pass over the lines adds 1 plus the current nesting for each control line |
| Dependencies.SpreadGet | packages/core/src/analyzers/DependencyAnalyzer.ts:34-37 | in `{ ...a, ...b }` a name maps to its entry in `b` when there is one, else to its entry in `a` |
| Dependencies.SpreadKeepsOrder | packages/core/src/analyzers/DependencyAnalyzer.ts:34-37 | the entries of the first table keep their places at the front of the spread |
| Dependencies.MergeDependenciesGet | packages/core/src/analyzers/DependencyAnalyzer.ts:34-37 | the merged table is keyed, a development version wins on the same name, and production order comes first |
| Dependencies.AlternativeCoversDeprecated | packages/core/src/analyzers/DependencyAnalyzer.ts:185-196 | every deprecated package has its own advice and no other name has any |
| Dependencies.CheckDependencyIssues | packages/core/src/analyzers/DependencyAnalyzer.ts:59-110 | a string version gives a deprecation issue exactly for a listed package and a wildcard issue exactly for '*' or 'x'; any other version throws |
| Dependencies.MapVulnSeverityInverse | packages/core/src/analyzers/DependencyAnalyzer.ts:198-206 | the four advisory levels and the four severities correspond one to one; any other level is a warning |
| Dependencies.InheritedLookup | packages/core/src/analyzers/DependencyAnalyzer.ts:118-145 | only a name every object inherits makes the advisory lookup yield something other than a listed advisory or nothing |
| Dependencies.AdvisoryIssues | packages/core/src/analyzers/DependencyAnalyzer.ts:146-163 | one issue per advisory of a package, in table order |
| Dependencies.CheckVulnerabilities | packages/core/src/analyzers/DependencyAnalyzer.ts:112-168 | the loop returns what `VulnerabilityIssues` says, throwing on an inherited name |
| Dependencies.VulnerabilityIssuesStop | packages/core/src/analyzers/DependencyAnalyzer.ts:143-165 | once the check has thrown, later entries change nothing |
| Dependencies.VulnerabilityIssuesFail | packages/core/src/analyzers/DependencyAnalyzer.ts:143-165 | the check throws exactly when some dependency is named like an inherited property |
| Dependencies.VulnerabilityIssuesCount | packages/core/src/analyzers/DependencyAnalyzer.ts:143-165 | one vulnerable-dependency issue per lodash or axios entry, whatever its version |
| Dependencies.Strings | packages/core/src/analyzers/DependencyAnalyzer.ts:39-42 | the string versions of a table, entry by entry |
| Dependencies.DependencyLoop | packages/core/src/analyzers/DependencyAnalyzer.ts:39-42 | the loop runs to the end exactly when every version is a string |
| Dependencies.AnalyzeDependencies | packages/core/src/analyzers/DependencyAnalyzer.ts:25-57 | the analysis returns what `DependencyIssues` says: any failure ends it with the issues gathered so far |
| Dependencies.DependencyLoopStops | packages/core/src/analyzers/DependencyAnalyzer.ts:39-54 | once an entry has thrown, later entries add nothing |
| Dependencies.FailureKeepsEarlierIssues | packages/core/src/analyzers/DependencyAnalyzer.ts:28-56 | a non-string version ends the analysis with exactly the issues of the entries before it |
| Dependencies.CompleteAnalysis | packages/core/src/analyzers/DependencyAnalyzer.ts:25-57 | with string versions and no inherited names, the per-entry issues in table order, then one advisory issue per lodash or axios entry, then no licence issue |
| Html.EscapeHtmlSafe | packages/cli/src/reporters/HTMLReporter.ts:173-182 | no '<', '>', '"' or quote survives escaping |
| Html.EscapeHtmlIdentity | packages/cli/src/reporters/HTMLReporter.ts:173-182 | a text without the five characters is returned unchanged |
| Html.EscapeHtmlLength | packages/cli/src/reporters/HTMLReporter.ts:173-182 | each entity grows the text by its length less one |
| Html.UnescapeChar | packages/cli/src/reporters/HTMLReporter.ts:174-180 | unescaping one character's replacement gives the character back, whatever follows |
| Html.NotEntity | packages/cli/src/reporters/HTMLReporter.ts:174-180 | a text differing from an entity inside it does not start with it |
| Html.UnescapeEscape | packages/cli/src/reporters/HTMLReporter.ts:181 | the replacement is a single pass, so mapping the entities back recovers the text |
| Html.EscapeHtmlInjective | packages/cli/src/reporters/HTMLReporter.ts:173-182 | different texts never render alike |
| Html.IssueCard | packages/cli/src/reporters/HTMLReporter.ts:142-160 | an issue card has four to six parts |
| Html.IssueCardParts | packages/cli/src/reporters/HTMLReporter.ts:142-160 | the confidence line is left out exactly when the confidence is 0, the suggestion exactly when absent or empty; only the snippet is escaped, and it unescapes back |
| ConfigCommand.Index | packages/cli/src/commands/config.ts:58-65 | a key reads as an array index only when it is the canonical decimal text of that index |
| ConfigCommand.IndexOfNatToString | packages/cli/src/commands/config.ts:58 | the decimal text of an index reads back as that index |
| ConfigCommand.GetPathAppend | packages/cli/src/commands/config.ts:57-59 | following a path is following its first part, then the rest |
| ConfigCommand.GetPathUndefined | packages/cli/src/commands/config.ts:58 | once undefined, the lookup stays undefined to the end |
| ConfigCommand.GetPathStops | packages/cli/src/commands/config.ts:58 | a missing segment makes the whole lookup undefined |
| ConfigCommand.SetPathWellKeyed | packages/cli/src/commands/config.ts:61-69 | updating keeps every object's keys distinct |
| ConfigCommand.SetWellKeyed | packages/cli/src/commands/config.ts:68 | setting a member into an object keeps its keys distinct |
| ConfigCommand.SetStep | packages/cli/src/commands/config.ts:64-67 | each intermediate step descends into the existing member, or a new `{}` where it was missing, updates it along the rest of the path and stores it back under the same key |
| ConfigCommand.ObjectsAlongStep | packages/cli/src/commands/config.ts:64-67 | along objects, the member stepped into is again followed by objects |
| ConfigCommand.SetThenGet | packages/cli/src/commands/config.ts:57-69 | after a successful set of a path, getting that path yields the value set |
| ConfigCommand.SetPathThroughObjects | packages/cli/src/commands/config.ts:61-69 | through objects, existing or missing, the update always succeeds |
| ConfigCommand.EmptyObjectsAlong | packages/cli/src/commands/config.ts:65 | every path passes through objects from a new `{}` |
| ConfigCommand.SetPathThroughPrimitive | packages/cli/src/commands/config.ts:65 | stepping into a string, number, boolean or null throws |
| ConfigCommand.SetPathCreates | packages/cli/src/commands/config.ts:64-67 | every strict prefix of the set path now leads to an object or an array, an object when the path went through objects |
| ConfigCommand.GetPathStep | packages/cli/src/commands/config.ts:58 | a lookup along a prefix is one access, then the rest |
| ConfigCommand.SetPathFrame | packages/cli/src/commands/config.ts:61-69 | a path that parts from the set path keeps its value, undefined staying undefined |
| ConfigCommand.NewObjectFrame | packages/cli/src/commands/config.ts:65 | nothing is found under a new `{}` |
| ConfigCommand.FrameFirst | packages/cli/src/commands/config.ts:64-68 | a first key other than the set path's reads the same member before and after |
| ConfigCommand.NumberOfDigits | packages/cli/src/commands/config.ts:74 | decimal digits, with or without a leading '-', read as their value |
| ConfigCommand.NumberOfNegative | packages/cli/src/commands/config.ts:74 | a '-' before digits reads as the negated value |
| ConfigCommand.ParseValueInt | packages/cli/src/commands/config.ts:71-76 | the decimal text of an integer parses back to it, and the empty text to 0 |
| ConfigCommand.TrimKeeps | packages/cli/src/commands/config.ts:74 | a character that is not whitespace survives trimming |
| ConfigCommand.NotNumeral | packages/cli/src/commands/config.ts:74 | a text holding a character that is neither a digit nor a sign is no numeral |
| ConfigCommand.ParseValueText | packages/cli/src/commands/config.ts:71-76 | a character that is neither digit, sign nor whitespace keeps the value a string |
| ConfigCommand.ParseValueBool | packages/cli/src/commands/config.ts:72-73 | the booleans are recognised by their exact spelling only |
| ConfigCommand.SplitSetOptionParts | packages/cli/src/commands/config.ts:30-31 | the key is the text before the first '=', the value everything after it, '=' included |
| ConfigCommand.SplitSetOptionExample | packages/cli/src/commands/config.ts:30-31 | `a.b=x=y` sets `a.b` to `x=y` |
| ConfigCommand.LoadConfig | packages/cli/src/commands/config.ts:48-55 | any read or parse failure becomes the one "not found" error; otherwise the parsed configuration |
| ConfigCommand.RunConfigSet | packages/cli/src/commands/config.ts:29-39 | `--set` on a loaded file whose path passes through objects, when the write succeeds, writes a configuration whose value at the key is the parsed value |
| ConfigCommand.SetReachesWrite | packages/cli/src/commands/config.ts:29-45 | `--set` on a loaded file whose path can be set ends with the write's outcome: the error message and exit status 1 when it fails, else the written configuration |
| ConfigCommand.RunConfigSetWriteFails | packages/cli/src/commands/config.ts:29-45 | `--set` whose write of the file fails ends with exit status 1 and the write's error message, and reports nothing as set |
| ConfigCommand.RunConfigUnreadable | packages/cli/src/commands/config.ts:11-46 | a missing or unreadable file fails every given option with the one message and writes nothing; with no option only the hint is shown |
| CliReview.LanguageAlias | packages/cli/src/commands/review.ts:118-129 | a known name selects one of the six languages |
| CliReview.ParseLanguage | packages/cli/src/commands/review.ts:117-132 | the result is always one of the six languages |
| CliReview.ToLowerTwice | packages/cli/src/commands/review.ts:131 | lowercasing twice is lowercasing once |
| CliReview.ParseLanguageCase | packages/cli/src/commands/review.ts:131 | the option is read without regard to case |
| CliReview.ParseLanguageOther | packages/cli/src/commands/review.ts:117-132 | a language other than JavaScript is chosen exactly for the eight names listed for the others |
| CliReview.ParseLanguageTag | packages/cli/src/commands/review.ts:117-132 | each of the six languages is selected by its own tag |
| CliReview.ParseSeverityTag | packages/cli/src/commands/review.ts:134-143 | every severity is selected by its tag, in any case |
| CliReview.ParseSeverityAboveInfo | packages/cli/src/commands/review.ts:134-143 | a severity above info is chosen exactly for warning, error and critical, in any case |
| CliReview.GetDefaultModel | packages/cli/src/commands/review.ts:163-171 | one of the three models; the fallback exactly for providers other than anthropic and ollama |
| CliReview.GetApiKey | packages/cli/src/commands/review.ts:145-161 | the key is non-empty exactly when the provider's variable is set to a non-empty value, and is that value; a warning is printed exactly when the key is empty and the provider is not ollama |
| CliReview.BuildConfigFixed | packages/cli/src/commands/review.ts:27-45 | the configuration selects rules by an empty list, caches in memory for an hour as the option says, runs five files at a time, and names the given model or the provider's default |
| CliReview.SingleFileResult | packages/cli/src/commands/review.ts:64-75 | one file, the issues as found, duration 0, and counters that never exceed the issues |
| CliReview.SingleFileFails | packages/cli/src/commands/review.ts:64-107 | a single file fails the command exactly when one of its issues is critical or an error |
| CliReview.ChooseReporter | packages/cli/src/commands/review.ts:83-93 | json and html pick their reporters exactly for those formats; anything else is the console |
| CliReview.ReviewCommand | packages/cli/src/commands/review.ts:23-115 | the configuration and warning as built; a result exactly when the analysis succeeds; reporter and destination from the options; exit 1 exactly on an error or a critical or error issue; clean-up only on exit 0 |
| CliInit.KeyAnswer | packages/cli/src/commands/init.ts:21 | the key is recorded exactly when the question is asked |
| CliInit.ProviderNameFirstWord | packages/cli/src/commands/init.ts:58 | the provider is the first space-separated word of the lowercased choice |
| CliInit.FirstWord | packages/cli/src/commands/init.ts:58 | a lowercased choice that is a word then nothing or a space has that word as provider |
| CliInit.ChoicesStored | packages/cli/src/commands/init.ts:55-101 | each of the four choices is stored as openai, anthropic, ollama or skip; only Anthropic gets its Claude model, and `Ollama (Local)`, looked up whole, misses the table and gets the fallback model, not `codellama` |
| CliInit.OllamaChoiceGetsFallbackModel | packages/cli/src/commands/init.ts:58-60 | as written, the local choice is stored with provider `ollama` but with the fallback model, not the model the table gives `ollama` |
| CliInit.CorrectedDefaultModel | packages/cli/src/commands/init.ts:94-101 | the corrected lookup on the stored provider: the fallback model exactly for providers other than anthropic and ollama |
| CliInit.CorrectedChoicesModels | packages/cli/src/commands/init.ts:55-101 | with the corrected lookup, each choice gets its stored provider's model: `codellama` for the local choice, and the as-written model for every other choice |
| CliInit.InitDefaultModelFallback | packages/cli/src/commands/init.ts:94-101 | only a choice spelling anthropic or ollama, in any case, escapes the fallback model |
| CliInit.EnvVarNameChoice | packages/cli/src/commands/init.ts:103-109 | openai and anthropic, in any case, name their own variable; every other choice writes `API_KEY` |
| CliInit.BuildInitConfigFields | packages/cli/src/commands/init.ts:55-69 | version 1.0.0, the four ignore globs, a provider without spaces, and a key exactly when a non-empty one was typed |
| CliInit.NoKeyWithoutQuestion | packages/cli/src/commands/init.ts:21 | the local and skip choices store no key and write no `.env` line |
| CliInit.NoEqualsInName | packages/cli/src/commands/init.ts:103-109 | a variable name holds no '=' |
| CliInit.EnvLineReadsBack | packages/cli/src/commands/init.ts:77-82 | the `.env` line is written exactly when the configuration stores a key, and reading it back gives the variable name and the key |
| CliInit.Workspace.constructor | packages/cli/src/commands/init.ts:72-78 | the two files as they are before the command |
| CliInit.Workspace.Init | packages/cli/src/commands/init.ts:55-92 | exit 1 exactly when a write fails; the configuration file is replaced unless its write fails; the `.env` line is appended exactly when a key was typed and both writes succeed |
| Backend.MapSeverity | packages/web-dashboard/backend/src/routes/review.ts:239-247 | one of the four dashboard labels; low exactly for anything but critical, error and warning |
| Backend.MapSeverityTags | packages/web-dashboard/backend/src/routes/review.ts:239-247 | the four severities keep four distinct labels |
| Backend.CalculateScore | packages/web-dashboard/backend/src/routes/review.ts:271-282 | the score lies in [0, 100] |
| Backend.PenaltyAppend | packages/web-dashboard/backend/src/routes/review.ts:278-280 | the penalty of two lists joined is the sum of their penalties |
| Backend.ScoreAppend | packages/web-dashboard/backend/src/routes/review.ts:271-282 | an empty list scores 100, and more issues never raise the score |
| Backend.PenaltyByCounts | packages/web-dashboard/backend/src/routes/review.ts:272-280 | the penalty is 10, 5, 2 and 1 times the critical, error, warning and info counts |
| Backend.ScoreFull | packages/web-dashboard/backend/src/routes/review.ts:271-282 | the score is 100 exactly when no issue has one of the four severities |
| Backend.StatsScore | packages/web-dashboard/backend/src/routes/review.ts:86-93 | the four counters fit in the total, and the score is 100 less the weighted counters, floored at 0 |
| Backend.FormatIssues | packages/web-dashboard/backend/src/routes/review.ts:96-103 | one formatted entry per issue, in order |
| Backend.FormattedLabels | packages/web-dashboard/backend/src/routes/review.ts:86-103 | the page's critical, high and medium labels match the critical, error and warning counters; every other issue is labelled low |
| Backend.NameEnd | packages/web-dashboard/backend/src/routes/review.ts:250 | the last name ends before trailing '/' only |
| Backend.ExtnameShape | packages/web-dashboard/backend/src/routes/review.ts:250 | the extension is empty or a '.' followed by text with no '.' and no '/' |
| Backend.LastNameNoSlash | packages/web-dashboard/backend/src/routes/review.ts:250 | the last name of a path holds no '/' |
| Backend.LastNameWhole | packages/web-dashboard/backend/src/routes/review.ts:250 | a path without '/' is its own last name |
| Backend.ExtnameOf | packages/web-dashboard/backend/src/routes/review.ts:250 | a name with a stem before its last '.' has the text from that '.' on as its extension |
| Backend.NoSlashIn | packages/web-dashboard/backend/src/routes/review.ts:250 | a stem and an extension without '/' make a name without '/' |
| Backend.LastDotAt | packages/web-dashboard/backend/src/routes/review.ts:250 | the last '.' of a stem, a '.', and an extension without '.' is the one after the stem |
| Backend.ExtnameHidden | packages/web-dashboard/backend/src/routes/review.ts:250 | a hidden file without another '.' has no extension |
| Backend.DetectLanguage | packages/web-dashboard/backend/src/routes/review.ts:249-269 | the result is one of the known languages, JavaScript when the extension is unknown |
| Backend.DetectLanguageUpper | packages/web-dashboard/backend/src/routes/review.ts:250-255 | an upper-case `.TSX` is TypeScript |
| Backend.DetectLanguageHidden | packages/web-dashboard/backend/src/routes/review.ts:249-269 | a file named `.py` has no extension and is taken for JavaScript |
| Backend.WrittenCode | packages/web-dashboard/backend/src/routes/review.ts:68 | `code` can be written exactly when it is a string or an array of strings, and a string is written as it is |
| Backend.ChunksAppend | packages/web-dashboard/backend/src/routes/review.ts:68 | an array of strings is written chunk after chunk: two runs of chunks write the first run's text, then the second's |
| Backend.WrittenCodeArrays | packages/web-dashboard/backend/src/routes/review.ts:68 | an array of one string writes that string, and an empty array writes nothing |
| Backend.AnalyzeRoute | packages/web-dashboard/backend/src/routes/review.ts:20-132 | 400 exactly when code or filename is falsy; 200 exactly when the filename is a non-empty string, the code can be written (`WrittenCode`) and the analysis of the written text succeeds, with the given or detected language, the statistics and the formatted issues; 500 with `NotAStringMessage` when both are truthy but the filename is not a string or the code cannot be written, and 500 with the analysis error's message (or "Analysis failed" when it has none) when the analysis throws |
| Backend.BatchResultsStop | packages/web-dashboard/backend/src/routes/review.ts:185-220 | once a prefix of the batch fails, the whole batch fails with the same message |
| Backend.BatchRoute | packages/web-dashboard/backend/src/routes/review.ts:169-237 | 400 exactly when files is not an array; otherwise 200 with the file count and every entry, or 500 with the first failure's message; a file is scored when it has a string filename and a code that can be written, an array of strings included |
| Backend.BatchResultsEntries | packages/web-dashboard/backend/src/routes/review.ts:185-220 | a successful batch has one entry per file, in order, with the file's name and a score in [0, 100] |
| Backend.BatchResultsFail | packages/web-dashboard/backend/src/routes/review.ts:185-237 | the batch fails exactly when some file fails |
| Backend.BatchStep | packages/web-dashboard/backend/src/routes/review.ts:185-220 | a batch fails exactly when its earlier files or its last file fail |

## Left out

- Redis, SHA-256 and the clock are parameters.
  The cache backend is a map, the digest is a function argument, and time is `now`.
  Analyzer.DirectoryPass uses one `now` for every file of a pass, for both the lookup and the store.
  The source reads `Date.now()` anew on each `get` and `set`, so an entry can expire in the middle of a pass, and a store's expiry is computed a little later than its lookup; the model does not capture either.
- The AI provider calls and their 30-second timeouts are left out.
  Each provider's answer is an input: `None` stands for a failure or a timeout.
- The `p-queue` worker pool and `Promise.all` are left out.
  Only their result is modelled: per-file issues joined in file order.
  Files are analysed one after another, so with `parallel` set two files that share a cache key may both miss in the source, where `Analyzer.SecondVisitHits` has the second one hit.
- `glob`, `fs`, `readdir` and the dynamic `import` of plugin files are left out.
  Their outcomes are inputs.
- Tree-sitter grammars and parsing belong to an external library.
  Its outcome for a file is an input.
- Regular expressions are not modelled, apart from the error-handling pattern.
  Their match positions and per-pattern counts are inputs.
- `analyzeGitChanges` runs `git diff`. Only its outcome is modelled, as part of the `review` command's `World`.
- Halstead metrics are left out, because they are floating-point arithmetic.
- Issue ids come from `uuid` or `randomUUID`. They are random and nobody reads them.
- Socket notifications, temporary files and timestamps in the dashboard routes are left out.
- The dashboard's `/file` route is left out.
  It reads a file from disk and always answers 501 (not implemented), or 400 or 500.
- `inquirer` prompts are left out. Their answers are inputs.
- `JSON.stringify` and `JSON.parse` are left out. Their outcomes are values or `Result`s.
- Console output, `chalk` and `ora` spinners are left out.
  The console, JSON and HTML reporters' text generation is left out, except the escaping and issue card parts in `Html`.
  The rest of the HTML page template is left out too.
- `path.join`, `path.resolve` and Windows path separators are left out.
  The model's `extname` treats only '/' as a separator.
- Object and prototype keys are not modelled.
  A key such as `constructor` would find a value in a JavaScript object-literal lookup table, or in a parsed configuration object.
  This affects `Parser.DetectLanguage`, `CliReview.ParseLanguage`, `CliReview.ParseSeverity`, `CliReview.GetDefaultModel`, `CliReview.KeyVariable`, `Dependencies.Alternative`, `Backend.MapSeverity`, `Backend.CalculateScore` and the `config` command.
  A file named `constructor` or `x.constructor` has the extension `constructor` (MultiLanguageParser.ts:54), and `extensionMap['constructor']` is `Object` there (MultiLanguageParser.ts:98); `__proto__` behaves the same way. The model gives such files JavaScript.
  In the dashboard, a severity `constructor` finds `Object`'s constructor in the severity table, so the score becomes `NaN` (review.ts:246 and review.ts:279); the model's score stays a number.
- Objects with integer-like keys are not reordered.
  JavaScript lists integer-like keys first; the model keeps all keys in insertion order.
- ConfigCommand.ParseValue: `Number()` is modelled for optionally signed decimal integers with surrounding whitespace.
  Other numeric forms (fractions, exponents, hexadecimal, `Infinity`) are read as strings.
  `Number()` gives a double, so in the source an integer above 2^53 loses precision; the model keeps it exactly.
- ConfigCommand.SetNestedValue: a dotted path that runs through an array at a key that is not one of its element indices is not modelled.
  `ConfigCommand.RunConfig` ends such a `--set` with the separate outcome `NotModelled`, and no lemma says anything about it.
  In the source, `!(key in arr)` holds at config.ts:65, so `{}` is stored as a non-index property of the array and the walk goes on; the final assignment lands on that orphan object (config.ts:68).
  `JSON.stringify` drops non-index properties of arrays, so the file is rewritten unchanged and "✓ Set …" is printed.
  The same outcome covers a final assignment to an array at an index past its end, which the source performs (the array grows, with `null` in the gaps once written).
- ConfigCommand.RunConfig: a `TypeError` from `setNestedValue` (`in` or an assignment on a string, number, boolean or `null`) fails with the constant message "TypeError".
  The source prints V8's own message, such as "Cannot use 'in' operator to search for 'b' in 5" or "Cannot create property 'b' on string 'x'"; both exit with status 1, and only the text differs.
- Backend.AnalyzeRoute: the text of the `ERR_INVALID_ARG_TYPE` error that Node's `path` and `fs` functions throw for a file name that is not a string, or a code that is neither a string nor an array of strings, is the constant `NotAStringMessage`.
  Node's own text names the argument and the value received; both answer 500, and only the text differs.
- Backend.BatchFile: every file that is not an object with a string `filename` and a `code` that can be written fails with `NotAStringMessage`.
  In the source a `null` or `undefined` file fails earlier, with V8's "Cannot read properties of null" message; both are errors, and only the text differs.
- Text.ToLower: only the ASCII letters A to Z are lowercased, one character for one.
  JavaScript's `toLowerCase` follows Unicode, and a few characters change length (`'İ'` becomes two code units), so `|r| == |s|` holds only for the model's ASCII mapping.
  This affects `Parser.DetectLanguage`, `Backend.DetectLanguage` and the case-insensitive lookups of the `review` and `init` commands.
- Strings are sequences of Unicode code points, whereas JavaScript's `length`, `substring` and indexing count UTF-16 code units.
  Text outside the Basic Multilingual Plane therefore has a different length in the model.
  This affects `CodeQuality.SnippetAt`, whose 500-character cut counts code points, and `Consensus.LevenshteinDistance`, which compares code points rather than code units.
  It also affects the duplicate-code rule's 50-character threshold (code-quality-rules.ts:164), which the source measures in code units: `CodeQuality.Windows`, `CodeQuality.SeenAfterGet` and `CodeQuality.DuplicateReported` count code points.
  The columns of `CodeQuality.ColumnAt` count code points too, where the source's count code units.
- Consensus.RoundedMean: confidences are integers (`confidence: int` in `Types`), where the source's `number` may be fractional.
  An AI answer such as 87.5 is outside the model, so `Consensus.RoundedMean`, `Consensus.MeanThreshold` and `Html.IssueCard` are proved only for integer confidences.
  With integers, the mean's `Math.round` is modelled exactly, including halves rounding up.
- Plugins.PluginManager.EnableRule: the source flips `enabled` on the shared `Rule` object, and the plugin that registered the rule holds the same object (PluginManager.ts:71-83).
  The model keeps rules as values, so the flip is visible only in `rules`; the model's `plugins == old(plugins)` does not capture that a plugin's rule list shows the change.
- Plugins.PluginManager.DisableRule: the same aliasing applies; the disabled flag shows through the registering plugin's rule list in the source, not in the model.
- Analyzer.CodeAnalyzer.constructor: an `ai` section of `None` is accepted and means that no provider answers.
  The source's configuration type makes `ai` required and always builds an `AIProvider` (CodeAnalyzer.ts:32); an absent section there would throw when read.
- Dependencies.CheckDependency: every version that is not a string is modelled as throwing at `includes`.
  A version that is a JSON array has its own `includes`, so `["*"]` or `["x"]` gets a wildcard issue in the source, and any other array gets none; arrays as versions are not modelled.
- Loading a `null` plugin throws a `TypeError` in the source. It is modelled like any other invalid shape.
- The consensus configuration's per-provider weights are never read by the code, so they are not modelled.

## Findings

| source | as written | input that shows it | evidently intended | confidence | as-written member | corrected member |
|---|---|---|---|---|---|---|
| packages/core/src/analyzers/code-quality-rules.ts:209-217 | The missing-error-handling rule tests each async function's text with one global regular expression. `test` keeps `lastIndex` between snippets, so a later snippet is searched only from the previous match's end. | Two handled async arrows, `async()=>{try{}}\nasync()=>{try{}}`: the second one's `try {` lies before the carried `lastIndex`, so it is reported as missing error handling | Each snippet is searched from its start, and a snippet with `.catch(` or `try {` is never reported | not executed | `CodeQuality.MissingErrorHandling`, `CodeQuality.LastIndexFalsePositive` | `CodeQuality.ErrorHandlingIssues` |
| packages/cli/src/commands/init.ts:58-60 | The provider is stored as the first word of the lowercased choice, but the default model is looked up on the whole lowercased choice (init.ts:100). | The choice `Ollama (Local)`: it is stored with provider `ollama` and model `gpt-4-turbo-preview`, because `ollama (local)` is not a key of the model table | The model is looked up on the stored provider, so the local choice gets `codellama` | not executed | `CliInit.InitDefaultModel`, `CliInit.OllamaChoiceGetsFallbackModel` | `CliInit.CorrectedDefaultModel`, `CliInit.CorrectedChoicesModels` |
