/**
 * The review routes of the web dashboard's backend: request validation for
 * `/analyze` and `/batch`, the language guessed from the file name, the
 * severity labels and the score shown for a list of issues.
 *
 * Writing the temporary file and running the analyser on it is one outcome
 * given to the routes (`Analyse`); socket notifications, timestamps and the
 * temporary directory are not modelled.
 */
module Backend {
  import opened Wrappers
  import opened Types
  import opened Text

  // ---------------------------------------------------------------------------
  // Severity labels and the score
  // ---------------------------------------------------------------------------

  /** `mapSeverity`: the dashboard's four labels; anything unknown is low. */
  function MapSeverity(severity: string): (r: string)
    ensures r in ["critical", "high", "medium", "low"]
    ensures r == "low" <==> severity != "critical" && severity != "error" && severity != "warning"
  {
    if severity == "critical" then "critical"
    else if severity == "error" then "high"
    else if severity == "warning" then "medium"
    else "low"
  }

  /** The four severities keep distinct labels, in the same order. */
  lemma MapSeverityTags(s: Severity, t: Severity)
    ensures MapSeverity(SeverityTag(s)) == MapSeverity(SeverityTag(t)) <==> s == t
  {
  }

  /** The penalty of one issue: 10, 5, 2 and 1 for the four severities, 0 for anything else. */
  function Weight(severity: string): nat
  {
    if severity == "critical" then 10
    else if severity == "error" then 5
    else if severity == "warning" then 2
    else if severity == "info" then 1
    else 0
  }

  /** The `reduce` summing the weights from the left. */
  function Penalty(issues: seq<Issue>): nat
  {
    if issues == [] then 0 else Penalty(issues[..|issues| - 1]) + Weight(issues[|issues| - 1].severity)
  }

  /** `calculateScore`: 100 less the penalty, never below 0. */
  function CalculateScore(issues: seq<Issue>): (r: int)
    ensures 0 <= r <= 100
  {
    if 100 - Penalty(issues) < 0 then 0 else 100 - Penalty(issues)
  }

  lemma {:induction false} PenaltyAppend(a: seq<Issue>, b: seq<Issue>)
    ensures Penalty(a + b) == Penalty(a) + Penalty(b)
    decreases |b|
  {
    if b == [] {
      assert a + b == a;
    } else {
      assert (a + b)[..|a + b| - 1] == a + b[..|b| - 1];
      PenaltyAppend(a, b[..|b| - 1]);
    }
  }

  /** A clean list scores 100, and more issues never raise the score. */
  lemma ScoreAppend(a: seq<Issue>, b: seq<Issue>)
    ensures CalculateScore([]) == 100
    ensures CalculateScore(a + b) <= CalculateScore(a)
  {
    PenaltyAppend(a, b);
  }

  /** The penalty is the weighted sum of the severity counters. */
  lemma {:induction false} PenaltyByCounts(issues: seq<Issue>)
    ensures Penalty(issues) ==
              10 * CountTag(issues, "critical") + 5 * CountTag(issues, "error")
              + 2 * CountTag(issues, "warning") + CountTag(issues, "info")
  {
    if issues != [] {
      PenaltyByCounts(issues[..|issues| - 1]);
    }
  }

  /** The score is 100 exactly when no issue carries one of the four severities. */
  lemma ScoreFull(issues: seq<Issue>)
    ensures CalculateScore(issues) == 100 <==> forall i :: 0 <= i < |issues| ==> Weight(issues[i].severity) == 0
  {
    PenaltyByCounts(issues);
    CountTagPositive(issues, "critical");
    CountTagPositive(issues, "error");
    CountTagPositive(issues, "warning");
    CountTagPositive(issues, "info");
  }

  // ---------------------------------------------------------------------------
  // Statistics and the issues sent to the page
  // ---------------------------------------------------------------------------

  datatype Stats = Stats(totalIssues: nat, critical: nat, high: nat, medium: nat, low: nat, score: int)

  /** The `stats` object of `/analyze`. */
  function StatsOf(issues: seq<Issue>): Stats
  {
    Stats(|issues|, CountTag(issues, "critical"), CountTag(issues, "error"),
          CountTag(issues, "warning"), CountTag(issues, "info"), CalculateScore(issues))
  }

  /** The counters fit in the total, and the score is the weighted counters taken from 100, floored at 0. */
  lemma StatsScore(issues: seq<Issue>)
    ensures var s := StatsOf(issues);
            s.critical + s.high + s.medium + s.low <= s.totalIssues &&
            s.score == (if 100 - (10 * s.critical + 5 * s.high + 2 * s.medium + s.low) < 0 then 0
                        else 100 - (10 * s.critical + 5 * s.high + 2 * s.medium + s.low))
  {
    SummarizeBounded(issues);
    PenaltyByCounts(issues);
  }

  /** One entry of `formattedIssues`. */
  datatype FormattedIssue = FormattedIssue(kind: string, severity: string, message: string, line: int, column: int, suggestion: Option<string>)

  function Format(issue: Issue): FormattedIssue
  {
    FormattedIssue(issue.rule, MapSeverity(issue.severity), issue.message, issue.line, issue.column, issue.suggestion)
  }

  /** The `map` building `formattedIssues`: one entry per issue, in order. */
  function FormatIssues(issues: seq<Issue>): (r: seq<FormattedIssue>)
    ensures |r| == |issues|
    ensures forall i :: 0 <= i < |issues| ==> r[i] == Format(issues[i])
  {
    if issues == [] then [] else FormatIssues(issues[..|issues| - 1]) + [Format(issues[|issues| - 1])]
  }

  /** The number of formatted issues with a label. */
  function CountLabel(formatted: seq<FormattedIssue>, shown: string): nat
  {
    if formatted == [] then 0
    else CountLabel(formatted[..|formatted| - 1], shown) + (if formatted[|formatted| - 1].severity == shown then 1 else 0)
  }

  /**
   * The page's labels agree with the statistics: as many critical, high and
   * medium entries as critical issues, errors and warnings, and every other
   * issue, info or unknown, labelled low.
   */
  lemma {:induction false} FormattedLabels(issues: seq<Issue>)
    ensures var f, s := FormatIssues(issues), StatsOf(issues);
            CountLabel(f, "critical") == s.critical && CountLabel(f, "high") == s.high &&
            CountLabel(f, "medium") == s.medium &&
            CountLabel(f, "low") == s.totalIssues - s.critical - s.high - s.medium
  {
    if issues != [] {
      var init := issues[..|issues| - 1];
      FormattedLabels(init);
      assert FormatIssues(issues)[..|issues| - 1] == FormatIssues(init);
    }
  }

  // ---------------------------------------------------------------------------
  // The language of a file name
  // ---------------------------------------------------------------------------

  /** The end of the last name in a path: trailing '/' are not part of it. */
  function NameEnd(path: string, n: nat): (e: nat)
    requires n <= |path|
    ensures e <= n
    ensures e > 0 ==> path[e - 1] != '/'
    ensures forall k :: e <= k < n ==> path[k] == '/'
  {
    if n == 0 then 0 else if path[n - 1] == '/' then NameEnd(path, n - 1) else n
  }

  /** The last name of a path: after its last '/', trailing '/' left out. */
  function LastName(path: string): string
  {
    var end := NameEnd(path, |path|);
    path[LastIndexBelow(path, '/', end) + 1..end]
  }

  /**
   * `path.extname` on POSIX paths: from the last '.' of the last name to its
   * end, except when that '.' starts the name and for the name "..".
   */
  function Extname(path: string): string
  {
    var base := LastName(path);
    var dot := LastIndexBelow(base, '.', |base|);
    if dot <= 0 || base == ".." then [] else base[dot..]
  }

  /** An extension is empty, or a '.' followed by a text without '.' or '/'. */
  lemma ExtnameShape(path: string)
    ensures var r := Extname(path);
            r == [] || (r[0] == '.' && '/' !in r && '.' !in r[1..])
  {
    var base := LastName(path);
    LastNameNoSlash(path);
    var dot := LastIndexBelow(base, '.', |base|);
    if dot > 0 && base != ".." {
      var r := base[dot..];
      assert forall k :: 0 <= k < |r| ==> r[k] == base[dot + k];
    }
  }

  /** The last name holds no '/'. */
  lemma LastNameNoSlash(path: string)
    ensures forall k :: 0 <= k < |LastName(path)| ==> LastName(path)[k] != '/'
  {
    var end := NameEnd(path, |path|);
    var start := LastIndexBelow(path, '/', end) + 1;
    assert forall k :: 0 <= k < |LastName(path)| ==> LastName(path)[k] == path[start + k];
  }

  /** A path without '/' is its own last name. */
  lemma LastNameWhole(path: string)
    requires path != [] && forall k :: 0 <= k < |path| ==> path[k] != '/'
    ensures LastName(path) == path
  {
    assert NameEnd(path, |path|) == |path|;
  }

  /** A name with a stem before its last '.' has the text from that '.' on as its extension. */
  lemma ExtnameOf(stem: string, ext: string)
    requires stem != [] && '/' !in stem && '/' !in ext && '.' !in ext && ext != []
    ensures Extname(stem + "." + ext) == "." + ext
  {
    var path := stem + "." + ext;
    assert LastName(path) == path by {
      NoSlashIn(stem, ext);
      LastNameWhole(path);
    }
    assert LastIndexBelow(path, '.', |path|) == |stem| by {
      LastDotAt(stem, ext);
    }
    assert path[|stem|..] == "." + ext;
  }

  lemma NoSlashIn(stem: string, ext: string)
    requires '/' !in stem && '/' !in ext
    ensures forall k :: 0 <= k < |stem + "." + ext| ==> (stem + "." + ext)[k] != '/'
  {
    var path := stem + "." + ext;
    forall k | 0 <= k < |path| ensures path[k] != '/' {
      if k < |stem| {
        assert path[k] == stem[k];
      } else if k > |stem| {
        assert path[k] == ext[k - |stem| - 1];
      }
    }
  }

  lemma LastDotAt(stem: string, ext: string)
    requires '.' !in ext
    ensures LastIndexBelow(stem + "." + ext, '.', |stem + "." + ext|) == |stem|
  {
    var path := stem + "." + ext;
    assert path[|stem|] == '.';
    assert forall k :: |stem| < k < |path| ==> path[k] == ext[k - |stem| - 1];
  }

  /** A hidden file without another '.' has no extension. */
  lemma ExtnameHidden(name: string)
    requires |name| > 1 && name[0] == '.' && '/' !in name && '.' !in name[1..]
    ensures Extname(name) == ""
  {
    LastNameWhole(name);
    assert forall k :: 0 < k < |name| ==> name[k] == name[1..][k - 1];
    assert LastIndexBelow(name, '.', |name|) == 0;
  }

  /** The extensions `detectLanguage` knows, and their language. */
  function LanguageOfExtension(ext: string): Option<string>
  {
    if ext == ".js" || ext == ".jsx" then Some("javascript")
    else if ext == ".ts" || ext == ".tsx" then Some("typescript")
    else if ext == ".py" then Some("python")
    else if ext == ".java" then Some("java")
    else if ext == ".go" then Some("go")
    else if ext == ".rs" then Some("rust")
    else if ext == ".cpp" then Some("cpp")
    else if ext == ".c" then Some("c")
    else if ext == ".rb" then Some("ruby")
    else if ext == ".php" then Some("php")
    else if ext == ".cs" then Some("csharp")
    else if ext == ".swift" then Some("swift")
    else if ext == ".kt" then Some("kotlin")
    else None
  }

  const DetectedLanguages: set<string> :=
    {"javascript", "typescript", "python", "java", "go", "rust", "cpp", "c", "ruby", "php", "csharp", "swift", "kotlin"}

  /** `detectLanguage`: the lowercased extension looked up, JavaScript when unknown. */
  function DetectLanguage(filename: string): (r: string)
    ensures r in DetectedLanguages
  {
    match LanguageOfExtension(ToLower(Extname(filename)))
    case Some(language) => language
    case None => "javascript"
  }

  /** The extension is read without regard to case. */
  lemma DetectLanguageUpper(stem: string, ext: string)
    requires stem != [] && '/' !in stem && ext == "TSX"
    ensures DetectLanguage(stem + "." + ext) == "typescript"
  {
    ExtnameOf(stem, ext);
    LowerIs("." + ext, ".tsx");
  }

  /** A hidden file named like an extension is not recognised: `.py` is taken for JavaScript. */
  lemma DetectLanguageHidden(name: string)
    requires name == ".py"
    ensures DetectLanguage(name) == "javascript"
  {
    ExtnameHidden(name);
  }

  // ---------------------------------------------------------------------------
  // Requests
  // ---------------------------------------------------------------------------

  /** A JSON request value as the route handlers meet it. */
  datatype Value =
    | Undefined
    | Null
    | Bool(b: bool)
    | Num(n: int)
    | Str(s: string)
    | Arr(items: seq<Value>)
    | Obj(fields: seq<(string, Value)>)

  /** JavaScript truthiness of a request value. */
  predicate Truthy(v: Value)
  {
    match v
    case Undefined => false
    case Null => false
    case Bool(b) => b
    case Num(n) => n != 0
    case Str(s) => s != ""
    case _ => true
  }

  /**
   * A member of a parsed request object, undefined when missing; when the
   * JSON text repeats a key, `JSON.parse` keeps the last value.
   */
  function Field(members: seq<(string, Value)>, name: string): Value
  {
    if members == [] then Undefined
    else if members[|members| - 1].0 == name then members[|members| - 1].1
    else Field(members[..|members| - 1], name)
  }

  /**
   * The outcome of writing the code to the temporary file named after the
   * upload and analysing it: the issues, or the message of what was thrown.
   */
  type Analyse = (string, string) -> Result<seq<Issue>>

  /** What `path.join` or `fs.writeFile` throw on a value they refuse. */
  const NotAStringMessage: string := "The argument must be of type string"

  /**
   * The text the promise-based `fs.writeFile` puts in the file for an
   * uploaded `code`: a string as it is, and an array (an iterable) whose
   * elements are all strings as those strings one after another. Any other
   * value, or an array holding something other than a string, is refused.
   */
  function WrittenCode(code: Value): (r: Option<string>)
    ensures r.Some? <==> code.Str? || (code.Arr? && forall i :: 0 <= i < |code.items| ==> code.items[i].Str?)
    ensures code.Str? ==> r == Some(code.s)
  {
    match code
    case Str(s) => Some(s)
    case Arr(items) => Chunks(items)
    case _ => None
  }

  /** The chunks of an iterable written in turn, refused at the first one that is not a string. */
  function Chunks(items: seq<Value>): (r: Option<string>)
    ensures r.Some? <==> forall i :: 0 <= i < |items| ==> items[i].Str?
  {
    if items == [] then Some("")
    else
      var n := |items| - 1;
      assert forall i :: 0 <= i < n ==> items[..n][i] == items[i];
      if !items[n].Str? then None
      else
        match Chunks(items[..n])
        case None => None
        case Some(text) => Some(text + items[n].s)
  }

  /** Writing two runs of chunks writes the text of the first, then the text of the second. */
  lemma {:induction false} ChunksAppend(a: seq<Value>, b: seq<Value>)
    requires Chunks(a).Some? && Chunks(b).Some?
    ensures Chunks(a + b) == Some(Chunks(a).value + Chunks(b).value)
  {
    if b == [] {
      assert a + b == a && Chunks(a).value + "" == Chunks(a).value;
    } else {
      var n := |b| - 1;
      assert (a + b)[..|a| + n] == a + b[..n];
      assert (a + b)[|a| + n] == b[n];
      ChunksAppend(a, b[..n]);
      assert Chunks(a).value + (Chunks(b[..n]).value + b[n].s) == (Chunks(a).value + Chunks(b[..n]).value) + b[n].s;
    }
  }

  /** An array of one string writes that string, and an empty array writes nothing. */
  lemma WrittenCodeArrays(s: string)
    ensures WrittenCode(Arr([Str(s)])) == Some(s)
    ensures WrittenCode(Arr([])) == Some("")
  {
    var one := [Str(s)];
    assert one[..0] == [] && one[0] == Str(s);
    assert Chunks(one[..0]) == Some("");
    assert "" + s == s;
  }

  datatype BatchEntry = BatchEntry(filename: string, issues: nat, score: int)

  datatype Body =
    | Failure(error: string)
    | Analysis(filename: string, language: Value, stats: Stats, issues: seq<FormattedIssue>)
    | Batch(totalFiles: nat, results: seq<BatchEntry>)

  datatype Response = Response(status: nat, body: Body)

  /** An error's message, or the route's fallback when it is empty. */
  function MessageOr(message: string, fallback: string): string
  {
    if message != "" then message else fallback
  }

  /**
   * `POST /analyze`: 400 unless `code` and `filename` are truthy; then the
   * given language or the one detected from the file name, the statistics
   * and the formatted issues; 500 with the thrown message otherwise.
   */
  method AnalyzeRoute(body: seq<(string, Value)>, analyse: Analyse) returns (response: Response)
    ensures response.status == 400 <==> !Truthy(Field(body, "code")) || !Truthy(Field(body, "filename"))
    ensures response.status == 400 ==> response.body == Failure("Code and filename are required")
    ensures response.status == 200 <==>
              Truthy(Field(body, "code")) && WrittenCode(Field(body, "code")).Some? &&
              Field(body, "filename").Str? && Field(body, "filename").s != "" &&
              analyse(Field(body, "filename").s, WrittenCode(Field(body, "code")).value).Ok?
    ensures response.status == 200 ==>
              var issues := analyse(Field(body, "filename").s, WrittenCode(Field(body, "code")).value).value;
              response.body == Analysis(Field(body, "filename").s,
                                        if Truthy(Field(body, "language")) then Field(body, "language")
                                        else Str(DetectLanguage(Field(body, "filename").s)),
                                        StatsOf(issues), FormatIssues(issues))
    ensures response.status in {200, 400, 500}
    ensures response.status == 500 ==> response.body.Failure? && response.body.error != ""
    ensures Truthy(Field(body, "code")) && Truthy(Field(body, "filename")) &&
            (!Field(body, "filename").Str? || WrittenCode(Field(body, "code")).None?) ==>
              response == Response(500, Failure(NotAStringMessage))
    ensures Truthy(Field(body, "code")) && WrittenCode(Field(body, "code")).Some? &&
            Field(body, "filename").Str? && Field(body, "filename").s != "" &&
            analyse(Field(body, "filename").s, WrittenCode(Field(body, "code")).value).Err? ==>
              response == Response(500, Failure(MessageOr(analyse(Field(body, "filename").s, WrittenCode(Field(body, "code")).value).error, "Analysis failed")))
  {
    var code, filename, language := Field(body, "code"), Field(body, "filename"), Field(body, "language");
    if !Truthy(code) || !Truthy(filename) {
      return Response(400, Failure("Code and filename are required"));
    }
    if !filename.Str? || WrittenCode(code).None? {
      return Response(500, Failure(NotAStringMessage));
    }
    var detected := if Truthy(language) then language else Str(DetectLanguage(filename.s));
    var outcome := analyse(filename.s, WrittenCode(code).value);
    if outcome.Err? {
      return Response(500, Failure(MessageOr(outcome.error, "Analysis failed")));
    }
    var issues := outcome.value;
    response := Response(200, Analysis(filename.s, detected, StatsOf(issues), FormatIssues(issues)));
  }

  /**
   * One file of a batch: an object with a string `filename` and a `code`
   * that can be written, analysed and scored.
   */
  function BatchFile(file: Value, analyse: Analyse): Result<BatchEntry>
  {
    if file.Obj? && Field(file.fields, "filename").Str? && WrittenCode(Field(file.fields, "code")).Some? then
      var filename := Field(file.fields, "filename").s;
      match analyse(filename, WrittenCode(Field(file.fields, "code")).value)
      case Ok(issues) => Ok(BatchEntry(filename, |issues|, CalculateScore(issues)))
      case Err(e) => Err(e)
    else Err(NotAStringMessage)
  }

  /** The entries of a batch in order, or the first file's failure. */
  function BatchResults(files: seq<Value>, analyse: Analyse): Result<seq<BatchEntry>>
  {
    if files == [] then Ok([])
    else
      var before, entry := BatchResults(files[..|files| - 1], analyse), BatchFile(files[|files| - 1], analyse);
      if before.Err? then before
      else if entry.Err? then Err(entry.error)
      else Ok(before.value + [entry.value])
  }

  /** Once a prefix of the batch has failed, the whole batch fails with the same message. */
  lemma {:induction false} BatchResultsStop(files: seq<Value>, analyse: Analyse, i: nat)
    requires i <= |files| && BatchResults(files[..i], analyse).Err?
    ensures BatchResults(files, analyse) == BatchResults(files[..i], analyse)
    decreases |files| - i
  {
    if i < |files| {
      assert files[..i + 1][..i] == files[..i];
      BatchResultsStop(files, analyse, i + 1);
    } else {
      assert files[..i] == files;
    }
  }

  /**
   * `POST /batch`: 400 unless `files` is an array; then each file in turn is
   * analysed and scored, and the first failure answers 500.
   */
  method BatchRoute(body: seq<(string, Value)>, analyse: Analyse) returns (response: Response)
    ensures response.status == 400 <==> !Field(body, "files").Arr?
    ensures response.status == 400 ==> response.body == Failure("Files array is required")
    ensures Field(body, "files").Arr? ==>
              match BatchResults(Field(body, "files").items, analyse)
              case Ok(results) => response == Response(200, Batch(|Field(body, "files").items|, results))
              case Err(e) => response == Response(500, Failure(MessageOr(e, "Batch analysis failed")))
  {
    var files := Field(body, "files");
    if !Truthy(files) || !files.Arr? {
      return Response(400, Failure("Files array is required"));
    }
    var items := files.items;
    var results: seq<BatchEntry> := [];
    for i := 0 to |items|
      invariant BatchResults(items[..i], analyse) == Ok(results)
    {
      assert items[..i + 1][..i] == items[..i];
      var entry := BatchFile(items[i], analyse);
      if entry.Err? {
        BatchResultsStop(items, analyse, i + 1);
        return Response(500, Failure(MessageOr(entry.error, "Batch analysis failed")));
      }
      results := results + [entry.value];
    }
    assert items[..|items|] == items;
    response := Response(200, Batch(|items|, results));
  }

  /** A successful batch has one entry per file, in order, each with the file's name and a score in [0, 100]. */
  lemma {:induction false} BatchResultsEntries(files: seq<Value>, analyse: Analyse)
    requires BatchResults(files, analyse).Ok?
    ensures var results := BatchResults(files, analyse).value;
            |results| == |files| &&
            forall i :: 0 <= i < |files| ==>
              BatchFile(files[i], analyse) == Ok(results[i]) &&
              results[i].filename == Field(files[i].fields, "filename").s &&
              0 <= results[i].score <= 100
  {
    if files != [] {
      var init := files[..|files| - 1];
      var last := files[|files| - 1];
      BatchResultsEntries(init, analyse);
      var before, entry := BatchResults(init, analyse).value, BatchFile(last, analyse).value;
      assert BatchResults(files, analyse).value == before + [entry];
      assert forall i :: 0 <= i < |init| ==> files[i] == init[i];
    }
  }

  /** The batch fails exactly when some file fails. */
  lemma {:induction false} BatchResultsFail(files: seq<Value>, analyse: Analyse)
    ensures BatchResults(files, analyse).Err? <==> exists i :: 0 <= i < |files| && BatchFile(files[i], analyse).Err?
  {
    if files != [] {
      var n := |files| - 1;
      var init := files[..n];
      BatchResultsFail(init, analyse);
      BatchStep(files, analyse);
      if BatchFile(files[n], analyse).Err? {
        assert BatchResults(files, analyse).Err?;
      } else if BatchResults(init, analyse).Err? {
        var i :| 0 <= i < |init| && BatchFile(init[i], analyse).Err?;
        assert files[i] == init[i];
        assert BatchResults(files, analyse).Err?;
      } else {
        assert BatchResults(files, analyse).Ok?;
        forall i | 0 <= i < n ensures !BatchFile(files[i], analyse).Err? {
          assert files[i] == init[i];
        }
      }
    }
  }

  /** The batch fails when its earlier files do or its last file does. */
  lemma BatchStep(files: seq<Value>, analyse: Analyse)
    requires files != []
    ensures BatchResults(files, analyse).Err? <==>
              BatchResults(files[..|files| - 1], analyse).Err? || BatchFile(files[|files| - 1], analyse).Err?
  {
  }
}
