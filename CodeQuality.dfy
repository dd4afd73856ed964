/**
 * The built-in code-quality rules, apart from their regular expressions:
 * where a match is reported (line and column), how far a function body
 * reaches (the brace scan), which lines are exempt from the magic-number
 * rule, which five-line windows count as duplicates, and which text after
 * an async header is searched for error handling.
 *
 * The regular expressions that find headers, calls, numbers and async
 * functions are not modelled: their match positions are parameters. The
 * error-handling pattern `\.catch\(|try\s*\{` is small enough to be
 * modelled by hand, because its `lastIndex` matters.
 */
module CodeQuality {
  import opened Wrappers
  import opened Types
  import opened Text
  import opened OrderedMaps
  import Analyzer

  /** The reported line of index `i`: one more than the newlines before it. */
  function LineAt(content: string, i: nat): (line: nat)
    requires i <= |content|
    ensures line == 1 + Count(content[..i], '\n')
  {
    |Split(content[..i], '\n')|
  }

  /** The reported column of index `i`: its distance from the newline at or before it. */
  function ColumnAt(content: string, i: nat): (column: int)
    requires i <= |content|
    ensures 0 <= column <= i + 1
    ensures i < |content| && content[i] != '\n' ==> column >= 1
  {
    i - LastIndexOf(content, '\n', i)
  }

  /** Where the line holding index `i` starts, and where it ends. */
  function LineStart(content: string, i: nat): (r: nat)
    requires i <= |content|
    ensures r <= i
  {
    LastIndexBelow(content, '\n', i) + 1
  }

  function LineEnd(content: string, i: nat): (r: nat)
    requires i <= |content|
    ensures i <= r <= |content|
  {
    i + IndexOfChar(content[i..], '\n')
  }

  lemma CountFree(s: string, c: char, a: nat, b: nat)
    requires a <= b <= |s|
    requires forall k :: a <= k < b ==> s[k] != c
    ensures Count(s[a..b], c) == 0
  {
    CountAbsent(s[a..b], c);
  }

  /** The line of `i` counts the newlines before the start of its line. */
  lemma LineAtLineStart(content: string, i: nat)
    requires i <= |content|
    ensures LineAt(content, i) == 1 + Count(content[..LineStart(content, i)], '\n')
  {
    var start := LineStart(content, i);
    assert content[..i] == content[..start] + content[start..i];
    CountAppend(content[..start], content[start..i], '\n');
    CountFree(content, '\n', start, i);
  }

  /** The piece of the split that starts right after a newline (or at 0) is the first piece of the rest. */
  lemma PieceAfterNewline(content: string, start: nat)
    requires start <= |content|
    requires start > 0 ==> content[start - 1] == '\n'
    ensures var pieces := Split(content, '\n');
            && Count(content[..start], '\n') < |pieces|
            && pieces[Count(content[..start], '\n')] == Split(content[start..], '\n')[0]
  {
    if start > 0 {
      var k := start - 1;
      SplitAt(content, '\n', k);
      assert content[..start] == content[..k] + ['\n'];
      CountAppend(content[..k], ['\n'], '\n');
    } else {
      assert content[start..] == content;
    }
  }

  /** The first piece from the start of a line reaches the end of that line. */
  lemma FirstPieceIsLine(content: string, i: nat)
    requires i <= |content|
    ensures Split(content[LineStart(content, i)..], '\n')[0] == content[LineStart(content, i)..LineEnd(content, i)]
  {
    var start, end := LineStart(content, i), LineEnd(content, i);
    var tail := content[start..];
    var j := IndexOfChar(content[i..], '\n');
    forall m | 0 <= m < end - start
      ensures tail[m] != '\n'
    {
      if m >= i - start {
        assert tail[m] == content[i..][m - (i - start)];
      }
    }
    if end < |content| {
      assert tail[end - start] == content[i..][j];
    }
    IndexOfCharIs(tail, '\n', end - start);
    SplitFirst(tail, '\n');
  }

  /** Off a newline, the newline at or before `i` is the one before the line start. */
  lemma ColumnFromLineStart(content: string, i: nat)
    requires i < |content| && content[i] != '\n'
    ensures ColumnAt(content, i) == i - LineStart(content, i) + 1
  {
  }

  /**
   * The snippet of a match is the whole line holding it, and the column
   * counts from 1 to the matched character within that line.
   */
  lemma SnippetIsMatchLine(content: string, i: nat)
    requires i < |content| && content[i] != '\n'
    ensures var snippet := Analyzer.GetLine(content, LineAt(content, i));
            var column := ColumnAt(content, i);
            && snippet == content[LineStart(content, i)..LineEnd(content, i)]
            && 1 <= column <= |snippet| && snippet[column - 1] == content[i]
  {
    var start := LineStart(content, i);
    LineAtLineStart(content, i);
    if start > 0 {
      assert content[start - 1] == '\n';
    }
    PieceAfterNewline(content, start);
    FirstPieceIsLine(content, i);
    ColumnFromLineStart(content, i);
    assert content[i..][0] != '\n';
  }

  /** `IndexOfChar` is the first position holding `c`, or the length when none does. */
  lemma IndexOfCharIs(s: string, c: char, j: nat)
    requires j <= |s|
    requires forall m :: 0 <= m < j ==> s[m] != c
    requires j < |s| ==> s[j] == c
    ensures IndexOfChar(s, c) == j
  {
  }

  // The fixed texts of the code-quality issues.
  const LongFunctionDescription: string := "Functions should be focused and under 50 lines"
  const LongFunctionSuggestion: string := "Break down into smaller, single-purpose functions"
  const ConsoleLogMessage: string := "Console statement found"
  const ConsoleLogDescription: string := "Remove console statements before committing"
  const ConsoleLogSuggestion: string := "Use a proper logging library or remove"
  const MagicNumberMessage: string := "Magic number detected"
  const MagicNumberDescription: string := "Use named constants for numeric literals"
  const MagicNumberSuggestion: string := "Extract to a named constant: const MAX_SIZE = 100"
  const DuplicateMessage: string := "Duplicate code block found"
  const DuplicateSuggestion: string := "Extract to a reusable function"
  const MissingHandlerMessage: string := "Async function without error handling"
  const MissingHandlerDescription: string := "Always handle errors in async operations"
  const MissingHandlerSuggestion: string := "Add try-catch block or .catch() handler"

  // ---------------------------------------------------------------- long-function

  /** The change one character makes to the open-brace count. */
  function BraceDelta(ch: char): int
  {
    if ch == '{' then 1 else if ch == '}' then -1 else 0
  }

  /** The open-brace count after scanning `content[from..j]`, starting from one open brace. */
  function Depth(content: string, from: nat, j: nat): int
    requires from <= j <= |content|
    decreases j
  {
    if j == from then 1 else Depth(content, from, j - 1) + BraceDelta(content[j - 1])
  }

  /** The scan from index `i` with `count` open braces, `last` the last index scanned. */
  function ScanEnd(content: string, i: nat, count: int, last: int): int
    requires i <= |content|
    decreases |content| - i
  {
    if i < |content| && count > 0 then ScanEnd(content, i + 1, count + BraceDelta(content[i]), i)
    else last
  }

  /** Where the brace scan after a header at `from` stops: the `endIndex` of the rule. */
  function BodyEnd(content: string, from: nat): int
    requires from <= |content|
  {
    ScanEnd(content, from, 1, from)
  }

  lemma {:induction false} ScanEndStops(content: string, from: nat, i: nat, last: int)
    requires from < i <= |content| && last == i - 1
    requires forall k :: from < k < i ==> Depth(content, from, k) > 0
    ensures var r := ScanEnd(content, i, Depth(content, from, i), last);
            && from <= r < |content|
            && (forall k :: from < k <= r ==> Depth(content, from, k) > 0)
            && (Depth(content, from, r + 1) == 0 || r == |content| - 1)
    decreases |content| - i
  {
    if i < |content| && Depth(content, from, i) > 0 {
      ScanEndStops(content, from, i + 1, i);
    } else if i < |content| {
      assert Depth(content, from, i - 1) >= 1;
    }
  }

  /**
   * The scan stops at the first index where the count returns to zero, or at
   * the last index of the content; with nothing after the header, the body
   * ends where the header does.
   */
  lemma BodyEndCharacterised(content: string, from: nat)
    requires from <= |content|
    ensures from == |content| ==> BodyEnd(content, from) == from
    ensures from < |content| ==>
              var r := BodyEnd(content, from);
              && from <= r < |content|
              && (forall k :: from < k <= r ==> Depth(content, from, k) > 0)
              && (Depth(content, from, r + 1) == 0 || r == |content| - 1)
  {
    if from < |content| {
      ScanEndStops(content, from, from + 1, from);
    }
  }

  /** The brace scan of `long-function`, proved to stop where `BodyEnd` says. */
  method BraceScan(content: string, from: nat) returns (endIndex: int)
    requires from <= |content|
    ensures endIndex == BodyEnd(content, from)
  {
    var braceCount := 1;
    endIndex := from;
    var i := from;
    while i < |content| && braceCount > 0
      invariant from <= i <= |content|
      invariant braceCount == Depth(content, from, i)
      invariant ScanEnd(content, i, braceCount, endIndex) == BodyEnd(content, from)
      decreases |content| - i
    {
      if content[i] == '{' {
        braceCount := braceCount + 1;
      }
      if content[i] == '}' {
        braceCount := braceCount - 1;
      }
      endIndex := i;
      i := i + 1;
    }
  }

  /** A regular-expression match: its index and its length. */
  datatype Match = Match(index: nat, length: nat)

  predicate InContent(content: string, m: Match)
  {
    m.index + m.length <= |content|
  }

  /** An issue reported at index `i` of the content, with the line it falls on as snippet. */
  function Report(context: RuleContext, i: nat, severity: Severity, category: IssueCategory, rule: string,
                    message: string, description: string, snippet: string, suggestion: string,
                    fixable: bool, autoFix: Option<string>, confidence: int): Issue
    requires i <= |context.content|
  {
    Issue(SeverityTag(severity), CategoryTag(category), rule, message, Some(description), context.filePath,
          LineAt(context.content, i), ColumnAt(context.content, i), snippet, Some(suggestion),
          fixable, autoFix, None, confidence)
  }

  /** The body the rule measures for a header: from the header's start to the last index scanned, exclusive. */
  function FunctionBody(content: string, header: Match): string
    requires InContent(content, header)
  {
    var end := BodyEnd(content, header.index + header.length);
    BodyEndCharacterised(content, header.index + header.length);
    content[header.index..end]
  }

  /** The `long-function` issue for a header whose body spans `lines` lines. */
  function LongFunctionReport(context: RuleContext, header: Match, lines: nat): Issue
    requires InContent(context.content, header)
  {
    Report(context, header.index, WARNING, CODE_SMELL, "long-function",
           "Function is too long (" + NatToString(lines) + " lines)",
           LongFunctionDescription,
           Analyzer.GetLine(context.content, LineAt(context.content, header.index)),
           LongFunctionSuggestion, false, None, 100)
  }

  /** What `long-function` reports for one header: an issue exactly when the body spans more than 50 lines. */
  function LongFunctionAt(context: RuleContext, header: Match): (r: seq<Issue>)
    requires InContent(context.content, header)
    ensures |r| <= 1
    ensures |r| == 1 <==> Count(FunctionBody(context.content, header), '\n') >= 50
    ensures |r| == 1 ==> r[0].rule == "long-function" && r[0].confidence == 100
                         && r[0].line == 1 + Count(context.content[..header.index], '\n')
  {
    var lines := |Split(FunctionBody(context.content, header), '\n')|;
    if lines > 50 then [LongFunctionReport(context, header, lines)] else []
  }

  function LongFunctionIssues(context: RuleContext, headers: seq<Match>): (r: seq<Issue>)
    requires forall k :: 0 <= k < |headers| ==> InContent(context.content, headers[k])
    ensures |r| <= |headers|
  {
    if headers == [] then []
    else
      var last := headers[|headers| - 1];
      LongFunctionIssues(context, headers[..|headers| - 1]) + LongFunctionAt(context, last)
  }

  /** The body of the `long-function` loop for one header: scan, measure, report. */
  method LongFunctionStep(context: RuleContext, header: Match) returns (found: seq<Issue>)
    requires InContent(context.content, header)
    ensures found == LongFunctionAt(context, header)
  {
    var content := context.content;
    var endIndex := BraceScan(content, header.index + header.length);
    BodyEndCharacterised(content, header.index + header.length);
    var functionBody := JsSubstring(content, header.index, endIndex);
    assert functionBody == FunctionBody(content, header);
    var lines := |Split(functionBody, '\n')|;
    found := [];
    if lines > 50 {
      found := [LongFunctionReport(context, header, lines)];
    }
  }

  /** The `long-function` check over the headers its pattern matched, in order. */
  method LongFunction(context: RuleContext, headers: seq<Match>) returns (issues: seq<Issue>)
    requires forall k :: 0 <= k < |headers| ==> InContent(context.content, headers[k])
    ensures issues == LongFunctionIssues(context, headers)
  {
    issues := [];
    for h := 0 to |headers|
      invariant issues == LongFunctionIssues(context, headers[..h])
    {
      LongFunctionIssuesSnoc(context, headers, h);
      var found := LongFunctionStep(context, headers[h]);
      issues := issues + found;
    }
    assert headers[..|headers|] == headers;
  }

  lemma LongFunctionIssuesSnoc(context: RuleContext, headers: seq<Match>, h: nat)
    requires forall k :: 0 <= k < |headers| ==> InContent(context.content, headers[k])
    requires h < |headers|
    ensures LongFunctionIssues(context, headers[..h + 1]) ==
              LongFunctionIssues(context, headers[..h]) + LongFunctionAt(context, headers[h])
  {
    assert headers[..h + 1][..h] == headers[..h];
  }

  // ---------------------------------------------------------------- console-log

  /** `console-log`: one fixable issue per matched call, in match order. */
  function ConsoleLogIssues(context: RuleContext, matches: seq<nat>): (r: seq<Issue>)
    requires forall k :: 0 <= k < |matches| ==> matches[k] <= |context.content|
    ensures |r| == |matches|
    ensures forall k :: 0 <= k < |r| ==>
              && r[k].rule == "console-log" && r[k].severity == "info"
              && r[k].line == LineAt(context.content, matches[k])
              && r[k].column == ColumnAt(context.content, matches[k])
              && r[k].codeSnippet == Analyzer.GetLine(context.content, r[k].line)
              && r[k].fixable && r[k].autoFix == Some("")
              && r[k].confidence == 100
  {
    seq(|matches|, k requires 0 <= k < |matches| =>
      Report(context, matches[k], INFO, CODE_SMELL, "console-log", ConsoleLogMessage,
             ConsoleLogDescription,
             Analyzer.GetLine(context.content, LineAt(context.content, matches[k])),
             ConsoleLogSuggestion, true, Some(""), 100))
  }

  // ---------------------------------------------------------------- magic-numbers

  /** A line that mentions a comment marker or `const` is exempt from `magic-numbers`. */
  predicate ExemptLine(line: string)
  {
    Contains(line, "//") || Contains(line, "const")
  }

  /** What `magic-numbers` reports for the number matched at `i`: an issue unless its line is exempt. */
  function MagicNumberAt(context: RuleContext, i: nat): (r: seq<Issue>)
    requires i <= |context.content|
    ensures |r| <= 1
    ensures |r| == 1 <==> !ExemptLine(Analyzer.GetLine(context.content, LineAt(context.content, i)))
  {
    var line := LineAt(context.content, i);
    var lineContent := Analyzer.GetLine(context.content, line);
    if !ExemptLine(lineContent) then
      [Report(context, i, INFO, MAINTAINABILITY, "magic-numbers", MagicNumberMessage,
              MagicNumberDescription, lineContent,
              MagicNumberSuggestion, false, None, 70)]
    else []
  }

  /** `magic-numbers` over the numbers its pattern matched: no reported line is exempt. */
  function MagicNumbersIssues(context: RuleContext, matches: seq<nat>): (r: seq<Issue>)
    requires forall k :: 0 <= k < |matches| ==> matches[k] <= |context.content|
    ensures |r| <= |matches|
    ensures forall k :: 0 <= k < |r| ==>
              && r[k].rule == "magic-numbers" && r[k].confidence == 70
              && r[k].codeSnippet == Analyzer.GetLine(context.content, r[k].line)
              && !ExemptLine(r[k].codeSnippet)
  {
    if matches == [] then []
    else MagicNumbersIssues(context, matches[..|matches| - 1]) + MagicNumberAt(context, matches[|matches| - 1])
  }

  // ---------------------------------------------------------------- duplicate-code

  /** The number of five-line windows the rule looks at: starts `0 .. |lines| - 6`. */
  function WindowCount(lines: seq<string>): (n: nat)
    ensures |lines| > 5 ==> n + 5 == |lines|
    ensures |lines| <= 5 ==> n == 0
  {
    if |lines| > 5 then |lines| - 5 else 0
  }

  /** The trimmed text of each five-line window, by start index. */
  function Windows(lines: seq<string>): (r: seq<string>)
    ensures |r| == WindowCount(lines)
    ensures forall i :: 0 <= i < |r| ==> r[i] == Trim(Join(lines[i..i + 5], "\n"))
  {
    seq(WindowCount(lines), i requires 0 <= i < WindowCount(lines) => Trim(Join(lines[i..i + 5], "\n")))
  }

  /**
   * The `seen` map after the first `n` windows: each text at least 50 long
   * mapped to its 1-based start lines, texts in first-seen order.
   */
  function SeenAfter(windows: seq<string>, n: nat): Entries<seq<nat>>
    requires n <= |windows|
  {
    if n == 0 then []
    else
      var seen := SeenAfter(windows, n - 1);
      var block := windows[n - 1];
      if |block| < 50 then seen else Record(seen, block, n)
  }

  lemma SeenAfterStep(windows: seq<string>, i: nat)
    requires i < |windows|
    ensures SeenAfter(windows, i + 1) ==
              if |windows[i]| < 50 then SeenAfter(windows, i) else Record(SeenAfter(windows, i), windows[i], i + 1)
  {
  }

  /** One step of the first loop: append `line` to the starts of `block`, or start its entry. */
  function Record(seen: Entries<seq<nat>>, block: string, line: nat): Entries<seq<nat>>
  {
    match Get(seen, block)
    case Some(starts) => Set(seen, block, starts + [line])
    case None => Set(seen, block, [line])
  }

  /** The start lines recorded for `w`, none when it is absent. */
  function Starts(seen: Entries<seq<nat>>, w: string): seq<nat>
  {
    match Get(seen, w)
    case Some(starts) => starts
    case None => []
  }

  /** A step of the first loop records `line` for `block` and for no other text. */
  lemma RecordStarts(seen: Entries<seq<nat>>, block: string, line: nat, w: string)
    requires Keyed(seen)
    ensures Keyed(Record(seen, block, line))
    ensures Starts(Record(seen, block, line), w) == Starts(seen, w) + (if w == block then [line] else [])
    ensures Get(Record(seen, block, line), w).Some? <==> w == block || Get(seen, w).Some?
  {
    var v := Starts(seen, block) + [line];
    match Get(seen, block) {
      case Some(starts) =>
      case None => assert v == [line];
    }
    SetGet(seen, block, v, w);
  }

  /** The 1-based start lines, among the first `n` windows, of the windows with text `w`, when `w` is at least 50 long. */
  function Occurrences(windows: seq<string>, w: string, n: nat): seq<nat>
    requires n <= |windows|
  {
    if n == 0 then []
    else Occurrences(windows, w, n - 1) + (if |w| >= 50 && windows[n - 1] == w then [n] else [])
  }

  lemma {:induction false} SeenAfterStarts(windows: seq<string>, n: nat, w: string)
    requires n <= |windows|
    ensures Keyed(SeenAfter(windows, n))
    ensures Starts(SeenAfter(windows, n), w) == Occurrences(windows, w, n)
    ensures Get(SeenAfter(windows, n), w).Some? <==> Occurrences(windows, w, n) != []
  {
    if n > 0 {
      SeenAfterStarts(windows, n - 1, w);
      var block := windows[n - 1];
      if |block| >= 50 {
        RecordStarts(SeenAfter(windows, n - 1), block, n, w);
      }
    }
  }

  /** Each text is mapped to exactly its start lines; a text never seen, or too short, is absent. */
  lemma SeenAfterGet(windows: seq<string>, n: nat, w: string)
    requires n <= |windows|
    ensures Keyed(SeenAfter(windows, n))
    ensures Get(SeenAfter(windows, n), w) ==
              if Occurrences(windows, w, n) == [] then None else Some(Occurrences(windows, w, n))
  {
    SeenAfterStarts(windows, n, w);
  }

  /** Start lines are listed in ascending order, each between 1 and `n`. */
  lemma {:induction false} OccurrencesAscending(windows: seq<string>, w: string, n: nat)
    requires n <= |windows|
    ensures forall a :: 0 <= a < |Occurrences(windows, w, n)| ==> 1 <= Occurrences(windows, w, n)[a] <= n
    ensures forall a, b :: 0 <= a < b < |Occurrences(windows, w, n)| ==>
              Occurrences(windows, w, n)[a] < Occurrences(windows, w, n)[b]
  {
    if n > 0 {
      OccurrencesAscending(windows, w, n - 1);
      var init := Occurrences(windows, w, n - 1);
      var occ := Occurrences(windows, w, n);
      assert forall a :: 0 <= a < |init| ==> occ[a] == init[a];
    }
  }

  /** A start line is listed for `w` exactly when the window there has text `w`, at least 50 long. */
  lemma {:induction false} OccurrencesMembers(windows: seq<string>, w: string, n: nat, line: nat)
    requires n <= |windows|
    ensures line in Occurrences(windows, w, n) <==> 1 <= line <= n && |w| >= 50 && windows[line - 1] == w
  {
    if n > 0 {
      OccurrencesMembers(windows, w, n - 1, line);
    }
  }

  /** The issue for one occurrence of a duplicated block. */
  function DuplicateIssue(context: RuleContext, block: string, line: nat, times: nat): Issue
  {
    Issue(SeverityTag(WARNING), CategoryTag(MAINTAINABILITY), "duplicate-code", DuplicateMessage,
          Some("This code appears " + NatToString(times) + " times"), context.filePath, line, 0,
          Split(block, '\n')[0], Some(DuplicateSuggestion), false, None, None, 85)
  }

  /** The issues of one map entry: one per start line when there are two or more, none otherwise. */
  function EntryIssues(context: RuleContext, block: string, starts: seq<nat>): (r: seq<Issue>)
    ensures |starts| > 1 ==> |r| == |starts|
    ensures |starts| <= 1 ==> r == []
    ensures forall j :: 0 <= j < |r| ==> r[j] == DuplicateIssue(context, block, starts[j], |starts|)
  {
    if |starts| > 1 then seq(|starts|, j requires 0 <= j < |starts| => DuplicateIssue(context, block, starts[j], |starts|))
    else []
  }

  /** The issues of the map's entries, in insertion order. */
  function EmitIssues(context: RuleContext, seen: Entries<seq<nat>>): seq<Issue>
  {
    if seen == [] then []
    else EmitIssues(context, seen[..|seen| - 1]) + EntryIssues(context, seen[|seen| - 1].0, seen[|seen| - 1].1)
  }

  /** The line numbers of a list of issues. */
  function IssueLines(issues: seq<Issue>): (r: seq<int>)
    ensures |r| == |issues|
    ensures forall k :: 0 <= k < |r| ==> r[k] == issues[k].line
  {
    seq(|issues|, k requires 0 <= k < |issues| => issues[k].line)
  }

  /** The lines an entry reports are its start lines when it has two or more. */
  lemma EntryIssueLines(context: RuleContext, block: string, starts: seq<nat>, line: nat)
    ensures line in IssueLines(EntryIssues(context, block, starts)) <==> |starts| > 1 && line in starts
  {
    var r := EntryIssues(context, block, starts);
    if line in IssueLines(r) {
      var k :| 0 <= k < |r| && IssueLines(r)[k] == line;
      assert starts[k] == line;
    }
    if |starts| > 1 && line in starts {
      var k :| 0 <= k < |starts| && starts[k] == line;
      assert IssueLines(r)[k] == line;
    }
  }

  lemma IssueLinesAppend(a: seq<Issue>, b: seq<Issue>, line: int)
    ensures line in IssueLines(a + b) <==> line in IssueLines(a) || line in IssueLines(b)
  {
    assert IssueLines(a + b) == IssueLines(a) + IssueLines(b);
  }

  /** Some entry with two or more starts lists `line`. */
  predicate Repeated(seen: Entries<seq<nat>>, line: nat)
  {
    exists e :: e in seen && |e.1| > 1 && line in e.1
  }

  lemma RepeatedSnoc(init: Entries<seq<nat>>, e: (string, seq<nat>), line: nat)
    ensures Repeated(init + [e], line) <==> Repeated(init, line) || (|e.1| > 1 && line in e.1)
  {
    if Repeated(init + [e], line) {
      var e' :| e' in init + [e] && |e'.1| > 1 && line in e'.1;
      assert e' in init || e' == e;
    }
    if Repeated(init, line) {
      var e' :| e' in init && |e'.1| > 1 && line in e'.1;
      assert e' in init + [e];
    }
    if |e.1| > 1 && line in e.1 {
      assert e in init + [e];
    }
  }

  lemma RepeatedLast(seen: Entries<seq<nat>>, line: nat)
    requires seen != []
    ensures Repeated(seen, line) <==>
              Repeated(seen[..|seen| - 1], line) || (|seen[|seen| - 1].1| > 1 && line in seen[|seen| - 1].1)
  {
    assert seen == seen[..|seen| - 1] + [seen[|seen| - 1]];
    RepeatedSnoc(seen[..|seen| - 1], seen[|seen| - 1], line);
  }

  /** An issue is emitted for line `line` exactly when some entry with two or more starts lists it. */
  lemma {:induction false} EmitIssuesLines(context: RuleContext, seen: Entries<seq<nat>>, line: nat)
    ensures line in IssueLines(EmitIssues(context, seen)) <==> Repeated(seen, line)
  {
    if seen != [] {
      var init, e := seen[..|seen| - 1], seen[|seen| - 1];
      EmitIssuesLines(context, init, line);
      EntryIssueLines(context, e.0, e.1, line);
      IssueLinesAppend(EmitIssues(context, init), EntryIssues(context, e.0, e.1), line);
      RepeatedLast(seen, line);
    }
  }

  /** The issues of `duplicate-code` for the given lines. */
  function DuplicateIssues(context: RuleContext, lines: seq<string>): seq<Issue>
  {
    var windows := Windows(lines);
    EmitIssues(context, SeenAfter(windows, |windows|))
  }

  /**
   * A line is reported exactly when the window starting there is at least
   * 50 characters long once trimmed and the same text starts at another
   * window too.
   */
  lemma DuplicateReported(context: RuleContext, windows: seq<string>, line: nat)
    ensures line in IssueLines(EmitIssues(context, SeenAfter(windows, |windows|))) <==>
              1 <= line <= |windows| && |windows[line - 1]| >= 50
              && |Occurrences(windows, windows[line - 1], |windows|)| > 1
  {
    var n := |windows|;
    var seen := SeenAfter(windows, n);
    EmitIssuesLines(context, seen, line);
    SeenAfterGet(windows, n, "");
    if Repeated(seen, line) {
      var e :| e in seen && |e.1| > 1 && line in e.1;
      EntryInKeyed(seen, e);
      SeenAfterGet(windows, n, e.0);
      OccurrencesMembers(windows, e.0, n, line);
    }
    if 1 <= line <= n && |windows[line - 1]| >= 50 && |Occurrences(windows, windows[line - 1], n)| > 1 {
      var w := windows[line - 1];
      SeenAfterGet(windows, n, w);
      OccurrencesMembers(windows, w, n, line);
      var e := (w, Occurrences(windows, w, n));
      EntryInKeyed(seen, e);
      assert e in seen && |e.1| > 1 && line in e.1;
    }
  }

  /** The body of the first loop for a block long enough: `push` onto its starts, or `set` a new entry. */
  method RecordStep(seen: Entries<seq<nat>>, block: string, line: nat) returns (next: Entries<seq<nat>>)
    ensures next == Record(seen, block, line)
  {
    match Get(seen, block) {
      case Some(starts) =>
        next := Set(seen, block, starts + [line]);
      case None =>
        next := Set(seen, block, [line]);
    }
  }

  /** The first loop of `duplicate-code`: the `seen` map over all windows. */
  method CollectWindows(lines: seq<string>) returns (seen: Entries<seq<nat>>)
    ensures seen == SeenAfter(Windows(lines), WindowCount(lines))
  {
    ghost var windows := Windows(lines);
    seen := [];
    var i := 0;
    while i < |lines| - 5
      invariant 0 <= i <= |windows|
      invariant seen == SeenAfter(windows, i)
    {
      seen := CollectWindow(lines, windows, i, seen);
      i := i + 1;
    }
    assert i == WindowCount(lines);
  }

  /** The body of the first loop for the window starting at index `i`. */
  method CollectWindow(lines: seq<string>, ghost windows: seq<string>, i: nat, seen: Entries<seq<nat>>)
    returns (next: Entries<seq<nat>>)
    requires windows == Windows(lines) && i < |windows|
    requires seen == SeenAfter(windows, i)
    ensures next == SeenAfter(windows, i + 1)
  {
    var block := Trim(Join(lines[i..i + 5], "\n"));
    assert block == windows[i];
    SeenAfterStep(windows, i);
    next := seen;
    if |block| >= 50 {
      next := RecordStep(seen, block, i + 1);
    }
  }

  /** The second loop of `duplicate-code`: one issue per start line of each repeated block. */
  method EmitDuplicates(context: RuleContext, seen: Entries<seq<nat>>) returns (issues: seq<Issue>)
    ensures issues == EmitIssues(context, seen)
  {
    issues := [];
    for k := 0 to |seen|
      invariant issues == EmitIssues(context, seen[..k])
    {
      EmitIssuesSnoc(context, seen, k);
      var block, lineNumbers := seen[k].0, seen[k].1;
      if |lineNumbers| > 1 {
        issues := EmitEntry(context, block, lineNumbers, issues);
      }
    }
    assert seen[..|seen|] == seen;
  }

  lemma EmitIssuesSnoc(context: RuleContext, seen: Entries<seq<nat>>, k: nat)
    requires k < |seen|
    ensures EmitIssues(context, seen[..k + 1]) == EmitIssues(context, seen[..k]) + EntryIssues(context, seen[k].0, seen[k].1)
  {
    assert seen[..k + 1][..k] == seen[..k];
  }

  /** The inner loop of the second loop: one issue per start line of a repeated block. */
  method EmitEntry(context: RuleContext, block: string, lineNumbers: seq<nat>, before: seq<Issue>) returns (issues: seq<Issue>)
    requires |lineNumbers| > 1
    ensures issues == before + EntryIssues(context, block, lineNumbers)
  {
    ghost var entry := EntryIssues(context, block, lineNumbers);
    issues := before;
    for j := 0 to |lineNumbers|
      invariant issues == before + entry[..j]
    {
      PrefixStep(before, entry, j);
      issues := issues + [DuplicateIssue(context, block, lineNumbers[j], |lineNumbers|)];
    }
    assert entry[..|lineNumbers|] == entry;
  }

  lemma PrefixStep<T>(before: seq<T>, s: seq<T>, j: nat)
    requires j < |s|
    ensures before + s[..j] + [s[j]] == before + s[..j + 1]
  {
    assert s[..j + 1] == s[..j] + [s[j]];
  }

  /** `duplicate-code`: collect the windows, then report each repeated block. */
  method DuplicateCode(context: RuleContext) returns (issues: seq<Issue>)
    ensures issues == DuplicateIssues(context, Split(context.content, '\n'))
  {
    var lines := Split(context.content, '\n');
    var seen := CollectWindows(lines);
    issues := EmitDuplicates(context, seen);
  }

  // ---------------------------------------------------------------- missing-error-handling

  /** The first index from `i` on that is not JavaScript whitespace (what `\s*` consumes). */
  function SkipSpace(s: string, i: nat): (r: nat)
    requires i <= |s|
    ensures i <= r <= |s|
    ensures forall m :: i <= m < r ==> IsJsWhitespace(s[m])
    ensures r < |s| ==> !IsJsWhitespace(s[r])
    decreases |s| - i
  {
    if i < |s| && IsJsWhitespace(s[i]) then SkipSpace(s, i + 1) else i
  }

  /** `try\s*\{` matches at `k`. */
  predicate TryBlockAt(s: string, k: int)
  {
    OccursAt(s, "try", k) && SkipSpace(s, k + 3) < |s| && s[SkipSpace(s, k + 3)] == '{'
  }

  /** The handler pattern `\.catch\(|try\s*\{` matches at `k`. */
  predicate HandlerAt(s: string, k: int)
  {
    OccursAt(s, ".catch(", k) || TryBlockAt(s, k)
  }

  /** Where the match at `k` ends: `lastIndex` after a successful `test`. */
  function HandlerEnd(s: string, k: nat): (e: nat)
    requires HandlerAt(s, k)
    ensures k < e <= |s|
  {
    if OccursAt(s, ".catch(", k) then k + 7 else SkipSpace(s, k + 3) + 1
  }

  /** Every match starts with '.' or 't'. */
  lemma HandlerStart(s: string, k: int)
    requires HandlerAt(s, k)
    ensures 0 <= k < |s| && (s[k] == '.' || s[k] == 't')
  {
    if OccursAt(s, ".catch(", k) {
      assert s[k..k + 7][0] == '.';
    } else {
      assert s[k..k + 3][0] == 't';
    }
  }

  /** The leftmost match at or after `from`. */
  function FirstHandler(s: string, from: nat): (r: Option<nat>)
    ensures r.Some? ==> from <= r.value < |s| && HandlerAt(s, r.value)
    ensures forall k :: from <= k && (r.None? || k < r.value) ==> !HandlerAt(s, k)
    decreases |s| - from
  {
    if from >= |s| then None
    else if HandlerAt(s, from) then Some(from)
    else FirstHandler(s, from + 1)
  }

  /**
   * `test` on the global handler pattern whose `lastIndex` is `lastIndex`:
   * whether it matches, and the `lastIndex` it leaves (the match's end, or 0
   * after a failure). A start beyond the text fails at once.
   */
  function RegexTest(s: string, lastIndex: nat): (r: (bool, nat))
    ensures r.0 <==> lastIndex <= |s| && exists k :: lastIndex <= k && HandlerAt(s, k)
    ensures !r.0 ==> r.1 == 0
    ensures r.0 ==> lastIndex < r.1 <= |s|
  {
    if lastIndex > |s| then (false, 0)
    else match FirstHandler(s, lastIndex)
      case Some(k) => (true, HandlerEnd(s, k))
      case None => (false, 0)
  }

  /** A text has error handling when the pattern matches anywhere in it. */
  predicate HasHandler(s: string)
  {
    exists k :: 0 <= k < |s| && HandlerAt(s, k)
  }

  /** The text the rule searches for a handler: up to 500 characters from the `async`. */
  function SnippetAt(content: string, start: nat): (r: string)
    requires start <= |content|
    ensures |r| <= 500
    ensures start + |r| <= |content| && r == content[start..start + |r|]
    ensures |r| == 500 || start + |r| == |content|
  {
    JsSubstring(content, start, if start + 500 < |content| then start + 500 else |content|)
  }

  /** The issue for an `async` at `start` without a handler. */
  function MissingHandlerIssue(context: RuleContext, start: nat): (r: Issue)
    requires start <= |context.content|
    ensures r.rule == "missing-error-handling" && r.severity == "error" && r.confidence == 80
    ensures r.line == LineAt(context.content, start) && r.column == ColumnAt(context.content, start)
    ensures r.codeSnippet == Analyzer.GetLine(context.content, r.line)
  {
    Report(context, start, ERROR, BUG, "missing-error-handling", MissingHandlerMessage,
           MissingHandlerDescription,
           Analyzer.GetLine(context.content, LineAt(context.content, start)),
           MissingHandlerSuggestion, false, None, 80)
  }

  /**
   * `missing-error-handling` as evidently intended: each `async` is reported
   * exactly when its own snippet has no handler.
   */
  function ErrorHandlingIssues(context: RuleContext, starts: seq<nat>): (r: seq<Issue>)
    requires forall k :: 0 <= k < |starts| ==> starts[k] <= |context.content|
    ensures |r| <= |starts|
    ensures forall k :: 0 <= k < |r| ==> r[k].rule == "missing-error-handling" && r[k].confidence == 80
  {
    if starts == [] then []
    else
      var start := starts[|starts| - 1];
      ErrorHandlingIssues(context, starts[..|starts| - 1])
      + (if HasHandler(SnippetAt(context.content, start)) then [] else [MissingHandlerIssue(context, start)])
  }

  /** Each `async` is judged on its own: the issues for two runs of matches are those of each run. */
  lemma {:induction false} ErrorHandlingAppend(context: RuleContext, a: seq<nat>, b: seq<nat>)
    requires forall k :: 0 <= k < |a| ==> a[k] <= |context.content|
    requires forall k :: 0 <= k < |b| ==> b[k] <= |context.content|
    ensures ErrorHandlingIssues(context, a + b) == ErrorHandlingIssues(context, a) + ErrorHandlingIssues(context, b)
  {
    if b == [] {
      assert a + b == a;
    } else {
      var b' := b[..|b| - 1];
      assert (a + b)[..|a + b| - 1] == a + b';
      ErrorHandlingAppend(context, a, b');
    }
  }

  /**
   * `missing-error-handling` as written: one global handler pattern serves
   * every `async`, so the `lastIndex` left by one `test` is where the next
   * snippet's search starts.
   */
  function AsWrittenFrom(context: RuleContext, starts: seq<nat>, lastIndex: nat): (r: seq<Issue>)
    requires forall k :: 0 <= k < |starts| ==> starts[k] <= |context.content|
    ensures |r| <= |starts|
  {
    if starts == [] then []
    else
      var test := RegexTest(SnippetAt(context.content, starts[0]), lastIndex);
      (if test.0 then [] else [MissingHandlerIssue(context, starts[0])])
      + AsWrittenFrom(context, starts[1..], test.1)
  }

  lemma AppendAssoc<T>(a: seq<T>, b: seq<T>, c: seq<T>)
    ensures (a + b) + c == a + (b + c)
  {
  }

  /** One `test` of the loop: the issue it adds and the `lastIndex` it leaves. */
  lemma AsWrittenStep(context: RuleContext, starts: seq<nat>, i: nat, lastIndex: nat)
    requires i < |starts|
    requires forall k :: 0 <= k < |starts| ==> starts[k] <= |context.content|
    ensures var test := RegexTest(SnippetAt(context.content, starts[i]), lastIndex);
            AsWrittenFrom(context, starts[i..], lastIndex) ==
              (if test.0 then [] else [MissingHandlerIssue(context, starts[i])])
              + AsWrittenFrom(context, starts[i + 1..], test.1)
  {
    assert starts[i..][1..] == starts[i + 1..];
  }

  /** The loop of `missing-error-handling`, threading the handler pattern's `lastIndex`. */
  method MissingErrorHandling(context: RuleContext, starts: seq<nat>) returns (issues: seq<Issue>)
    requires forall k :: 0 <= k < |starts| ==> starts[k] <= |context.content|
    ensures issues == AsWrittenFrom(context, starts, 0)
  {
    issues := [];
    var lastIndex := 0;
    for i := 0 to |starts|
      invariant issues + AsWrittenFrom(context, starts[i..], lastIndex) == AsWrittenFrom(context, starts, 0)
    {
      AsWrittenStep(context, starts, i, lastIndex);
      ghost var before := issues;
      var snippet := SnippetAt(context.content, starts[i]);
      var test := RegexTest(snippet, lastIndex);
      ghost var added := if test.0 then [] else [MissingHandlerIssue(context, starts[i])];
      ghost var rest := AsWrittenFrom(context, starts[i + 1..], test.1);
      assert AsWrittenFrom(context, starts[i..], lastIndex) == added + rest;
      lastIndex := test.1;
      if !test.0 {
        issues := issues + [MissingHandlerIssue(context, starts[i])];
      }
      assert issues == before + added;
      AppendAssoc(before, added, rest);
    }
    assert starts[|starts|..] == [];
    assert issues + [] == issues;
  }

  /** For the first `async` the shared pattern is still fresh, so both readings agree. */
  lemma AsWrittenFirstAgrees(context: RuleContext, start: nat)
    requires start <= |context.content|
    ensures AsWrittenFrom(context, [start], 0) == ErrorHandlingIssues(context, [start])
  {
    assert [start][1..] == [];
    assert [start][..0] == [];
  }

  const TwoHandledAsyncs: string := "async()=>{try{}}\nasync()=>{try{}}"

  /** One `async` arrow function wrapping its body in `try`, as each snippet of `TwoHandledAsyncs` reads. */
  const HandledAsync: string := "async()=>{try{}}"

  lemma TwoHandledAsyncsSnippets()
    ensures |TwoHandledAsyncs| == 33
    ensures SnippetAt(TwoHandledAsyncs, 0) == HandledAsync + "\n" + HandledAsync
    ensures SnippetAt(TwoHandledAsyncs, 17) == HandledAsync
  {
    assert TwoHandledAsyncs == HandledAsync + "\n" + HandledAsync;
    assert TwoHandledAsyncs[17..33] == HandledAsync;
  }

  /** The index just after the first line's newline is on line 2. */
  lemma AfterFirstNewline(a: string, b: string)
    requires '\n' !in a
    ensures LineAt(a + "\n" + b, |a| + 1) == 2
  {
    assert (a + "\n" + b)[..|a| + 1] == a + "\n";
    CountAppend(a, "\n", '\n');
    CountAbsent(a, '\n');
  }

  lemma SecondAsyncOnLineTwo()
    ensures |TwoHandledAsyncs| == 33
    ensures LineAt(TwoHandledAsyncs, 17) == 2
  {
    assert TwoHandledAsyncs == HandledAsync + "\n" + HandledAsync;
    assert forall i :: 0 <= i < |HandledAsync| ==> HandledAsync[i] != '\n';
    AfterFirstNewline(HandledAsync, HandledAsync);
  }

  /** `try{` at `k` is a handler match that ends just after the brace. */
  lemma TryBraceAt(s: string, k: nat)
    requires k + 4 <= |s| && s[k] == 't' && s[k + 1] == 'r' && s[k + 2] == 'y' && s[k + 3] == '{'
    ensures HandlerAt(s, k) && HandlerEnd(s, k) == k + 4
  {
    assert s[k..k + 3] == [s[k], s[k + 1], s[k + 2]];
    assert SkipSpace(s, k + 3) == k + 3;
  }

  /** A fresh `test` on a snippet starting with `HandledAsync` finds its `try{` and leaves `lastIndex` at 14. */
  lemma FirstTestEndsAt14(s: string)
    requires |s| >= 16 && s[..16] == HandledAsync
    ensures RegexTest(s, 0) == (true, 14)
    ensures HasHandler(s)
  {
    forall i | 0 <= i < 16 ensures s[i] == HandledAsync[i] {
      assert s[..16][i] == s[i];
    }
    TryBraceAt(s, 10);
    forall k | 0 <= k < 10 && HandlerAt(s, k) ensures false {
      HandlerStart(s, k);
    }
  }

  /** Resumed at 14, a `test` on `HandledAsync` sees only "}}" and fails. */
  lemma ResumedTestFails()
    ensures !RegexTest(HandledAsync, 14).0
    ensures HasHandler(HandledAsync)
  {
    var s := HandledAsync;
    forall k | 14 <= k && HandlerAt(s, k) ensures false {
      HandlerStart(s, k);
    }
    TryBraceAt(s, 10);
  }

  /**
   * Two `async` arrow functions, each wrapping its body in `try`: nothing is
   * missing, yet the code as written reports the second one, because its
   * search resumes at index 14 of the second snippet, past that snippet's `try`.
   */
  lemma LastIndexFalsePositive()
    ensures var context := RuleContext("a.js", TwoHandledAsyncs, None, JAVASCRIPT);
            && ErrorHandlingIssues(context, [0, 17]) == []
            && |AsWrittenFrom(context, [0, 17], 0)| == 1
            && AsWrittenFrom(context, [0, 17], 0)[0].line == 2
  {
    var context := RuleContext("a.js", TwoHandledAsyncs, None, JAVASCRIPT);
    TwoHandledAsyncsSnippets();
    SecondAsyncOnLineTwo();
    var s0 := SnippetAt(TwoHandledAsyncs, 0);
    assert s0[..16] == HandledAsync;
    FirstTestEndsAt14(s0);
    ResumedTestFails();
    assert [0, 17][..1] == [0] && [0][..0] == [];
    assert [0, 17][1..] == [17] && [17][1..] == [];
  }
}
