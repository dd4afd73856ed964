/**
 * The HTML report's escaping and the per-issue parts it chooses to show.
 *
 * `escapeHtml` is one global replace of the five characters & < > " ' by
 * their entities, every other character copied. Of an issue's fields only
 * the code snippet goes through it; the suggestion is shown when truthy and
 * the confidence line when the confidence is not 0. The rest of the page
 * template is rendering and not part of the model.
 */
module Html {
  import opened Wrappers
  import opened Types
  import opened Text

  /** The replacement of one character: its entity, or itself. */
  function EscapeChar(c: char): string
  {
    match c
    case '&' => "&amp;"
    case '<' => "&lt;"
    case '>' => "&gt;"
    case '"' => "&quot;"
    case '\'' => "&#039;"
    case _ => [c]
  }

  predicate Special(c: char)
  {
    c == '&' || c == '<' || c == '>' || c == '"' || c == '\''
  }

  /** `escapeHtml`: every character replaced by `EscapeChar`, left to right. */
  function EscapeHtml(text: string): string
  {
    if text == [] then [] else EscapeChar(text[0]) + EscapeHtml(text[1..])
  }

  /** No '<', '>', '"' or '\'' survives escaping. */
  lemma {:induction false} EscapeHtmlSafe(text: string)
    ensures forall i :: 0 <= i < |EscapeHtml(text)| ==> EscapeHtml(text)[i] !in "<>\"'"
  {
    if text != [] {
      EscapeHtmlSafe(text[1..]);
      var head, tail := EscapeChar(text[0]), EscapeHtml(text[1..]);
      forall i | 0 <= i < |head + tail| ensures (head + tail)[i] !in "<>\"'" {
        if i >= |head| {
          assert (head + tail)[i] == tail[i - |head|];
        }
      }
    }
  }

  /** A text with none of the five characters is returned unchanged. */
  lemma {:induction false} EscapeHtmlIdentity(text: string)
    requires forall i :: 0 <= i < |text| ==> !Special(text[i])
    ensures EscapeHtml(text) == text
  {
    if text != [] {
      EscapeHtmlIdentity(text[1..]);
      assert text == [text[0]] + text[1..];
    }
  }

  /** Each entity grows the text by its length less one. */
  lemma {:induction false} EscapeHtmlLength(text: string)
    ensures |EscapeHtml(text)| ==
              |text| + 4 * Count(text, '&') + 3 * Count(text, '<') + 3 * Count(text, '>')
              + 5 * Count(text, '"') + 5 * Count(text, '\'')
  {
    if text != [] {
      EscapeHtmlLength(text[1..]);
    }
  }

  /** The reverse mapping, one pass from the left: each entity back to its character. */
  function UnescapeHtml(html: string): string
  {
    if html == [] then []
    else if StartsWith(html, "&amp;") then "&" + UnescapeHtml(html[5..])
    else if StartsWith(html, "&lt;") then "<" + UnescapeHtml(html[4..])
    else if StartsWith(html, "&gt;") then ">" + UnescapeHtml(html[4..])
    else if StartsWith(html, "&quot;") then "\"" + UnescapeHtml(html[6..])
    else if StartsWith(html, "&#039;") then "'" + UnescapeHtml(html[6..])
    else [html[0]] + UnescapeHtml(html[1..])
  }

  /** Unescaping the replacement of one character gives the character back, whatever follows. */
  lemma UnescapeChar(c: char, rest: string)
    ensures UnescapeHtml(EscapeChar(c) + rest) == [c] + UnescapeHtml(rest)
  {
    var x := EscapeChar(c) + rest;
    match c
    case '&' =>
      assert x[..5] == "&amp;" && x[5..] == rest;
    case '<' =>
      assert x[..4] == "&lt;" && x[4..] == rest;
      NotEntity(x, "&amp;", 1);
    case '>' =>
      assert x[..4] == "&gt;" && x[4..] == rest;
      NotEntity(x, "&amp;", 1);
      NotEntity(x, "&lt;", 1);
    case '"' =>
      assert x[..6] == "&quot;" && x[6..] == rest;
      NotEntity(x, "&amp;", 1);
      NotEntity(x, "&lt;", 1);
      NotEntity(x, "&gt;", 1);
    case '\'' =>
      assert x[..6] == "&#039;" && x[6..] == rest;
      NotEntity(x, "&amp;", 1);
      NotEntity(x, "&lt;", 1);
      NotEntity(x, "&gt;", 1);
      NotEntity(x, "&quot;", 1);
    case _ =>
      assert x[0] == c && x[1..] == rest;
      NotEntity(x, "&amp;", 0);
      NotEntity(x, "&lt;", 0);
      NotEntity(x, "&gt;", 0);
      NotEntity(x, "&quot;", 0);
      NotEntity(x, "&#039;", 0);
  }

  /** A text differing from an entity at some position inside it does not start with it. */
  lemma NotEntity(x: string, entity: string, k: nat)
    requires k < |entity| && k < |x| && x[k] != entity[k]
    ensures !StartsWith(x, entity)
  {
  }

  /** The replacement is a single pass, so mapping the entities back recovers the text. */
  lemma {:induction false} UnescapeEscape(text: string)
    ensures UnescapeHtml(EscapeHtml(text)) == text
  {
    if text != [] {
      UnescapeChar(text[0], EscapeHtml(text[1..]));
      UnescapeEscape(text[1..]);
      assert text == [text[0]] + text[1..];
    }
  }

  /** Escaping is one to one: different texts never render alike. */
  lemma EscapeHtmlInjective(a: string, b: string)
    requires EscapeHtml(a) == EscapeHtml(b)
    ensures a == b
  {
    UnescapeEscape(a);
    UnescapeEscape(b);
  }

  /** The parts of one issue card, in page order. */
  datatype Part =
    | Title(message: string)
    | Badge(severity: string)
    | Location(file: string, line: int, column: int)
    | Code(html: string)
    | Suggestion(text: string)
    | Confidence(percent: int)

  /** `generate`'s issue card: only the snippet is escaped; the suggestion and the confidence are shown when truthy. */
  function IssueCard(issue: Issue): (r: seq<Part>)
    ensures 4 <= |r| <= 6
  {
    [Title(issue.message), Badge(issue.severity), Location(issue.file, issue.line, issue.column),
     Code(EscapeHtml(issue.codeSnippet))]
    + (if issue.suggestion.Some? && issue.suggestion.value != "" then [Suggestion(issue.suggestion.value)] else [])
    + (if issue.confidence != 0 then [Confidence(issue.confidence)] else [])
  }

  /**
   * The confidence line is left out exactly when the confidence is 0, the
   * suggestion exactly when it is absent or empty; the code is the escaped
   * snippet while the message is shown as it is.
   */
  lemma IssueCardParts(issue: Issue)
    ensures (exists i :: 0 <= i < |IssueCard(issue)| && IssueCard(issue)[i].Confidence?) <==> issue.confidence != 0
    ensures (exists i :: 0 <= i < |IssueCard(issue)| && IssueCard(issue)[i].Suggestion?) <==>
              issue.suggestion.Some? && issue.suggestion.value != ""
    ensures IssueCard(issue)[0] == Title(issue.message)
    ensures IssueCard(issue)[3] == Code(EscapeHtml(issue.codeSnippet))
    ensures UnescapeHtml(IssueCard(issue)[3].html) == issue.codeSnippet
  {
    var r := IssueCard(issue);
    if issue.confidence != 0 {
      assert r[|r| - 1].Confidence?;
    }
    if issue.suggestion.Some? && issue.suggestion.value != "" {
      assert r[4].Suggestion?;
    }
    UnescapeEscape(issue.codeSnippet);
  }
}
