/**
 * The language-facing part of the parser wrapper: choosing a language from a
 * file name, refusing languages without a loaded grammar, walking a syntax
 * tree in preorder and slicing a node's text out of the source.
 *
 * The grammars and the parsing itself belong to an external library: its
 * outcome for a file is passed in as a `Result<Node>`.
 */
module Parser {
  import opened Wrappers
  import opened Types
  import opened Text

  /** The extension table, keyed by lowercase extension. */
  function LanguageOfExtension(ext: string): Option<Language>
  {
    match ext
    case "js" | "jsx" | "mjs" | "cjs" => Some(JAVASCRIPT)
    case "ts" | "tsx" => Some(TYPESCRIPT)
    case "py" | "pyw" => Some(PYTHON)
    case "java" => Some(JAVA)
    case "go" => Some(GO)
    case "rs" => Some(RUST)
    case "cpp" | "cc" | "cxx" | "c++" | "h" | "hpp" => Some(CPP)
    case "php" => Some(PHP)
    case "rb" | "rake" => Some(RUBY)
    case "swift" => Some(SWIFT)
    case "kt" | "kts" => Some(KOTLIN)
    case "cs" => Some(CSHARP)
    case "scala" | "sc" => Some(SCALA)
    case "ex" | "exs" => Some(ELIXIR)
    case "dart" => Some(DART)
    case "lua" => Some(LUA)
    case "sh" | "bash" | "zsh" => Some(SHELL)
    case "sql" => Some(SQL)
    case "html" | "htm" => Some(HTML)
    case "css" | "scss" | "sass" => Some(CSS)
    case _ => None
  }

  /** No extension in the table is longer than five characters. */
  lemma KnownExtensionsShort(ext: string)
    ensures LanguageOfExtension(ext).Some? ==> |ext| <= 5
  {
  }

  /** The text after the last '.', or the whole name when there is none. */
  function Extension(filePath: string): string
  {
    var pieces := Split(filePath, '.');
    pieces[|pieces| - 1]
  }

  /** `detectLanguage`: the table entry for the lowercased extension, JAVASCRIPT when there is none. */
  function DetectLanguage(filePath: string): Language
  {
    match LanguageOfExtension(ToLower(Extension(filePath)))
    case Some(language) => language
    case None => JAVASCRIPT
  }

  /** Lowercasing commutes with splitting at '.', which has no case. */
  lemma {:induction false} SplitLower(s: string)
    ensures |Split(ToLower(s), '.')| == |Split(s, '.')|
    ensures forall i :: 0 <= i < |Split(s, '.')| ==> Split(ToLower(s), '.')[i] == ToLower(Split(s, '.')[i])
  {
    if s != [] {
      SplitLower(s[1..]);
      assert ToLower(s)[1..] == ToLower(s[1..]);
      assert ToLower(s)[0] == '.' <==> s[0] == '.';
      var rest, lrest := Split(s[1..], '.'), Split(ToLower(s[1..]), '.');
      if s[0] != '.' {
        assert ToLower([s[0]] + rest[0]) == [LowerChar(s[0])] + ToLower(rest[0]);
      }
    }
  }

  /** The extension is matched case-insensitively: names equal up to case get the same language. */
  lemma DetectLanguageIgnoresCase(p1: string, p2: string)
    requires ToLower(p1) == ToLower(p2)
    ensures DetectLanguage(p1) == DetectLanguage(p2)
  {
    ExtensionLower(p1);
    ExtensionLower(p2);
  }

  lemma ExtensionLower(p: string)
    ensures ToLower(Extension(p)) == Extension(ToLower(p))
  {
    SplitLower(p);
  }

  /** A name without '.' is looked up whole. */
  lemma ExtensionWithoutDot(filePath: string)
    requires '.' !in filePath
    ensures Extension(filePath) == filePath
  {
    SplitAbsent(filePath, '.');
  }

  /** The extension contains no '.', and the name ends with it. */
  lemma ExtensionIsSuffix(filePath: string)
    ensures '.' !in Extension(filePath)
    ensures EndsWith(filePath, Extension(filePath))
    ensures |Extension(filePath)| < |filePath| ==> filePath[|filePath| - |Extension(filePath)| - 1] == '.'
  {
    var pieces := Split(filePath, '.');
    JoinSplit(filePath, '.');
    if |pieces| > 1 {
      JoinLast(pieces, '.');
    }
  }

  lemma {:induction false} JoinLast(parts: seq<string>, c: char)
    requires |parts| > 1
    ensures Join(parts, [c]) == Join(parts[..|parts| - 1], [c]) + [c] + parts[|parts| - 1]
  {
    if |parts| > 2 {
      JoinLast(parts[1..], c);
      assert parts[1..][..|parts| - 2] == parts[..|parts| - 1][1..];
    }
  }

  /** The text after the last '.' is the extension, whatever precedes it. */
  lemma ExtensionAfterDot(base: string, ext: string)
    requires '.' !in ext
    ensures Extension(base + "." + ext) == ext
  {
    SplitConcat(base, ext, '.');
    SplitAbsent(ext, '.');
  }

  /** The extension is matched whatever its case. */
  lemma DetectUpperCaseExtension()
    ensures DetectLanguage("A.TS") == TYPESCRIPT
  {
    ExtensionAfterDot("A", "TS");
    assert "A" + "." + "TS" == "A.TS";
    assert ToLower("TS") == "ts";
  }

  /** A bare name is its own extension: `go` is Go. */
  lemma DetectBareName()
    ensures DetectLanguage("go") == GO
  {
    var path := "go";
    assert forall i :: 0 <= i < |path| ==> path[i] != '.' && !('A' <= path[i] <= 'Z');
    ExtensionWithoutDot(path);
    ToLowerIdentity(path);
  }

  /** Only the last segment after a '.' counts: `src/go` has none, so it is looked up whole and missed. */
  lemma DetectPathWithoutDot()
    ensures DetectLanguage("src/go") == JAVASCRIPT
  {
    var path := "src/go";
    assert forall i :: 0 <= i < |path| ==> path[i] != '.' && !('A' <= path[i] <= 'Z');
    ExtensionWithoutDot(path);
    ToLowerIdentity(path);
    KnownExtensionsShort(path);
  }

  /**
   * The grammars registered when the parser is created. The six `require`s
   * run before any grammar is registered, so a grammar module that fails to
   * load leaves none registered: all six are loaded, or none is.
   */
  function LoadedLanguages(grammarsLoaded: bool): (r: seq<Language>)
    ensures grammarsLoaded <==> |r| == 6
    ensures !grammarsLoaded ==> r == []
  {
    if grammarsLoaded then [JAVASCRIPT, TYPESCRIPT, PYTHON, JAVA, GO, RUST] else []
  }

  /**
   * `parse`: refuses a language without a grammar; otherwise the tree is
   * what the parsing library produced for the content.
   */
  function Parse(language: Language, grammarsLoaded: bool, libraryOutcome: Result<Node>): (r: Result<Node>)
    ensures language !in LoadedLanguages(grammarsLoaded) ==>
              r == Err("Parser not available for language: " + LanguageTag(language))
    ensures language in LoadedLanguages(grammarsLoaded) ==> r == libraryOutcome
    ensures !grammarsLoaded ==> r.Err?
  {
    if language !in LoadedLanguages(grammarsLoaded) then Err("Parser not available for language: " + LanguageTag(language))
    else libraryOutcome
  }

  /** The nodes of a tree in the order `traverseAST` calls back: parent, then each child's subtree left to right. */
  function Preorder(node: Node): (r: seq<Node>)
    ensures |r| >= 1 && r[0] == node
    decreases node, 1
  {
    [node] + PreorderForest(node.children)
  }

  function PreorderForest(nodes: seq<Node>): seq<Node>
    decreases nodes, 0
  {
    if nodes == [] then [] else Preorder(nodes[0]) + PreorderForest(nodes[1..])
  }

  /** The nodes of kind `kind`, in the order given. */
  function OfKind(nodes: seq<Node>, kind: string): (r: seq<Node>)
    ensures |r| <= |nodes|
    ensures forall i :: 0 <= i < |r| ==> r[i].kind == kind
  {
    if nodes == [] then []
    else (if nodes[0].kind == kind then [nodes[0]] else []) + OfKind(nodes[1..], kind)
  }

  lemma {:induction false} OfKindAppend(a: seq<Node>, b: seq<Node>, kind: string)
    ensures OfKind(a + b, kind) == OfKind(a, kind) + OfKind(b, kind)
  {
    if a == [] {
      assert a + b == b;
    } else {
      assert (a + b)[0] == a[0] && (a + b)[1..] == a[1..] + b;
      OfKindAppend(a[1..], b, kind);
    }
  }

  /** Every node of the requested kind is kept and no other node is. */
  lemma {:induction false} OfKindMembers(nodes: seq<Node>, kind: string, x: Node)
    ensures x in OfKind(nodes, kind) <==> x in nodes && x.kind == kind
  {
    if nodes != [] {
      OfKindMembers(nodes[1..], kind, x);
      assert nodes == [nodes[0]] + nodes[1..];
    }
  }

  /** The traversal from `node` with the `findNodes` callback, appending to `acc`. */
  method Visit(node: Node, kind: string, acc: seq<Node>) returns (results: seq<Node>)
    ensures results == acc + OfKind(Preorder(node), kind)
    decreases node, 1
  {
    results := acc;
    if node.kind == kind {
      results := results + [node];
    }
    ghost var head := acc + (if node.kind == kind then [node] else []);
    assert results == head;
    for i := 0 to |node.children|
      invariant results == head + OfKind(PreorderForest(node.children[..i]), kind)
    {
      ForestOfKindSnoc(node.children, i, kind, head);
      results := VisitChild(node, i, kind, results);
    }
    PreorderOfKind(node, kind, acc);
  }

  /** The recursive call of the traversal on the `i`-th child. */
  method VisitChild(node: Node, i: nat, kind: string, acc: seq<Node>) returns (results: seq<Node>)
    requires i < |node.children|
    ensures results == acc + OfKind(Preorder(node.children[i]), kind)
    decreases node, 0
  {
    assert node.children[i] in node.children;
    results := Visit(node.children[i], kind, acc);
  }

  lemma ForestOfKindSnoc(nodes: seq<Node>, i: nat, kind: string, head: seq<Node>)
    requires i < |nodes|
    ensures head + OfKind(PreorderForest(nodes[..i + 1]), kind) ==
              head + OfKind(PreorderForest(nodes[..i]), kind) + OfKind(Preorder(nodes[i]), kind)
  {
    ForestSnoc(nodes[..i + 1]);
    assert nodes[..i + 1][..i] == nodes[..i];
    OfKindAppend(PreorderForest(nodes[..i]), Preorder(nodes[i]), kind);
  }

  lemma PreorderOfKind(node: Node, kind: string, acc: seq<Node>)
    ensures acc + OfKind(Preorder(node), kind) ==
              acc + (if node.kind == kind then [node] else []) + OfKind(PreorderForest(node.children[..|node.children|]), kind)
  {
    assert node.children[..|node.children|] == node.children;
    OfKindAppend([node], PreorderForest(node.children), kind);
  }

  lemma {:induction false} ForestSnoc(nodes: seq<Node>)
    requires nodes != []
    ensures PreorderForest(nodes) == PreorderForest(nodes[..|nodes| - 1]) + Preorder(nodes[|nodes| - 1])
  {
    if |nodes| > 1 {
      ForestSnoc(nodes[1..]);
      assert nodes[1..][..|nodes| - 2] == nodes[..|nodes| - 1][1..];
    } else {
      assert nodes[..0] == [];
    }
  }

  /** `findNodes`: exactly the nodes of the given kind, in preorder. */
  method FindNodes(root: Node, kind: string) returns (results: seq<Node>)
    ensures results == OfKind(Preorder(root), kind)
    ensures forall x :: x in results <==> x in Preorder(root) && x.kind == kind
  {
    results := Visit(root, kind, []);
    forall x {
      OfKindMembers(Preorder(root), kind, x);
    }
  }

  /** `getNodeText`: the source between the node's start and end offsets. */
  function GetNodeText(node: Node, source: string): (r: string)
    ensures 0 <= node.startIndex <= node.endIndex <= |source| ==> r == source[node.startIndex..node.endIndex]
    ensures r == JsSubstring(source, node.endIndex, node.startIndex)
  {
    JsSubstring(source, node.startIndex, node.endIndex)
  }
}
