/**
 * The `config` command: `--list` shows the configuration file, `--get a.b`
 * follows a dotted path into it, `--set a.b=v` stores a parsed value at a
 * dotted path, creating the missing intermediate objects.
 *
 * Reading `.codeblaster.json` and `JSON.parse` are outside the model: their
 * outcome is passed in as a `Result<Json>`. The JSON text is a tree without
 * sharing, so the in-place update of the parsed object is modelled as the
 * updated tree. Printing and the exit are the command's `Outcome`.
 */
module ConfigCommand {
  import opened Wrappers
  import opened Text
  import opened OrderedMaps

  /** A parsed JSON value; numbers are the integers this model reads and writes. */
  datatype Json =
    | JNull
    | JBool(b: bool)
    | JNum(n: int)
    | JStr(s: string)
    | JArr(items: seq<Json>)
    | JObj(fields: Entries<Json>)

  /** Every object in the tree has distinct keys, as `JSON.parse` builds it. */
  predicate WellKeyed(j: Json)
  {
    match j
    case JArr(items) => forall i :: 0 <= i < |items| ==> WellKeyed(items[i])
    case JObj(fields) => Keyed(fields) && forall i :: 0 <= i < |fields| ==> WellKeyed(fields[i].1)
    case _ => true
  }

  /** `key` read as an array index: the canonical decimal text of a number. */
  function Index(key: string): (r: Option<nat>)
    ensures r.Some? ==> key == NatToString(r.value)
  {
    if key != [] && AllDigits(key) && key == NatToString(DecimalValue(key)) then Some(DecimalValue(key)) else None
  }

  lemma IndexOfNatToString(i: nat)
    ensures Index(NatToString(i)) == Some(i)
  {
    DecimalOfNatToString(i);
  }

  // ---------------------------------------------------------------------------
  // getNestedValue
  // ---------------------------------------------------------------------------

  /** `current[key]` on a defined value: own members of objects, elements and `length` of arrays and strings. */
  function Access(current: Json, key: string): Option<Json>
  {
    match current
    case JObj(fields) => Get(fields, key)
    case JArr(items) =>
      if key == "length" then Some(JNum(|items|))
      else if Index(key).Some? && Index(key).value < |items| then Some(items[Index(key).value])
      else None
    case JStr(s) =>
      if key == "length" then Some(JNum(|s|))
      else if Index(key).Some? && Index(key).value < |s| then Some(JStr([s[Index(key).value]]))
      else None
    case _ => None
  }

  /** The `reduce` with `current?.[key]`: once undefined, undefined to the end. */
  function GetPath(current: Option<Json>, keys: seq<string>): Option<Json>
    decreases keys
  {
    if keys == [] then current
    else GetPath(if current.None? then None else Access(current.value, keys[0]), keys[1..])
  }

  /** `getNestedValue`. */
  function GetNestedValue(obj: Json, path: string): Option<Json>
  {
    GetPath(Some(obj), Split(path, '.'))
  }

  /** Following a path is following its first part, then the rest. */
  lemma {:induction false} GetPathAppend(current: Option<Json>, a: seq<string>, b: seq<string>)
    ensures GetPath(current, a + b) == GetPath(GetPath(current, a), b)
    decreases a
  {
    if a == [] {
      assert a + b == b;
    } else {
      assert (a + b)[0] == a[0] && (a + b)[1..] == a[1..] + b;
      GetPathAppend(if current.None? then None else Access(current.value, a[0]), a[1..], b);
    }
  }

  lemma {:induction false} GetPathUndefined(keys: seq<string>)
    ensures GetPath(None, keys) == None
  {
    if keys != [] {
      GetPathUndefined(keys[1..]);
    }
  }

  /** A missing segment makes the whole lookup undefined. */
  lemma GetPathStops(current: Option<Json>, keys: seq<string>, i: nat)
    requires i <= |keys| && GetPath(current, keys[..i]) == None
    ensures GetPath(current, keys) == None
  {
    GetPathAppend(current, keys[..i], keys[i..]);
    assert keys[..i] + keys[i..] == keys;
    GetPathUndefined(keys[i..]);
  }

  // ---------------------------------------------------------------------------
  // setNestedValue
  // ---------------------------------------------------------------------------

  /**
   * What `setNestedValue` does to the configuration: the updated tree, or a
   * TypeError (`in` or an assignment on a primitive, in strict mode), or a
   * step into an array at a key that is not one of its elements.
   */
  datatype SetOutcome = Updated(config: Json) | Threw | ThroughArray

  /** `target[lastKey] = value`. */
  function Assign(target: Json, key: string, value: Json): SetOutcome
  {
    match target
    case JObj(fields) => Updated(JObj(Set(fields, key, value)))
    case JArr(items) =>
      if Index(key).Some? && Index(key).value < |items| then Updated(JArr(items[Index(key).value := value]))
      else ThroughArray
    case _ => Threw
  }

  /** The child an intermediate step descends into: the existing member, or a new `{}`. */
  function Child(fields: Entries<Json>, key: string): Json
  {
    if Get(fields, key).Some? then Get(fields, key).value else JObj([])
  }

  /** The `reduce` over all keys but the last, creating `{}` where a key is missing, then the assignment. */
  function SetPath(current: Json, keys: seq<string>, value: Json): SetOutcome
    requires keys != []
    decreases keys
  {
    if |keys| == 1 then Assign(current, keys[0], value)
    else
      match current
      case JObj(fields) =>
        (match SetPath(Child(fields, keys[0]), keys[1..], value)
         case Updated(child) => Updated(JObj(Set(fields, keys[0], child)))
         case other => other)
      case JArr(items) =>
        if Index(keys[0]).Some? && Index(keys[0]).value < |items| then
          (match SetPath(items[Index(keys[0]).value], keys[1..], value)
           case Updated(child) => Updated(JArr(items[Index(keys[0]).value := child]))
           case other => other)
        else ThroughArray
      case _ => Threw
  }

  /** `setNestedValue(obj, path, value)`. */
  function SetNestedValue(obj: Json, path: string, value: Json): SetOutcome
  {
    SetPath(obj, Split(path, '.'), value)
  }

  lemma WellKeyedChild(fields: Entries<Json>, key: string)
    requires WellKeyed(JObj(fields))
    ensures WellKeyed(Child(fields, key))
  {
    if Get(fields, key).Some? {
      var i :| 0 <= i < |fields| && fields[i] == (key, Get(fields, key).value);
    }
  }

  /** Updating keeps every object's keys distinct. */
  lemma {:induction false} SetPathWellKeyed(current: Json, keys: seq<string>, value: Json)
    requires keys != [] && WellKeyed(current) && WellKeyed(value)
    ensures SetPath(current, keys, value).Updated? ==> WellKeyed(SetPath(current, keys, value).config)
    decreases keys
  {
    if |keys| == 1 {
      match current
      case JObj(fields) => SetWellKeyed(fields, keys[0], value);
      case JArr(items) =>
      case _ =>
    } else {
      match current
      case JObj(fields) =>
        WellKeyedChild(fields, keys[0]);
        SetPathWellKeyed(Child(fields, keys[0]), keys[1..], value);
        if SetPath(current, keys, value).Updated? {
          SetWellKeyed(fields, keys[0], SetPath(Child(fields, keys[0]), keys[1..], value).config);
        }
      case JArr(items) =>
        if Index(keys[0]).Some? && Index(keys[0]).value < |items| {
          SetPathWellKeyed(items[Index(keys[0]).value], keys[1..], value);
        }
      case _ =>
    }
  }

  /** Setting a well-keyed member into a well-keyed object keeps it well keyed. */
  lemma SetWellKeyed(fields: Entries<Json>, key: string, value: Json)
    requires WellKeyed(JObj(fields)) && WellKeyed(value)
    ensures WellKeyed(JObj(Set(fields, key, value)))
  {
    SetGet(fields, key, value, key);
    var r := Set(fields, key, value);
    forall i | 0 <= i < |r| ensures WellKeyed(r[i].1) {
      if i >= |fields| || r[i] != fields[i] {
        assert r[i] == (key, value);
      }
    }
  }

  /**
   * One intermediate step of a successful update: the member the `reduce`
   * descends into (the existing one, or a new `{}` where it was missing) is
   * updated along the rest of the path and stored back under the same key.
   */
  lemma SetStep(current: Json, keys: seq<string>, value: Json) returns (child: Json)
    requires |keys| > 1 && WellKeyed(current)
    requires SetPath(current, keys, value).Updated?
    ensures WellKeyed(child) && SetPath(child, keys[1..], value).Updated?
    ensures Access(SetPath(current, keys, value).config, keys[0]) == Some(SetPath(child, keys[1..], value).config)
    ensures Access(current, keys[0]) == Some(child) || (Access(current, keys[0]) == None && child == JObj([]))
  {
    match current
    case JObj(fields) =>
      child := Child(fields, keys[0]);
      SetGet(fields, keys[0], SetPath(child, keys[1..], value).config, keys[0]);
      WellKeyedChild(fields, keys[0]);
    case JArr(items) =>
      child := items[Index(keys[0]).value];
      assert child in items;
  }

  /** Along objects, the member stepped into is again followed by objects. */
  lemma ObjectsAlongStep(current: Json, keys: seq<string>)
    requires |keys| > 1 && ObjectsAlong(current, keys)
    ensures ObjectsAlong(Child(current.fields, keys[0]), keys[1..])
  {
    if Get(current.fields, keys[0]).None? {
      EmptyObjectsAlong(keys[1..]);
    }
  }

  /** After a successful `setNestedValue(o, p, v)`, `getNestedValue(o, p)` is `v`. */
  lemma {:induction false} SetThenGet(current: Json, keys: seq<string>, value: Json)
    requires keys != [] && WellKeyed(current)
    requires SetPath(current, keys, value).Updated?
    ensures GetPath(Some(SetPath(current, keys, value).config), keys) == Some(value)
    decreases keys
  {
    if |keys| == 1 {
      match current
      case JObj(fields) => SetGet(fields, keys[0], value, keys[0]);
      case JArr(items) =>
    } else {
      var child := SetStep(current, keys, value);
      SetThenGet(child, keys[1..], value);
    }
  }

  /** The path passes only through objects wherever it exists, starting from an object. */
  predicate ObjectsAlong(current: Json, keys: seq<string>)
  {
    current.JObj? &&
    (|keys| > 1 && Get(current.fields, keys[0]).Some? ==> ObjectsAlong(Get(current.fields, keys[0]).value, keys[1..]))
  }

  /** Through objects (existing or missing) the update always succeeds. */
  lemma {:induction false} SetPathThroughObjects(current: Json, keys: seq<string>, value: Json)
    requires keys != [] && ObjectsAlong(current, keys)
    ensures SetPath(current, keys, value).Updated?
    decreases keys
  {
    if |keys| > 1 {
      var fields := current.fields;
      if Get(fields, keys[0]).None? {
        EmptyObjectsAlong(keys[1..]);
      }
      SetPathThroughObjects(Child(fields, keys[0]), keys[1..], value);
    }
  }

  lemma EmptyObjectsAlong(keys: seq<string>)
    ensures ObjectsAlong(JObj([]), keys)
  {
  }

  /** Stepping into a primitive throws: `in` cannot search a string, a number, a boolean or null. */
  lemma SetPathThroughPrimitive(current: Json, keys: seq<string>, value: Json)
    requires keys != [] && (current.JStr? || current.JNum? || current.JBool? || current.JNull?)
    ensures SetPath(current, keys, value) == Threw
  {
  }

  /** Every strict prefix of the set path now leads to an object or an array: missing ones became `{}`. */
  lemma {:induction false} SetPathCreates(current: Json, keys: seq<string>, value: Json, i: nat)
    requires keys != [] && i < |keys| && WellKeyed(current)
    requires SetPath(current, keys, value).Updated?
    ensures var r := GetPath(Some(SetPath(current, keys, value).config), keys[..i]);
            r.Some? && (r.value.JObj? || r.value.JArr?)
    ensures ObjectsAlong(current, keys) ==> GetPath(Some(SetPath(current, keys, value).config), keys[..i]).value.JObj?
    decreases keys
  {
    if i > 0 {
      GetPathStep(SetPath(current, keys, value).config, keys, i);
      var child := SetStep(current, keys, value);
      if ObjectsAlong(current, keys) {
        ObjectsAlongStep(current, keys);
      }
      SetPathCreates(child, keys[1..], value, i - 1);
    } else {
      assert keys[..i] == [];
    }
  }

  /** One step of a lookup along a prefix of a path. */
  lemma GetPathStep(current: Json, keys: seq<string>, i: nat)
    requires 0 < i <= |keys|
    ensures GetPath(Some(current), keys[..i]) == GetPath(Access(current, keys[0]), keys[1..][..i - 1])
  {
    assert keys[..i][0] == keys[0] && keys[..i][1..] == keys[1..][..i - 1];
  }

  /** Two paths part ways when some position holds different keys. */
  predicate Diverge(p: seq<string>, q: seq<string>)
  {
    exists i :: 0 <= i < |p| && i < |q| && p[i] != q[i]
  }

  /**
   * Only the set path changes: a path that parts from it keeps its value
   * (undefined stays undefined even under a newly created object).
   */
  lemma {:induction false} SetPathFrame(current: Json, keys: seq<string>, value: Json, q: seq<string>)
    requires keys != [] && WellKeyed(current)
    requires SetPath(current, keys, value).Updated?
    requires Diverge(keys, q)
    ensures GetPath(Some(SetPath(current, keys, value).config), q) == GetPath(Some(current), q)
    decreases keys
  {
    var i :| 0 <= i < |keys| && i < |q| && keys[i] != q[i];
    if q[0] != keys[0] {
      FrameFirst(current, keys, value, q[0]);
    } else {
      assert i > 0 && keys[1..][i - 1] != q[1..][i - 1];
      assert Diverge(keys[1..], q[1..]);
      var child := SetStep(current, keys, value);
      SetPathFrame(child, keys[1..], value, q[1..]);
      if Access(current, keys[0]) == None {
        NewObjectFrame(q[1..]);
        GetPathUndefined(q[1..]);
      }
    }
  }

  /** Nothing is found under a new, empty object. */
  lemma NewObjectFrame(q: seq<string>)
    requires q != []
    ensures GetPath(Some(JObj([])), q) == None
  {
    GetPathUndefined(q[1..]);
  }

  /** A first key other than the set path's reads the same member before and after. */
  lemma FrameFirst(current: Json, keys: seq<string>, value: Json, key: string)
    requires keys != [] && WellKeyed(current)
    requires SetPath(current, keys, value).Updated?
    requires key != keys[0]
    ensures Access(SetPath(current, keys, value).config, key) == Access(current, key)
  {
    match current
    case JObj(fields) =>
      if |keys| == 1 {
        SetGet(fields, keys[0], value, key);
      } else {
        SetGet(fields, keys[0], SetPath(Child(fields, keys[0]), keys[1..], value).config, key);
      }
    case JArr(items) =>
      var k := Index(keys[0]).value;
      if Index(key).Some? {
        IndexOfNatToString(k);
      }
  }

  // ---------------------------------------------------------------------------
  // parseValue and the `--set` argument
  // ---------------------------------------------------------------------------

  /**
   * `Number(value)` on the texts this model reads: after trimming, nothing
   * (0), or decimal digits with an optional sign.
   */
  function NumberOf(value: string): Option<int>
  {
    var t := Trim(value);
    if t == [] then Some(0)
    else if t[0] == '-' && |t| > 1 && AllDigits(t[1..]) then Some(-(DecimalValue(t[1..]) as int))
    else if t[0] == '+' && |t| > 1 && AllDigits(t[1..]) then Some(DecimalValue(t[1..]))
    else if AllDigits(t) then Some(DecimalValue(t))
    else None
  }

  /** `parseValue`: the booleans, then numbers, else the text itself. */
  function ParseValue(value: string): Json
  {
    if value == "true" then JBool(true)
    else if value == "false" then JBool(false)
    else if NumberOf(value).Some? then JNum(NumberOf(value).value)
    else JStr(value)
  }

  lemma TrimIdentity(s: string)
    requires s != [] && !IsJsWhitespace(s[0]) && !IsJsWhitespace(s[|s| - 1])
    ensures Trim(s) == s
  {
  }

  /** Digits, with or without a leading '-', are read as their value. */
  lemma NumberOfDigits(d: string)
    requires d != [] && AllDigits(d)
    ensures NumberOf(d) == Some(DecimalValue(d))
    ensures NumberOf("-" + d) == Some(-(DecimalValue(d) as int))
  {
    DigitsTrimmed(d);
    NumberOfNegative("-" + d, d);
  }

  lemma NumberOfNegative(m: string, d: string)
    requires d != [] && AllDigits(d) && m == "-" + d
    ensures NumberOf(m) == Some(-(DecimalValue(d) as int))
  {
    assert m[|m| - 1] == d[|d| - 1];
    DigitsTrimmed(m);
    assert m[1..] == d;
  }

  /** A text starting with a digit or '-' and ending with a digit is its own trimmed form. */
  lemma DigitsTrimmed(t: string)
    requires t != [] && ('0' <= t[0] <= '9' || t[0] == '-') && '0' <= t[|t| - 1] <= '9'
    ensures Trim(t) == t
  {
    assert !IsJsWhitespace(t[0]) && !IsJsWhitespace(t[|t| - 1]);
    TrimIdentity(t);
  }

  /** The decimal text of an integer parses back to it, and the empty text to 0. */
  lemma ParseValueInt(n: int)
    ensures ParseValue(IntToString(n)) == JNum(n)
    ensures ParseValue("") == JNum(0)
  {
    var d := NatToString(if n < 0 then -n else n);
    DecimalOfNatToString(if n < 0 then -n else n);
    NumberOfDigits(d);
    var t := IntToString(n);
    assert t[0] == '-' || '0' <= t[0] <= '9';
    assert t != "true" && t != "false";
  }

  /** Every character of a text is kept by trimming or is whitespace. */
  lemma {:induction false} TrimStartKeeps(s: string, k: nat)
    requires k < |s| && !IsJsWhitespace(s[k])
    ensures k >= |s| - |TrimStart(s)|
  {
    if IsJsWhitespace(s[0]) {
      TrimStartKeeps(s[1..], k - 1);
    }
  }

  lemma {:induction false} TrimEndKeeps(s: string, k: nat)
    requires k < |s| && !IsJsWhitespace(s[k])
    ensures k < |TrimEnd(s)|
    decreases |s|
  {
    if IsJsWhitespace(s[|s| - 1]) {
      TrimEndKeeps(s[..|s| - 1], k);
    }
  }

  /** A character that is not whitespace survives trimming. */
  lemma TrimKeeps(s: string, k: nat) returns (j: nat)
    requires k < |s| && !IsJsWhitespace(s[k])
    ensures j < |Trim(s)| && Trim(s)[j] == s[k]
  {
    var start := TrimStart(s);
    TrimStartKeeps(s, k);
    j := k - (|s| - |start|);
    assert start[j] == s[k];
    TrimEndKeeps(start, j);
  }

  /** A text holding a character that is neither a digit nor a sign is no numeral. */
  lemma NotNumeral(t: string, j: nat)
    requires j < |t| && !('0' <= t[j] <= '9') && t[j] != '-' && t[j] != '+'
    ensures !AllDigits(t)
    ensures |t| > 1 && (t[0] == '-' || t[0] == '+') ==> !AllDigits(t[1..])
  {
    if |t| > 1 && j > 0 {
      assert t[1..][j - 1] == t[j];
    }
  }

  /** A character that is neither a digit, a sign nor whitespace keeps the text a string. */
  lemma ParseValueText(value: string, k: nat)
    requires value != "true" && value != "false"
    requires k < |value| && !('0' <= value[k] <= '9') && value[k] != '-' && value[k] != '+' && !IsJsWhitespace(value[k])
    ensures ParseValue(value) == JStr(value)
  {
    var j := TrimKeeps(value, k);
    NotNumeral(Trim(value), j);
  }

  /** The booleans are recognised by their exact spelling only. */
  lemma ParseValueBool(value: string, b: bool)
    ensures ParseValue(value) == JBool(b) <==> value == (if b then "true" else "false")
  {
  }

  /** `const [key, ...valueParts] = set.split('='); const value = valueParts.join('=')`. */
  function SplitSetOption(option: string): (string, string)
  {
    var parts := Split(option, '=');
    (parts[0], Join(parts[1..], "="))
  }

  lemma {:induction false} CountPresent(s: string, c: char)
    requires c in s
    ensures Count(s, c) >= 1
  {
    if s[0] != c {
      CountPresent(s[1..], c);
    }
  }

  /** The key is the text before the first '=', the value everything after it, '=' included. */
  lemma SplitSetOptionParts(option: string)
    ensures '=' !in SplitSetOption(option).0
    ensures '=' in option ==> SplitSetOption(option).0 + "=" + SplitSetOption(option).1 == option
    ensures '=' !in option ==> SplitSetOption(option) == (option, "")
  {
    var parts := Split(option, '=');
    JoinSplit(option, '=');
    if '=' in option {
      CountPresent(option, '=');
      assert Join(parts, "=") == parts[0] + "=" + Join(parts[1..], "=");
    } else {
      SplitAbsent(option, '=');
    }
  }

  /** Only the first '=' splits: `a.b=x=y` sets `a.b` to `x=y`. */
  lemma SplitSetOptionExample()
    ensures SplitSetOption("a.b=x=y") == ("a.b", "x=y")
  {
    var s := "a.b=x=y";
    assert Split(s, '=') == Split("a.b", '=') + Split("x=y", '=') by {
      SplitAt(s, '=', 3);
      assert s[..3] == "a.b" && s[4..] == "x=y";
    }
    assert Split("a.b", '=') == ["a.b"] by {
      SplitAbsent("a.b", '=');
    }
    assert Join(Split("x=y", '='), "=") == "x=y" by {
      JoinSplit("x=y", '=');
    }
    assert Split(s, '=')[1..] == Split("x=y", '=');
  }

  // ---------------------------------------------------------------------------
  // The command
  // ---------------------------------------------------------------------------

  const NotFoundMessage: string := "Configuration file not found. Run \"codeblaster init\" first."

  /** `loadConfig`: any read or parse failure becomes the one "not found" error. */
  function LoadConfig(readAndParse: Result<Json>): (r: Result<Json>)
    ensures r.Err? <==> readAndParse.Err?
    ensures r.Err? ==> r.error == NotFoundMessage
    ensures r.Ok? ==> r == readAndParse
  {
    if readAndParse.Err? then Err(NotFoundMessage) else readAndParse
  }

  datatype ConfigOptions = ConfigOptions(setOption: Option<string>, getOption: Option<string>, list: bool)

  /** What the command ends with: shown text, a written file, or an error and exit status 1. */
  datatype Outcome =
    | Listed(config: Json)
    | Got(found: Option<Json>)
    | Wrote(config: Json, key: string, text: string)
    | NoOptions
    | Failed(message: string)
    | NotModelled

  predicate Truthy(s: Option<string>)
  {
    s.Some? && s.value != ""
  }

  /**
   * `configCommand`: `--list` before `--get` before `--set`. `writeError` is
   * what writing the file for `--set` reports: `None` when the write
   * succeeds, else the error's message, which the command prints before
   * exiting with status 1.
   */
  function RunConfig(options: ConfigOptions, readAndParse: Result<Json>, writeError: Option<string>): Outcome
  {
    if options.list then
      match LoadConfig(readAndParse)
      case Ok(config) => Listed(config)
      case Err(e) => Failed(e)
    else if Truthy(options.getOption) then
      match LoadConfig(readAndParse)
      case Ok(config) => Got(GetNestedValue(config, options.getOption.value))
      case Err(e) => Failed(e)
    else if Truthy(options.setOption) then
      var (key, value) := SplitSetOption(options.setOption.value);
      match LoadConfig(readAndParse)
      case Err(e) => Failed(e)
      case Ok(config) =>
        match SetNestedValue(config, key, ParseValue(value))
        case Updated(updated) =>
          if writeError.Some? then Failed(writeError.value) else Wrote(updated, key, value)
        case Threw => Failed("TypeError")
        case ThroughArray => NotModelled
    else NoOptions
  }

  /**
   * `--set` writes the file exactly when the file loads and the path passes
   * through objects, and what it writes has the parsed value at the key.
   */
  lemma RunConfigSet(option: string, config: Json)
    requires option != "" && WellKeyed(config)
    requires ObjectsAlong(config, Split(SplitSetOption(option).0, '.'))
    ensures var r := RunConfig(ConfigOptions(Some(option), None, false), Ok(config), None);
            r.Wrote? && r.key == SplitSetOption(option).0 && r.text == SplitSetOption(option).1 &&
            GetNestedValue(r.config, r.key) == Some(ParseValue(r.text))
  {
    var (key, value) := SplitSetOption(option);
    SetPathThroughObjects(config, Split(key, '.'), ParseValue(value));
    SetThenGet(config, Split(key, '.'), ParseValue(value));
    SetReachesWrite(option, config, None);
  }

  /** `--set` on a loaded file whose path can be set ends with the write's outcome. */
  lemma SetReachesWrite(option: string, config: Json, writeError: Option<string>)
    requires option != ""
    requires SetNestedValue(config, SplitSetOption(option).0, ParseValue(SplitSetOption(option).1)).Updated?
    ensures var (key, value) := SplitSetOption(option);
            RunConfig(ConfigOptions(Some(option), None, false), Ok(config), writeError) ==
              if writeError.Some? then Failed(writeError.value)
              else Wrote(SetNestedValue(config, key, ParseValue(value)).config, key, value)
  {
  }

  /**
   * When `--set` reaches the write and the write fails, the command ends with
   * the write's own error message, and nothing is reported as set.
   */
  lemma RunConfigSetWriteFails(option: string, config: Json, e: string)
    requires option != "" && WellKeyed(config)
    requires ObjectsAlong(config, Split(SplitSetOption(option).0, '.'))
    ensures RunConfig(ConfigOptions(Some(option), None, false), Ok(config), Some(e)) == Failed(e)
  {
    var (key, value) := SplitSetOption(option);
    SetPathThroughObjects(config, Split(key, '.'), ParseValue(value));
    SetReachesWrite(option, config, Some(e));
  }

  /** A missing or unreadable file fails every option with the one message and writes nothing. */
  lemma RunConfigUnreadable(options: ConfigOptions, e: string, writeError: Option<string>)
    ensures var r := RunConfig(options, Err(e), writeError);
            r.NoOptions? || r == Failed(NotFoundMessage)
    ensures RunConfig(options, Err(e), writeError) == NoOptions <==> !options.list && !Truthy(options.getOption) && !Truthy(options.setOption)
  {
  }
}
