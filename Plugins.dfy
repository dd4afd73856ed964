/**
 * The rule registry: plugins stored by name and rules stored by id, both in
 * insertion-ordered maps. Loading a plugin validates its shape first;
 * rules can be enabled, disabled and listed; a plugin can be unloaded
 * together with the rule ids it lists.
 *
 * The dynamic `import` of a plugin file is outside the model: the value the
 * module exports is passed in as a `RawPlugin`, and a directory listing is
 * passed in as the file names paired with what each file exports.
 */
module Plugins {
  import opened Wrappers
  import opened Types
  import opened Text
  import opened OrderedMaps

  /** A rule as a plugin module exports it, before validation; `None` stands for a field of the wrong kind. */
  datatype RawRule =
    | RuleNotAnObject
    | RuleObject(
        id: Option<string>,
        name: Option<string>,
        check: Option<RuleContext -> CheckOutcome>,
        description: string,
        severity: Severity,
        category: IssueCategory,
        languages: seq<Language>,
        enabled: bool)

  /** A plugin as a module exports it, before validation; `rules: None` stands for a non-array. */
  datatype RawPlugin =
    | PluginNotAnObject
    | PluginObject(name: Option<string>, version: Option<string>, rules: Option<seq<RawRule>>)

  /** `validateRule`: an object with a string id, a string name and a function `check`. */
  predicate ValidateRule(raw: RawRule)
  {
    raw.RuleObject? && raw.id.Some? && raw.name.Some? && raw.check.Some?
  }

  /** `validatePlugin`: an object with a string name and version and an array of valid rules. */
  predicate ValidatePlugin(raw: RawPlugin)
  {
    raw.PluginObject? && raw.name.Some? && raw.version.Some? && raw.rules.Some?
    && forall i :: 0 <= i < |raw.rules.value| ==> ValidateRule(raw.rules.value[i])
  }

  /** The typed view of a raw rule. */
  function AsRule(raw: RawRule): (r: Option<Rule>)
    ensures r.Some? <==> ValidateRule(raw)
    ensures r.Some? ==> Some(r.value.id) == raw.id && Some(r.value.name) == raw.name
                        && Some(r.value.check) == raw.check && r.value.enabled == raw.enabled
  {
    match raw
    case RuleObject(Some(id), Some(name), Some(check), description, severity, category, languages, enabled) =>
      Some(Rule(id, name, description, severity, category, languages, enabled, check))
    case _ => None
  }

  function AsRules(raws: seq<RawRule>): (r: Option<seq<Rule>>)
    ensures r.Some? <==> forall i :: 0 <= i < |raws| ==> ValidateRule(raws[i])
    ensures r.Some? ==> |r.value| == |raws| && forall i :: 0 <= i < |raws| ==> AsRule(raws[i]) == Some(r.value[i])
  {
    if raws == [] then Some([])
    else
      var head, tail := AsRule(raws[0]), AsRules(raws[1..]);
      assert forall i :: 0 <= i < |raws| - 1 ==> raws[1..][i] == raws[i + 1];
      if head.Some? && tail.Some? then Some([head.value] + tail.value) else None
  }

  /** The typed view of a raw plugin: present exactly when the plugin validates. */
  function AsPlugin(raw: RawPlugin): (r: Option<Plugin>)
    ensures r.Some? <==> ValidatePlugin(raw)
    ensures r.Some? ==> Some(r.value.name) == raw.name && Some(r.value.version) == raw.version
                        && |r.value.rules| == |raw.rules.value|
                        && forall i :: 0 <= i < |raw.rules.value| ==> AsRule(raw.rules.value[i]) == Some(r.value.rules[i])
  {
    match raw
    case PluginObject(Some(name), Some(version), Some(raws)) =>
      (match AsRules(raws)
       case Some(rules) => Some(Plugin(name, version, rules))
       case None => None)
    case _ => None
  }

  /** Both maps of the registry, as one value. */
  datatype Registry = Registry(plugins: Entries<Plugin>, rules: Entries<Rule>)

  predicate WellKeyed(reg: Registry)
  {
    Keyed(reg.plugins) && Keyed(reg.rules)
  }

  /** `rules.forEach(rule => this.rules.set(rule.id, rule))`. */
  function RegisterRules(m: Entries<Rule>, rs: seq<Rule>): Entries<Rule>
  {
    if rs == [] then m
    else Set(RegisterRules(m, rs[..|rs| - 1]), rs[|rs| - 1].id, rs[|rs| - 1])
  }

  lemma RegisterRulesSnoc(m: Entries<Rule>, rs: seq<Rule>, i: nat)
    requires i < |rs|
    ensures RegisterRules(m, rs[..i + 1]) == Set(RegisterRules(m, rs[..i]), rs[i].id, rs[i])
  {
    assert rs[..i + 1][..i] == rs[..i];
  }

  /** Position of the last rule with id `k`, or -1. */
  function LastWithId(rs: seq<Rule>, k: string): (i: int)
    ensures -1 <= i < |rs|
    ensures i >= 0 ==> rs[i].id == k
    ensures forall j :: i < j < |rs| ==> rs[j].id != k
  {
    if rs == [] then -1
    else if rs[|rs| - 1].id == k then |rs| - 1
    else LastWithId(rs[..|rs| - 1], k)
  }

  /** After registering `rs`, an id maps to the last rule carrying it, other ids are untouched. */
  lemma {:induction false} RegisterRulesGet(m: Entries<Rule>, rs: seq<Rule>, k: string)
    requires Keyed(m)
    ensures Keyed(RegisterRules(m, rs))
    ensures Get(RegisterRules(m, rs), k) ==
              if LastWithId(rs, k) >= 0 then Some(rs[LastWithId(rs, k)]) else Get(m, k)
  {
    if rs != [] {
      var init := rs[..|rs| - 1];
      RegisterRulesGet(m, init, k);
      SetGet(RegisterRules(m, init), rs[|rs| - 1].id, rs[|rs| - 1], k);
      if rs[|rs| - 1].id != k {
        assert LastWithId(rs, k) == LastWithId(init, k);
        if LastWithId(init, k) >= 0 {
          assert init[LastWithId(init, k)] == rs[LastWithId(init, k)];
        }
      }
    }
  }

  /** The registry after loading `raw`: unchanged when it fails validation. */
  function Load(reg: Registry, raw: RawPlugin): Registry
  {
    match AsPlugin(raw)
    case Some(p) => Registry(Set(reg.plugins, p.name, p), RegisterRules(reg.rules, p.rules))
    case None => reg
  }

  /** `rules.forEach(rule => this.rules.delete(rule.id))`. */
  function RemoveRules(m: Entries<Rule>, rs: seq<Rule>): Entries<Rule>
    decreases |rs|
  {
    if rs == [] then m else RemoveRules(Delete(m, rs[0].id), rs[1..])
  }

  /** Unloading removes every listed id, whoever registered it last, and nothing else. */
  lemma {:induction false} RemoveRulesGet(m: Entries<Rule>, rs: seq<Rule>, k: string)
    requires Keyed(m)
    ensures Keyed(RemoveRules(m, rs))
    ensures Get(RemoveRules(m, rs), k) == if exists i :: 0 <= i < |rs| && rs[i].id == k then None else Get(m, k)
    decreases |rs|
  {
    if rs != [] {
      DeleteGet(m, rs[0].id, k);
      RemoveRulesGet(Delete(m, rs[0].id), rs[1..], k);
      if exists i :: 0 <= i < |rs| && rs[i].id == k {
        var i :| 0 <= i < |rs| && rs[i].id == k;
        if i > 0 {
          assert rs[1..][i - 1].id == k;
        }
      } else {
        assert forall i :: 0 <= i < |rs| - 1 ==> rs[1..][i].id == rs[i + 1].id;
      }
    }
  }

  /** The registry after unloading the plugin named `name`: unchanged when there is none. */
  function Unload(reg: Registry, name: string): Registry
  {
    match Get(reg.plugins, name)
    case Some(p) => Registry(Delete(reg.plugins, name), RemoveRules(reg.rules, p.rules))
    case None => reg
  }

  /** The rule under `id` with its flag set to `flag`; unknown ids change nothing. */
  function SetEnabled(m: Entries<Rule>, id: string, flag: bool): (r: Entries<Rule>)
    ensures Keys(r) == Keys(m)
  {
    var i := IndexOf(m, id);
    if i < |m| then m[i := (id, m[i].1.(enabled := flag))] else m
  }

  /** Enabling or disabling changes that rule's flag only. */
  lemma SetEnabledGet(m: Entries<Rule>, id: string, flag: bool, k: string)
    requires Keyed(m)
    ensures Keyed(SetEnabled(m, id, flag))
    ensures Get(SetEnabled(m, id, flag), k) ==
              match Get(m, k)
              case Some(x) => if k == id then Some(x.(enabled := flag)) else Some(x)
              case None => None
  {
    var i := IndexOf(m, id);
    if i < |m| {
      GetAt(m, i);
      GetReplace(m, i, m[i].1.(enabled := flag), k);
      assert Keys(SetEnabled(m, id, flag)) == Keys(m);
    }
  }

  /** The rules with `enabled` set, in registry order. */
  function EnabledRules(rs: seq<Rule>): (r: seq<Rule>)
    ensures |r| <= |rs|
    ensures forall i :: 0 <= i < |r| ==> r[i].enabled
  {
    if rs == [] then []
    else if rs[0].enabled then [rs[0]] + EnabledRules(rs[1..])
    else EnabledRules(rs[1..])
  }

  /** Filtering keeps order: it distributes over concatenation. */
  lemma {:induction false} EnabledRulesAppend(a: seq<Rule>, b: seq<Rule>)
    ensures EnabledRules(a + b) == EnabledRules(a) + EnabledRules(b)
  {
    if a == [] {
      assert a + b == b;
    } else {
      assert (a + b)[0] == a[0] && (a + b)[1..] == a[1..] + b;
      EnabledRulesAppend(a[1..], b);
    }
  }

  /** A rule is listed as enabled exactly when it is registered with its flag set. */
  lemma {:induction false} EnabledRulesMembers(rs: seq<Rule>, x: Rule)
    ensures x in EnabledRules(rs) <==> x in rs && x.enabled
  {
    if rs != [] {
      EnabledRulesMembers(rs[1..], x);
      assert rs == [rs[0]] + rs[1..];
    }
  }

  /** The names `loadPluginsFromDirectory` tries to load. */
  predicate IsPluginFile(file: string)
  {
    EndsWith(file, ".js") || EndsWith(file, ".ts")
  }

  /** Loading a listing in order; a file that fails leaves the registry as it was and the loop goes on. */
  function LoadListing(reg: Registry, files: seq<(string, RawPlugin)>): Registry
  {
    if files == [] then reg
    else
      var before := LoadListing(reg, files[..|files| - 1]);
      var (name, raw) := files[|files| - 1];
      if IsPluginFile(name) then Load(before, raw) else before
  }

  /** The plugins a listing contributes: the valid exports of the files with a plugin extension. */
  function LoadablePlugins(files: seq<(string, RawPlugin)>): seq<Plugin>
  {
    if files == [] then []
    else
      var before := LoadablePlugins(files[..|files| - 1]);
      var (name, raw) := files[|files| - 1];
      if IsPluginFile(name) && AsPlugin(raw).Some? then before + [AsPlugin(raw).value] else before
  }

  /** Registering plugins one after another. */
  function RegisterPlugins(reg: Registry, ps: seq<Plugin>): Registry
  {
    if ps == [] then reg
    else
      var before := RegisterPlugins(reg, ps[..|ps| - 1]);
      var p := ps[|ps| - 1];
      Registry(Set(before.plugins, p.name, p), RegisterRules(before.rules, p.rules))
  }

  /** Loading a directory is registering exactly its loadable plugins, in listing order. */
  lemma {:induction false} LoadListingIsLoadable(reg: Registry, files: seq<(string, RawPlugin)>)
    ensures LoadListing(reg, files) == RegisterPlugins(reg, LoadablePlugins(files))
  {
    if files != [] {
      var init := files[..|files| - 1];
      LoadListingIsLoadable(reg, init);
      var ps := LoadablePlugins(init);
      var (name, raw) := files[|files| - 1];
      if IsPluginFile(name) && AsPlugin(raw).Some? {
        assert (ps + [AsPlugin(raw).value])[..|ps|] == ps;
      }
    }
  }

  class PluginManager {
    var plugins: Entries<Plugin>
    var rules: Entries<Rule>

    function State(): Registry
      reads this
    {
      Registry(plugins, rules)
    }

    constructor ()
      ensures plugins == [] && rules == []
    {
      plugins := [];
      rules := [];
    }

    /** `loadPlugin` after the import: validate, then register the plugin and its rules. */
    method LoadPlugin(pluginPath: string, raw: RawPlugin) returns (r: Result<()>)
      requires WellKeyed(State())
      modifies this
      ensures WellKeyed(State())
      ensures r.Ok? <==> ValidatePlugin(raw)
      ensures r.Err? ==> r.error == "Invalid plugin structure: " + pluginPath
      ensures State() == Load(old(State()), raw)
    {
      var p := AsPlugin(raw);
      if p.None? {
        return Err("Invalid plugin structure: " + pluginPath);
      }
      var plugin := p.value;
      SetGet(plugins, plugin.name, plugin, plugin.name);
      plugins := Set(plugins, plugin.name, plugin);
      ghost var before := rules;
      var i := 0;
      while i < |plugin.rules|
        invariant i <= |plugin.rules|
        invariant plugins == Set(old(plugins), plugin.name, plugin) && Keyed(plugins)
        invariant rules == RegisterRules(before, plugin.rules[..i])
        invariant Keyed(rules)
      {
        var rule := plugin.rules[i];
        SetGet(rules, rule.id, rule, rule.id);
        RegisterRulesSnoc(before, plugin.rules, i);
        rules := Set(rules, rule.id, rule);
        i := i + 1;
      }
      assert plugin.rules[..i] == plugin.rules;
      return Ok(());
    }

    /**
     * `loadPluginsFromDirectory` over a listing (`None` when the directory
     * does not exist): files named `*.js` or `*.ts` are loaded in order, and
     * a failure is reported and skipped.
     */
    method LoadPluginsFromDirectory(directory: string, listing: Option<seq<(string, RawPlugin)>>)
      requires WellKeyed(State())
      modifies this
      ensures WellKeyed(State())
      ensures State() == if listing.None? then old(State()) else LoadListing(old(State()), listing.value)
    {
      if listing.None? {
        return;
      }
      var files := listing.value;
      var i := 0;
      while i < |files|
        invariant i <= |files|
        invariant WellKeyed(State())
        invariant State() == LoadListing(old(State()), files[..i])
      {
        var (file, raw) := files[i];
        if IsPluginFile(file) {
          var _ := LoadPlugin(directory + "/" + file, raw);
        }
        assert files[..i + 1][..i] == files[..i];
        i := i + 1;
      }
      assert files[..i] == files;
    }

    /** `getPlugin`. */
    function GetPlugin(name: string): Option<Plugin>
      reads this
    {
      Get(plugins, name)
    }

    /** `getRule`. */
    function GetRule(id: string): Option<Rule>
      reads this
    {
      Get(rules, id)
    }

    /** `getAllRules`: a fresh list of the registered rules, in registration order. */
    function GetAllRules(): (r: seq<Rule>)
      reads this
      ensures |r| == |rules|
      ensures forall i :: 0 <= i < |rules| ==> r[i] == rules[i].1
    {
      Values(rules)
    }

    /** `getEnabledRules`. */
    function GetEnabledRules(): seq<Rule>
      reads this
    {
      EnabledRules(GetAllRules())
    }

    /** `enableRule`: set the flag of the rule under `id`, if there is one. */
    method EnableRule(id: string)
      modifies this
      ensures rules == SetEnabled(old(rules), id, true)
      ensures plugins == old(plugins)
    {
      var i := IndexOf(rules, id);
      if i < |rules| {
        rules := rules[i := (id, rules[i].1.(enabled := true))];
      }
    }

    /** `disableRule`: clear the flag of the rule under `id`, if there is one. */
    method DisableRule(id: string)
      modifies this
      ensures rules == SetEnabled(old(rules), id, false)
      ensures plugins == old(plugins)
    {
      var i := IndexOf(rules, id);
      if i < |rules| {
        rules := rules[i := (id, rules[i].1.(enabled := false))];
      }
    }

    /** `unloadPlugin`: drop the rule ids the plugin lists, then the plugin. */
    method UnloadPlugin(name: string)
      requires WellKeyed(State())
      modifies this
      ensures WellKeyed(State())
      ensures State() == Unload(old(State()), name)
    {
      var p := Get(plugins, name);
      if p.None? {
        return;
      }
      var plugin := p.value;
      var i := 0;
      while i < |plugin.rules|
        invariant i <= |plugin.rules|
        invariant plugins == old(plugins)
        invariant RemoveRules(rules, plugin.rules[i..]) == RemoveRules(old(rules), plugin.rules)
        invariant Keyed(rules)
      {
        DeleteGet(rules, plugin.rules[i].id, plugin.rules[i].id);
        assert plugin.rules[i..][0] == plugin.rules[i];
        assert plugin.rules[i..][1..] == plugin.rules[i + 1..];
        rules := Delete(rules, plugin.rules[i].id);
        i := i + 1;
      }
      assert plugin.rules[i..] == [];
      DeleteGet(plugins, name, name);
      plugins := Delete(plugins, name);
    }

    /** `clearAll`. */
    method ClearAll()
      modifies this
      ensures plugins == [] && rules == []
    {
      plugins := [];
      rules := [];
    }
  }
}
