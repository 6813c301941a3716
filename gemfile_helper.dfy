/** The Gemfile DSL extension `Waph::GemfileHelper` of lib/waph/gemfile_helper.rb:
    one database gem per group of the database configuration.

    The Bundler DSL object is modelled by the list of `gem` declarations it
    has received, each tagged with the `group` block it was made in. */
module GemfileHelper {
  import opened Wrappers

  /** A value read from YAML, as far as gem selection looks at it. */
  datatype Value = VNil | VFalse | VTrue | VStr(s: string) | VMap(entries: map<string, Value>) | VOther(text: string)

  /** Ruby truthiness: everything except `nil` and `false`. */
  predicate Truthy(v: Value) {
    !v.VNil? && !v.VFalse?
  }

  /** The loaded `database.yml`: its top-level keys in file order, and their values. */
  datatype DatabaseConfig = DatabaseConfig(groups: seq<string>, values: map<string, Value>) {
    ghost predicate Wellformed() {
      && (forall i, j :: 0 <= i < j < |groups| ==> groups[i] != groups[j])
      && (forall g :: g in values <==> g in groups)
    }
  }

  /** `gem(name)` called inside `group(group)`. */
  datatype Decl = Decl(group: string, gem: Value)

  /** A group whose configuration is truthy but not a Hash: `has_key?` raises `NoMethodError`. */
  datatype GemfileError = NotAHash(group: string)

  /** The gem a group's configuration asks for: the `"gem"` key wins, even
      when it is `nil` or `false`; otherwise the adapter picks it. */
  function GemNameFor(config: map<string, Value>): (r: Value)
    // An explicit `gem` entry overrides the adapter, falsy or not.
    ensures "gem" in config ==> r == config["gem"]
    // Without one, a missing adapter selects nothing.
    ensures "gem" !in config && "adapter" !in config ==> r == VNil
    // Only the two renamed adapters change their name; every other adapter is its own gem.
    ensures "gem" !in config && "adapter" in config ==>
      (r == config["adapter"] <==> config["adapter"] !in {VStr("postgresql"), VStr("sqlite3")})
    // The two renamed adapters.
    ensures "gem" !in config && "adapter" in config && config["adapter"] == VStr("postgresql") ==> r == VStr("pg")
    ensures "gem" !in config && "adapter" in config && config["adapter"] == VStr("sqlite3") ==> r == VStr("sqlite3-ruby")
  {
    if "gem" in config then config["gem"]
    else if "adapter" !in config then VNil
    else match config["adapter"]
      case VStr("postgresql") => VStr("pg")
      case VStr("sqlite3") => VStr("sqlite3-ruby")
      case adapter => adapter
  }

  /** What `declare_database_gems_for_group` adds for one group: nothing when
      there is no configuration or the group is absent or falsy, one
      declaration when a truthy gem name is chosen, an error when the group's
      value is truthy but not a Hash. */
  function GroupDecls(config: Option<DatabaseConfig>, group: string): (r: Result<seq<Decl>, GemfileError>)
    ensures r.Ok? ==> |r.value| <= 1
    ensures r.Ok? ==> forall d :: d in r.value ==> d.group == group && Truthy(d.gem)
    ensures r.Err? <==>
      config.Some? && group in config.value.values && Truthy(config.value.values[group]) && !config.value.values[group].VMap?
    // No configuration, an absent group or a falsy one: nothing is declared.
    ensures config.None? || group !in config.value.values || !Truthy(config.value.values[group]) ==> r == Ok([])
    // A Hash group declares the gem `GemNameFor` picks, when that is truthy.
    ensures config.Some? && group in config.value.values && config.value.values[group].VMap? ==>
      var name := GemNameFor(config.value.values[group].entries);
      r == if Truthy(name) then Ok([Decl(group, name)]) else Ok([])
  {
    if config.None? || group !in config.value.values then Ok([])
    else match config.value.values[group]
      case VNil => Ok([])
      case VFalse => Ok([])
      case VMap(entries) =>
        var name := GemNameFor(entries);
        if Truthy(name) then Ok([Decl(group, name)]) else Ok([])
      case _ => Err(NotAHash(group))
  }

  /** What `declare_database_gems` adds when it visits `groups` in order: the
      declarations of each group in turn, up to the first group that raises. */
  function AllDecls(config: Option<DatabaseConfig>, groups: seq<string>): (r: Result<seq<Decl>, GemfileError>)
    decreases |groups|
  {
    if groups == [] then Ok([])
    else match AllDecls(config, groups[..|groups| - 1])
      case Err(e) => Err(e)
      case Ok(before) =>
        match GroupDecls(config, groups[|groups| - 1])
        case Err(e) => Err(e)
        case Ok(ds) => Ok(before + ds)
  }

  /** Everything `declare_database_gems` declares, groups visited in file order. */
  function DatabaseDecls(config: Option<DatabaseConfig>): Result<seq<Decl>, GemfileError> {
    if config.None? then Ok([]) else AllDecls(config, config.value.groups)
  }

  /** The declarations made for a list of groups are exactly those each
      group asks for: a declaration belongs to a visited group and is that
      group's own, and every visited group's declaration is made. */
  lemma {:induction false} AllDeclsExactly(config: Option<DatabaseConfig>, groups: seq<string>, d: Decl)
    requires AllDecls(config, groups).Ok?
    ensures d in AllDecls(config, groups).value <==>
      d.group in groups && GroupDecls(config, d.group) == Ok([d])
    decreases |groups|
  {
    if groups != [] {
      var init, last := groups[..|groups| - 1], groups[|groups| - 1];
      assert groups == init + [last];
      AllDeclsExactly(config, init, d);
      var ds := GroupDecls(config, last).value;
      if d in ds {
        assert ds == [d];
      }
      if d.group == last && GroupDecls(config, d.group) == Ok([d]) {
        assert d in ds;
      }
      if d.group in init && GroupDecls(config, d.group) == Ok([d]) {
        assert d in AllDecls(config, init).value;
      }
    }
  }

  /** A group that raises ends the walk: its error is the walk's error. */
  lemma {:induction false} AllDeclsStopsAtError(config: Option<DatabaseConfig>, groups: seq<string>, k: nat)
    requires k <= |groups| && AllDecls(config, groups[..k]).Err?
    ensures AllDecls(config, groups) == AllDecls(config, groups[..k])
    decreases |groups| - k
  {
    if k < |groups| {
      assert groups[..k + 1][..k] == groups[..k];
      AllDeclsStopsAtError(config, groups, k + 1);
    } else {
      assert groups[..k] == groups;
    }
  }

  /** Each group gets at most one gem: never two declarations for one group
      among distinct visited groups. */
  lemma {:induction false} AtMostOneGemPerGroup(config: Option<DatabaseConfig>, groups: seq<string>, i: int, j: int)
    requires AllDecls(config, groups).Ok?
    requires 0 <= i < j < |AllDecls(config, groups).value|
    requires forall a, b :: 0 <= a < b < |groups| ==> groups[a] != groups[b]
    ensures AllDecls(config, groups).value[i].group != AllDecls(config, groups).value[j].group
    decreases |groups|
  {
    var init, last := groups[..|groups| - 1], groups[|groups| - 1];
    var before := AllDecls(config, init).value;
    var ds := GroupDecls(config, last).value;
    var all := AllDecls(config, groups).value;
    assert all == before + ds;
    if j < |before| {
      assert all[i] == before[i] && all[j] == before[j];
      AtMostOneGemPerGroup(config, init, i, j);
    } else {
      assert all[j] in ds;
      assert all[i] == before[i];
      AllDeclsExactly(config, init, before[i]);
      assert before[i].group in init;
      assert last !in init by {
        forall k | 0 <= k < |init| ensures init[k] != last {
          assert init[k] == groups[k];
        }
      }
    }
  }

  /** A group whose `gem` entry is `nil` or `false` declares nothing, even
      when it names an adapter. */
  lemma FalsyGemSuppresses(config: DatabaseConfig, group: string)
    requires group in config.values && config.values[group].VMap?
    requires "gem" in config.values[group].entries && !Truthy(config.values[group].entries["gem"])
    ensures GroupDecls(Some(config), group) == Ok([])
  {
  }

  /** The walk gets past the first `k` groups and the next one raises. */
  predicate RaisesAt(config: Option<DatabaseConfig>, groups: seq<string>, k: nat)
    requires k < |groups|
  {
    AllDecls(config, groups[..k]).Ok? && GroupDecls(config, groups[k]).Err?
  }

  /** In a parsed `database.yml` the top-level keys are distinct, so no
      group is given two gems. */
  lemma DatabaseGemsOnePerGroup(config: DatabaseConfig, i: int, j: int)
    requires config.Wellformed()
    requires DatabaseDecls(Some(config)).Ok?
    requires 0 <= i < j < |DatabaseDecls(Some(config)).value|
    ensures DatabaseDecls(Some(config)).value[i].group != DatabaseDecls(Some(config)).value[j].group
  {
    AtMostOneGemPerGroup(Some(config), config.groups, i, j);
  }

  /** The Bundler DSL object extended with `GemfileHelper`. */
  class GemfileDsl {
    /** The `gem` calls received so far. */
    var decls: seq<Decl>
    /** `@database_config`, memoised with `||=`. */
    var databaseConfig: Option<DatabaseConfig>
    /** What `Waph.load_yaml_config(:database, false)` answers: the parsed
        file, or `nil` when no database configuration file exists. */
    const loaded: Option<DatabaseConfig>

    ghost predicate Valid()
      reads this
    {
      && (loaded.Some? ==> loaded.value.Wellformed())
      && (databaseConfig.None? || databaseConfig == loaded)
    }

    /** The DSL object once extended: no `gem` call yet, `@database_config` still `nil`. */
    constructor (loaded: Option<DatabaseConfig>)
      requires loaded.Some? ==> loaded.value.Wellformed()
      ensures Valid() && decls == [] && databaseConfig == None && this.loaded == loaded
    {
      decls := [];
      databaseConfig := None;
      this.loaded := loaded;
    }

    /** `database_config`: loads once; a `nil` answer is asked for again next time. */
    method DatabaseConfigOf() returns (r: Option<DatabaseConfig>)
      requires Valid()
      modifies this`databaseConfig
      ensures Valid() && r == loaded && databaseConfig == loaded
    {
      if databaseConfig.None? {
        databaseConfig := loaded;
      }
      r := databaseConfig;
    }

    /** `declare_database_gems_for_group`: appends the group's declaration, if any. */
    method DeclareDatabaseGemsForGroup(group: string) returns (err: Option<GemfileError>)
      requires Valid()
      modifies this`decls, this`databaseConfig
      ensures Valid() && databaseConfig == loaded
      ensures GroupDecls(loaded, group).Ok? ==> err == None && decls == old(decls) + GroupDecls(loaded, group).value
      ensures GroupDecls(loaded, group).Err? ==> err == Some(GroupDecls(loaded, group).error) && decls == old(decls)
    {
      var config := DatabaseConfigOf();
      if config.None? || group !in config.value.values {
        return None;
      }
      var value := config.value.values[group];
      if !Truthy(value) {
        return None;
      }
      if !value.VMap? {
        return Some(NotAHash(group));
      }
      var name := GemNameFor(value.entries);
      if Truthy(name) {
        decls := decls + [Decl(group, name)];
      }
      err := None;
    }

    /** `declare_database_gems`: visits every top-level group once, in file
        order; a group that raises ends the walk. */
    method DeclareDatabaseGems() returns (err: Option<GemfileError>)
      requires Valid()
      modifies this`decls, this`databaseConfig
      ensures Valid()
      ensures DatabaseDecls(loaded).Ok? ==> err == None && decls == old(decls) + DatabaseDecls(loaded).value
      ensures DatabaseDecls(loaded).Err? ==> err == Some(DatabaseDecls(loaded).error)
      // On a raise, the gems of the groups before the raising one stay declared.
      ensures DatabaseDecls(loaded).Err? ==>
        && loaded.Some?
        && exists k :: (0 <= k < |loaded.value.groups| && RaisesAt(loaded, loaded.value.groups, k)
                        && decls == old(decls) + AllDecls(loaded, loaded.value.groups[..k]).value)
    {
      var config := DatabaseConfigOf();
      if config.None? {
        return None;
      }
      var groups := config.value.groups;
      var i := 0;
      while i < |groups|
        invariant 0 <= i <= |groups|
        invariant Valid() && databaseConfig == loaded
        invariant AllDecls(loaded, groups[..i]).Ok?
        invariant decls == old(decls) + AllDecls(loaded, groups[..i]).value
      {
        assert groups[..i + 1][..i] == groups[..i];
        var e := DeclareDatabaseGemsForGroup(groups[i]);
        if e.Some? {
          assert groups[..i + 1][i] == groups[i];
          assert AllDecls(loaded, groups[..i + 1]) == Err(GroupDecls(loaded, groups[i]).error);
          AllDeclsStopsAtError(loaded, groups, i + 1);
          assert DatabaseDecls(loaded) == AllDecls(loaded, groups[..i + 1]);
          assert RaisesAt(loaded, groups, i);
          return e;
        }
        i := i + 1;
      }
      assert groups[..i] == groups;
      err := None;
    }
  }
}
