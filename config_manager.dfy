/** Configuration: a YAML file, then environment variables, then defaults for
    absent sections, followed by range validation. The file's parsed contents
    and the process environment are inputs; so is the integer parser `int()`. */
module Config {
  import opened Wrappers
  import opened PyValues

  type Env = map<string, string>

  /** What `_load_config` and `update_config` raise. */
  datatype ConfigError =
    | InvalidInteger(text: string)    // `int(os.getenv(...))` rejected the text
    | InvalidPort(port: Value)
    | InvalidInterval(interval: Value)
    | InvalidRetention(retention: Value)

  // =====================================================================
  // Deep update

  /** The dictionary `_deep_update(base, update)` leaves in `base`. */
  function DeepMerge(base: Dict, update: Dict): (r: Dict)
    ensures r.Keys == base.Keys + update.Keys
    ensures forall k :: k in base && k !in update ==> r[k] == base[k]
    ensures forall k :: k in update && !(k in base && base[k].VDict? && update[k].VDict?) ==> r[k] == update[k]
    decreases VDict(update)
  {
    map k | k in base.Keys + update.Keys ::
      if k !in update then base[k]
      else if k in base && base[k].VDict? && update[k].VDict? then
        var value := update[k];
        assert value in update.Values;
        VDict(DeepMerge(base[k].entries, value.entries))
      else update[k]
  }

  /** Where both the old and the new value are dictionaries, they are merged. */
  lemma DeepMergeNested(base: Dict, update: Dict, k: string)
    requires k in base && k in update && base[k].VDict? && update[k].VDict?
    ensures DeepMerge(base, update)[k] == VDict(DeepMerge(base[k].entries, update[k].entries))
  {
  }

  /** `_deep_update(base, update)`: each key of the update either merges into a
      dictionary already there or overwrites; the others are left alone. */
  method DeepUpdate(base: Dict, update: Dict) returns (result: Dict)
    ensures result == DeepMerge(base, update)
    decreases VDict(update)
  {
    result := base;
    var remaining := update.Keys;
    while remaining != {}
      invariant remaining <= update.Keys
      invariant result.Keys == base.Keys + (update.Keys - remaining)
      invariant forall k :: k in result ==> result[k] == if k in remaining then base[k] else DeepMerge(base, update)[k]
      decreases remaining
    {
      var key :| key in remaining;
      var value := update[key];
      if key in result && result[key].VDict? && value.VDict? {
        assert value in update.Values;
        var merged := DeepUpdate(result[key].entries, value.entries);
        DeepMergeNested(base, update, key);
        result := result[key := VDict(merged)];
      } else {
        result := result[key := value];
      }
      remaining := remaining - {key};
    }
  }

  /** Merging a dictionary into itself changes nothing. */
  lemma {:induction false} DeepMergeSelf(d: Dict)
    ensures DeepMerge(d, d) == d
    decreases VDict(d)
  {
    forall k | k in d && d[k].VDict?
      ensures DeepMerge(d, d)[k] == d[k]
    {
      var value := d[k];
      assert value in d.Values;
      DeepMergeSelf(value.entries);
    }
  }

  /** Applying the same update twice is the same as applying it once. */
  lemma {:induction false} DeepMergeIdempotent(base: Dict, update: Dict)
    ensures DeepMerge(DeepMerge(base, update), update) == DeepMerge(base, update)
    decreases VDict(update)
  {
    var once := DeepMerge(base, update);
    forall k | k in update && update[k].VDict?
      ensures DeepMerge(once, update)[k] == once[k]
    {
      var value := update[k];
      assert value in update.Values;
      if k in base && base[k].VDict? {
        DeepMergeIdempotent(base[k].entries, value.entries);
      } else {
        DeepMergeSelf(value.entries);
      }
    }
  }

  /** Without dictionary values on both sides of a key, the deep update is a
      plain `dict.update`. */
  lemma FlatDeepMerge(base: Dict, update: Dict)
    requires forall k :: k in update && k in base ==> !(base[k].VDict? && update[k].VDict?)
    ensures DeepMerge(base, update) == base + update
  {
  }

  // =====================================================================
  // Environment

  /** A variable whose value `os.getenv` returns and Python finds truthy. */
  predicate IsSet(env: Env, variable: string) {
    variable in env && env[variable] != ""
  }

  /** How a variable's text becomes the setting's value. */
  datatype Kind = Text | Integer | Flag

  /** An environment variable and the key it fills in its section. */
  datatype Setting = Setting(variable: string, key: string, kind: Kind)

  const VmwareSettings: seq<Setting> := [
    Setting("VMWARE_VCENTER_HOST", "vcenter_host", Text),
    Setting("VMWARE_USERNAME", "username", Text),
    Setting("VMWARE_PASSWORD", "password", Text),
    Setting("VMWARE_PORT", "port", Integer),
    Setting("VMWARE_IGNORE_SSL", "ignore_ssl_errors", Flag)]
  const DatabaseSettings: seq<Setting> := [
    Setting("DATABASE_URL", "url", Text),
    Setting("DATABASE_TYPE", "type", Text)]
  const LoggingSettings: seq<Setting> := [Setting("LOG_LEVEL", "level", Text)]
  const CollectionSettings: seq<Setting> := [
    Setting("COLLECTION_INTERVAL", "interval_minutes", Integer),
    Setting("COLLECTION_RETENTION_DAYS", "retention_days", Integer)]

  /** A set variable whose text `int()` rejects. */
  predicate Unparsable(env: Env, parseInt: string -> Option<int>, variable: string) {
    IsSet(env, variable) && parseInt(env[variable]).None?
  }

  /** An integer setting whose variable does not parse. */
  predicate BadInteger(env: Env, parseInt: string -> Option<int>, s: Setting) {
    s.kind == Integer && Unparsable(env, parseInt, s.variable)
  }

  /** The value a set variable gives its key: the text, the parsed integer, or
      whether the lowercased text is exactly "true". */
  function SettingValue(env: Env, parseInt: string -> Option<int>, s: Setting): (r: Result<Value, ConfigError>)
    requires IsSet(env, s.variable)
    ensures r.Err? <==> BadInteger(env, parseInt, s)
  {
    var text := env[s.variable];
    match s.kind
    case Text => Ok(VStr(text))
    case Flag => Ok(VBool(Lower(text) == "true"))
    case Integer =>
      match parseInt(text)
      case Some(i) => Ok(VInt(i))
      case None => Err(InvalidInteger(text))
  }

  /** No two settings fill the same key. */
  predicate DistinctKeys(settings: seq<Setting>) {
    forall i, j :: 0 <= i < j < |settings| ==> settings[i].key != settings[j].key
  }

  /** One section read from its variables in order, as the assignments of
      `_load_from_environment` build it. */
  function ReadSection(env: Env, parseInt: string -> Option<int>, settings: seq<Setting>): Result<Dict, ConfigError> {
    if settings == [] then Ok(map[])
    else
      var s := settings[|settings| - 1];
      match ReadSection(env, parseInt, settings[..|settings| - 1])
      case Err(e) => Err(e)
      case Ok(section) =>
        if !IsSet(env, s.variable) then Ok(section)
        else
          match SettingValue(env, parseInt, s)
          case Err(e) => Err(e)
          case Ok(v) => Ok(section[s.key := v])
  }

  /** The first variable that does not parse as an integer raises, and only
      such a variable does. */
  lemma {:induction false} ReadSectionErrors(env: Env, parseInt: string -> Option<int>, settings: seq<Setting>)
    ensures var r := ReadSection(env, parseInt, settings);
      && (r.Err? <==> exists j :: 0 <= j < |settings| && BadInteger(env, parseInt, settings[j]))
      && (r.Err? ==> exists j :: 0 <= j < |settings| && BadInteger(env, parseInt, settings[j])
                       && r.error == InvalidInteger(env[settings[j].variable])
                       && forall i :: 0 <= i < j ==> !BadInteger(env, parseInt, settings[i]))
  {
    if settings != [] {
      var init := settings[..|settings| - 1];
      ReadSectionErrors(env, parseInt, init);
      assert forall j :: 0 <= j < |init| ==> init[j] == settings[j];
    }
  }

  /** A section's keys are exactly those of its set variables. */
  lemma {:induction false} ReadSectionKeys(env: Env, parseInt: string -> Option<int>, settings: seq<Setting>)
    ensures var r := ReadSection(env, parseInt, settings);
      && (r.Ok? ==> forall j :: 0 <= j < |settings| && IsSet(env, settings[j].variable) ==> settings[j].key in r.value)
      && (r.Ok? ==> forall k :: k in r.value ==> exists j :: 0 <= j < |settings| && settings[j].key == k && IsSet(env, settings[j].variable))
  {
    if settings != [] {
      var init := settings[..|settings| - 1];
      var last := settings[|settings| - 1];
      ReadSectionKeys(env, parseInt, init);
      assert forall j :: 0 <= j < |init| ==> init[j] == settings[j];
      var r := ReadSection(env, parseInt, settings);
      if r.Ok? {
        var before := ReadSection(env, parseInt, init);
        assert before.Ok?;
        assert forall k :: k in before.value ==>
          exists j :: 0 <= j < |init| && init[j].key == k && IsSet(env, init[j].variable);
        forall k | k in r.value
          ensures exists j :: 0 <= j < |settings| && settings[j].key == k && IsSet(env, settings[j].variable)
        {
          if IsSet(env, last.variable) && k == last.key {
            assert settings[|settings| - 1].key == k;
          } else {
            assert k in before.value;
            var j :| 0 <= j < |init| && init[j].key == k && IsSet(env, init[j].variable);
            assert settings[j] == init[j];
          }
        }
      }
    }
  }

  /** With distinct keys, each set variable's key holds that variable's value. */
  lemma {:induction false} ReadSectionValues(env: Env, parseInt: string -> Option<int>, settings: seq<Setting>)
    requires DistinctKeys(settings)
    ensures var r := ReadSection(env, parseInt, settings);
      r.Ok? ==>
        forall j :: 0 <= j < |settings| && IsSet(env, settings[j].variable) ==>
          settings[j].key in r.value && SettingValue(env, parseInt, settings[j]).Ok? &&
          r.value[settings[j].key] == SettingValue(env, parseInt, settings[j]).value
  {
    ReadSectionErrors(env, parseInt, settings);
    ReadSectionKeys(env, parseInt, settings);
    if settings != [] {
      var init := settings[..|settings| - 1];
      assert forall j :: 0 <= j < |init| ==> init[j] == settings[j];
      assert DistinctKeys(init);
      ReadSectionValues(env, parseInt, init);
    }
  }

  /** The first variable that does not parse as an integer raises; otherwise
      a key is present exactly when its variable is set, and holds that
      variable's value. */
  lemma ReadSectionSpec(env: Env, parseInt: string -> Option<int>, settings: seq<Setting>)
    ensures var r := ReadSection(env, parseInt, settings);
      && (r.Err? <==> exists j :: 0 <= j < |settings| && BadInteger(env, parseInt, settings[j]))
      && (r.Err? ==> exists j :: 0 <= j < |settings| && BadInteger(env, parseInt, settings[j])
                       && r.error == InvalidInteger(env[settings[j].variable])
                       && forall i :: 0 <= i < j ==> !BadInteger(env, parseInt, settings[i]))
      && (r.Ok? ==> forall j :: 0 <= j < |settings| && IsSet(env, settings[j].variable) ==> settings[j].key in r.value)
      && (r.Ok? ==> forall k :: k in r.value ==> exists j :: 0 <= j < |settings| && settings[j].key == k && IsSet(env, settings[j].variable))
      && (r.Ok? && DistinctKeys(settings) ==>
            forall j :: 0 <= j < |settings| && IsSet(env, settings[j].variable) ==>
              settings[j].key in r.value && r.value[settings[j].key] == SettingValue(env, parseInt, settings[j]).value)
  {
    ReadSectionErrors(env, parseInt, settings);
    ReadSectionKeys(env, parseInt, settings);
    if DistinctKeys(settings) {
      ReadSectionValues(env, parseInt, settings);
    }
  }

  /** A section is read as empty exactly when none of its variables is set. */
  lemma ReadSectionEmpty(env: Env, parseInt: string -> Option<int>, settings: seq<Setting>)
    requires ReadSection(env, parseInt, settings).Ok?
    ensures ReadSection(env, parseInt, settings).value == map[] <==>
              forall j :: 0 <= j < |settings| ==> !IsSet(env, settings[j].variable)
  {
    ReadSectionSpec(env, parseInt, settings);
    var section := ReadSection(env, parseInt, settings).value;
    if section == map[] {
      forall j | 0 <= j < |settings|
        ensures !IsSet(env, settings[j].variable)
      {
        assert settings[j].key !in section;
      }
    } else {
      var k :| k in section;
      var j :| 0 <= j < |settings| && settings[j].key == k && IsSet(env, settings[j].variable);
    }
  }

  /** `env_config[name] = section` only when the section is non-empty; the
      first error raised wins. */
  function AddSection(config: Result<Dict, ConfigError>, name: string, section: Result<Dict, ConfigError>)
    : (r: Result<Dict, ConfigError>)
    ensures config.Err? ==> r == config
    ensures config.Ok? && section.Err? ==> r == Err(section.error)
    ensures config.Ok? && section.Ok? ==>
              r.Ok? && (name in r.value <==> name in config.value || section.value != map[])
    ensures config.Ok? && section.Ok? && section.value != map[] ==> r.Ok? && r.value[name] == VDict(section.value)
    ensures config.Ok? && section.Ok? ==> forall k :: k in config.value && k != name ==> k in r.value && r.value[k] == config.value[k]
    ensures r.Ok? ==> r.value.Keys <= config.value.Keys + {name}
    ensures r.Ok? && config.Ok? && (forall k :: k in config.value ==> config.value[k].VDict?) ==>
              forall k :: k in r.value ==> r.value[k].VDict?
  {
    if config.Err? then config
    else if section.Err? then Err(section.error)
    else if section.value == map[] then config
    else Ok(config.value[name := VDict(section.value)])
  }

  /** `_load_from_environment`: the VMware, database, logging and collection
      sections, each only when one of its variables is set. */
  function LoadFromEnvironment(env: Env, parseInt: string -> Option<int>): (r: Result<Dict, ConfigError>)
    ensures r.Ok? ==> r.value.Keys <= {"vmware", "database", "logging", "collection"}
    ensures r.Ok? ==> forall k :: k in r.value ==> r.value[k].VDict?
  {
    var withVmware := AddSection(Ok(map[]), "vmware", ReadSection(env, parseInt, VmwareSettings));
    var withDatabase := AddSection(withVmware, "database", ReadSection(env, parseInt, DatabaseSettings));
    var withLogging := AddSection(withDatabase, "logging", ReadSection(env, parseInt, LoggingSettings));
    AddSection(withLogging, "collection", ReadSection(env, parseInt, CollectionSettings))
  }

  lemma VmwareSection(env: Env, parseInt: string -> Option<int>)
    ensures var r := ReadSection(env, parseInt, VmwareSettings);
      && (r.Err? <==> Unparsable(env, parseInt, "VMWARE_PORT"))
      && (r.Err? ==> r.error == InvalidInteger(env["VMWARE_PORT"]))
      && (r.Ok? ==> (r.value == map[] <==>
            !IsSet(env, "VMWARE_VCENTER_HOST") && !IsSet(env, "VMWARE_USERNAME") && !IsSet(env, "VMWARE_PASSWORD")
            && !IsSet(env, "VMWARE_PORT") && !IsSet(env, "VMWARE_IGNORE_SSL")))
  {
    ReadSectionSpec(env, parseInt, VmwareSettings);
    var r := ReadSection(env, parseInt, VmwareSettings);
    assert VmwareSettings[3] == Setting("VMWARE_PORT", "port", Integer);
    assert forall j :: 0 <= j < 5 && j != 3 ==> VmwareSettings[j].kind != Integer;
    if r.Ok? {
      ReadSectionEmpty(env, parseInt, VmwareSettings);
      assert VmwareSettings[0].variable == "VMWARE_VCENTER_HOST" && VmwareSettings[1].variable == "VMWARE_USERNAME";
      assert VmwareSettings[2].variable == "VMWARE_PASSWORD" && VmwareSettings[4].variable == "VMWARE_IGNORE_SSL";
    }
  }

  lemma DatabaseSection(env: Env, parseInt: string -> Option<int>)
    ensures var r := ReadSection(env, parseInt, DatabaseSettings);
      r.Ok? && (r.value == map[] <==> !IsSet(env, "DATABASE_URL") && !IsSet(env, "DATABASE_TYPE"))
  {
    ReadSectionSpec(env, parseInt, DatabaseSettings);
    ReadSectionEmpty(env, parseInt, DatabaseSettings);
  }

  lemma LoggingSection(env: Env, parseInt: string -> Option<int>)
    ensures var r := ReadSection(env, parseInt, LoggingSettings);
      r.Ok? && (r.value == map[] <==> !IsSet(env, "LOG_LEVEL"))
  {
    ReadSectionSpec(env, parseInt, LoggingSettings);
    ReadSectionEmpty(env, parseInt, LoggingSettings);
  }

  lemma CollectionSection(env: Env, parseInt: string -> Option<int>)
    ensures var r := ReadSection(env, parseInt, CollectionSettings);
      && (r.Err? <==> Unparsable(env, parseInt, "COLLECTION_INTERVAL") || Unparsable(env, parseInt, "COLLECTION_RETENTION_DAYS"))
      && (Unparsable(env, parseInt, "COLLECTION_INTERVAL") ==> r == Err(InvalidInteger(env["COLLECTION_INTERVAL"])))
      && (!Unparsable(env, parseInt, "COLLECTION_INTERVAL") && Unparsable(env, parseInt, "COLLECTION_RETENTION_DAYS") ==>
            r == Err(InvalidInteger(env["COLLECTION_RETENTION_DAYS"])))
      && (r.Ok? ==> (r.value == map[] <==> !IsSet(env, "COLLECTION_INTERVAL") && !IsSet(env, "COLLECTION_RETENTION_DAYS")))
  {
    ReadSectionSpec(env, parseInt, CollectionSettings);
    var r := ReadSection(env, parseInt, CollectionSettings);
    assert CollectionSettings[0] == Setting("COLLECTION_INTERVAL", "interval_minutes", Integer);
    assert CollectionSettings[1] == Setting("COLLECTION_RETENTION_DAYS", "retention_days", Integer);
    if r.Ok? {
      ReadSectionEmpty(env, parseInt, CollectionSettings);
    }
  }

  /** Each section appears exactly when one of its variables is set. */
  lemma EnvironmentSections(env: Env, parseInt: string -> Option<int>)
    requires LoadFromEnvironment(env, parseInt).Ok?
    ensures var config := LoadFromEnvironment(env, parseInt).value;
      && ("vmware" in config <==>
            (IsSet(env, "VMWARE_VCENTER_HOST") || IsSet(env, "VMWARE_USERNAME") || IsSet(env, "VMWARE_PASSWORD")
             || IsSet(env, "VMWARE_PORT") || IsSet(env, "VMWARE_IGNORE_SSL")))
      && ("database" in config <==> IsSet(env, "DATABASE_URL") || IsSet(env, "DATABASE_TYPE"))
      && ("logging" in config <==> IsSet(env, "LOG_LEVEL"))
      && ("collection" in config <==> IsSet(env, "COLLECTION_INTERVAL") || IsSet(env, "COLLECTION_RETENTION_DAYS"))
  {
    VmwareSection(env, parseInt);
    DatabaseSection(env, parseInt);
    LoggingSection(env, parseInt);
    CollectionSection(env, parseInt);
  }

  lemma VmwareKeysDistinct()
    ensures DistinctKeys(VmwareSettings)
  {
  }

  /** `ignore_ssl_errors` is true exactly when the variable, lowercased, is "true". */
  lemma IgnoreSslFlag(env: Env, parseInt: string -> Option<int>)
    requires LoadFromEnvironment(env, parseInt).Ok? && IsSet(env, "VMWARE_IGNORE_SSL")
    ensures var config := LoadFromEnvironment(env, parseInt).value;
      && "vmware" in config && "ignore_ssl_errors" in config["vmware"].entries
      && config["vmware"].entries["ignore_ssl_errors"] == VBool(Lower(env["VMWARE_IGNORE_SSL"]) == "true")
  {
    var section := ReadSection(env, parseInt, VmwareSettings);
    VmwareSection(env, parseInt);
    ReadSectionSpec(env, parseInt, VmwareSettings);
    assert VmwareSettings[4] == Setting("VMWARE_IGNORE_SSL", "ignore_ssl_errors", Flag);
    VmwareKeysDistinct();
    assert section.value["ignore_ssl_errors"] == SettingValue(env, parseInt, VmwareSettings[4]).value;
  }

  /** Reading the environment fails exactly when one of the three integer
      variables does not parse, and the first of them in source order is reported. */
  lemma EnvironmentErrors(env: Env, parseInt: string -> Option<int>)
    ensures var r := LoadFromEnvironment(env, parseInt);
      && (r.Err? <==>
            (Unparsable(env, parseInt, "VMWARE_PORT") || Unparsable(env, parseInt, "COLLECTION_INTERVAL")
             || Unparsable(env, parseInt, "COLLECTION_RETENTION_DAYS")))
      && (Unparsable(env, parseInt, "VMWARE_PORT") ==> r == Err(InvalidInteger(env["VMWARE_PORT"])))
      && (!Unparsable(env, parseInt, "VMWARE_PORT") && Unparsable(env, parseInt, "COLLECTION_INTERVAL") ==>
            r == Err(InvalidInteger(env["COLLECTION_INTERVAL"])))
      && (!Unparsable(env, parseInt, "VMWARE_PORT") && !Unparsable(env, parseInt, "COLLECTION_INTERVAL")
          && Unparsable(env, parseInt, "COLLECTION_RETENTION_DAYS") ==>
            r == Err(InvalidInteger(env["COLLECTION_RETENTION_DAYS"])))
  {
    VmwareSection(env, parseInt);
    DatabaseSection(env, parseInt);
    LoggingSection(env, parseInt);
    CollectionSection(env, parseInt);
  }

  // =====================================================================
  // Defaults and validation

  /** The five default sections, each a dictionary, which pass validation. */
  function DefaultConfig(): (config: Dict)
    ensures config.Keys == {"vmware", "database", "logging", "collection", "reporting"}
    ensures forall k :: k in config ==> config[k].VDict?
    ensures Validatable(config) && ValidateConfig(config) == Ok(())
  {
    map[
      "vmware" := VDict(map[
        "port" := VInt(443),
        "ignore_ssl_errors" := VBool(false),
        "timeout_seconds" := VInt(30)]),
      "database" := VDict(map[
        "type" := VStr("sqlite"),
        "url" := VStr("sqlite:///dora_evidence.db")]),
      "logging" := VDict(map[
        "level" := VStr("INFO"),
        "format" := VStr("%(asctime)s - %(name)s - %(levelname)s - %(message)s")]),
      "collection" := VDict(map[
        "interval_minutes" := VInt(60),
        "retention_days" := VInt(90),
        "max_events_per_collection" := VInt(1000)]),
      "reporting" := VDict(map[
        "output_directory" := VStr("reports"),
        "include_charts" := VBool(true),
        "chart_format" := VStr("png")])
    ]
  }

  /** `config.get(name, {})` is a dictionary. */
  predicate SectionIsDict(config: Dict, name: string) {
    name !in config || config[name].VDict?
  }

  /** The sections `_validate_config` calls `.get` on are dictionaries. */
  predicate Validatable(config: Dict) {
    SectionIsDict(config, "vmware") && SectionIsDict(config, "collection")
  }

  function SectionOf(config: Dict, name: string): Dict
    requires SectionIsDict(config, name)
  {
    if name in config then config[name].entries else map[]
  }

  function Port(config: Dict): Value
    requires Validatable(config)
  {
    GetOr(SectionOf(config, "vmware"), "port", VInt(443))
  }

  function Interval(config: Dict): Value
    requires Validatable(config)
  {
    GetOr(SectionOf(config, "collection"), "interval_minutes", VInt(60))
  }

  function Retention(config: Dict): Value
    requires Validatable(config)
  {
    GetOr(SectionOf(config, "collection"), "retention_days", VInt(90))
  }

  /** An `int` (a `bool` included) from 1 to 65535. */
  predicate ValidPort(v: Value) {
    IsInt(v) && 1 <= IntOf(v) <= 65535
  }

  /** An `int` (a `bool` included) of at least 1. */
  predicate PositiveInt(v: Value) {
    IsInt(v) && IntOf(v) >= 1
  }

  /** `_validate_config`: the port, the interval, then the retention, each
      defaulted when missing; the first bad one raises. */
  function ValidateConfig(config: Dict): (r: Result<(), ConfigError>)
    requires Validatable(config)
    ensures r.Ok? <==> ValidPort(Port(config)) && PositiveInt(Interval(config)) && PositiveInt(Retention(config))
    ensures !ValidPort(Port(config)) ==> r == Err(InvalidPort(Port(config)))
    ensures ValidPort(Port(config)) && !PositiveInt(Interval(config)) ==> r == Err(InvalidInterval(Interval(config)))
    ensures ValidPort(Port(config)) && PositiveInt(Interval(config)) && !PositiveInt(Retention(config)) ==>
              r == Err(InvalidRetention(Retention(config)))
  {
    var port := Port(config);
    if !IsInt(port) || IntOf(port) < 1 || IntOf(port) > 65535 then Err(InvalidPort(port))
    else
      var interval := Interval(config);
      if !IsInt(interval) || IntOf(interval) < 1 then Err(InvalidInterval(interval))
      else
        var retention := Retention(config);
        if !IsInt(retention) || IntOf(retention) < 1 then Err(InvalidRetention(retention))
        else Ok(())
  }

  /** The default configuration passes validation with 443, 60 and 90. */
  lemma DefaultConfigValid()
    ensures Validatable(DefaultConfig())
    ensures Port(DefaultConfig()) == VInt(443)
    ensures Interval(DefaultConfig()) == VInt(60) && Retention(DefaultConfig()) == VInt(90)
    ensures ValidateConfig(DefaultConfig()) == Ok(())
  {
  }

  /** With every checked key missing, 443, 60 and 90 are used, so an empty
      configuration is valid. */
  lemma EmptyConfigValid()
    ensures Validatable(map[]) && ValidateConfig(map[]) == Ok(())
  {
  }

  /** Credentials and every other VMware key but the port only produce
      warnings: changing them never changes the verdict. */
  lemma CredentialsOnlyWarn(config: Dict, key: string, v: Value)
    requires Validatable(config) && key != "port"
    ensures var changed := config["vmware" := VDict(SectionOf(config, "vmware")[key := v])];
      Validatable(changed) && ValidateConfig(changed) == ValidateConfig(config)
  {
    var changed := config["vmware" := VDict(SectionOf(config, "vmware")[key := v])];
    assert Port(changed) == Port(config);
    assert Interval(changed) == Interval(config);
    assert Retention(changed) == Retention(config);
  }

  /** `isinstance(True, int)` holds, so a port of True passes as 1; False,
      a float or a string is rejected. */
  lemma PortTypes()
    ensures ValidateConfig(map["vmware" := VDict(map["port" := VBool(true)])]) == Ok(())
    ensures ValidateConfig(map["vmware" := VDict(map["port" := VBool(false)])]) == Err(InvalidPort(VBool(false)))
    ensures ValidateConfig(map["vmware" := VDict(map["port" := VReal(443.0)])]) == Err(InvalidPort(VReal(443.0)))
  {
    assert Port(map["vmware" := VDict(map["port" := VBool(true)])]) == VBool(true);
    assert Port(map["vmware" := VDict(map["port" := VBool(false)])]) == VBool(false);
    assert Port(map["vmware" := VDict(map["port" := VReal(443.0)])]) == VReal(443.0);
  }

  // =====================================================================
  // Loading

  /** `yaml.safe_load(f) or {}`; nothing when the file is missing or fails to load. */
  function FileContents(file: Option<Dict>): Dict {
    if file.Some? then file.value else map[]
  }

  /** The configuration `_load_config` validates: the environment's sections
      replace the file's whole sections, and the defaults fill in only the
      top-level sections neither supplied. */
  function LoadedConfig(file: Option<Dict>, envConfig: Dict): (config: Dict)
    ensures config.Keys == FileContents(file).Keys + envConfig.Keys + DefaultConfig().Keys
    ensures forall k :: k in envConfig ==> config[k] == envConfig[k]
    ensures forall k :: k in FileContents(file) && k !in envConfig ==> config[k] == FileContents(file)[k]
    ensures forall k :: k in DefaultConfig() && k !in FileContents(file) && k !in envConfig ==> config[k] == DefaultConfig()[k]
  {
    DefaultConfig() + (FileContents(file) + envConfig)
  }

  /** A section given only by the file is kept as it is: the defaults never
      fill keys inside it. */
  lemma DefaultsNotNested(fileSection: Dict, env: Env, parseInt: string -> Option<int>)
    requires "port" !in fileSection
    requires LoadFromEnvironment(env, parseInt).Ok? && "vmware" !in LoadFromEnvironment(env, parseInt).value
    ensures var config := LoadedConfig(Some(map["vmware" := VDict(fileSection)]), LoadFromEnvironment(env, parseInt).value);
      config["vmware"] == VDict(fileSection) && "port" !in config["vmware"].entries
  {
  }

  /** With no variable set, the environment contributes nothing. */
  lemma EmptyEnvironment(env: Env, parseInt: string -> Option<int>)
    requires forall v :: v in env ==> env[v] == ""
    ensures LoadFromEnvironment(env, parseInt) == Ok(map[])
  {
    VmwareSection(env, parseInt);
    DatabaseSection(env, parseInt);
    LoggingSection(env, parseInt);
    CollectionSection(env, parseInt);
  }

  /** With no file and nothing from the environment, the configuration is the default one. */
  lemma NothingGivenIsDefault()
    ensures LoadedConfig(None, map[]) == DefaultConfig()
  {
    assert FileContents(None) + map[] == map[];
  }

  /** With the environment's sections all dictionaries, the loaded configuration
      can be validated exactly when each of the vmware and collection sections is
      supplied by the environment, or is a dictionary in the file, or is absent
      from the file (the default then fills it). */
  lemma LoadedValidatable(file: Option<Dict>, envConfig: Dict)
    requires forall k :: k in envConfig ==> envConfig[k].VDict?
    ensures Validatable(LoadedConfig(file, envConfig)) <==>
              && ("vmware" in envConfig || SectionIsDict(FileContents(file), "vmware"))
              && ("collection" in envConfig || SectionIsDict(FileContents(file), "collection"))
  {
    var config := LoadedConfig(file, envConfig);
    assert "vmware" in DefaultConfig() && "collection" in DefaultConfig();
  }

  /** A file whose vmware section is null still loads when the environment sets
      the vCenter host: that section then comes from the environment. */
  lemma NullSectionReplaced(env: Env, parseInt: string -> Option<int>)
    requires LoadFromEnvironment(env, parseInt).Ok? && IsSet(env, "VMWARE_VCENTER_HOST")
    ensures Validatable(LoadedConfig(Some(map["vmware" := VNone]), LoadFromEnvironment(env, parseInt).value))
  {
    EnvironmentSections(env, parseInt);
    LoadedValidatable(Some(map["vmware" := VNone]), LoadFromEnvironment(env, parseInt).value);
  }

  /** The loop over the default items: a key is added only when it is absent. */
  method FillDefaults(config: Dict, defaults: Dict) returns (filled: Dict)
    ensures filled == defaults + config
  {
    filled := config;
    var remaining := defaults.Keys;
    while remaining != {}
      invariant remaining <= defaults.Keys
      invariant filled.Keys == config.Keys + (defaults.Keys - remaining)
      invariant forall k :: k in filled ==> filled[k] == if k in config then config[k] else defaults[k]
      decreases remaining
    {
      var key :| key in remaining;
      if key !in filled {
        filled := filled[key := defaults[key]];
      }
      remaining := remaining - {key};
    }
  }

  /** The steps of `_load_config` build the loaded configuration. */
  lemma FillsToLoaded(file: Option<Dict>, envConfig: Dict, config: Dict)
    requires config == DefaultConfig() + ((if file.Some? then map[] + file.value else map[]) + envConfig)
    ensures config == LoadedConfig(file, envConfig)
  {
    if file.Some? {
      assert map[] + file.value == file.value;
    }
  }

  /** `_load_config`: the file, then the environment, then the defaults for
      absent top-level keys, then validation. */
  method LoadConfig(file: Option<Dict>, env: Env, parseInt: string -> Option<int>) returns (r: Result<Dict, ConfigError>)
    requires LoadFromEnvironment(env, parseInt).Ok? ==>
               Validatable(LoadedConfig(file, LoadFromEnvironment(env, parseInt).value))
    ensures LoadFromEnvironment(env, parseInt).Err? ==> r == Err(LoadFromEnvironment(env, parseInt).error)
    ensures LoadFromEnvironment(env, parseInt).Ok? ==>
              var config := LoadedConfig(file, LoadFromEnvironment(env, parseInt).value);
              && Validatable(config)
              && (ValidateConfig(config).Ok? ==> r == Ok(config))
              && (ValidateConfig(config).Err? ==> r == Err(ValidateConfig(config).error))
  {
    var config: Dict := map[];
    if file.Some? {
      config := config + file.value;
    }
    var envConfig := LoadFromEnvironment(env, parseInt);
    if envConfig.Err? {
      return Err(envConfig.error);
    }
    config := config + envConfig.value;
    config := FillDefaults(config, DefaultConfig());
    FillsToLoaded(file, envConfig.value, config);
    var verdict := ValidateConfig(config);
    if verdict.Err? {
      return Err(verdict.error);
    }
    return Ok(config);
  }

  // =====================================================================
  // Sanitising

  const Redacted: Value := VStr("<REDACTED>")

  /** The sections `_sanitize_config` copies are dictionaries, and a database
      url is a string. */
  predicate Sanitizable(config: Dict) {
    && SectionIsDict(config, "vmware")
    && SectionIsDict(config, "database")
    && ("database" in config && "url" in config["database"].entries ==> config["database"].entries["url"].VStr?)
  }

  /** A copy of the section with `key` replaced by the marker when it is present and `redact` holds. */
  function RedactKey(section: Dict, key: string, redact: bool): (safe: Dict)
    ensures safe.Keys == section.Keys
    ensures forall k :: k in section && k != key ==> safe[k] == section[k]
    ensures key in section ==> safe[key] == if redact then Redacted else section[key]
  {
    if key in section && redact then section[key := Redacted] else section
  }

  /** The database url is redacted when it mentions "password". */
  predicate UrlHasPassword(database: Dict)
    requires "url" in database ==> database["url"].VStr?
  {
    "url" in database && Contains(database["url"].s, "password")
  }

  /** `_sanitize_config`: a copy in which the VMware password, when present, and
      a database url mentioning "password" are replaced by the marker. */
  function SanitizeConfig(config: Dict): (safe: Dict)
    requires Sanitizable(config)
    ensures safe.Keys == config.Keys
    ensures forall k :: k in config && k != "vmware" && k != "database" ==> safe[k] == config[k]
    ensures "vmware" in config ==> safe["vmware"] == VDict(RedactKey(config["vmware"].entries, "password", true))
    ensures "database" in config ==>
              var database := config["database"].entries;
              safe["database"] == VDict(RedactKey(database, "url", UrlHasPassword(database)))
  {
    var withVmware :=
      if "vmware" in config then config["vmware" := VDict(RedactKey(config["vmware"].entries, "password", true))]
      else config;
    if "database" in config then
      var database := config["database"].entries;
      withVmware["database" := VDict(RedactKey(database, "url", UrlHasPassword(database)))]
    else withVmware
  }

  /** After sanitising, no VMware password survives, and a database url either
      is the marker or does not mention "password". */
  lemma SanitizedHidesSecrets(config: Dict)
    requires Sanitizable(config)
    ensures var safe := SanitizeConfig(config);
      && ("vmware" in config && "password" in config["vmware"].entries ==> safe["vmware"].entries["password"] == Redacted)
      && ("database" in config && "url" in config["database"].entries ==>
            var url := safe["database"].entries["url"];
            url == Redacted || (url == config["database"].entries["url"] && !Contains(url.s, "password")))
  {
  }

  /** The marker does not mention "password". */
  lemma RedactedHasNoPassword()
    ensures !Contains(Redacted.s, "password")
  {
    var s := Redacted.s;
    assert !StartsWith(s, "password") by { assert s[0] != 'p'; }
    assert !StartsWith(s[1..], "password") by { assert s[1] != 'p'; }
    assert !StartsWith(s[2..], "password") by { assert s[2] != 'p'; }
    ShorterNotContains(s[3..], "password");
    assert s[1..][1..] == s[2..] && s[2..][1..] == s[3..];
  }

  /** Redacting the VMware section a second time changes nothing. */
  lemma VmwareRedactionStable(vmware: Dict)
    ensures RedactKey(RedactKey(vmware, "password", true), "password", true) == RedactKey(vmware, "password", true)
  {
  }

  /** A redacted database section no longer has a url that mentions "password". */
  lemma DatabaseRedactionStable(database: Dict)
    requires "url" in database ==> database["url"].VStr?
    ensures var once := RedactKey(database, "url", UrlHasPassword(database));
      && ("url" in once ==> once["url"].VStr?)
      && !UrlHasPassword(once)
      && RedactKey(once, "url", UrlHasPassword(once)) == once
  {
    RedactedHasNoPassword();
  }

  /** Sanitising twice is sanitising once. */
  lemma SanitizeIdempotent(config: Dict)
    requires Sanitizable(config)
    ensures Sanitizable(SanitizeConfig(config))
    ensures SanitizeConfig(SanitizeConfig(config)) == SanitizeConfig(config)
  {
    var safe := SanitizeConfig(config);
    if "vmware" in config {
      VmwareRedactionStable(config["vmware"].entries);
    }
    if "database" in config {
      DatabaseRedactionStable(config["database"].entries);
    }
    assert Sanitizable(safe);
    var twice := SanitizeConfig(safe);
    assert forall k :: k in twice ==> twice[k] == safe[k];
  }

  // =====================================================================
  // The manager

  class ConfigManager {
    var config: Dict

    /** A manager holding the configuration `_load_config` returned. */
    constructor(config: Dict)
      ensures this.config == config
    {
      this.config := config;
    }

    /** `get_config`: a copy of the whole configuration. */
    method GetConfig() returns (copy: Dict)
      ensures copy == config
    {
      copy := config;
    }

    /** `update_config`: the deep update happens first and stays in place
        even when the validation that follows raises. */
    method UpdateConfig(updates: Dict) returns (r: Result<(), ConfigError>)
      requires Validatable(DeepMerge(config, updates))
      modifies this
      ensures config == DeepMerge(old(config), updates)
      ensures r == ValidateConfig(config)
    {
      config := DeepUpdate(config, updates);
      r := ValidateConfig(config);
    }
  }

  /** `ConfigManager(config_path)`: load, then keep the loaded configuration. */
  method Open(file: Option<Dict>, env: Env, parseInt: string -> Option<int>) returns (r: Result<ConfigManager, ConfigError>)
    requires LoadFromEnvironment(env, parseInt).Ok? ==>
               Validatable(LoadedConfig(file, LoadFromEnvironment(env, parseInt).value))
    ensures LoadFromEnvironment(env, parseInt).Err? ==> r == Err(LoadFromEnvironment(env, parseInt).error)
    ensures LoadFromEnvironment(env, parseInt).Ok? ==>
              var config := LoadedConfig(file, LoadFromEnvironment(env, parseInt).value);
              && (r.Ok? <==> ValidateConfig(config).Ok?)
              && (r.Err? ==> r.error == ValidateConfig(config).error)
    ensures r.Ok? ==> fresh(r.value) && LoadFromEnvironment(env, parseInt).Ok?
                      && r.value.config == LoadedConfig(file, LoadFromEnvironment(env, parseInt).value)
  {
    var loaded := LoadConfig(file, env, parseInt);
    if loaded.Err? {
      return Err(loaded.error);
    }
    var manager := new ConfigManager(loaded.value);
    return Ok(manager);
  }

  /** An update that touches neither the VMware nor the collection section
      keeps a valid configuration valid. */
  lemma UnrelatedUpdateKeepsValid(config: Dict, updates: Dict)
    requires Validatable(config) && ValidateConfig(config).Ok?
    requires "vmware" !in updates && "collection" !in updates
    ensures Validatable(DeepMerge(config, updates))
    ensures ValidateConfig(DeepMerge(config, updates)) == Ok(())
  {
    var merged := DeepMerge(config, updates);
    assert Port(merged) == Port(config);
    assert Interval(merged) == Interval(config) && Retention(merged) == Retention(config);
  }
}
