/** `Configuration` (utils/config.py): the validation of a loaded YAML
    document, the `Config.get` lookup and the `get_config` singleton. Reading
    the file and parsing YAML are given to the model as a function from a
    path to a document or a load error. */
module Configuration {
  import opened Wrappers
  import opened Text

  /** `DEFAULT_CONFIG_PATH`. */
  const DefaultConfigPath: string := "config.yaml"

  /** The OAuth fields `_validate_config` demands, in the order it checks them. */
  const OAuthFields: seq<string> := ["access_token", "access_token_secret", "consumer_key", "key_cert"]

  /** A YAML document as `yaml.safe_load` returns it (mapping keys are strings
      here). */
  datatype Value =
    | Null
    | Bool(b: bool)
    | Num(n: int)
    | Str(s: string)
    | List(items: seq<Value>)
    | Mapping(entries: map<string, Value>)

  /** What loading the configuration can raise. `WrongType` stands for the
      TypeError or AttributeError Python raises when a section has a shape the
      code does not expect (`in` on a number, `.get` on a list, and so on). */
  datatype ConfigError =
    | FileNotFound(path: string)
    | ParseError
    | MissingSection(section: string)
    | MissingJiraUrl
    | MissingUsername
    | MissingOAuth
    | MissingOAuthField(field: string)
    | UnsupportedAuthMethod(authMethod: Value)
    | MissingProjectKeys
    | KeysNotAList
    | WrongType

  /** Python's `key in v`: membership of a key in a mapping, of a substring in
      a string, of an equal string in a list; None where Python raises
      TypeError. */
  function In(key: string, v: Value): (r: Option<bool>)
    ensures r.None? <==> !(v.Mapping? || v.Str? || v.List?)
    ensures v.Mapping? ==> r == Some(key in v.entries)
  {
    match v
    case Mapping(m) => Some(key in m)
    case Str(s) => Some(Contains(s, key))
    case List(xs) => Some(Str(key) in xs)
    case _ => None
  }

  /** `m.get(key, default)`. */
  function Lookup(m: map<string, Value>, key: string, default: Value): (r: Value)
    ensures key in m ==> r == m[key]
    ensures key !in m ==> r == default
  {
    if key in m then m[key] else default
  }

  /** The loop `for key in keys: if key not in v: raise missing(key)`: the
      first failure, or None when every key is in `v`. */
  function FirstMissing(keys: seq<string>, v: Value, missing: string -> ConfigError): (r: Option<ConfigError>)
    ensures r.None? <==> forall k :: k in keys ==> In(k, v) == Some(true)
    decreases |keys|
  {
    if keys == [] then None
    else
      match In(keys[0], v)
      case None => Some(WrongType)
      case Some(false) => Some(missing(keys[0]))
      case Some(true) => FirstMissing(keys[1..], v, missing)
  }

  /** The checks of the `project` section. */
  function CheckProject(project: Value): Result<(), ConfigError> {
    match In("keys", project)
    case None => Err(WrongType)
    case Some(false) => Err(MissingProjectKeys)
    case Some(true) =>
      if !project.Mapping? then Err(WrongType)
      else if !project.entries["keys"].List? then Err(KeysNotAList)
      else Ok(())
  }

  /** The checks of the authentication settings of the `jira` section, then
      of the `project` section. */
  function CheckAuth(jira: map<string, Value>, project: Value): Result<(), ConfigError> {
    var authMethod := Lookup(jira, "auth_method", Str("basic"));
    if authMethod == Str("basic") then
      if "username" !in jira then Err(MissingUsername) else CheckProject(project)
    else if authMethod == Str("oauth") then
      if "oauth" !in jira then Err(MissingOAuth)
      else
        match FirstMissing(OAuthFields, jira["oauth"], f => MissingOAuthField(f))
        case Some(e) => Err(e)
        case None => CheckProject(project)
    else Err(UnsupportedAuthMethod(authMethod))
  }

  /** `Config._validate_config` on the loaded document `doc`. */
  function Validate(doc: Value): Result<(), ConfigError> {
    match FirstMissing(["jira", "project", "git"], doc, s => MissingSection(s))
    case Some(e) => Err(e)
    case None =>
      if !doc.Mapping? then Err(WrongType)
      else
        var jira := doc.entries["jira"];
        match In("url", jira)
        case None => Err(WrongType)
        case Some(false) => Err(MissingJiraUrl)
        case Some(true) =>
          if !jira.Mapping? then Err(WrongType)
          else CheckAuth(jira.entries, doc.entries["project"])
  }

  /* ----------------------------------------------------------------------
     What a valid configuration is, stated on its own
     ---------------------------------------------------------------------- */

  predicate AuthConfigured(jira: map<string, Value>) {
    var authMethod := if "auth_method" in jira then jira["auth_method"] else Str("basic");
    || (authMethod == Str("basic") && "username" in jira)
    || (authMethod == Str("oauth") && "oauth" in jira
        && forall f :: f in OAuthFields ==> In(f, jira["oauth"]) == Some(true))
  }

  /** A document `_validate_config` accepts: a mapping with the sections
      `jira`, `project` and `git`; `jira` a mapping with a `url` and the
      settings of a supported authentication method; `project` a mapping
      whose `keys` is a list. */
  predicate WellConfigured(doc: Value) {
    && doc.Mapping?
    && "jira" in doc.entries && "project" in doc.entries && "git" in doc.entries
    && doc.entries["jira"].Mapping? && "url" in doc.entries["jira"].entries
    && AuthConfigured(doc.entries["jira"].entries)
    && doc.entries["project"].Mapping? && "keys" in doc.entries["project"].entries
    && doc.entries["project"].entries["keys"].List?
  }

  /* ----------------------------------------------------------------------
     Config and the get_config singleton
     ---------------------------------------------------------------------- */

  /** `config_path or DEFAULT_CONFIG_PATH`: an absent or empty path means the
      default file. */
  function EffectivePath(configPath: Option<string>): (p: string)
    ensures p != ""
    ensures configPath.Some? && configPath.value != "" ==> p == configPath.value
    ensures configPath.None? || configPath.value == "" ==> p == DefaultConfigPath
  {
    if configPath.Some? && configPath.value != "" then configPath.value else DefaultConfigPath
  }

  /** A loaded, validated configuration. */
  class Config {
    const configPath: string
    const config: map<string, Value>

    constructor (configPath: string, config: map<string, Value>)
      requires Validate(Mapping(config)).Ok?
      ensures this.configPath == configPath && this.config == config
    {
      this.configPath := configPath;
      this.config := config;
    }

    /** `Config.get(section, key, default)`: the default for a missing
        section, the whole section without a key, the entry of the section or
        the default otherwise. A section that is not a mapping has no `.get`. */
    function Get(section: string, key: Option<string>, default: Value): (r: Result<Value, ConfigError>)
      ensures section !in config ==> r == Ok(default)
      ensures section in config && key.None? ==> r == Ok(config[section])
      ensures section in config && key.Some? ==> (r.Ok? <==> config[section].Mapping?)
      ensures section in config && key.Some? && config[section].Mapping? && key.value in config[section].entries
              ==> r == Ok(config[section].entries[key.value])
      ensures section in config && key.Some? && config[section].Mapping? && key.value !in config[section].entries
              ==> r == Ok(default)
    {
      if section !in config then Ok(default)
      else if key.None? then Ok(config[section])
      else
        match config[section]
        case Mapping(m) => Ok(Lookup(m, key.value, default))
        case _ => Err(WrongType)
    }
  }

  /** `Config(config_path)`: loads the file with `load`, validates it and
      keeps it. Credentials from the keyring are not part of this model. */
  method LoadConfig(configPath: Option<string>, load: string -> Result<Value, ConfigError>)
    returns (r: Result<Config, ConfigError>)
    ensures var p := EffectivePath(configPath);
            && (r.Ok? <==> load(p).Ok? && Validate(load(p).value).Ok?)
            && (load(p).Err? ==> r == Err(load(p).error))
            && (load(p).Ok? && Validate(load(p).value).Err? ==> r == Err(Validate(load(p).value).error))
            && (r.Ok? ==> fresh(r.value) && r.value.configPath == p && Mapping(r.value.config) == load(p).value)
  {
    var p := EffectivePath(configPath);
    var doc := load(p);
    if doc.Err? {
      return Err(doc.error);
    }
    var v := Validate(doc.value);
    if v.Err? {
      return Err(v.error);
    }
    ValidMapping(doc.value);
    var c := new Config(p, doc.value.entries);
    return Ok(c);
  }

  /** The module-level `_config_instance` and `get_config`. */
  class ConfigRegistry {
    var instance: Config?

    constructor ()
      ensures instance == null
    {
      instance := null;
    }

    /** `get_config(config_path)`: the first successful call builds the
        configuration; every later call returns that same object and ignores
        its path. A call that raises leaves no instance behind. */
    method GetConfig(configPath: Option<string>, load: string -> Result<Value, ConfigError>)
      returns (r: Result<Config, ConfigError>)
      modifies this
      ensures old(instance) != null ==> r == Ok(old(instance)) && instance == old(instance)
      ensures old(instance) == null ==>
                var p := EffectivePath(configPath);
                && (r.Ok? <==> load(p).Ok? && Validate(load(p).value).Ok?)
                && (r.Ok? ==> fresh(r.value) && instance == r.value
                              && r.value.configPath == p && Mapping(r.value.config) == load(p).value)
                && (r.Err? ==> instance == null)
    {
      if instance == null {
        r := LoadConfig(configPath, load);
        if r.Ok? {
          instance := r.value;
        }
      } else {
        r := Ok(instance);
      }
    }
  }

  /* ======================================================================
     Lemmas
     ====================================================================== */

  /** Only a mapping passes validation. */
  lemma ValidMapping(doc: Value)
    requires Validate(doc).Ok?
    ensures doc.Mapping?
  {
  }

  lemma {:induction false} FirstMissingAllPresent(keys: seq<string>, v: Value, missing: string -> ConfigError)
    requires forall k :: k in keys ==> In(k, v) == Some(true)
    ensures FirstMissing(keys, v, missing) == None
    decreases |keys|
  {
    if keys != [] {
      assert In(keys[0], v) == Some(true);
      FirstMissingAllPresent(keys[1..], v, missing);
    }
  }

  /** `_validate_config` accepts exactly the well-configured documents. */
  lemma ValidateAccepts(doc: Value)
    ensures Validate(doc).Ok? <==> WellConfigured(doc)
  {
    if doc.Mapping? && "jira" in doc.entries && "project" in doc.entries && "git" in doc.entries {
      assert forall k :: k in ["jira", "project", "git"] ==> In(k, doc) == Some(true);
      FirstMissingAllPresent(["jira", "project", "git"], doc, s => MissingSection(s));
    }
  }

  /** The sections are checked in the order `jira`, `project`, `git`: the
      first one missing from a mapping is the one reported. */
  lemma MissingSectionOrder(m: map<string, Value>)
    ensures "jira" !in m ==> Validate(Mapping(m)) == Err(MissingSection("jira"))
    ensures "jira" in m && "project" !in m ==> Validate(Mapping(m)) == Err(MissingSection("project"))
    ensures "jira" in m && "project" in m && "git" !in m ==> Validate(Mapping(m)) == Err(MissingSection("git"))
  {
  }

  /** Without `auth_method` the method is basic, so a `jira` section with a
      `url` but no `username` is rejected for the username, whatever else it
      holds. */
  lemma BasicIsDefault(m: map<string, Value>, jira: map<string, Value>)
    requires "jira" in m && "project" in m && "git" in m && m["jira"] == Mapping(jira)
    requires "url" in jira && "auth_method" !in jira && "username" !in jira
    ensures Validate(Mapping(m)) == Err(MissingUsername)
  {
  }

  /** An authentication method other than basic and oauth is reported with
      its value. */
  lemma UnsupportedMethod(m: map<string, Value>, jira: map<string, Value>)
    requires "jira" in m && "project" in m && "git" in m && m["jira"] == Mapping(jira)
    requires "url" in jira && "auth_method" in jira
    requires jira["auth_method"] != Str("basic") && jira["auth_method"] != Str("oauth")
    ensures Validate(Mapping(m)) == Err(UnsupportedAuthMethod(jira["auth_method"]))
  {
  }

  /** The OAuth fields are checked in order: the first one the `oauth`
      subsection lacks is reported. */
  lemma {:induction false} FirstMissingReports(keys: seq<string>, v: Value, missing: string -> ConfigError, i: nat)
    requires v.Mapping? && i < |keys| && keys[i] !in v.entries
    requires forall j :: 0 <= j < i ==> keys[j] in v.entries
    ensures FirstMissing(keys, v, missing) == Some(missing(keys[i]))
    decreases i
  {
    if i > 0 {
      assert keys[0] in v.entries;
      FirstMissingReports(keys[1..], v, missing, i - 1);
    }
  }

  lemma OAuthFieldOrder(m: map<string, Value>, jira: map<string, Value>, oauth: map<string, Value>)
    requires "jira" in m && "project" in m && "git" in m && m["jira"] == Mapping(jira)
    requires "url" in jira && "auth_method" in jira && jira["auth_method"] == Str("oauth")
    requires "oauth" in jira && jira["oauth"] == Mapping(oauth)
    requires "access_token" in oauth && "access_token_secret" !in oauth
    ensures Validate(Mapping(m)) == Err(MissingOAuthField("access_token_secret"))
  {
    FirstMissingReports(OAuthFields, Mapping(oauth), f => MissingOAuthField(f), 1);
  }

  /** The keys must be a list: a single key written as a string is rejected. */
  lemma KeysMustBeList(m: map<string, Value>, jira: map<string, Value>, key: string)
    requires "jira" in m && "git" in m && m["jira"] == Mapping(jira)
    requires "url" in jira && "auth_method" !in jira && "username" in jira
    requires "project" in m && m["project"] == Mapping(map["keys" := Str(key)])
    ensures Validate(Mapping(m)) == Err(KeysNotAList)
  {
  }

  /** After validation the lookups the analyzers make into `jira` and
      `project` succeed and give the validated values. */
  lemma ValidatedLookups(c: Config, d: Value)
    requires Validate(Mapping(c.config)).Ok?
    ensures c.Get("jira", Some("url"), d).Ok? && c.Get("jira", Some("url"), d).value == c.config["jira"].entries["url"]
    ensures c.Get("project", Some("keys"), d).Ok? && c.Get("project", Some("keys"), d).value.List?
  {
    ValidateAccepts(Mapping(c.config));
  }

  /** Validation does not look inside `git`: a `git` section that is not a
      mapping passes, and a later `get('git', key, default)` then has no
      `.get` to call. */
  lemma GitSectionUnchecked(c: Config, key: string, d: Value)
    requires Validate(Mapping(c.config)).Ok? && "git" in c.config && c.config["git"] == Bool(true)
    ensures c.Get("git", Some(key), d) == Err(WrongType)
  {
    ValidMapping(Mapping(c.config));
    ValidateAccepts(Mapping(c.config));
  }
}
