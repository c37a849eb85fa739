/** The configuration store of config/config.go: the defaults table, the
    viper setup `prepare` makes, the order of `loadConfig`'s steps, how a
    key is resolved once those steps have run, and the `GetConfig`
    singleton as a one-slot cache. */
module Config {
  import opened Outcomes
  import opened Strings
  import opened Env
  import FilePath

  /** A setting as the defaults table, the file or the environment gives it. */
  datatype Value = Str(s: string) | Flag(b: bool) | Labels(m: map<string, string>)

  /** The logging section (config/log.go). */
  datatype LogConfig = LogConfig(formatter: string, level: string)

  /** The cors and session sections; their Go declarations are not part of
      this model, the field lists follow the keys of the defaults table. */
  datatype CorsConfig = CorsConfig(allowCredentials: bool, allowOrigins: string, allowHeaders: string, allowMethods: string)
  datatype SessionConfig = SessionConfig(expiration: string, keyLookup: string, cookieSecure: bool, cookieHttpOnly: bool, cookieSameSite: string)

  datatype Config = Config(env: string, log: LogConfig, cors: CorsConfig, session: SessionConfig)

  /** The default `cors.allow-headers` value. */
  const AllowHeaders: string := "Origin, Content-Type, Accept, Content-Length, Accept-Language, Accept-Encoding, Connection, Authorization, Access-Control-Allow-Origin, Access-Control-Allow-Methods, Access-Control-Allow-Headers, Access-Control-Allow-Origin"

  /** The default `session.key-lookup` value. */
  const SessionKeyLookup: string := "cookie:__Host-session"

  /** A key spelled as the defaults table spells them: lower-case ASCII
      letters, dots and dashes. */
  predicate PlainChar(c: char) {
    ('a' <= c <= 'z') || c == '.' || c == '-'
  }

  predicate PlainKey(k: string) {
    forall i :: 0 <= i < |k| ==> PlainChar(k[i])
  }

  /** The `defaults` table, key for key. */
  function Defaults(): map<string, Value> {
    map[
      "env" := Str("development"),
      "client-endpoint" := Str("tcp://localhost:9797"),
      "log.formatter" := Str("text"),
      "log.level" := Str("info"),
      "log.loki.address" := Str("http://localhost:3100"),
      "log.loki.labels" := Labels(map["app" := "app", "environment" := "development"]),
      "cors.allow-credentials" := Flag(true),
      "cors.allow-origins" := Str("*"),
      "cors.allow-headers" := Str(AllowHeaders),
      "cors.allow-methods" := Str("GET, POST, HEAD, PUT, DELETE, PATCH, OPTIONS"),
      "session.expiration" := Str("2h"),
      "session.key-lookup" := Str(SessionKeyLookup),
      "session.cookie-secure" := Flag(true),
      "session.cookie-http-only" := Flag(true),
      "session.cookie-same-site" := Str("Lax")
    ]
  }

  lemma PlainTopKeys()
    ensures PlainKey("env") && PlainKey("client-endpoint")
  {
  }

  lemma PlainLogKeys()
    ensures PlainKey("log.formatter") && PlainKey("log.level") && PlainKey("log.loki.address") && PlainKey("log.loki.labels")
  {
  }

  lemma PlainCorsKeys()
    ensures PlainKey("cors.allow-credentials") && PlainKey("cors.allow-origins") && PlainKey("cors.allow-headers") && PlainKey("cors.allow-methods")
  {
  }

  lemma PlainSessionKeys()
    ensures PlainKey("session.expiration") && PlainKey("session.key-lookup") && PlainKey("session.cookie-secure") && PlainKey("session.cookie-http-only") && PlainKey("session.cookie-same-site")
  {
  }

  /** Every key of the defaults table is plain. */
  lemma DefaultKeysPlain()
    ensures forall k :: k in Defaults() ==> PlainKey(k)
  {
    PlainTopKeys();
    PlainLogKeys();
    PlainCorsKeys();
    PlainSessionKeys();
  }

  // ---------------------------------------------------------------------
  // The viper instance, as the calls made on it

  /** The calls `prepare` and `loadConfig` make on the viper instance.
      `SetDefaults` stands for the whole `range defaults` loop: Go visits a
      map in no fixed order and the calls are on distinct keys. */
  datatype Call =
    | SetConfigName(name: string)
    | AddConfigPath(dir: string)
    | SetConfigType(ext: string)
    | SetConfigFile(file: string)
    | ReadInConfig
    | SetEnvPrefix(prefix: string)
    | SetEnvKeyReplacer(from: char, to: char)
    | AutomaticEnv
    | SetDefaults(table: map<string, Value>)
    | Unmarshal

  /** What the calls leave in the instance; `config` holds what the file read. */
  datatype Viper = Viper(
    configName: string,
    configType: string,
    configFile: string,
    configPaths: seq<string>,
    envPrefix: string,
    keyReplacer: Option<(char, char)>,
    automaticEnv: bool,
    defaults: map<string, Value>,
    config: map<string, Value>)

  /** `viper.New()`: the default configuration name is "config". */
  const NewViper: Viper := Viper("config", "", "", [], "", None, false, map[], map[])

  /** One call on the instance. An empty name, type, file, directory or
      prefix is ignored; naming the configuration forgets a file set
      before; a directory already searched is not added again. */
  function Apply(v: Viper, c: Call): Viper {
    match c
    case SetConfigName(n) => if n != "" then v.(configName := n, configFile := "") else v
    case AddConfigPath(d) => if d != "" && d !in v.configPaths then v.(configPaths := v.configPaths + [d]) else v
    case SetConfigType(e) => if e != "" then v.(configType := e) else v
    case SetConfigFile(f) => if f != "" then v.(configFile := f) else v
    case SetEnvPrefix(p) => if p != "" then v.(envPrefix := p) else v
    case SetEnvKeyReplacer(f, t) => v.(keyReplacer := Some((f, t)))
    case AutomaticEnv => v.(automaticEnv := true)
    case SetDefaults(t) => v.(defaults := v.defaults + t)
    case ReadInConfig => v
    case Unmarshal => v
  }

  function Replay(v: Viper, calls: seq<Call>): Viper
    decreases |calls|
  {
    if |calls| == 0 then v else Replay(Apply(v, calls[0]), calls[1..])
  }

  /** What becomes of one character of a key in its variable's name. */
  function EnvChar(v: Viper, c: char): char {
    match v.keyReplacer
    case Some((from, to)) => if UpperChar(c) == from then to else UpperChar(c)
    case None => UpperChar(c)
  }

  /** The environment variable consulted for `key`: prefix, `_`, key,
      upper-cased, then the replacer applied. The key's characters come
      after the prefix, one for one. */
  function EnvKey(v: Viper, key: string): (name: string)
    ensures var pre := if v.envPrefix != "" then |v.envPrefix| + 1 else 0;
      && |name| == pre + |key|
      && forall i :: 0 <= i < |key| ==> name[pre + i] == EnvChar(v, key[i])
  {
    var merged := if v.envPrefix != "" then ToUpper(v.envPrefix + "_" + key) else ToUpper(key);
    match v.keyReplacer
    case Some((from, to)) => ReplaceChar(merged, from, to)
    case None => merged
  }

  lemma EnvCharInjective(v: Viper, c: char, d: char)
    requires v.keyReplacer == Some(('.', '_'))
    requires PlainChar(c) && PlainChar(d) && EnvChar(v, c) == EnvChar(v, d)
    ensures c == d
  {
  }

  /** Under the replacer '.' to '_', two plain keys never share a variable. */
  lemma EnvKeyInjective(v: Viper, a: string, b: string)
    requires v.keyReplacer == Some(('.', '_'))
    requires PlainKey(a) && PlainKey(b) && EnvKey(v, a) == EnvKey(v, b)
    ensures a == b
  {
    var pre := if v.envPrefix != "" then |v.envPrefix| + 1 else 0;
    forall i | 0 <= i < |a|
      ensures a[i] == b[i]
    {
      assert EnvChar(v, a[i]) == EnvKey(v, a)[pre + i] == EnvChar(v, b[i]);
      EnvCharInjective(v, a[i], b[i]);
    }
  }

  /** Every setting of the defaults table is overridden by a variable of
      its own. */
  lemma DefaultsReadDistinctVariables(v: Viper, a: string, b: string)
    requires v.keyReplacer == Some(('.', '_'))
    requires a in Defaults() && b in Defaults() && a != b
    ensures EnvKey(v, a) != EnvKey(v, b)
  {
    DefaultKeysPlain();
    if EnvKey(v, a) == EnvKey(v, b) {
      EnvKeyInjective(v, a, b);
    }
  }

  /** Viper's precedence for the sources this program sets up: a non-empty
      environment variable (viper ignores empty ones unless told otherwise),
      then the file, then the defaults. */
  function Resolve(v: Viper, env: Environment, key: string): (r: Option<Value>)
    ensures r.Some? <==> (v.automaticEnv && OsGetenv(env, EnvKey(v, key)) != "") || key in v.config || key in v.defaults
  {
    var fromEnv := OsGetenv(env, EnvKey(v, key));
    if v.automaticEnv && fromEnv != "" then Some(Str(fromEnv))
    else if key in v.config then Some(v.config[key])
    else if key in v.defaults then Some(v.defaults[key])
    else None
  }

  /** `AllSettings`: every key the file or the defaults know, resolved;
      this is what `Unmarshal` decodes. */
  function AllSettings(v: Viper, env: Environment): (m: map<string, Value>)
    ensures m.Keys == v.config.Keys + v.defaults.Keys
  {
    map k | k in v.config.Keys + v.defaults.Keys :: Resolve(v, env, k).value
  }

  // ---------------------------------------------------------------------
  // prepare

  const ConfigVariable := "CRM_CONFIG"
  const UnsupportedExtension := "configuration does not support that extension type"

  /** The four words the pattern `((y(a)?ml)|json|toml)` matches whole. */
  predicate IsExtensionWord(t: string) {
    t == "yml" || t == "yaml" || t == "json" || t == "toml"
  }

  /** The pattern `((y(a)?ml)|json|toml)$` finds a match in `base`: it is
      anchored only at the end, so some suffix must be one of the words. */
  predicate ExtensionPatternMatches(base: string) {
    exists i :: 0 <= i <= |base| && IsExtensionWord(base[i..])
  }

  predicate HasSupportedExtension(base: string) {
    HasSuffix(base, "yml") || HasSuffix(base, "yaml") || HasSuffix(base, "json") || HasSuffix(base, "toml")
  }

  /** A string ends in `w` exactly when its suffix of that length is `w`. */
  lemma SuffixIsTail(base: string, w: string)
    ensures HasSuffix(base, w) <==> exists i :: 0 <= i <= |base| && base[i..] == w
  {
    if exists i :: 0 <= i <= |base| && base[i..] == w {
      var i :| 0 <= i <= |base| && base[i..] == w;
      assert |base[i..]| == |base| - i;
    }
    if HasSuffix(base, w) {
      assert base[|base| - |w|..] == w;
    }
  }

  /** The pattern accepts a name exactly when it ends in one of the four
      words, case-sensitively, with or without a dot before it. */
  lemma PatternIsSuffixTest(base: string)
    ensures ExtensionPatternMatches(base) <==> HasSupportedExtension(base)
  {
    SuffixIsTail(base, "yml");
    SuffixIsTail(base, "yaml");
    SuffixIsTail(base, "json");
    SuffixIsTail(base, "toml");
  }

  /** `strings.Split` at every dot, all pieces but the last joined back as
      the configuration name and the last piece taken as its type. */
  function SplitExtension(base: string): (r: (string, string))
    ensures '.' !in r.1
    ensures '.' in base ==> r.0 + "." + r.1 == base
    ensures '.' !in base ==> r.0 == "" && r.1 == base
  {
    var parts := Split(base, '.');
    SplitPiecesLackSeparator(base, '.');
    JoinSplit(base, '.');
    SplitSingle(base, '.');
    if |parts| >= 2 then
      JoinLast(parts, '.');
      (Join(parts[..|parts| - 1], '.'), parts[|parts| - 1])
    else
      (Join(parts[..|parts| - 1], '.'), parts[|parts| - 1])
  }

  /** After the dot of `x + "." + y`, with no dot in `y`, there is no dot. */
  lemma NoDotAfter(x: string, y: string)
    requires '.' !in y
    ensures forall j :: |x| < j < |x + "." + y| ==> (x + "." + y)[j] != '.'
  {
    var s := x + "." + y;
    forall j | |x| < j < |s|
      ensures s[j] != '.'
    {
      assert s[j] == y[j - |x| - 1];
    }
  }

  /** A string has at most one way of being written `a + "." + b` with no
      dot in `b`. */
  lemma LastDotUnique(a: string, b: string, x: string, y: string)
    requires a + "." + b == x + "." + y
    requires '.' !in b && '.' !in y
    ensures a == x && b == y
  {
    var s := a + "." + b;
    NoDotAfter(a, b);
    NoDotAfter(x, y);
    assert s[|a|] == '.' && s[|x|] == '.';
    assert |a| == |x|;
    assert a == s[..|a|];
    assert x == s[..|x|];
    assert b == s[|a| + 1..];
    assert y == s[|x| + 1..];
  }

  /** The split is the one at the last dot: any way of writing the name as
      `a + "." + b` with no dot in `b` is the split. */
  lemma SplitExtensionIsLastDot(base: string, a: string, b: string)
    requires a + "." + b == base && '.' !in b
    ensures SplitExtension(base) == (a, b)
  {
    assert base[|a|] == '.';
    var (x, y) := SplitExtension(base);
    LastDotUnique(a, b, x, y);
  }

  /** The search used when no file is named: "crm" in `.`, then
      `<home>/.config/crm`, then `/etc/crm`. */
  function SearchCalls(home: string): seq<Call> {
    [SetConfigName("crm"), AddConfigPath("."), AddConfigPath(home + "/.config/crm"), AddConfigPath("/etc/crm")]
  }

  /** The calls made for an explicitly named file. */
  function ExplicitCalls(file: string): seq<Call> {
    var (name, ext) := SplitExtension(FilePath.Base(file));
    [SetConfigName(name), SetConfigType(ext), SetConfigFile(file), AddConfigPath(FilePath.Dir(file))]
  }

  /** `prepare`: the calls it makes on a fresh instance, or its error. */
  function Prepare(env: Environment, home: Result<string, string>): (r: Result<seq<Call>, string>)
    ensures home.Failure? ==> r == Failure(home.error)
    ensures home.Success? && OsGetenv(env, ConfigVariable) == "" ==> r == Success(SearchCalls(home.value))
    ensures home.Success? && OsGetenv(env, ConfigVariable) != "" ==>
      (r.Success? <==> HasSupportedExtension(FilePath.Base(OsGetenv(env, ConfigVariable))))
    ensures home.Success? && r.Failure? ==> r.error == UnsupportedExtension
    ensures home.Success? && r.Success? && OsGetenv(env, ConfigVariable) != "" ==>
      var file := OsGetenv(env, ConfigVariable);
      var base := FilePath.Base(file);
      && |r.value| == 4
      && r.value[0].SetConfigName? && r.value[1].SetConfigType?
      && r.value[2] == SetConfigFile(file)
      && r.value[3] == AddConfigPath(FilePath.Dir(file))
      && '.' !in r.value[1].ext
      && ('.' in base ==> r.value[0].name + "." + r.value[1].ext == base)
      && ('.' !in base ==> r.value[0].name == "" && r.value[1].ext == base)
  {
    match home
    case Failure(e) => Failure(e)
    case Success(dir) =>
      var file := OsGetenv(env, ConfigVariable);
      if file == "" then Success(SearchCalls(dir))
      else
        var base := FilePath.Base(file);
        PatternIsSuffixTest(base);
        if ExtensionPatternMatches(base) then Success(ExplicitCalls(file))
        else Failure(UnsupportedExtension)
  }

  lemma Regroup(dir: string, name: string, ext: string)
    ensures dir + "/" + name + "." + ext == dir + "/" + (name + "." + ext)
  {
  }

  /** The base name of `dir/name.ext` is `name.ext`, it has a dot, and it
      passes the extension test when `ext` is one of the four words. */
  lemma BaseOfConfigFile(dir: string, name: string, ext: string)
    requires '/' !in name && '/' !in ext && '.' !in ext && IsExtensionWord(ext)
    ensures var base := name + "." + ext;
      && FilePath.Base(dir + "/" + name + "." + ext) == base
      && '.' in base
      && HasSupportedExtension(base)
  {
    var base := name + "." + ext;
    Regroup(dir, name, ext);
    assert '/' !in base by {
      forall i | 0 <= i < |base|
        ensures base[i] != '/'
      {
        if i < |name| { assert base[i] == name[i]; }
        else if i > |name| { assert base[i] == ext[i - |name| - 1]; }
      }
    }
    FilePath.BaseOfLastElement(dir, base);
    WordIsSupportedSuffix(name + ".", ext);
    assert base[|name|] == '.';
  }

  /** A name ending in one of the four words passes the extension test. */
  lemma WordIsSupportedSuffix(stem: string, ext: string)
    requires IsExtensionWord(ext)
    ensures HasSupportedExtension(stem + ext)
  {
    var base := stem + ext;
    assert base[|base| - |ext|..] == ext;
    if ext == "yml" {
      assert HasSuffix(base, "yml");
    } else if ext == "yaml" {
      assert HasSuffix(base, "yaml");
    } else if ext == "json" {
      assert HasSuffix(base, "json");
    } else {
      assert HasSuffix(base, "toml");
    }
  }

  /** A file `dir/name.ext` named in `CRM_CONFIG`, with `ext` one of the
      four words, is read as configuration name `name` of type `ext`, from
      that file, with `dir`, cleaned, added to the search path ("/" when
      `dir` is ""). */
  lemma ExplicitFileCalls(env: Environment, home: string, dir: string, name: string, ext: string)
    requires '/' !in name && '/' !in ext && '.' !in ext && IsExtensionWord(ext)
    requires ConfigVariable in env && env[ConfigVariable] == dir + "/" + name + "." + ext
    ensures var file := dir + "/" + name + "." + ext;
      Prepare(env, Success(home)) ==
        Success([SetConfigName(name), SetConfigType(ext), SetConfigFile(file), AddConfigPath(FilePath.Clean(dir + "/"))])
    ensures dir != "" ==> FilePath.Clean(dir + "/") == FilePath.Clean(dir)
  {
    BaseOfConfigFile(dir, name, ext);
    Regroup(dir, name, ext);
    FilePath.DirOfJoin(dir, name + "." + ext);
    var r := Prepare(env, Success(home));
    LastDotUnique(r.value[0].name, r.value[1].ext, name, ext);
    assert r.value[0] == SetConfigName(name) && r.value[1] == SetConfigType(ext);
  }

  /** For instance `/etc/crm/crm.yaml` is read as "crm" of type "yaml",
      and "/etc/crm" is searched. */
  lemma ExplicitFileExample(home: string)
    ensures Prepare(map[ConfigVariable := "/etc/crm/crm.yaml"], Success(home)) ==
      Success([SetConfigName("crm"), SetConfigType("yaml"), SetConfigFile("/etc/crm/crm.yaml"),
               AddConfigPath("/etc/crm")])
  {
    assert "/etc/crm" + "/" + "crm" + "." + "yaml" == "/etc/crm/crm.yaml";
    ExplicitFileCalls(map[ConfigVariable := "/etc/crm/crm.yaml"], home, "/etc/crm", "crm", "yaml");
    EtcCrmIsClean();
  }

  lemma EtcCrmIsClean()
    ensures FilePath.Clean("/etc/crm") == "/etc/crm"
  {
    EtcCrmPieces();
    FilePath.CleanOfCleanPath("etc/crm");
    assert "/" + "etc/crm" == "/etc/crm";
  }

  lemma EtcCrmPieces()
    ensures Split("etc/crm", '/') == ["etc", "crm"]
  {
    assert "etc" + ['/'] + "crm" == "etc/crm";
    SplitFirst("etc", "crm", '/');
    SplitSingle("crm", '/');
  }

  lemma ReplayFour(v: Viper, a: Call, b: Call, c: Call, d: Call)
    ensures Replay(v, [a, b, c, d]) == Apply(Apply(Apply(Apply(v, a), b), c), d)
  {
    var v1 := Apply(v, a);
    var v2 := Apply(v1, b);
    var v3 := Apply(v2, c);
    assert [a, b, c, d][1..] == [b, c, d] && [b, c, d][1..] == [c, d] && [c, d][1..] == [d];
    assert Replay(v, [a, b, c, d]) == Replay(v1, [b, c, d]);
    assert Replay(v1, [b, c, d]) == Replay(v2, [c, d]);
    assert Replay(v2, [c, d]) == Replay(v3, [d]);
    assert Replay(v3, [d]) == Replay(Apply(v3, d), []);
  }

  /** What `prepare`'s calls leave in a fresh instance: with `CRM_CONFIG`
      unset, the name "crm", no file, and the three directories to search;
      otherwise the named file, which is then read whatever name was set. */
  lemma PreparedInstance(env: Environment, home: string)
    requires Prepare(env, Success(home)).Success?
    ensures var v := Replay(NewViper, Prepare(env, Success(home)).value);
      && (OsGetenv(env, ConfigVariable) == "" ==>
            && v.configName == "crm" && v.configFile == ""
            && v.configPaths == [".", home + "/.config/crm", "/etc/crm"])
      && (OsGetenv(env, ConfigVariable) != "" ==> v.configFile == OsGetenv(env, ConfigVariable))
  {
    var calls := Prepare(env, Success(home)).value;
    ReplayFour(NewViper, calls[0], calls[1], calls[2], calls[3]);
    assert calls == [calls[0], calls[1], calls[2], calls[3]];
    if OsGetenv(env, ConfigVariable) == "" {
      assert |home + "/.config/crm"| != |"."| && |home + "/.config/crm"| != |"/etc/crm"|;
    }
  }

  /** A bare file name without one of the four words at its end is refused. */
  lemma RejectedName(env: Environment, home: string, file: string)
    requires env == map[ConfigVariable := file]
    requires file != "" && '/' !in file && !HasSupportedExtension(file)
    ensures Prepare(env, Success(home)) == Failure(UnsupportedExtension)
  {
    FilePath.BaseOfLastElement("", file);
  }

  /** The extension test is case-sensitive and closed: `.YAML` and `.ini`
      are refused. */
  lemma RejectedExtensionExamples(home: string)
    ensures Prepare(map[ConfigVariable := "crm.YAML"], Success(home)) == Failure(UnsupportedExtension)
    ensures Prepare(map[ConfigVariable := "crm.ini"], Success(home)) == Failure(UnsupportedExtension)
  {
    UnsupportedNames();
    RejectedName(map[ConfigVariable := "crm.YAML"], home, "crm.YAML");
    RejectedName(map[ConfigVariable := "crm.ini"], home, "crm.ini");
  }

  lemma UnsupportedNames()
    ensures !HasSupportedExtension("crm.YAML") && '/' !in "crm.YAML"
    ensures !HasSupportedExtension("crm.ini") && '/' !in "crm.ini"
  {
  }

  /** A bare name with no dot is accepted when it ends in one of the words;
      the whole name then becomes the type and the configuration name is "". */
  lemma DotlessName(env: Environment, home: string, file: string)
    requires env == map[ConfigVariable := file]
    requires file != "" && '/' !in file && '.' !in file && HasSupportedExtension(file)
    ensures var r := Prepare(env, Success(home));
      r.Success? && r.value[0] == SetConfigName("") && r.value[1] == SetConfigType(file)
  {
    FilePath.BaseOfLastElement("", file);
  }

  /** For instance "crmtoml" is read as type "crmtoml" under the name "". */
  lemma DotlessNameExample(home: string)
    ensures var r := Prepare(map[ConfigVariable := "crmtoml"], Success(home));
      r.Success? && r.value[0] == SetConfigName("") && r.value[1] == SetConfigType("crmtoml")
  {
    assert HasSuffix("crmtoml", "toml") && '/' !in "crmtoml" && '.' !in "crmtoml";
    DotlessName(map[ConfigVariable := "crmtoml"], home, "crmtoml");
  }

  // ---------------------------------------------------------------------
  // loadConfig

  const EnvPrefix := "CRM"

  /** The calls `loadConfig` makes once the file has been read. */
  function AfterRead(defaults: map<string, Value>): seq<Call> {
    [SetEnvPrefix(EnvPrefix), SetEnvKeyReplacer('.', '_'), AutomaticEnv, SetDefaults(defaults)]
  }

  /** How `loadConfig` ends: the decoded configuration with the instance and
      the calls that produced it, or the first error with the calls made
      before it. */
  datatype Load =
    | Loaded(config: Config, viper: Viper, calls: seq<Call>)
    | LoadFailed(error: string, calls: seq<Call>)

  /** `loadConfig(c, defaults)`. `home` is what the home-directory lookup
      returns, `read` what `ReadInConfig` finds for the instance prepared so
      far, and `unmarshal` what decoding the resolved settings gives. */
  function LoadConfig(
    defaults: map<string, Value>,
    env: Environment,
    home: Result<string, string>,
    read: Viper -> Result<map<string, Value>, string>,
    unmarshal: map<string, Value> -> Result<Config, string>): (r: Load)
    ensures Prepare(env, home).Failure? ==> r == LoadFailed(Prepare(env, home).error, [])
    ensures Prepare(env, home).Success? ==> |r.calls| >= |Prepare(env, home).value| + 1
    ensures Prepare(env, home).Success? ==> r.calls[..|Prepare(env, home).value|] == Prepare(env, home).value
    ensures Prepare(env, home).Success? ==> r.calls[|Prepare(env, home).value|] == ReadInConfig
  {
    match Prepare(env, home)
    case Failure(e) => LoadFailed(e, [])
    case Success(setup) =>
      var prepared := Replay(NewViper, setup);
      match read(prepared)
      case Failure(e) => LoadFailed(e, setup + [ReadInConfig])
      case Success(values) =>
        var v := Replay(prepared.(config := values), AfterRead(defaults));
        var calls := setup + [ReadInConfig] + AfterRead(defaults) + [Unmarshal];
        assert calls[..|setup|] == setup;
        match unmarshal(AllSettings(v, env))
        case Failure(e) => LoadFailed(e, calls)
        case Success(c) => Loaded(c, v, calls)
  }

  /** The steps after the read leave the prefix, the replacer, automatic
      environment lookup and the defaults in place, and keep what was read. */
  lemma AfterReadSetsUp(v: Viper, defaults: map<string, Value>)
    requires v.defaults == map[]
    ensures var w := Replay(v, AfterRead(defaults));
      && w.envPrefix == EnvPrefix
      && w.keyReplacer == Some(('.', '_'))
      && w.automaticEnv
      && w.defaults == defaults
      && w.config == v.config
  {
    var calls := AfterRead(defaults);
    var v1 := Apply(v, calls[0]);
    var v2 := Apply(v1, calls[1]);
    var v3 := Apply(v2, calls[2]);
    var v4 := Apply(v3, calls[3]);
    assert Replay(v, calls) == Replay(v1, calls[1..]);
    assert Replay(v1, calls[1..]) == Replay(v2, calls[2..]);
    assert Replay(v2, calls[2..]) == Replay(v3, calls[3..]);
    assert Replay(v3, calls[3..]) == Replay(v4, calls[4..]);
    assert calls[4..] == [];
    assert v4.defaults == map[] + defaults;
  }

  /** Calls other than `SetDefaults` leave the defaults alone. */
  lemma {:induction false} ReplayKeepsDefaults(v: Viper, calls: seq<Call>)
    requires forall i :: 0 <= i < |calls| ==> !calls[i].SetDefaults?
    ensures Replay(v, calls).defaults == v.defaults
    decreases |calls|
  {
    if |calls| > 0 {
      ReplayKeepsDefaults(Apply(v, calls[0]), calls[1..]);
    }
  }

  /** `prepare` only names the file and the places to look for it. */
  lemma PrepareSetsUpOnly(env: Environment, home: Result<string, string>)
    requires Prepare(env, home).Success?
    ensures forall i :: 0 <= i < |Prepare(env, home).value| ==>
      var c := Prepare(env, home).value[i];
      c.SetConfigName? || c.SetConfigType? || c.SetConfigFile? || c.AddConfigPath?
  {
    var calls := Prepare(env, home).value;
    if OsGetenv(env, ConfigVariable) == "" {
      assert calls == SearchCalls(home.value);
    }
    assert |calls| == 4;
    forall i | 0 <= i < |calls|
      ensures calls[i].SetConfigName? || calls[i].SetConfigType? || calls[i].SetConfigFile? || calls[i].AddConfigPath?
    {
      if i == 0 {
        assert calls[0].SetConfigName?;
      } else if i == 1 {
        assert calls[1].SetConfigType? || calls[1].AddConfigPath?;
      } else if i == 2 {
        assert calls[2].SetConfigFile? || calls[2].AddConfigPath?;
      } else {
        assert calls[3].AddConfigPath?;
      }
    }
  }

  /** `prepare` never registers a default. */
  lemma PrepareLeavesDefaultsEmpty(env: Environment, home: Result<string, string>)
    requires Prepare(env, home).Success?
    ensures Replay(NewViper, Prepare(env, home).value).defaults == map[]
  {
    PrepareSetsUpOnly(env, home);
    ReplayKeepsDefaults(NewViper, Prepare(env, home).value);
  }

  /** A failed read ends `loadConfig` with that error before the prefix,
      the replacer or any default is registered. */
  lemma ReadFailureRegistersNoDefault(
    defaults: map<string, Value>, env: Environment, home: Result<string, string>,
    read: Viper -> Result<map<string, Value>, string>,
    unmarshal: map<string, Value> -> Result<Config, string>)
    requires Prepare(env, home).Success?
    requires read(Replay(NewViper, Prepare(env, home).value)).Failure?
    ensures var r := LoadConfig(defaults, env, home, read, unmarshal);
      && r.LoadFailed?
      && r.error == read(Replay(NewViper, Prepare(env, home).value)).error
      && r.calls[|r.calls| - 1] == ReadInConfig
      && forall i :: 0 <= i < |r.calls| ==> !r.calls[i].SetDefaults? && !r.calls[i].AutomaticEnv?
  {
    var setup := Prepare(env, home).value;
    PrepareSetsUpOnly(env, home);
    var r := LoadConfig(defaults, env, home, read, unmarshal);
    assert r.calls == setup + [ReadInConfig];
    forall i | 0 <= i < |r.calls|
      ensures !r.calls[i].SetDefaults? && !r.calls[i].AutomaticEnv?
    {
      if i < |setup| {
        assert r.calls[i] == setup[i];
      }
    }
  }

  /** After a successful load the instance looks variables up under the
      prefix `CRM` with dots turned into underscores, and the configuration
      is what decoding the resolved settings gave. */
  lemma LoadedSetup(
    defaults: map<string, Value>, env: Environment, home: Result<string, string>,
    read: Viper -> Result<map<string, Value>, string>,
    unmarshal: map<string, Value> -> Result<Config, string>,
    key: string)
    requires LoadConfig(defaults, env, home, read, unmarshal).Loaded?
    ensures var r := LoadConfig(defaults, env, home, read, unmarshal);
      && r.viper.automaticEnv
      && r.viper.defaults == defaults
      && r.viper.config == read(Replay(NewViper, Prepare(env, home).value)).value
      && EnvKey(r.viper, key) == ReplaceChar(ToUpper("CRM_" + key), '.', '_')
      && unmarshal(AllSettings(r.viper, env)) == Success(r.config)
  {
    var setup := Prepare(env, home).value;
    PrepareLeavesDefaultsEmpty(env, home);
    var prepared := Replay(NewViper, setup);
    var values := read(prepared).value;
    var v := Replay(prepared.(config := values), AfterRead(defaults));
    assert LoadConfig(defaults, env, home, read, unmarshal).viper == v;
    AfterReadSetsUp(prepared.(config := values), defaults);
    PrefixedKey(key);
  }

  lemma PrefixedKey(key: string)
    ensures EnvPrefix + "_" + key == "CRM_" + key
  {
  }

  /** After a successful load a key the environment does not set (or sets
      to "") and the file does not hold resolves to its default. */
  lemma LoadedFallsBackToDefault(
    defaults: map<string, Value>, env: Environment, home: Result<string, string>,
    read: Viper -> Result<map<string, Value>, string>,
    unmarshal: map<string, Value> -> Result<Config, string>,
    key: string)
    requires LoadConfig(defaults, env, home, read, unmarshal).Loaded?
    requires key in defaults
    requires key !in LoadConfig(defaults, env, home, read, unmarshal).viper.config
    requires OsGetenv(env, ReplaceChar(ToUpper("CRM_" + key), '.', '_')) == ""
    ensures var r := LoadConfig(defaults, env, home, read, unmarshal);
      && Resolve(r.viper, env, key) == Some(defaults[key])
      && key in AllSettings(r.viper, env)
      && AllSettings(r.viper, env)[key] == defaults[key]
  {
    LoadedSetup(defaults, env, home, read, unmarshal, key);
    var r := LoadConfig(defaults, env, home, read, unmarshal);
    ResolveFallsBack(r.viper, env, key);
  }

  lemma ResolveFallsBack(v: Viper, env: Environment, key: string)
    requires key in v.defaults && key !in v.config
    requires OsGetenv(env, EnvKey(v, key)) == ""
    ensures Resolve(v, env, key) == Some(v.defaults[key])
    ensures key in AllSettings(v, env) && AllSettings(v, env)[key] == v.defaults[key]
  {
    assert key in v.config.Keys + v.defaults.Keys;
  }

  /** After a successful load a non-empty `CRM_...` variable beats both the
      file and the default. */
  lemma LoadedEnvironmentWins(
    defaults: map<string, Value>, env: Environment, home: Result<string, string>,
    read: Viper -> Result<map<string, Value>, string>,
    unmarshal: map<string, Value> -> Result<Config, string>,
    key: string)
    requires LoadConfig(defaults, env, home, read, unmarshal).Loaded?
    requires OsGetenv(env, ReplaceChar(ToUpper("CRM_" + key), '.', '_')) != ""
    ensures var r := LoadConfig(defaults, env, home, read, unmarshal);
      Resolve(r.viper, env, key) == Some(Str(env[ReplaceChar(ToUpper("CRM_" + key), '.', '_')]))
  {
    LoadedSetup(defaults, env, home, read, unmarshal, key);
  }

  lemma UpperCorsOrigins()
    ensures ToUpper("CRM_cors.allow-origins") == "CRM_CORS.ALLOW-ORIGINS"
  {
    var s := "CRM_cors.allow-origins";
    var u := "CRM_CORS.ALLOW-ORIGINS";
    forall i | 0 <= i < |s|
      ensures UpperChar(s[i]) == u[i]
    {
    }
  }

  lemma ReplaceCorsOrigins()
    ensures ReplaceChar("CRM_CORS.ALLOW-ORIGINS", '.', '_') == "CRM_CORS_ALLOW-ORIGINS"
  {
    var u := "CRM_CORS.ALLOW-ORIGINS";
    var t := "CRM_CORS_ALLOW-ORIGINS";
    forall i | 0 <= i < |u|
      ensures (if u[i] == '.' then '_' else u[i]) == t[i]
    {
    }
  }

  /** The key `cors.allow-origins` is overridden by `CRM_CORS_ALLOW-ORIGINS`. */
  lemma CorsOriginsEnvKey(v: Viper)
    requires v.envPrefix == EnvPrefix && v.keyReplacer == Some(('.', '_'))
    ensures EnvKey(v, "cors.allow-origins") == "CRM_CORS_ALLOW-ORIGINS"
  {
    assert EnvPrefix + "_" + "cors.allow-origins" == "CRM_cors.allow-origins";
    UpperCorsOrigins();
    ReplaceCorsOrigins();
  }

  /** With the default "*", a file saying "https://a" and the environment
      saying "https://b", the resolved origin list is "https://b"; without
      the variable it is the file's, and without the file's entry the
      default. */
  lemma PrecedenceExample(v: Viper, env: Environment)
    requires v.automaticEnv && v.envPrefix == EnvPrefix && v.keyReplacer == Some(('.', '_'))
    requires v.defaults == Defaults()
    requires v.config == map["cors.allow-origins" := Str("https://a")]
    ensures Resolve(v, map["CRM_CORS_ALLOW-ORIGINS" := "https://b"], "cors.allow-origins") == Some(Str("https://b"))
    ensures Resolve(v, map[], "cors.allow-origins") == Some(Str("https://a"))
    ensures Resolve(v.(config := map[]), map[], "cors.allow-origins") == Some(Str("*"))
  {
    CorsOriginsEnvKey(v);
    CorsOriginsEnvKey(v.(config := map[]));
  }

  // ---------------------------------------------------------------------
  // GetConfig

  /** The package-level `instance`: empty until the first successful load. */
  datatype Store = Store(instance: Option<Config>)

  const EmptyStore := Store(None)

  /** One call of `GetConfig`: how it ends, the store after it, and whether
      it ran the loader. */
  datatype Access = Access(exit: Exit<Config>, store: Store, loaderRan: bool)

  function FatalMessage(err: string): string {
    "error reading config file: " + err + "\n"
  }

  /** `GetConfig`, with `load` what `loadConfig` would return if run now. */
  function GetConfig(s: Store, load: Load): (a: Access)
    ensures a.loaderRan <==> s.instance.None?
    ensures s.instance.Some? ==> a.exit == Done(s.instance.value) && a.store == s
    ensures s.instance.None? && load.Loaded? ==> a.exit == Done(load.config) && a.store == Store(Some(load.config))
    ensures s.instance.None? && load.LoadFailed? ==> a.exit == Fatal(FatalMessage(load.error))
  {
    match s.instance
    case Some(c) => Access(Done(c), s, false)
    case None =>
      match load
      case Loaded(c, _, _) => Access(Done(c), Store(Some(c)), true)
      case LoadFailed(e, _) => Access(Fatal(FatalMessage(e)), s, true)
  }

  /** The first `GetConfig` of the process runs `loadConfig` with the
      package defaults: a failed home lookup or read ends the process with
      that error and caches nothing; otherwise the decoded configuration is
      returned and cached, decoded from an instance holding the package
      defaults and what was read. */
  lemma FirstGetConfig(
    env: Environment, home: Result<string, string>,
    read: Viper -> Result<map<string, Value>, string>,
    unmarshal: map<string, Value> -> Result<Config, string>)
    ensures var a := GetConfig(EmptyStore, LoadConfig(Defaults(), env, home, read, unmarshal));
      && a.loaderRan
      && (Prepare(env, home).Failure? ==>
            a.exit == Fatal(FatalMessage(Prepare(env, home).error)) && a.store == EmptyStore)
      && (Prepare(env, home).Success? && read(Replay(NewViper, Prepare(env, home).value)).Failure? ==>
            a.exit == Fatal(FatalMessage(read(Replay(NewViper, Prepare(env, home).value)).error))
            && a.store == EmptyStore)
      && (a.exit.Done? ==>
            var l := LoadConfig(Defaults(), env, home, read, unmarshal);
            && l.Loaded?
            && a.store == Store(Some(a.exit.value))
            && l.viper.defaults == Defaults()
            && l.viper.config == read(Replay(NewViper, Prepare(env, home).value)).value
            && unmarshal(AllSettings(l.viper, env)) == Success(a.exit.value))
  {
    var l := LoadConfig(Defaults(), env, home, read, unmarshal);
    if Prepare(env, home).Success? && read(Replay(NewViper, Prepare(env, home).value)).Failure? {
      ReadFailureRegistersNoDefault(Defaults(), env, home, read, unmarshal);
    }
    if l.Loaded? {
      LoadedSetup(Defaults(), env, home, read, unmarshal, "");
    }
  }

  /** A run of successive `GetConfig` calls: what they returned, the fatal
      message that ended the process if one did, the final store, and how
      many calls ran the loader. */
  datatype Run = Run(returned: seq<Config>, fatal: Option<string>, store: Store, loaderRuns: nat)

  /** `loads[i]` is what `loadConfig` would return at the i-th call; the
      process stops at the first fatal call. */
  function Calls(s: Store, loads: seq<Load>): Run
    decreases |loads|
  {
    if |loads| == 0 then Run([], None, s, 0)
    else
      var a := GetConfig(s, loads[0]);
      var ran := if a.loaderRan then 1 else 0;
      if a.exit.Done? then
        var rest := Calls(a.store, loads[1..]);
        Run([a.exit.value] + rest.returned, rest.fatal, rest.store, rest.loaderRuns + ran)
      else
        Run([], Some(a.exit.message), a.store, ran)
  }

  /** Once an instance is cached, every later call returns it and none runs
      the loader, whatever the loader would have done. */
  lemma {:induction false} CachedInstanceIsStable(c: Config, loads: seq<Load>)
    ensures var r := Calls(Store(Some(c)), loads);
      && r.loaderRuns == 0
      && r.fatal == None
      && r.store == Store(Some(c))
      && |r.returned| == |loads|
      && forall i :: 0 <= i < |r.returned| ==> r.returned[i] == c
    decreases |loads|
  {
    if |loads| > 0 {
      CachedInstanceIsStable(c, loads[1..]);
    }
  }

  /** From an empty store, the loader runs on the first call and never again:
      either it fails and the process ends, or every call returns the one
      configuration it loaded. */
  lemma LoaderRunsOnce(loads: seq<Load>)
    requires |loads| > 0
    ensures var r := Calls(EmptyStore, loads);
      && r.loaderRuns == 1
      && (loads[0].LoadFailed? ==> r.returned == [] && r.fatal == Some(FatalMessage(loads[0].error)))
      && (loads[0].Loaded? ==>
            && r.fatal == None
            && r.store == Store(Some(loads[0].config))
            && |r.returned| == |loads|
            && forall i :: 0 <= i < |r.returned| ==> r.returned[i] == loads[0].config)
  {
    if loads[0].Loaded? {
      CachedInstanceIsStable(loads[0].config, loads[1..]);
    }
  }
}
