/**
 * Configuration lookup with three levels of priority: the web application's
 * config (when an application context exists), then the process environment,
 * then a default. The derived getters supply the defaults, several of them
 * relative to the installation directory.
 */
module Config {
  import opened Optional
  import opened Text

  /** What `has_app_context()` and `current_app.config` offer at the time of a lookup. */
  datatype AppContext =
    | NoAppContext
      /** A context is reported, but reading `current_app.config` raises `RuntimeError`. */
    | BrokenAppContext
      /** The application config; a key bound to `None` maps to `None` here. */
    | AppConfig(config: map<string, Option<string>>)

  /** The process environment (`os.environ`). */
  type Env = map<string, string>

  /** `current_app.config.get(key)` where a context can be read, otherwise nothing. */
  function AppValue(ctx: AppContext, key: string): Option<string>
  {
    match ctx
    case AppConfig(config) => if key in config then config[key] else None
    case _ => None
  }

  /** `get_config_value(key, default)`: app config, then environment, then default. */
  function GetConfigValue(ctx: AppContext, env: Env, key: string, default: Option<string>): (r: Option<string>)
    // App config wins whenever it holds a non-None value for the key.
    ensures ctx.AppConfig? && key in ctx.config && ctx.config[key].Some? ==> r == ctx.config[key]
    // Otherwise the environment decides, even when it holds the empty string.
    ensures AppValue(ctx, key).None? && key in env ==> r == Some(env[key])
    // Only with neither does the default apply.
    ensures AppValue(ctx, key).None? && key !in env ==> r == default
    ensures default.Some? ==> r.Some?
  {
    var app := AppValue(ctx, key);
    if app.Some? then app
    else if key in env then Some(env[key])
    else default
  }

  /** Neither the app config nor the environment sets `key`. */
  predicate Unset(ctx: AppContext, env: Env, key: string)
  {
    AppValue(ctx, key).None? && key !in env
  }

  /** `str(Path(dir) / name)` for a directory already normalised by `Path.resolve()`. */
  function JoinPath(dir: string, name: string): (r: string)
    ensures EndsWith(r, name)
    ensures dir != "" && !EndsWith(dir, "/") ==> r == dir + "/" + name
  {
    if dir == "" then name
    else if EndsWith(dir, "/") then dir + name
    else dir + "/" + name
  }

  /** A getter with a string default never yields `None`. */
  function GetOrDefault(ctx: AppContext, env: Env, key: string, default: string): (r: string)
    ensures Unset(ctx, env, key) ==> r == default
    ensures AppValue(ctx, key).None? && key in env ==> r == env[key]
  {
    GetConfigValue(ctx, env, key, Some(default)).value
  }

  function GetMemesDir(ctx: AppContext, env: Env, installDir: string): string
  {
    GetOrDefault(ctx, env, "MEMES_DIR", JoinPath(installDir, "files"))
  }

  function GetDbPath(ctx: AppContext, env: Env, installDir: string): string
  {
    GetOrDefault(ctx, env, "DB_PATH", JoinPath(installDir, "memelet.db"))
  }

  function GetLogDir(ctx: AppContext, env: Env, installDir: string): string
  {
    GetOrDefault(ctx, env, "LOG_DIR", JoinPath(installDir, "logs"))
  }

  function GetVenvDir(ctx: AppContext, env: Env, installDir: string): string
  {
    GetOrDefault(ctx, env, "VENV_DIR", JoinPath(installDir, "venv"))
  }

  function GetScriptDir(ctx: AppContext, env: Env, installDir: string): string
  {
    GetOrDefault(ctx, env, "SCRIPT_DIR", installDir)
  }

  function GetBaseUrl(ctx: AppContext, env: Env): string
  {
    GetOrDefault(ctx, env, "BASE_URL", "http://localhost:5000")
  }

  /** The default for the file URL base is derived from the (possibly overridden) base URL. */
  function GetMemesUrlBase(ctx: AppContext, env: Env): string
  {
    GetOrDefault(ctx, env, "MEMES_URL_BASE", GetBaseUrl(ctx, env) + "/files/")
  }

  function GetHost(ctx: AppContext, env: Env): string
  {
    GetOrDefault(ctx, env, "HOST", "127.0.0.1")
  }

  function GetTimezone(ctx: AppContext, env: Env): string
  {
    GetOrDefault(ctx, env, "TZ", "UTC")
  }

  /** `int(get_config_value('PORT', '5000'))`; `None` where `int()` raises `ValueError`. */
  function GetPort(ctx: AppContext, env: Env): Option<int>
  {
    ParseInt(GetOrDefault(ctx, env, "PORT", "5000"))
  }

  /** An unset path setting falls back to `name` inside the installation directory. */
  lemma DefaultInside(ctx: AppContext, env: Env, key: string, installDir: string, name: string)
    requires installDir != "" && !EndsWith(installDir, "/") && Unset(ctx, env, key)
    ensures GetOrDefault(ctx, env, key, JoinPath(installDir, name)) == installDir + "/" + name
  {
  }

  /** With nothing overridden, the directories sit inside the installation directory. */
  lemma DirectoryDefaults(ctx: AppContext, env: Env, installDir: string)
    requires installDir != "" && !EndsWith(installDir, "/")
    requires Unset(ctx, env, "MEMES_DIR") && Unset(ctx, env, "DB_PATH")
    requires Unset(ctx, env, "LOG_DIR") && Unset(ctx, env, "VENV_DIR")
    ensures GetMemesDir(ctx, env, installDir) == installDir + "/files"
    ensures GetDbPath(ctx, env, installDir) == installDir + "/memelet.db"
    ensures GetLogDir(ctx, env, installDir) == installDir + "/logs"
    ensures GetVenvDir(ctx, env, installDir) == installDir + "/venv"
  {
    DefaultInside(ctx, env, "MEMES_DIR", installDir, "files");
    DefaultInside(ctx, env, "DB_PATH", installDir, "memelet.db");
    DefaultInside(ctx, env, "LOG_DIR", installDir, "logs");
    DefaultInside(ctx, env, "VENV_DIR", installDir, "venv");
  }

  /** With neither URL overridden, files are served from the local development server. */
  lemma MemesUrlBaseDefault(ctx: AppContext, env: Env)
    requires Unset(ctx, env, "MEMES_URL_BASE") && Unset(ctx, env, "BASE_URL")
    ensures GetMemesUrlBase(ctx, env) == "http://localhost:5000/files/"
  {
  }

  /** Overriding only the base URL moves the file URL base with it. */
  lemma MemesUrlBaseFollowsBaseUrl(ctx: AppContext, env: Env)
    requires Unset(ctx, env, "MEMES_URL_BASE") && AppValue(ctx, "BASE_URL").None? && "BASE_URL" in env
    ensures GetMemesUrlBase(ctx, env) == env["BASE_URL"] + "/files/"
  {
  }

  /** The port defaults to 5000. */
  lemma PortDefault(ctx: AppContext, env: Env)
    requires Unset(ctx, env, "PORT")
    ensures GetPort(ctx, env) == Some(5000)
  {
    assert GetOrDefault(ctx, env, "PORT", "5000") == "5000";
    DefaultPortText();
    ParseIntToString(5000);
  }

  lemma DefaultPortText()
    ensures IntToString(5000) == "5000"
  {
    assert NatToString(5) == "5";
    assert NatToString(50) == "50";
    assert NatToString(500) == "500";
  }

  /** A port written in decimal in the environment is read back as that number. */
  lemma PortFromEnvironment(ctx: AppContext, env: Env, port: int)
    requires AppValue(ctx, "PORT").None? && "PORT" in env && env["PORT"] == IntToString(port)
    ensures GetPort(ctx, env) == Some(port)
  {
    ParseIntToString(port);
  }
}
