/**
 * Settings: where the database lives, and the process-wide settings object
 * that is built on first use.
 */
module Config {
  import opened Wrappers
  import opened Strings
  import opened Paths

  /** What a database URL without a scheme becomes: a SQLite file URL. */
  const SqlitePrefix: string := "sqlite:///"

  /** What marks a database URL as already carrying a scheme. */
  const SchemeSeparator: string := "://"

  /** The database file used when no URL is configured. */
  const DefaultDatabaseFile: string := "app.db"

  /** The values `Settings()` reads from the environment (`APP_*` variables and `.env`). */
  datatype Environment = Environment(adminToken: string, databaseUrl: Option<string>, dataDir: string)

  /** The settings object; `dataDir` is the printed form of its `data_dir` path. */
  class Settings {
    const adminToken: string
    const databaseUrl: Option<string>
    const dataDir: string

    constructor (env: Environment)
      ensures adminToken == env.adminToken && databaseUrl == env.databaseUrl && dataDir == env.dataDir
    {
      adminToken := env.adminToken;
      databaseUrl := env.databaseUrl;
      dataDir := env.dataDir;
    }
  }

  /** The SQLite URL of the file at `path`. */
  function SqliteUrl(path: string): (r: string)
    ensures StartsWith(r, SqlitePrefix) && r[|SqlitePrefix|..] == path
    ensures Contains(r, SchemeSeparator)
  {
    var r := SqlitePrefix + path;
    assert StartsWith(r[6..], SchemeSeparator);
    ContainsAt(r, SchemeSeparator, 6);
    r
  }

  /**
   * `Settings.resolved_database_url`: a configured URL with a scheme is used
   * as it is; a configured URL without one is a SQLite file path, taken
   * relative to the data directory unless absolute; with none configured the
   * database is `app.db` in the data directory.
   */
  function ResolveDatabaseUrl(databaseUrl: Option<string>, dataDir: string): (r: string)
    ensures databaseUrl != None && databaseUrl.value != [] && Contains(databaseUrl.value, SchemeSeparator) ==>
      r == databaseUrl.value
    ensures databaseUrl != None && databaseUrl.value != [] && !Contains(databaseUrl.value, SchemeSeparator) ==>
      && StartsWith(r, SqlitePrefix)
      && IsAbsolute(r[|SqlitePrefix|..]) == (IsAbsolute(databaseUrl.value) || IsAbsolute(dataDir))
      && Parts(r[|SqlitePrefix|..]) ==
         (if IsAbsolute(databaseUrl.value) then Parts(databaseUrl.value) else Parts(dataDir) + Parts(databaseUrl.value))
    ensures databaseUrl == None || databaseUrl.value == [] ==>
      && StartsWith(r, SqlitePrefix)
      && IsAbsolute(r[|SqlitePrefix|..]) == IsAbsolute(dataDir)
      && Parts(r[|SqlitePrefix|..]) == Parts(dataDir) + [DefaultDatabaseFile]
    ensures Contains(r, SchemeSeparator)
  {
    if databaseUrl != None && databaseUrl.value != [] then
      var raw := databaseUrl.value;
      if !Contains(raw, SchemeSeparator) then
        var path := if IsAbsolute(raw) then Render(raw) else JoinUnder(dataDir, raw);
        PathParts(raw, dataDir);
        SqliteUrl(path)
      else
        raw
    else
      DefaultFileParts(dataDir);
      SqliteUrl(JoinUnder(dataDir, DefaultDatabaseFile))
  }

  /** The parts of the file a scheme-less database URL names. */
  lemma PathParts(raw: string, dataDir: string)
    ensures IsAbsolute(raw) ==> Parts(Render(raw)) == Parts(raw)
    ensures !IsAbsolute(raw) ==> Parts(JoinUnder(dataDir, raw)) == Parts(dataDir) + Parts(raw)
  {
    if IsAbsolute(raw) {
      PartsOfFormat(true, Parts(raw));
    } else {
      JoinUnderParts(dataDir, raw);
    }
  }

  /** The default database file lies directly in the data directory. */
  lemma DefaultFileParts(dataDir: string)
    ensures Parts(JoinUnder(dataDir, DefaultDatabaseFile)) == Parts(dataDir) + [DefaultDatabaseFile]
  {
    JoinUnderParts(dataDir, DefaultDatabaseFile);
    SplitWithoutSep(DefaultDatabaseFile, '/');
  }

  /** The result is the configured URL itself or a SQLite URL. */
  lemma ResolvedIsRawOrSqlite(databaseUrl: Option<string>, dataDir: string)
    ensures var r := ResolveDatabaseUrl(databaseUrl, dataDir);
      (databaseUrl != None && r == databaseUrl.value) || StartsWith(r, SqlitePrefix)
  {
  }

  /** A resolved URL always has a scheme, so configuring it resolves to itself. */
  lemma ResolveIdempotent(databaseUrl: Option<string>, dataDir: string, otherDir: string)
    ensures var r := ResolveDatabaseUrl(databaseUrl, dataDir);
      ResolveDatabaseUrl(Some(r), otherDir) == r
  {
    var r := ResolveDatabaseUrl(databaseUrl, dataDir);
    assert r != [];
  }

  /**
   * `get_settings`: the module-level `_settings` slot. The settings object is
   * built from the environment on the first call and every later call
   * returns that same object.
   */
  class SettingsProvider {
    var current: Settings?
    ghost var builds: nat

    /** At most one settings object is ever built, and only when one is held. */
    ghost predicate Valid()
      reads this
    {
      builds == if current == null then 0 else 1
    }

    constructor ()
      ensures Valid() && current == null
    {
      current := null;
      builds := 0;
    }

    method GetSettings(env: Environment) returns (s: Settings)
      requires Valid()
      modifies this
      ensures Valid() && current == s && builds == 1
      ensures old(current) != null ==> s == old(current)
      ensures old(current) == null ==>
        fresh(s) && s.adminToken == env.adminToken && s.databaseUrl == env.databaseUrl && s.dataDir == env.dataDir
    {
      if current == null {
        current := new Settings(env);
        builds := builds + 1;
      }
      s := current;
    }
  }

  /** Two calls give the same object, whatever the environment says at the second call. */
  method GetSettingsTwice(provider: SettingsProvider, env: Environment, laterEnv: Environment)
    returns (first: Settings, second: Settings)
    requires provider.Valid()
    modifies provider
    ensures first == second && provider.builds == 1
  {
    first := provider.GetSettings(env);
    second := provider.GetSettings(laterEnv);
  }
}
