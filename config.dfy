/**
 * Environment validation, the runtime's choice of database backend, and the
 * migration tool's configuration, which must point at the same database.
 */
module Config {
  import opened Wrappers
  import opened JsValues

  // ---------------------------------------------------------------- environment

  /** The process environment: the variables that are set, with their values. */
  type RawEnv = map<string, string>

  /** The value of variable `name`, if it is set. */
  function Get(raw: RawEnv, name: string): Option<string> {
    if name in raw then Some(raw[name]) else None
  }

  datatype NodeEnv = Development | Test | Production

  /** The validated environment. */
  datatype EnvValues = EnvValues(
    arcjetKey: Option<string>,
    clerkSecretKey: string,
    databaseUrl: Option<string>,
    pgliteDataDir: Option<string>,
    forceLocalDb: Option<string>,
    logtailSourceToken: Option<string>,
    appUrl: Option<string>,
    clerkPublishableKey: string,
    clerkSignInUrl: string,
    nodeEnv: NodeEnv)

  predicate StartsWith(s: string, prefix: string) {
    |prefix| <= |s| && s[..|prefix|] == prefix
  }

  /** `z.string().startsWith('ajkey_').optional()` */
  predicate ValidArcjetKey(v: Option<string>) {
    v.None? || StartsWith(v.value, "ajkey_")
  }

  /** `z.string().min(1)` */
  predicate NonEmpty(v: Option<string>) {
    v.Some? && |v.value| >= 1
  }

  /** `z.enum(['development', 'test', 'production']).default('development')`: `None` when the value is not allowed. */
  function ParseNodeEnv(v: Option<string>): (r: Option<NodeEnv>)
    ensures r.None? <==> v.Some? && v.value !in ["development", "test", "production"]
    ensures r == Some(Production) <==> v == Some("production")
  {
    match v
    case None => Some(Development)
    case Some(s) =>
      if s == "development" then Some(Development)
      else if s == "test" then Some(Test)
      else if s == "production" then Some(Production)
      else None
  }

  /** The names of the variables that fail validation, in the order the schema declares them. */
  function EnvErrors(raw: RawEnv): seq<string> {
    (if ValidArcjetKey(Get(raw, "ARCJET_KEY")) then [] else ["ARCJET_KEY"])
    + (if NonEmpty(Get(raw, "CLERK_SECRET_KEY")) then [] else ["CLERK_SECRET_KEY"])
    + (if NonEmpty(Get(raw, "NEXT_PUBLIC_CLERK_PUBLISHABLE_KEY")) then [] else ["NEXT_PUBLIC_CLERK_PUBLISHABLE_KEY"])
    + (if NonEmpty(Get(raw, "NEXT_PUBLIC_CLERK_SIGN_IN_URL")) then [] else ["NEXT_PUBLIC_CLERK_SIGN_IN_URL"])
    + (if ParseNodeEnv(Get(raw, "NODE_ENV")).Some? then [] else ["NODE_ENV"])
  }

  /** `createEnv`: the validated values, or the names of the invalid variables. */
  function ParseEnv(raw: RawEnv): Result<EnvValues, seq<string>> {
    if EnvErrors(raw) != [] then Err(EnvErrors(raw))
    else Ok(EnvValues(
      Get(raw, "ARCJET_KEY"),
      raw["CLERK_SECRET_KEY"],
      Get(raw, "DATABASE_URL"),
      Get(raw, "PGLITE_DATA_DIR"),
      Get(raw, "FORCE_LOCAL_DB"),
      Get(raw, "LOGTAIL_SOURCE_TOKEN"),
      Get(raw, "NEXT_PUBLIC_APP_URL"),
      raw["NEXT_PUBLIC_CLERK_PUBLISHABLE_KEY"],
      raw["NEXT_PUBLIC_CLERK_SIGN_IN_URL"],
      ParseNodeEnv(Get(raw, "NODE_ENV")).value))
  }

  /**
   * Validation succeeds exactly when the Arcjet key, if set, starts with
   * `ajkey_`, the three Clerk variables are non-empty and `NODE_ENV` is unset
   * or one of the three modes; the optional variables are then passed through
   * as they are, whatever their value, and an unset `NODE_ENV` means development.
   */
  lemma ParseEnvExact(raw: RawEnv)
    ensures ParseEnv(raw).Ok? <==>
      && ValidArcjetKey(Get(raw, "ARCJET_KEY"))
      && NonEmpty(Get(raw, "CLERK_SECRET_KEY"))
      && NonEmpty(Get(raw, "NEXT_PUBLIC_CLERK_PUBLISHABLE_KEY"))
      && NonEmpty(Get(raw, "NEXT_PUBLIC_CLERK_SIGN_IN_URL"))
      && (Get(raw, "NODE_ENV").None? || raw["NODE_ENV"] in ["development", "test", "production"])
    ensures ParseEnv(raw).Ok? ==>
      var v := ParseEnv(raw).value;
      && v.databaseUrl == Get(raw, "DATABASE_URL")
      && v.pgliteDataDir == Get(raw, "PGLITE_DATA_DIR")
      && v.forceLocalDb == Get(raw, "FORCE_LOCAL_DB")
      && v.logtailSourceToken == Get(raw, "LOGTAIL_SOURCE_TOKEN")
      && v.appUrl == Get(raw, "NEXT_PUBLIC_APP_URL")
      && (Get(raw, "NODE_ENV").None? ==> v.nodeEnv == Development)
    ensures ParseEnv(raw).Err? ==> ParseEnv(raw).error != [] && forall n :: n in ParseEnv(raw).error ==> n in raw || n in ["CLERK_SECRET_KEY", "NEXT_PUBLIC_CLERK_PUBLISHABLE_KEY", "NEXT_PUBLIC_CLERK_SIGN_IN_URL"]
  {
  }

  // ---------------------------------------------------------------- the runtime's backend

  /** `a || b` on an optional string. */
  function OrElseIfEmpty(v: Option<string>, fallback: string): string {
    if Truthy(v) then v.value else fallback
  }

  datatype Backend = Postgres(connectionString: string) | PGlite(dataDir: string)

  /** The backend the app connects to, and the folder it migrates from at startup, if any. */
  datatype Startup = Startup(backend: Backend, migrations: Option<string>)

  const MigrationsFolder := "./migrations"
  const DefaultDataDir := ".pglite-data"
  const MissingUrlError := "DATABASE_URL is missing in production."

  /**
   * The backend decision of the database module: production needs a
   * `DATABASE_URL` and never migrates; elsewhere a URL means Postgres, its
   * absence PGlite, and both migrate from `./migrations`.
   */
  function SelectBackend(env: EnvValues): Result<Startup, string> {
    if env.nodeEnv == Production then
      if !Truthy(env.databaseUrl) then Err(MissingUrlError)
      else Ok(Startup(Postgres(env.databaseUrl.value), None))
    else if Truthy(env.databaseUrl) then Ok(Startup(Postgres(env.databaseUrl.value), Some(MigrationsFolder)))
    else Ok(Startup(PGlite(OrElseIfEmpty(env.pgliteDataDir, DefaultDataDir)), Some(MigrationsFolder)))
  }

  /** The decision table, row by row. */
  lemma SelectBackendTable(env: EnvValues)
    ensures SelectBackend(env).Err? <==> env.nodeEnv == Production && !Truthy(env.databaseUrl)
    ensures SelectBackend(env).Err? ==> SelectBackend(env).error == "DATABASE_URL is missing in production."
    ensures SelectBackend(env).Ok? ==>
      var s := SelectBackend(env).value;
      && (s.backend.Postgres? <==> Truthy(env.databaseUrl))
      && (s.backend.Postgres? ==> s.backend.connectionString == env.databaseUrl.value)
      && (s.backend.PGlite? ==> s.backend.dataDir == (if Truthy(env.pgliteDataDir) then env.pgliteDataDir.value else ".pglite-data"))
      && (s.migrations.None? <==> env.nodeEnv == Production)
      && (s.migrations.Some? ==> s.migrations.value == "./migrations")
  {
  }

  /** The decision reads `NODE_ENV`, `DATABASE_URL` and `PGLITE_DATA_DIR` only; in particular `FORCE_LOCAL_DB` is never consulted. */
  lemma SelectBackendInputs(a: EnvValues, b: EnvValues)
    requires a.nodeEnv == b.nodeEnv && a.databaseUrl == b.databaseUrl && a.pgliteDataDir == b.pgliteDataDir
    ensures SelectBackend(a) == SelectBackend(b)
  {
  }

  /** The database module's state: the client it connected and the migration folders it ran. */
  class DbModule {
    var client: Option<Backend>
    var migrated: seq<string>

    constructor ()
      ensures client.None? && migrated == []
    {
      client := None;
      migrated := [];
    }

    /** Module initialisation: connect the chosen backend and run its migrations, or fail before connecting anything. */
    method Load(env: EnvValues) returns (r: Result<(), string>)
      modifies this
      ensures SelectBackend(env).Err? ==> r == Err(SelectBackend(env).error) && client == old(client) && migrated == old(migrated)
      ensures SelectBackend(env).Ok? ==>
        && r.Ok?
        && client == Some(SelectBackend(env).value.backend)
        && migrated == old(migrated) + (if SelectBackend(env).value.migrations.Some? then [SelectBackend(env).value.migrations.value] else [])
    {
      if env.nodeEnv == Production {
        if !Truthy(env.databaseUrl) {
          return Err(MissingUrlError);
        }
        client := Some(Postgres(env.databaseUrl.value));
      } else {
        if Truthy(env.databaseUrl) {
          client := Some(Postgres(env.databaseUrl.value));
        } else {
          var dataDir := OrElseIfEmpty(env.pgliteDataDir, DefaultDataDir);
          client := Some(PGlite(dataDir));
        }
        migrated := migrated + [MigrationsFolder];
      }
      r := Ok(());
    }
  }

  // ---------------------------------------------------------------- the migration tool

  /** The parts of the migration tool's configuration that depend on the environment. */
  datatype DrizzleConfig = DrizzleConfig(out: string, schema: string, dialect: string, pglite: bool, url: string)

  /** The migration tool's configuration, read from the raw environment (it does not validate it). */
  function DrizzleConfigOf(raw: RawEnv): DrizzleConfig {
    var isProd := Get(raw, "NODE_ENV") == Some("production");
    var usePglite := !isProd && !Truthy(Get(raw, "DATABASE_URL"));
    var url := if usePglite then OrElseIfEmpty(Get(raw, "PGLITE_DATA_DIR"), DefaultDataDir)
               else Get(raw, "DATABASE_URL").GetOr("");
    DrizzleConfig(MigrationsFolder, "./src/models/Schema.ts", "postgresql", usePglite, url)
  }

  /** The PGlite driver is chosen iff the mode is not production and no database URL is set; otherwise the URL, or '', is used. */
  lemma DrizzleConfigTable(raw: RawEnv)
    ensures DrizzleConfigOf(raw).pglite <==> Get(raw, "NODE_ENV") != Some("production") && !Truthy(Get(raw, "DATABASE_URL"))
    ensures DrizzleConfigOf(raw).pglite ==> DrizzleConfigOf(raw).url == OrElseIfEmpty(Get(raw, "PGLITE_DATA_DIR"), ".pglite-data")
    ensures !DrizzleConfigOf(raw).pglite ==> DrizzleConfigOf(raw).url == (if "DATABASE_URL" in raw then raw["DATABASE_URL"] else "")
  {
  }

  /**
   * For every environment the app accepts, the migration tool points at the
   * database the runtime connects to (the same PGlite directory or the same
   * Postgres URL), and both use `./migrations`. In production without a URL
   * the runtime refuses to start while the tool would fall back to ''.
   */
  lemma RuntimeAndToolAgree(raw: RawEnv)
    requires ParseEnv(raw).Ok?
    ensures var env := ParseEnv(raw).value;
      var tool := DrizzleConfigOf(raw);
      && (SelectBackend(env).Ok? ==>
            && (SelectBackend(env).value.backend.PGlite? <==> tool.pglite)
            && SelectBackend(env).value.backend == (if tool.pglite then PGlite(tool.url) else Postgres(tool.url))
            && (SelectBackend(env).value.migrations.Some? ==> SelectBackend(env).value.migrations.value == tool.out))
      && (SelectBackend(env).Err? ==> !tool.pglite && tool.url == "")
  {
    var env := ParseEnv(raw).value;
    assert env.databaseUrl == Get(raw, "DATABASE_URL") && env.pgliteDataDir == Get(raw, "PGLITE_DATA_DIR");
    assert env.nodeEnv == Production <==> Get(raw, "NODE_ENV") == Some("production");
  }
}
