/**
 * lib/env-validation.ts: `getEnvironmentStatus` checks the process
 * environment against the schema of required and optional variables and
 * classifies the database URL and the configured email methods.
 */
module EnvValidation {
  import opened Wrappers
  import opened Strings
  import opened Validation

  /** `process.env`: a variable that is not set has no key. */
  type Env = map<string, string>

  /** `process.env[name]`. */
  function Var(env: Env, name: string): Option<string>
  {
    if name in env then Some(env[name]) else None
  }

  /** `process.env[name] || fallback`. */
  function VarOr(env: Env, name: string, fallback: string): string
  {
    if name in env && env[name] != "" then env[name] else fallback
  }

  /** `!!process.env[name]`: set and not empty. */
  predicate IsSet(env: Env, name: string)
  {
    name in env && env[name] != ""
  }

  const NodeEnvs: seq<string> := ["development", "production", "test"]

  /** One schema issue, `${path}: ${message}`. */
  function Issue(path: string, message: string): string
  {
    path + ": " + message
  }

  function DatabaseUrlIssues(env: Env): (r: seq<string>)
    ensures |r| <= 1
    ensures r == [] <==> "DATABASE_URL" in env && IsUrl(env["DATABASE_URL"])
  {
    match Var(env, "DATABASE_URL")
    case None => [Issue("DATABASE_URL", "Required")]
    case Some(u) => if IsUrl(u) then [] else [Issue("DATABASE_URL", "Invalid DATABASE_URL")]
  }

  function JwtSecretIssues(env: Env): (r: seq<string>)
    ensures |r| <= 1
    ensures r == [] <==> "JWT_SECRET" in env && Utf16Length(env["JWT_SECRET"]) >= 32
  {
    match Var(env, "JWT_SECRET")
    case None => [Issue("JWT_SECRET", "Required")]
    case Some(s) => if Utf16Length(s) >= 32 then [] else [Issue("JWT_SECRET", "JWT_SECRET must be at least 32 characters")]
  }

  const InvalidNodeEnv: string := "Invalid enum value. Expected 'development' | 'production' | 'test', received '"

  /** `NODE_ENV` may be missing, and then defaults to `development`. */
  function NodeEnvIssues(env: Env): (r: seq<string>)
    ensures |r| <= 1
    ensures r == [] <==> "NODE_ENV" in env ==> env["NODE_ENV"] in NodeEnvs
  {
    match Var(env, "NODE_ENV")
    case None => []
    case Some(e) =>
      if e in NodeEnvs then []
      else [Issue("NODE_ENV", InvalidNodeEnv + e + "'")]
  }

  function NextAuthUrlIssues(env: Env): (r: seq<string>)
    ensures |r| <= 1
    ensures r == [] <==> "NEXTAUTH_URL" in env ==> IsUrl(env["NEXTAUTH_URL"])
  {
    match Var(env, "NEXTAUTH_URL")
    case Some(u) => if IsUrl(u) then [] else [Issue("NEXTAUTH_URL", "Invalid url")]
    case None => []
  }

  function EmailFromIssues(env: Env): (r: seq<string>)
    ensures |r| <= 1
    ensures r == [] <==> "EMAIL_FROM" in env ==> IsEmail(env["EMAIL_FROM"])
  {
    match Var(env, "EMAIL_FROM")
    case Some(e) => if IsEmail(e) then [] else [Issue("EMAIL_FROM", "Invalid email")]
    case None => []
  }

  /** The issues of `envSchema.safeParse(process.env)`, in the order of the schema's keys. */
  function Issues(env: Env): (r: seq<string>)
    ensures |r| <= 5
    ensures r == [] <==>
      && DatabaseUrlIssues(env) == [] && JwtSecretIssues(env) == [] && NodeEnvIssues(env) == []
      && NextAuthUrlIssues(env) == [] && EmailFromIssues(env) == []
  {
    DatabaseUrlIssues(env) + JwtSecretIssues(env) + NodeEnvIssues(env) + NextAuthUrlIssues(env) + EmailFromIssues(env)
  }

  /** `safeParse` succeeds. */
  predicate Parses(env: Env)
  {
    Issues(env) == []
  }

  /** The environment passes exactly when every variable the schema checks is acceptable. */
  lemma ParsesIff(env: Env)
    ensures Parses(env) <==>
      && "DATABASE_URL" in env && IsUrl(env["DATABASE_URL"])
      && "JWT_SECRET" in env && Utf16Length(env["JWT_SECRET"]) >= 32
      && ("NODE_ENV" in env ==> env["NODE_ENV"] in NodeEnvs)
      && ("NEXTAUTH_URL" in env ==> IsUrl(env["NEXTAUTH_URL"]))
      && ("EMAIL_FROM" in env ==> IsEmail(env["EMAIL_FROM"]))
  {
    var a, b, c, d, e := DatabaseUrlIssues(env), JwtSecretIssues(env), NodeEnvIssues(env), NextAuthUrlIssues(env), EmailFromIssues(env);
    assert |a + b + c + d + e| == |a| + |b| + |c| + |d| + |e|;
  }

  /** The summed lengths of the items. */
  function TotalLength(items: seq<string>): nat
  {
    if items == [] then 0 else |items[0]| + TotalLength(items[1..])
  }

  /** `issues.map(...).join(', ')`. */
  function Join(items: seq<string>): (r: string)
    ensures |r| == TotalLength(items) + (if items == [] then 0 else 2 * (|items| - 1))
    ensures |items| == 1 ==> r == items[0]
    ensures |items| >= 1 ==> r[..|items[0]|] == items[0]
  {
    if |items| == 0 then "" else if |items| == 1 then items[0] else items[0] + ", " + Join(items[1..])
  }

  /** `databaseUrl.includes('mongodb') ? 'mongodb' : ... ? 'sqlite' : 'unknown'`. */
  function DatabaseType(url: string): (r: string)
    ensures r == "mongodb" <==> Contains(url, "mongodb")
    ensures r == "sqlite" <==> !Contains(url, "mongodb") && (Contains(url, "sqlite") || Contains(url, ".db"))
    ensures r == "unknown" <==> !Contains(url, "mongodb") && !Contains(url, "sqlite") && !Contains(url, ".db")
  {
    if Contains(url, "mongodb") then "mongodb"
    else if Contains(url, "sqlite") || Contains(url, ".db") then "sqlite"
    else "unknown"
  }

  const CloudSuggestion: string := "Consider using a cloud database for production"

  datatype DatabaseInfo = DatabaseInfo(kind: string, isLocal: bool, suggestions: seq<string>)

  datatype EmailMethods = EmailMethods(hasGmail: bool, hasSendGrid: bool, hasCustomSmtp: bool, hasEthereal: bool, hasAnyMethod: bool)

  /** What `getEnvironmentStatus` returns; `error` is None for `null`. */
  datatype EnvironmentStatus = EnvironmentStatus(
    isValid: bool,
    error: Option<string>,
    environment: string,
    database: DatabaseInfo,
    email: EmailMethods)

  /** The database part, computed before the schema result is looked at. */
  function Database(env: Env): (d: DatabaseInfo)
    ensures d.kind == DatabaseType(VarOr(env, "DATABASE_URL", ""))
    ensures d.isLocal <==> Contains(VarOr(env, "DATABASE_URL", ""), "localhost") || Contains(VarOr(env, "DATABASE_URL", ""), "127.0.0.1")
    ensures d.suggestions == if d.isLocal && Var(env, "NODE_ENV") == Some("production") then [CloudSuggestion] else []
  {
    var url := VarOr(env, "DATABASE_URL", "");
    var isLocal := Contains(url, "localhost") || Contains(url, "127.0.0.1");
    DatabaseInfo(DatabaseType(url), isLocal,
                 if isLocal && Var(env, "NODE_ENV") == Some("production") then [CloudSuggestion] else [])
  }

  /** The email methods of a parsed environment. */
  function Methods(env: Env): (m: EmailMethods)
    ensures m.hasGmail <==> "EMAIL_FROM" in env && Contains(env["EMAIL_FROM"], "gmail.com")
    ensures m.hasCustomSmtp <==> IsSet(env, "SMTP_HOST") && IsSet(env, "SMTP_PORT")
    ensures m.hasSendGrid <==> IsSet(env, "SENDGRID_API_KEY")
    ensures m.hasEthereal <==> IsSet(env, "ETHEREAL_USER") && IsSet(env, "ETHEREAL_PASS")
    ensures m.hasAnyMethod <==> m.hasGmail || m.hasSendGrid || m.hasCustomSmtp || m.hasEthereal
  {
    var gmail := IsSet(env, "EMAIL_FROM") && Contains(env["EMAIL_FROM"], "gmail.com");
    assert "EMAIL_FROM" in env && Contains(env["EMAIL_FROM"], "gmail.com") ==> env["EMAIL_FROM"] != "";
    var sendGrid := IsSet(env, "SENDGRID_API_KEY");
    var smtp := IsSet(env, "SMTP_HOST") && IsSet(env, "SMTP_PORT");
    var ethereal := IsSet(env, "ETHEREAL_USER") && IsSet(env, "ETHEREAL_PASS");
    EmailMethods(gmail, sendGrid, smtp, ethereal, gmail || sendGrid || smtp || ethereal)
  }

  const NoMethods: EmailMethods := EmailMethods(false, false, false, false, false)

  /**
   * `getEnvironmentStatus()`. On a failed parse the status is invalid,
   * names the issues and reports no email method; on success it reports
   * the parsed `NODE_ENV` (by default `development`) and the methods found.
   * In both cases the database part is the same.
   */
  function GetEnvironmentStatus(env: Env): (s: EnvironmentStatus)
    ensures s.isValid <==> Parses(env)
    ensures s.database == Database(env)
    ensures !s.isValid ==> s.error == Some(Join(Issues(env))) && s.email == NoMethods
    ensures !s.isValid ==> s.environment == VarOr(env, "NODE_ENV", "development")
    ensures s.isValid ==> s.error.None? && s.email == Methods(env)
    ensures s.isValid ==> s.environment in NodeEnvs && s.environment == Var(env, "NODE_ENV").GetOr("development")
  {
    if !Parses(env) then
      EnvironmentStatus(false, Some(Join(Issues(env))), VarOr(env, "NODE_ENV", "development"), Database(env), NoMethods)
    else
      ParsesIff(env);
      EnvironmentStatus(true, None, Var(env, "NODE_ENV").GetOr("development"), Database(env), Methods(env))
  }
}
