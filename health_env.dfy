/**
 * app/api/health/env/route.ts: `GET` turns the environment status into a
 * health report (500 when the environment is invalid, 200 when some email
 * method is configured, 206 otherwise) with a list of recommendations;
 * `POST` is refused.
 */
module HealthEnvRoute {
  import opened Wrappers
  import opened Strings
  import opened Http
  import opened EnvValidation

  const InvalidSuggestions: seq<string> := [
    "Check your .env file exists in the project root",
    "Verify all required environment variables are set",
    "Refer to .env.example for the correct format"
  ]

  const MongoRunning: string := "Ensure MongoDB service is running locally"
  const MongoAtlas: string := "Consider using MongoDB Atlas for production"
  const SqliteDevelopment: string := "SQLite is great for development"
  const SqliteProduction: string := "Consider MongoDB for production deployment"
  const NoEmailMethod: string := "Configure at least one email method for password reset functionality"
  const EtherealConfigured: string := "Ethereal Email is configured - great for development testing"
  const DevelopmentMode: string := "Development mode detected - some features may behave differently"
  const UseGet: string := "Use GET method to check environment status"

  /** `email.configured` of the report. */
  datatype Configured = Configured(gmail: bool, sendgrid: bool, customSmtp: bool, ethereal: bool)

  /** The two bodies of `GET`: the invalid-environment report and the health report. */
  datatype HealthBody =
    | InvalidReport(status: string, error: Option<string>, timestamp: string, suggestions: seq<string>)
    | HealthReport(status: string, environment: string, database: DatabaseInfo, configured: Configured,
                   hasAnyMethod: bool, recommendations: seq<string>, timestamp: string)

  predicate LocalMongo(status: EnvironmentStatus) { status.database.kind == "mongodb" && status.database.isLocal }

  predicate UsesSqlite(status: EnvironmentStatus) { status.database.kind == "sqlite" }

  predicate InDevelopment(status: EnvironmentStatus) { status.environment == "development" }

  /** The database block of the recommendations. */
  function DatabaseLines(status: EnvironmentStatus): seq<string>
  {
    (if LocalMongo(status) then [MongoRunning, MongoAtlas] else [])
    + (if UsesSqlite(status) then [SqliteDevelopment, SqliteProduction] else [])
  }

  /** The email block of the recommendations. */
  function EmailLines(status: EnvironmentStatus): seq<string>
  {
    (if !status.email.hasAnyMethod then [NoEmailMethod] else [])
    + (if status.email.hasEthereal then [EtherealConfigured] else [])
  }

  /** The recommendations for a status: each line when its guard holds, in this order, the database suggestions last. */
  function Recommended(status: EnvironmentStatus): seq<string>
  {
    DatabaseLines(status) + EmailLines(status)
    + (if InDevelopment(status) then [DevelopmentMode] else [])
    + status.database.suggestions
  }

  /** `getRecommendations(status)`: the pushes in the order of the source. */
  method GetRecommendations(status: EnvironmentStatus) returns (recommendations: seq<string>)
    ensures recommendations == Recommended(status)
  {
    recommendations := [];
    if LocalMongo(status) {
      recommendations := recommendations + [MongoRunning];
      recommendations := recommendations + [MongoAtlas];
    }
    if UsesSqlite(status) {
      recommendations := recommendations + [SqliteDevelopment];
      recommendations := recommendations + [SqliteProduction];
    }
    assert recommendations == DatabaseLines(status);
    var email: seq<string> := [];
    if !status.email.hasAnyMethod {
      email := email + [NoEmailMethod];
    }
    if status.email.hasEthereal {
      email := email + [EtherealConfigured];
    }
    assert email == EmailLines(status);
    recommendations := recommendations + email;
    if InDevelopment(status) {
      recommendations := recommendations + [DevelopmentMode];
    }
    if |status.database.suggestions| > 0 {
      recommendations := recommendations + status.database.suggestions;
    }
  }

  /** Where a line can come from in the recommendations. */
  lemma RecommendedMembers(status: EnvironmentStatus, x: string)
    requires forall y :: y in status.database.suggestions ==> y == CloudSuggestion
    ensures x in Recommended(status) <==>
      || (LocalMongo(status) && (x == MongoRunning || x == MongoAtlas))
      || (UsesSqlite(status) && (x == SqliteDevelopment || x == SqliteProduction))
      || (!status.email.hasAnyMethod && x == NoEmailMethod)
      || (status.email.hasEthereal && x == EtherealConfigured)
      || (InDevelopment(status) && x == DevelopmentMode)
      || x in status.database.suggestions
  {
  }

  /**
   * When the database suggestions can only be the cloud suggestion, each
   * line is recommended exactly when its guard holds. No two of the lines
   * have the same length.
   */
  lemma RecommendedIff(status: EnvironmentStatus)
    requires forall x :: x in status.database.suggestions ==> x == CloudSuggestion
    ensures MongoRunning in Recommended(status) <==> LocalMongo(status)
    ensures MongoAtlas in Recommended(status) <==> LocalMongo(status)
    ensures SqliteDevelopment in Recommended(status) <==> UsesSqlite(status)
    ensures SqliteProduction in Recommended(status) <==> UsesSqlite(status)
    ensures NoEmailMethod in Recommended(status) <==> !status.email.hasAnyMethod
    ensures EtherealConfigured in Recommended(status) <==> status.email.hasEthereal
    ensures DevelopmentMode in Recommended(status) <==> InDevelopment(status)
  {
    assert |MongoRunning| == 41 && |MongoAtlas| == 43 && |SqliteDevelopment| == 31 && |SqliteProduction| == 42;
    assert |NoEmailMethod| == 68 && |EtherealConfigured| == 60 && |DevelopmentMode| == 64 && |CloudSuggestion| == 46;
    RecommendedMembers(status, MongoRunning);
    RecommendedMembers(status, MongoAtlas);
    RecommendedMembers(status, SqliteDevelopment);
    RecommendedMembers(status, SqliteProduction);
    RecommendedMembers(status, NoEmailMethod);
    RecommendedMembers(status, EtherealConfigured);
    RecommendedMembers(status, DevelopmentMode);
  }

  /**
   * For the status of an environment: each line is recommended exactly
   * when its guard holds, and the cloud suggestion, when given, comes last.
   */
  lemma RecommendationGuards(env: Env)
    ensures Guarded(GetEnvironmentStatus(env))
  {
    var s := GetEnvironmentStatus(env);
    assert s.database == Database(env);
    GuardedWithCloudOnly(s);
  }

  /** Each line is recommended exactly when its guard holds, and the cloud suggestion, when given, comes last. */
  predicate Guarded(s: EnvironmentStatus)
  {
    && (NoEmailMethod in Recommended(s) <==> !s.email.hasAnyMethod)
    && (DevelopmentMode in Recommended(s) <==> InDevelopment(s))
    && (LocalMongo(s) <==> MongoRunning in Recommended(s) && MongoAtlas in Recommended(s))
    && (UsesSqlite(s) <==> SqliteDevelopment in Recommended(s) && SqliteProduction in Recommended(s))
    && (EtherealConfigured in Recommended(s) <==> s.email.hasEthereal)
    && (s.database.suggestions != [] ==> Recommended(s)[|Recommended(s)| - 1] == CloudSuggestion)
  }

  /** A status whose only possible database suggestion is the cloud one recommends as its guards say. */
  lemma GuardedWithCloudOnly(s: EnvironmentStatus)
    requires s.database.suggestions == [] || s.database.suggestions == [CloudSuggestion]
    ensures Guarded(s)
  {
    RecommendedIff(s);
  }

  /** The fields of the health report that restate the status. */
  function Configuration(status: EnvironmentStatus): Configured
  {
    Configured(status.email.hasGmail, status.email.hasSendGrid, status.email.hasCustomSmtp, status.email.hasEthereal)
  }

  /**
   * `GET` at the instant written `timestamp`. An invalid environment gives
   * 500; otherwise the status is 200 "healthy" exactly when some email
   * method is configured, and 206 "warning" when none is.
   */
  method Get(env: Env, timestamp: string) returns (r: Response<HealthBody>)
    ensures var s := GetEnvironmentStatus(env);
      !s.isValid ==> r == Response(500, Ok(InvalidReport("invalid", s.error, timestamp, InvalidSuggestions)))
    ensures r.status == 200 <==> Parses(env) && Methods(env).hasAnyMethod
    ensures r.status == 206 <==> Parses(env) && !Methods(env).hasAnyMethod
    ensures var s := GetEnvironmentStatus(env);
      s.isValid ==> r.body == Ok(HealthReport(
        if r.status == 200 then "healthy" else "warning",
        s.environment, s.database, Configuration(s), s.email.hasAnyMethod, Recommended(s), timestamp))
  {
    var status := GetEnvironmentStatus(env);
    if !status.isValid {
      return Response(500, Ok(InvalidReport("invalid", status.error, timestamp, InvalidSuggestions)));
    }
    var isHealthy := status.isValid && (status.email.hasGmail || status.email.hasSendGrid
                                        || status.email.hasCustomSmtp || status.email.hasEthereal);
    var recommendations := GetRecommendations(status);
    var body := HealthReport(if isHealthy then "healthy" else "warning", status.environment, status.database,
                             Configuration(status), status.email.hasAnyMethod, recommendations, timestamp);
    r := Response(if isHealthy then 200 else 206, Ok(body));
  }

  /** `POST`: always 405. */
  function Post(): (r: Response<Message>)
    ensures r.status == 405 && r.body == Ok(Message(UseGet))
  {
    Response(405, Ok(Message(UseGet)))
  }
}
