/**
 * app/api/auth/login/route.ts: `POST { email, password }` checks the
 * credentials against the `User` table and returns a session token and
 * the user without its password hash. It writes nothing.
 */
module LoginRoute {
  import opened Wrappers
  import opened Strings
  import opened Validation
  import opened Store
  import opened UserTable
  import opened Http

  const InternalError: string := "Internal server error"
  const InvalidCredentials: string := "Invalid credentials"
  const TimeoutError: string := "Database connection timeout. Please try again."
  const TimeoutDetails: string := "The database is taking too long to respond. Check your database connection."
  const ConnectionError: string := "Database connection failed. Please check if MongoDB is running."
  const ConnectionDetails: string :=
    "Make sure MongoDB is installed and running on localhost:27017, or update DATABASE_URL to use MongoDB Atlas."
  const DatabaseError: string := "Database error occurred"
  const DatabaseDetails: string := "Please try again later or contact support if the issue persists."

  /** What the lookup throws: its `message` and Prisma's error `code`, if any. */
  datatype DbError = DbError(message: string, code: Option<string>)

  /** The selected columns of the user except `password`. */
  datatype UserView = UserView(id: nat, email: string, name: string, role: string, emailVerified: bool)

  /** `{ token, user }`. */
  datatype LoggedIn = LoggedIn(token: string, user: UserView)

  function View(u: User): UserView
  {
    UserView(u.id, u.email, u.name, u.role, u.emailVerified)
  }

  /** The request passes `loginSchema`. */
  predicate ValidRequest(email: string, password: string)
  {
    IsEmail(email) && |password| >= 1
  }

  /** The response for a lookup that threw `e`. */
  function LookupFailure(e: DbError): (r: Response<LoggedIn>)
    ensures r.status == 503 <==>
      e.message == "Database query timeout" || e.code == Some("P2010") || Contains(e.message, "Server selection timeout")
    ensures r.status != 503 ==> r == Response(500, ErrorDetails(DatabaseError, DatabaseDetails))
    ensures e.message == "Database query timeout" ==> r == Response(503, ErrorDetails(TimeoutError, TimeoutDetails))
  {
    if e.message == "Database query timeout" then
      Response(503, ErrorDetails(TimeoutError, TimeoutDetails))
    else if e.code == Some("P2010") || Contains(e.message, "Server selection timeout") then
      Response(503, ErrorDetails(ConnectionError, ConnectionDetails))
    else
      Response(500, ErrorDetails(DatabaseError, DatabaseDetails))
  }

  /**
   * `POST`; `lookupError` is what the `findUnique` throws, if it throws.
   * A body that fails the schema reaches the catch-all and gives 500.
   */
  function Post(users: seq<User>, crypto: Crypto, email: string, password: string, lookupError: Option<DbError>)
    : (r: Response<LoggedIn>)
    ensures !ValidRequest(email, password) ==> r == Response(500, Error(InternalError))
    ensures ValidRequest(email, password) && lookupError.Some? ==> r == LookupFailure(lookupError.value)
    ensures r.status == 401 ==> r == Response(401, Error(InvalidCredentials))
    ensures r.status == 200 ==>
      && ValidRequest(email, password) && lookupError.None? && FindByEmail(users, email).Some?
      && var u := users[FindByEmail(users, email).value];
      && crypto.compare(password, u.password)
      && r == Response(200, Ok(LoggedIn(crypto.sign(Claims(u.id, u.email, u.role)), View(u))))
    ensures UsersUnique(users) && ValidRequest(email, password) && lookupError.None? ==>
      (r.status == 401 <==> forall u :: u in users && u.email == email ==> !crypto.compare(password, u.password))
    ensures ValidRequest(email, password) && lookupError.None? ==> r.status == 200 || r.status == 401
  {
    if !ValidRequest(email, password) then Response(500, Error(InternalError))
    else if lookupError.Some? then LookupFailure(lookupError.value)
    else
      match FindByEmail(users, email)
      case None => Response(401, Error(InvalidCredentials))
      case Some(i) =>
        var u := users[i];
        if !crypto.compare(password, u.password) then Response(401, Error(InvalidCredentials))
        else
          Response(200, Ok(LoggedIn(crypto.sign(Claims(u.id, u.email, u.role)), View(u))))
  }

  /** An unknown email and a wrong password get exactly the same response. */
  lemma {:induction false} FailuresAlike(users: seq<User>, crypto: Crypto, email: string, password: string, u: User)
    requires UsersUnique(users)
    requires ValidRequest(email, password)
    requires u in users && u.email == email && !crypto.compare(password, u.password)
    ensures Post(users, crypto, email, password, None) == Post([], crypto, email, password, None)
  {
    var k :| 0 <= k < |users| && users[k] == u;
    FindByEmailUnique(users, email, k);
  }
}
