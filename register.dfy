/**
 * app/api/auth/register/route.ts: `POST { email, password, name }` creates
 * an account for an email that holds a recently verified code, removes the
 * email's verification codes and gives the account its default categories.
 */
module RegisterRoute {
  import opened Wrappers
  import opened Strings
  import opened OtpPurpose
  import opened Validation
  import opened Store
  import opened OtpTable
  import opened UserTable
  import opened Http

  const InternalError: string := "Internal server error"
  const VerificationRequired: string := "Email verification required. Please verify your email with OTP first."
  const UserExists: string := "User already exists"

  /** The selected columns of the new user: `{ id, email, name, role, emailVerified }`. */
  datatype RegisteredUser = RegisteredUser(id: nat, email: string, name: string, role: string, emailVerified: bool)

  /** `{ token, user }`. */
  datatype Registered = Registered(token: string, user: RegisteredUser)

  /** The `otpVerified` member of the body: absent, a boolean, or a value of another JSON type. */
  datatype FlagField = Absent | Flag(value: bool) | NotBoolean

  /** The request passes `registerSchema`; the optional `otpVerified` must be a boolean when present, and is not used. */
  predicate ValidRequest(email: string, password: string, name: string, otpVerified: FlagField)
  {
    IsEmail(email) && Utf16Length(password) >= 6 && |name| >= 1 && !otpVerified.NotBoolean?
  }

  /** The categories every new account starts with: four for income, then eight for expenses. */
  const DefaultCategories: seq<CategoryDraft> := [
    CategoryDraft("Salary", Income, "#22c55e", "\U{1F4B0}"),
    CategoryDraft("Freelance", Income, "#3b82f6", "\U{1F4BC}"),
    CategoryDraft("Investment", Income, "#8b5cf6", "\U{1F4C8}"),
    CategoryDraft("Other Income", Income, "#06b6d4", "\U{1F4B5}"),
    CategoryDraft("Food & Dining", Expense, "#ef4444", "\U{1F37D}\U{FE0F}"),
    CategoryDraft("Transportation", Expense, "#f97316", "\U{1F697}"),
    CategoryDraft("Shopping", Expense, "#ec4899", "\U{1F6CD}\U{FE0F}"),
    CategoryDraft("Entertainment", Expense, "#8b5cf6", "\U{1F3AC}"),
    CategoryDraft("Bills & Utilities", Expense, "#6b7280", "\U{26A1}"),
    CategoryDraft("Healthcare", Expense, "#dc2626", "\U{1F3E5}"),
    CategoryDraft("Education", Expense, "#2563eb", "\U{1F4DA}"),
    CategoryDraft("Other Expenses", Expense, "#64748b", "\U{1F4B8}")
  ]

  /**
   * The categories a registration adds: twelve, all owned by the new user,
   * the first four for income and the other eight for expenses.
   */
  lemma DefaultCategoriesShape(firstId: nat, userId: nat)
    ensures |Numbered(DefaultCategories, firstId, userId)| == 12
    ensures forall c :: c in Numbered(DefaultCategories, firstId, userId) ==> c.userId == userId
    ensures forall k :: 0 <= k < 4 ==> Numbered(DefaultCategories, firstId, userId)[k].kind == Income
    ensures forall k :: 4 <= k < 12 ==> Numbered(DefaultCategories, firstId, userId)[k].kind == Expense
  {
  }

  /**
   * The writes of a registration that passed its checks: `user.create`,
   * the `deleteMany` of the email's verification codes and
   * `category.createMany`; then the token for the new user.
   */
  method CreateAccount(users: Users, otps: EmailOtps, categories: Categories, crypto: Crypto,
                       email: string, password: string, name: string, now: int)
    returns (r: Response<Registered>)
    requires users.Valid() && otps.Valid() && categories.Valid()
    requires FindByEmail(users.rows, email).None?
    modifies users, otps, categories
    ensures users.Valid() && otps.Valid() && categories.Valid()
    ensures OnePerPair(old(otps.rows)) ==> OnePerPair(otps.rows)
    ensures users.rows == old(users.rows) + [NewUser(old(users.nextId), email, crypto.hash(password), name, now)]
    ensures otps.rows == WithoutPair(old(otps.rows), email, EmailVerification)
    ensures categories.rows == old(categories.rows) + Numbered(DefaultCategories, old(categories.nextId), old(users.nextId))
    ensures r == Response(200, Ok(Registered(crypto.sign(Claims(old(users.nextId), email, DefaultRole)),
                                             RegisteredUser(old(users.nextId), email, name, DefaultRole, true))))
  {
    var hashedPassword := crypto.hash(password);
    var created := users.Create(email, hashedPassword, name, now);
    var user := NewUser(created.value, email, hashedPassword, name, now);
    otps.DeletePair(email, EmailVerification);
    categories.CreateMany(DefaultCategories, user.id);
    var token := crypto.sign(Claims(user.id, user.email, user.role));
    r := Response(200, Ok(Registered(token, RegisteredUser(user.id, user.email, user.name, user.role, user.emailVerified))));
  }

  /**
   * `POST` at time `now`. A body that fails the schema reaches the
   * catch-all and gives 500, not 400.
   */
  method Post(users: Users, otps: EmailOtps, categories: Categories, crypto: Crypto,
              email: string, password: string, name: string, otpVerified: FlagField, now: int)
    returns (r: Response<Registered>)
    requires users.Valid() && otps.Valid() && categories.Valid()
    modifies users, otps, categories
    ensures users.Valid() && otps.Valid() && categories.Valid()
    ensures OnePerPair(old(otps.rows)) ==> OnePerPair(otps.rows)
    ensures !ValidRequest(email, password, name, otpVerified) ==>
      r == Response(500, Error(InternalError)) && unchanged(users, otps, categories)
    ensures ValidRequest(email, password, name, otpVerified) && FindVerified(old(otps.rows), email, now).None? ==>
      r == Response(400, Error(VerificationRequired)) && unchanged(users, otps, categories)
    ensures (ValidRequest(email, password, name, otpVerified) && FindVerified(old(otps.rows), email, now).Some?
             && FindByEmail(old(users.rows), email).Some?) ==>
      r == Response(400, Error(UserExists)) && unchanged(users, otps, categories)
    ensures (ValidRequest(email, password, name, otpVerified) && FindVerified(old(otps.rows), email, now).Some?
             && FindByEmail(old(users.rows), email).None?) ==>
      && users.rows == old(users.rows) + [NewUser(old(users.nextId), email, crypto.hash(password), name, now)]
      && otps.rows == WithoutPair(old(otps.rows), email, EmailVerification)
      && categories.rows == old(categories.rows) + Numbered(DefaultCategories, old(categories.nextId), old(users.nextId))
      && r == Response(200, Ok(Registered(crypto.sign(Claims(old(users.nextId), email, DefaultRole)),
                                          RegisteredUser(old(users.nextId), email, name, DefaultRole, true))))
    ensures NoVerifiedRows(old(otps.rows)) ==> r.status != 200
  {
    if !IsEmail(email) || Utf16Length(password) < 6 || |name| < 1 || otpVerified.NotBoolean? {
      return Response(500, Error(InternalError));
    }
    var verifiedOtp := FindVerified(otps.rows, email, now);
    if verifiedOtp.None? {
      return Response(400, Error(VerificationRequired));
    }
    var existingUser := FindByEmail(users.rows, email);
    if existingUser.Some? {
      return Response(400, Error(UserExists));
    }
    r := CreateAccount(users, otps, categories, crypto, email, password, name, now);
  }
}
