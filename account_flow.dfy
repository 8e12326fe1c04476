/**
 * The sign-up flow the register-with-otp page drives: send-otp, then
 * verify-otp with the mailed code, then register, each at its own time.
 */
module AccountFlow {
  import opened Wrappers
  import opened Strings
  import opened OtpPurpose
  import opened Validation
  import opened Store
  import opened OtpTable
  import opened UserTable
  import opened Email
  import opened Http
  import SendOtpRoute
  import VerifyOtpRoute
  import RegisterRoute

  /**
   * send-otp for an email without an account, then verify-otp as written
   * with the mailed code: the verification succeeds, yet leaves nothing
   * for register's lookup to find at any later time.
   */
  method SendAndVerifyAsWritten(users: Users, otps: EmailOtps, email: string, draw: int, sentAt: int, verifiedAt: int)
    returns (verified: Response<VerifyOtpRoute.OtpVerified>)
    requires users.Valid() && otps.Valid()
    requires IsEmail(email) && FindByEmail(users.rows, email).None?
    requires 0 <= draw < 900000
    requires verifiedAt < sentAt + OtpLifetimeMs
    modifies otps
    ensures otps.Valid()
    ensures verified.status == 200
    ensures forall later :: FindVerified(otps.rows, email, later).None?
  {
    var sent := SendOtpRoute.Post(users, otps, email, None, draw, sentAt, Working);
    var code := GenerateOtp(draw);
    Utf16LengthBasic(code);
    IssuedRedeemable(old(otps.rows), old(otps.nextId), email, code, EmailVerification, sentAt + OtpLifetimeMs, verifiedAt);
    var before := otps.rows;
    verified := VerifyOtpRoute.Post(otps, email, code, None, verifiedAt);
    var i := FindRedeemable(before, email, code, EmailVerification, verifiedAt).value;
    forall later ensures FindVerified(otps.rows, email, later).None? {
      RegisterAfterVerifyFails(before, before[i].id, email, verifiedAt, later);
    }
  }

  /**
   * The same two steps with the clean-up sparing the row it verifies:
   * register's lookup succeeds for thirty minutes after the verification.
   */
  method SendAndVerify(users: Users, otps: EmailOtps, email: string, draw: int, sentAt: int, verifiedAt: int)
    returns (verified: Response<VerifyOtpRoute.OtpVerified>)
    requires users.Valid() && otps.Valid()
    requires IsEmail(email) && FindByEmail(users.rows, email).None?
    requires 0 <= draw < 900000
    requires verifiedAt < sentAt + OtpLifetimeMs
    modifies otps
    ensures otps.Valid()
    ensures verified.status == 200
    ensures forall later :: later <= verifiedAt + RegistrationGraceMs ==> FindVerified(otps.rows, email, later).Some?
  {
    var sent := SendOtpRoute.Post(users, otps, email, None, draw, sentAt, Working);
    var code := GenerateOtp(draw);
    Utf16LengthBasic(code);
    IssuedRedeemable(old(otps.rows), old(otps.nextId), email, code, EmailVerification, sentAt + OtpLifetimeMs, verifiedAt);
    var before := otps.rows;
    verified := VerifyOtpRoute.PostCorrected(otps, email, code, None, verifiedAt);
    var i := FindRedeemable(before, email, code, EmailVerification, verifiedAt).value;
    forall later | later <= verifiedAt + RegistrationGraceMs ensures FindVerified(otps.rows, email, later).Some? {
      RegisterAfterCorrectedVerify(before, i, email, code, verifiedAt, later);
    }
  }

  /** With verify-otp as written, the flow ends at register's "not verified" answer. */
  method SignUpAsWritten(users: Users, otps: EmailOtps, categories: Categories, crypto: Crypto,
                         email: string, password: string, name: string, draw: int,
                         sentAt: int, verifiedAt: int, registeredAt: int)
    returns (registered: Response<RegisterRoute.Registered>)
    requires users.Valid() && otps.Valid() && categories.Valid()
    requires RegisterRoute.ValidRequest(email, password, name, RegisterRoute.Flag(true)) && FindByEmail(users.rows, email).None?
    requires 0 <= draw < 900000
    requires verifiedAt < sentAt + OtpLifetimeMs
    modifies users, otps, categories
    ensures registered == Response(400, Error(RegisterRoute.VerificationRequired))
  {
    var _ := SendAndVerifyAsWritten(users, otps, email, draw, sentAt, verifiedAt);
    registered := RegisterRoute.Post(users, otps, categories, crypto, email, password, name, RegisterRoute.Flag(true), registeredAt);
  }

  /**
   * With the corrected verify-otp, the flow creates the account, provided
   * the code is verified before it expires and registration follows within
   * thirty minutes.
   */
  method SignUp(users: Users, otps: EmailOtps, categories: Categories, crypto: Crypto,
                email: string, password: string, name: string, draw: int,
                sentAt: int, verifiedAt: int, registeredAt: int)
    returns (registered: Response<RegisterRoute.Registered>)
    requires users.Valid() && otps.Valid() && categories.Valid()
    requires RegisterRoute.ValidRequest(email, password, name, RegisterRoute.Flag(true)) && FindByEmail(users.rows, email).None?
    requires 0 <= draw < 900000
    requires verifiedAt < sentAt + OtpLifetimeMs && registeredAt <= verifiedAt + RegistrationGraceMs
    modifies users, otps, categories
    ensures registered.status == 200
    ensures users.rows == old(users.rows) + [NewUser(old(users.nextId), email, crypto.hash(password), name, registeredAt)]
  {
    var _ := SendAndVerify(users, otps, email, draw, sentAt, verifiedAt);
    registered := RegisterRoute.Post(users, otps, categories, crypto, email, password, name, RegisterRoute.Flag(true), registeredAt);
  }
}
