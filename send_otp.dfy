/**
 * app/api/auth/send-otp/route.ts: `POST { email, purpose? }` issues a new
 * code for the pair, replacing any earlier one, and mails it.
 */
module SendOtpRoute {
  import opened Wrappers
  import opened OtpPurpose
  import opened Validation
  import opened Store
  import opened OtpTable
  import opened UserTable
  import opened Email
  import opened Http

  const InvalidRequestData: string := "Invalid request data"
  const UserExists: string := "User already exists with this email"
  const SendFailed: string := "Failed to send OTP"
  const OtpSentMessage: string := "OTP sent successfully"

  /** `{ message, email }`. */
  datatype OtpSent = OtpSent(message: string, email: string)

  /** The request passes `sendOTPSchema`. */
  predicate ValidRequest(email: string, purposeField: Option<string>)
  {
    IsEmail(email) && FromField(purposeField).Some?
  }

  /**
   * The part of `POST` after the checks: store a fresh code for the pair
   * (`draw` stands for the random number behind `generateOTP`), then mail
   * it; `transport` stands for the outcome of mailing. A failure to mail
   * is not caught here and reaches the handler's catch-all, after the row
   * is stored.
   */
  method IssueAndMail(otps: EmailOtps, email: string, p: Purpose, draw: int, now: int, transport: Transport)
    returns (r: Response<OtpSent>)
    requires otps.Valid()
    requires 0 <= draw < 900000
    modifies otps
    ensures otps.Valid()
    ensures OnePerPair(old(otps.rows)) ==> OnePerPair(otps.rows)
    ensures otps.rows == Issue(old(otps.rows), old(otps.nextId), email, GenerateOtp(draw), p, now + OtpLifetimeMs, None)
    ensures otps.nextId == old(otps.nextId) + 1
    ensures r == if transport == Broken then Response(500, Error(SendFailed))
                 else Response(200, Ok(OtpSent(OtpSentMessage, email)))
  {
    var otp := GenerateOtp(draw);
    var expiresAt := now + OtpLifetimeMs;
    var _ := otps.Replace(email, otp, p, expiresAt, None);
    var sent := SendOtpEmail(email, otp, Some(p), transport);
    if sent.Failed? {
      return Response(500, Error(SendFailed));
    }
    r := Response(200, Ok(OtpSent(OtpSentMessage, email)));
  }

  /** `POST` with body `{ email, purpose? }` at time `now`. */
  method Post(users: Users, otps: EmailOtps, email: string, purposeField: Option<string>, draw: int, now: int,
              transport: Transport)
    returns (r: Response<OtpSent>)
    requires users.Valid() && otps.Valid()
    requires 0 <= draw < 900000
    modifies otps
    ensures otps.Valid()
    ensures OnePerPair(old(otps.rows)) ==> OnePerPair(otps.rows)
    ensures !ValidRequest(email, purposeField) ==>
      r == Response(400, Error(InvalidRequestData)) && unchanged(otps)
    ensures (ValidRequest(email, purposeField) && FromField(purposeField).value == EmailVerification
             && FindByEmail(users.rows, email).Some?) ==>
      r == Response(400, Error(UserExists)) && unchanged(otps)
    ensures (ValidRequest(email, purposeField)
             && !(FromField(purposeField).value == EmailVerification && FindByEmail(users.rows, email).Some?)) ==>
      && otps.rows == Issue(old(otps.rows), old(otps.nextId), email, GenerateOtp(draw), FromField(purposeField).value,
                            now + OtpLifetimeMs, None)
      && otps.nextId == old(otps.nextId) + 1
      && r == if transport == Broken then Response(500, Error(SendFailed))
              else Response(200, Ok(OtpSent(OtpSentMessage, email)))
  {
    var purpose := FromField(purposeField);
    if !IsEmail(email) || purpose.None? {
      return Response(400, Error(InvalidRequestData));
    }
    var p := purpose.value;
    if p == EmailVerification {
      var existingUser := FindByEmail(users.rows, email);
      if existingUser.Some? {
        return Response(400, Error(UserExists));
      }
    }
    r := IssueAndMail(otps, email, p, draw, now, transport);
  }
}
