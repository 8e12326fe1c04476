/**
 * app/api/auth/forgot-password/route.ts: `POST { email }` issues a
 * password-reset code when an account has the (lowercased) email, and
 * answers the same way whether or not it has.
 */
module ForgotPasswordRoute {
  import opened Wrappers
  import opened OtpPurpose
  import opened Strings
  import opened Validation
  import opened Store
  import opened OtpTable
  import opened UserTable
  import opened Email
  import opened Http

  const InvalidEmail: string := "Invalid email address"
  const Sent: string := "If an account with that email exists, a verification code has been sent."

  /**
   * The reset code for a found account: stored under the lowercased email,
   * then mailed to the address as typed; a failure to mail is logged and
   * ignored.
   */
  method IssueResetCode(otps: EmailOtps, stored: string, typed: string, userId: nat, draw: int, now: int, transport: Transport)
    requires otps.Valid()
    requires 0 <= draw < 900000
    modifies otps
    ensures otps.Valid()
    ensures OnePerPair(old(otps.rows)) ==> OnePerPair(otps.rows)
    ensures otps.rows == Issue(old(otps.rows), old(otps.nextId), stored, GenerateOtp(draw), PasswordReset,
                               now + OtpLifetimeMs, Some(userId))
    ensures otps.nextId == old(otps.nextId) + 1
  {
    var otp := GenerateOtp(draw);
    var _ := otps.Replace(stored, otp, PasswordReset, now + OtpLifetimeMs, Some(userId));
    var _ := SendOtpEmail(typed, otp, Some(PasswordReset), transport);
  }

  /**
   * `POST` at time `now`; `draw` stands for the random number behind the
   * code and `transport` for the outcome of mailing it, which is ignored.
   */
  method Post(users: Users, otps: EmailOtps, email: string, draw: int, now: int, transport: Transport)
    returns (r: Response<Message>)
    requires users.Valid() && otps.Valid()
    requires 0 <= draw < 900000
    modifies otps
    ensures otps.Valid()
    ensures OnePerPair(old(otps.rows)) ==> OnePerPair(otps.rows)
    ensures !IsEmail(email) ==> r == Response(400, Error(InvalidEmail)) && unchanged(otps)
    ensures IsEmail(email) ==> r == Response(200, Ok(Message(Sent)))
    ensures IsEmail(email) && FindByEmail(users.rows, ToLower(email)).None? ==> unchanged(otps)
    ensures IsEmail(email) && FindByEmail(users.rows, ToLower(email)).Some? ==>
      var user := users.rows[FindByEmail(users.rows, ToLower(email)).value];
      && otps.rows == Issue(old(otps.rows), old(otps.nextId), ToLower(email), GenerateOtp(draw), PasswordReset,
                            now + OtpLifetimeMs, Some(user.id))
      && otps.nextId == old(otps.nextId) + 1
  {
    if !IsEmail(email) {
      return Response(400, Error(InvalidEmail));
    }
    var user := FindByEmail(users.rows, ToLower(email));
    if user.Some? {
      IssueResetCode(otps, ToLower(email), email, users.rows[user.value].id, draw, now, transport);
    }
    r := Response(200, Ok(Message(Sent)));
  }
}
