/**
 * app/api/auth/reset-password-otp/route.ts: `POST { email, otp, password }`
 * redeems a password-reset code for the lowercased email, stores the new
 * password hash and deletes the email's reset codes.
 */
module ResetPasswordOtpRoute {
  import opened Wrappers
  import opened OtpPurpose
  import opened Strings
  import opened Validation
  import opened Store
  import opened OtpTable
  import opened UserTable
  import opened Http

  const InvalidEmail: string := "Invalid email address"
  const OtpLength: string := "OTP must be 6 digits"
  const PasswordLength: string := "Password must be at least 8 characters long"
  const InvalidOrExpired: string := "Invalid or expired OTP"
  const UserNotFound: string := "User not found"
  const ResetDone: string := "Password reset successfully"

  /** The cost factor passed to `bcrypt.hash`. */
  const BcryptRounds: nat := 12

  /** The message of the first field that fails `resetPasswordSchema`, in field order. */
  function SchemaError(email: string, otp: string, password: string): (r: Option<string>)
    ensures r.None? <==> IsEmail(email) && Utf16Length(otp) == 6 && Utf16Length(password) >= 8
    ensures !IsEmail(email) ==> r == Some(InvalidEmail)
    ensures IsEmail(email) && Utf16Length(otp) != 6 ==> r == Some(OtpLength)
    ensures IsEmail(email) && Utf16Length(otp) == 6 && Utf16Length(password) < 8 ==> r == Some(PasswordLength)
  {
    if !IsEmail(email) then Some(InvalidEmail)
    else if Utf16Length(otp) != 6 then Some(OtpLength)
    else if Utf16Length(password) < 8 then Some(PasswordLength)
    else None
  }

  /** `POST` at time `now`; `bcrypt` stands for `bcrypt.hash`. */
  method Post(users: Users, otps: EmailOtps, bcrypt: (string, nat) -> string,
              email: string, otp: string, password: string, now: int)
    returns (r: Response<Message>)
    requires users.Valid() && otps.Valid()
    modifies users, otps
    ensures users.Valid() && otps.Valid()
    ensures OnePerPair(old(otps.rows)) ==> OnePerPair(otps.rows)
    ensures SchemaError(email, otp, password).Some? ==>
      r == Response(400, Error(SchemaError(email, otp, password).value)) && unchanged(users, otps)
    ensures (SchemaError(email, otp, password).None?
             && FindRedeemable(old(otps.rows), ToLower(email), otp, PasswordReset, now).None?) ==>
      r == Response(400, Error(InvalidOrExpired)) && unchanged(users, otps)
    ensures (SchemaError(email, otp, password).None?
             && FindRedeemable(old(otps.rows), ToLower(email), otp, PasswordReset, now).Some?
             && FindByEmail(old(users.rows), ToLower(email)).None?) ==>
      r == Response(404, Error(UserNotFound)) && unchanged(users, otps)
    ensures (SchemaError(email, otp, password).None?
             && FindRedeemable(old(otps.rows), ToLower(email), otp, PasswordReset, now).Some?
             && FindByEmail(old(users.rows), ToLower(email)).Some?) ==>
      var user := old(users.rows)[FindByEmail(old(users.rows), ToLower(email)).value];
      && users.rows == SetPassword(old(users.rows), user.id, bcrypt(password, BcryptRounds))
      && otps.rows == WithoutPair(old(otps.rows), ToLower(email), PasswordReset)
      && r == Response(200, Ok(Message(ResetDone)))
    ensures r.status == 200 ==> forall code, t :: FindRedeemable(otps.rows, ToLower(email), code, PasswordReset, t).None?
  {
    var error := SchemaError(email, otp, password);
    if error.Some? {
      return Response(400, Error(error.value));
    }
    var lower := ToLower(email);
    var otpRecord := FindRedeemable(otps.rows, lower, otp, PasswordReset, now);
    if otpRecord.None? {
      return Response(400, Error(InvalidOrExpired));
    }
    var user := FindByEmail(users.rows, lower);
    if user.None? {
      return Response(404, Error(UserNotFound));
    }
    var hashedPassword := bcrypt(password, BcryptRounds);
    var _ := users.UpdatePassword(users.rows[user.value].id, hashedPassword);
    otps.DeletePair(lower, PasswordReset);
    r := Response(200, Ok(Message(ResetDone)));
  }
}
