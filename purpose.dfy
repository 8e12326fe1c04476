/** The two purposes an email one-time code is issued for (the `purpose` enum of the `emailOTP` table). */
module OtpPurpose {
  import opened Wrappers

  datatype Purpose = EmailVerification | PasswordReset

  /** The enum value as it travels in request bodies and is stored. */
  function Name(p: Purpose): string
  {
    match p
    case EmailVerification => "EMAIL_VERIFICATION"
    case PasswordReset => "PASSWORD_RESET"
  }

  /** `z.enum(['EMAIL_VERIFICATION', 'PASSWORD_RESET'])` applied to a present field. */
  function Parse(s: string): (r: Option<Purpose>)
    ensures r.Some? <==> s == "EMAIL_VERIFICATION" || s == "PASSWORD_RESET"
    ensures r.Some? ==> Name(r.value) == s
  {
    if s == "EMAIL_VERIFICATION" then Some(EmailVerification)
    else if s == "PASSWORD_RESET" then Some(PasswordReset)
    else None
  }

  /** The same enum with `.default('EMAIL_VERIFICATION')`: an absent field means email verification. */
  function FromField(field: Option<string>): (r: Option<Purpose>)
    ensures field.None? ==> r == Some(EmailVerification)
    ensures field.Some? ==> (r.Some? <==> field.value == "EMAIL_VERIFICATION" || field.value == "PASSWORD_RESET")
    ensures field.Some? && r.Some? ==> Name(r.value) == field.value
  {
    match field
    case None => Some(EmailVerification)
    case Some(s) => Parse(s)
  }
}
