/**
 * The parts of lib/email.ts that decide something: the six-digit code of
 * `generateOTP` and the purpose-dependent wording of `sendOTPEmail`. The
 * transport itself is an outside call that succeeds, is absent (the
 * development fallback that only logs), or throws.
 */
module Email {
  import opened Wrappers
  import opened OtpPurpose
  import opened Decimal

  /**
   * `generateOTP`: `Math.floor(100000 + Math.random() * 900000).toString()`,
   * with `r` the integer `Math.floor(Math.random() * 900000)`.
   */
  function GenerateOtp(r: int): (otp: string)
    requires 0 <= r < 900000
    ensures |otp| == 6
    ensures forall i :: 0 <= i < |otp| ==> '0' <= otp[i] <= '9'
    ensures otp[0] != '0'
    ensures DecimalValue(otp) == 100000 + r
  {
    var n := 100000 + r;
    assert Pow10(5) == 100000 && Pow10(6) == 1000000;
    DecimalShape(n, 6);
    DecimalRoundTrip(n);
    DecimalString(n)
  }

  /** Different draws give different codes. */
  lemma GenerateOtpInjective(r1: int, r2: int)
    requires 0 <= r1 < 900000 && 0 <= r2 < 900000
    ensures GenerateOtp(r1) == GenerateOtp(r2) <==> r1 == r2
  {
  }

  // The wording of the message, chosen by `purpose === 'EMAIL_VERIFICATION'`: the verification
  // wording exactly for that purpose, the password-reset wording exactly for the other.

  const VerifySubject: string := "Verify Your Email - Budgeting App"
  const ResetSubject: string := "Password Reset OTP - Budgeting App"
  const VerifyTitle: string := "Verify Your Email"
  const ResetTitle: string := "Reset Your Password"
  const VerifyLead: string := "Please use the following 6-digit code to verify your email address:"
  const ResetLead: string := "Please use the following 6-digit code to reset your password:"

  function Subject(p: Purpose): (r: string)
    ensures r == VerifySubject <==> p == EmailVerification
    ensures r == ResetSubject <==> p == PasswordReset
  {
    assert |VerifySubject| != |ResetSubject|;
    match p
    case EmailVerification => VerifySubject
    case PasswordReset => ResetSubject
  }

  function Title(p: Purpose): (r: string)
    ensures r == VerifyTitle <==> p == EmailVerification
    ensures r == ResetTitle <==> p == PasswordReset
  {
    assert |VerifyTitle| != |ResetTitle|;
    match p
    case EmailVerification => VerifyTitle
    case PasswordReset => ResetTitle
  }

  function Lead(p: Purpose): (r: string)
    ensures r == VerifyLead <==> p == EmailVerification
    ensures r == ResetLead <==> p == PasswordReset
  {
    assert |VerifyLead| != |ResetLead|;
    match p
    case EmailVerification => VerifyLead
    case PasswordReset => ResetLead
  }

  /** What `createTransport` yields: a working transport, none (development fallback), or one whose use throws. */
  datatype Transport = Working | NoTransporter | Broken

  datatype OtpMail = OtpMail(to: string, subject: string, title: string, lead: string, otp: string)

  /** What `sendOTPEmail` returns or throws. */
  datatype SendOutcome =
    | Delivered(mail: OtpMail)
    | Logged(to: string, subject: string, otp: string)
    | Failed(error: string)

  /** `sendOTPEmail(email, otp, purpose)`. */
  function SendOtpEmail(email: string, otp: string, purpose: Option<Purpose>, transport: Transport): (r: SendOutcome)
    ensures r.Failed? <==> transport == Broken
    ensures r.Failed? ==> r.error == "Failed to send OTP email"
    ensures r.Delivered? ==> r.mail.to == email && r.mail.otp == otp
    ensures r.Delivered? ==> r.mail.subject == Subject(purpose.GetOr(EmailVerification))
    ensures r.Delivered? ==> r.mail.title == Title(purpose.GetOr(EmailVerification))
    ensures r.Delivered? ==> r.mail.lead == Lead(purpose.GetOr(EmailVerification))
    ensures r.Logged? ==> r.to == email && r.otp == otp
    ensures r.Logged? ==> r.subject == Subject(purpose.GetOr(EmailVerification))
  {
    var p := purpose.GetOr(EmailVerification);
    match transport
    case Broken => Failed("Failed to send OTP email")
    case NoTransporter => Logged(email, Subject(p), otp)
    case Working => Delivered(OtpMail(email, Subject(p), Title(p), Lead(p), otp))
  }
}
