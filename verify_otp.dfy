/**
 * app/api/auth/verify-otp/route.ts: `POST { email, otp, purpose? }` redeems
 * a code: it marks the matching row verified, then deletes the pair's
 * verified and expired rows.
 */
module VerifyOtpRoute {
  import opened Wrappers
  import opened Strings
  import opened OtpPurpose
  import opened Validation
  import opened Store
  import opened OtpTable
  import opened Http

  const InvalidRequestData: string := "Invalid request data"
  const InvalidOrExpired: string := "Invalid or expired OTP"
  const OtpVerifiedMessage: string := "OTP verified successfully"

  /** `{ message, email, verified: true }`. */
  datatype OtpVerified = OtpVerified(message: string, email: string, verified: bool)

  /** The request passes `verifyOTPSchema`. */
  predicate ValidRequest(email: string, otp: string, purposeField: Option<string>)
  {
    IsEmail(email) && Utf16Length(otp) == 6 && FromField(purposeField).Some?
  }

  /** The handler as written: its clean-up also deletes the row it has just verified. */
  method Post(otps: EmailOtps, email: string, otp: string, purposeField: Option<string>, now: int)
    returns (r: Response<OtpVerified>)
    requires otps.Valid()
    modifies otps
    ensures otps.Valid() && otps.nextId == old(otps.nextId)
    ensures OnePerPair(old(otps.rows)) ==> OnePerPair(otps.rows)
    ensures !ValidRequest(email, otp, purposeField) ==>
      r == Response(400, Error(InvalidRequestData)) && unchanged(otps)
    ensures (ValidRequest(email, otp, purposeField)
             && FindRedeemable(old(otps.rows), email, otp, FromField(purposeField).value, now).None?) ==>
      r == Response(400, Error(InvalidOrExpired)) && unchanged(otps)
    ensures (ValidRequest(email, otp, purposeField)
             && FindRedeemable(old(otps.rows), email, otp, FromField(purposeField).value, now).Some?) ==>
      var i := FindRedeemable(old(otps.rows), email, otp, FromField(purposeField).value, now).value;
      && otps.rows == AfterVerify(old(otps.rows), old(otps.rows)[i].id, email, FromField(purposeField).value, now,
                                  None)
      && r == Response(200, Ok(OtpVerified(OtpVerifiedMessage, email, true)))
  {
    var purpose := FromField(purposeField);
    if !IsEmail(email) || Utf16Length(otp) != 6 || purpose.None? {
      return Response(400, Error(InvalidRequestData));
    }
    var p := purpose.value;
    var otpRecord := FindRedeemable(otps.rows, email, otp, p, now);
    if otpRecord.None? {
      return Response(400, Error(InvalidOrExpired));
    }
    var id := otps.rows[otpRecord.value].id;
    var _ := otps.UpdateVerified(id);
    otps.DeleteSpent(email, p, now, None);
    r := Response(200, Ok(OtpVerified(OtpVerifiedMessage, email, true)));
  }

  /** The handler with the clean-up sparing the row it has just verified. */
  method PostCorrected(otps: EmailOtps, email: string, otp: string, purposeField: Option<string>, now: int)
    returns (r: Response<OtpVerified>)
    requires otps.Valid()
    modifies otps
    ensures otps.Valid() && otps.nextId == old(otps.nextId)
    ensures OnePerPair(old(otps.rows)) ==> OnePerPair(otps.rows)
    ensures !ValidRequest(email, otp, purposeField) ==>
      r == Response(400, Error(InvalidRequestData)) && unchanged(otps)
    ensures (ValidRequest(email, otp, purposeField)
             && FindRedeemable(old(otps.rows), email, otp, FromField(purposeField).value, now).None?) ==>
      r == Response(400, Error(InvalidOrExpired)) && unchanged(otps)
    ensures (ValidRequest(email, otp, purposeField)
             && FindRedeemable(old(otps.rows), email, otp, FromField(purposeField).value, now).Some?) ==>
      var i := FindRedeemable(old(otps.rows), email, otp, FromField(purposeField).value, now).value;
      && otps.rows == AfterVerify(old(otps.rows), old(otps.rows)[i].id, email, FromField(purposeField).value, now,
                                  Some(old(otps.rows)[i].id))
      && r == Response(200, Ok(OtpVerified(OtpVerifiedMessage, email, true)))
  {
    var purpose := FromField(purposeField);
    if !IsEmail(email) || Utf16Length(otp) != 6 || purpose.None? {
      return Response(400, Error(InvalidRequestData));
    }
    var p := purpose.value;
    var otpRecord := FindRedeemable(otps.rows, email, otp, p, now);
    if otpRecord.None? {
      return Response(400, Error(InvalidOrExpired));
    }
    var id := otps.rows[otpRecord.value].id;
    var _ := otps.UpdateVerified(id);
    otps.DeleteSpent(email, p, now, Some(id));
    r := Response(200, Ok(OtpVerified(OtpVerifiedMessage, email, true)));
  }
}
