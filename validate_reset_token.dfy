/**
 * app/api/auth/validate-reset-token/route.ts: `POST { token }` reports
 * whether some user holds the reset token with an expiry still ahead.
 */
module ValidateResetTokenRoute {
  import opened Wrappers
  import opened Store
  import opened UserTable
  import opened Http

  const TokenRequired: string := "Token is required"
  const InvalidToken: string := "Invalid or expired reset token"
  const TokenIsValid: string := "Token is valid"

  /** `{ message, valid: true }`. */
  datatype TokenStatus = TokenStatus(message: string, valid: bool)

  /** `POST` at time `now`: a read of the `User` table only. */
  function Post(users: seq<User>, token: string, now: int): (r: Response<TokenStatus>)
    ensures token == "" ==> r == Response(400, Error(TokenRequired))
    ensures token != "" ==>
      (r == Response(200, Ok(TokenStatus(TokenIsValid, true))) <==>
       exists u :: u in users && u.resetToken == Some(token) && u.resetTokenExpiry.Some? && u.resetTokenExpiry.value > now)
    ensures r.status != 200 ==> r.status == 400
    ensures r.status == 400 && token != "" ==> r == Response(400, Error(InvalidToken))
  {
    if token == "" then Response(400, Error(TokenRequired))
    else
      match FindByResetToken(users, token, now)
      case None => Response(400, Error(InvalidToken))
      case Some(_) => Response(200, Ok(TokenStatus(TokenIsValid, true)))
  }

  /** An unknown token and an expired one get the same answer, expiry exactly now included. */
  lemma ExpiredLikeUnknown(users: seq<User>, token: string, now: int)
    requires token != ""
    requires forall u :: u in users && u.resetToken == Some(token) ==> u.resetTokenExpiry.None? || u.resetTokenExpiry.value <= now
    ensures Post(users, token, now) == Post([], token, now)
  {
  }
}
