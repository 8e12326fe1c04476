/**
 * What the route handlers exchange with the outside: a JSON response with
 * a status code, the identity carried by a session token, and the
 * password-hashing and token functions of `lib/auth`, which this model
 * treats as given functions.
 */
module Http {
  import opened Wrappers

  /** `NextResponse.json(body, { status })`. */
  datatype Response<T> = Response(status: int, body: Body<T>)

  /** A success payload, `{ error }`, or `{ error, details }`. */
  datatype Body<T> =
    | Ok(value: T)
    | Error(error: string)
    | ErrorDetails(error: string, details: string)

  /** The payload of a session token: `{ userId, email, role }`. */
  datatype Claims = Claims(userId: nat, email: string, role: string)

  /**
   * `hashPassword`, `comparePassword`, `generateToken` and `verifyToken`.
   * They are parameters of the handlers: nothing is assumed about them.
   */
  datatype Crypto = Crypto(
    hash: string -> string,
    compare: (string, string) -> bool,
    sign: Claims -> string,
    verify: string -> Option<Claims>)

  /** `{ message }`, the payload of most successful writes. */
  datatype Message = Message(message: string)
}
