/** The error bodies `{ error: <code> }` the API answers with, and their HTTP statuses. */
module ApiErrors {

  datatype ApiError =
    | AuthRequired        // no usable Authorization header
    | InvalidToken        // a Bearer header whose token is not `uid:<digits>`
    | InvalidAuthHeader   // a Basic header whose decoded text has no `:`
    | InvalidCredentials  // empty email or password, or no matching user
    | InvalidPayload      // a food body without name or with a type outside the enumeration
    | InvalidId           // a path id that is not a positive integer
    | NotFound            // the write touched no row
  {
    /** The `error` field of the JSON body. */
    function Code(): string {
      match this
      case AuthRequired => "auth_required"
      case InvalidToken => "invalid_token"
      case InvalidAuthHeader => "invalid_auth_header"
      case InvalidCredentials => "invalid_credentials"
      case InvalidPayload => "invalid_payload"
      case InvalidId => "invalid_id"
      case NotFound => "not_found"
    }

    /** The HTTP status sent with it: 401 for authentication, 400 for bad input, 404 for a missing row. */
    function Status(): (s: int)
      ensures s == 401 <==> this in {AuthRequired, InvalidToken, InvalidAuthHeader, InvalidCredentials}
      ensures s == 400 <==> this in {InvalidPayload, InvalidId}
      ensures s == 404 <==> this == NotFound
    {
      match this
      case InvalidPayload | InvalidId => 400
      case NotFound => 404
      case _ => 401
    }
  }

  /** Distinct errors carry distinct codes, so a client can tell them apart. */
  lemma CodesDistinct(e1: ApiError, e2: ApiError)
    requires e1 != e2
    ensures e1.Code() != e2.Code()
  {
  }
}
