/**
 * The `basicAuth` middleware of the API server and the token the login route hands out.
 *
 * The middleware reads the `Authorization` header and either resolves a caller or rejects
 * the request with a 401 error. Base64 decoding and the database lookup
 * (`SELECT id, email FROM users WHERE email = ? AND password = SHA2(?, 256) LIMIT 1`)
 * are parameters: `decodeBase64` and `findUser`.
 */
module AuthMiddleware {
  import opened Wrappers
  import opened JsStrings
  import opened ApiErrors

  /** A row of the `users` table as the lookup returns it. */
  datatype UserRow = UserRow(id: int, email: string)

  /** `req.user`: `{ id }` built from a token, or the database row itself. */
  datatype Caller = TokenCaller(id: nat) | RowCaller(row: UserRow)

  const BearerPrefix: string := "Bearer "
  const BasicPrefix: string := "Basic "
  const TokenPrefix: string := "uid:"

  /** `req.headers['authorization'] || ''`. */
  function HeaderText(header: Option<string>): string {
    header.GetOr("")
  }

  /** The token matches `/^uid:(\d+)$/`: the prefix, one or more ASCII digits, nothing else. */
  predicate IsUidToken(token: string) {
    |token| > |TokenPrefix| && token[..|TokenPrefix|] == TokenPrefix && AllDigits(token[|TokenPrefix|..])
  }

  /**
   * The id a token names, `Number(m[1])`, when the token has the `uid:<digits>` shape; a
   * token without superfluous leading zeros is then the rendering of its id.
   */
  function ParseToken(token: string): (id: Option<nat>)
    ensures id.Some? <==> IsUidToken(token)
    ensures id.Some? && Canonical(token[|TokenPrefix|..]) ==> token == TokenPrefix + NatToDecimal(id.value)
  {
    if !IsUidToken(token) then None
    else
      var digits := token[|TokenPrefix|..];
      assert token == TokenPrefix + digits;
      assert Canonical(digits) ==> NatToDecimal(DecimalValue(digits)) == digits by {
        if Canonical(digits) { DecimalCanonical(digits); }
      }
      Some(DecimalValue(digits))
  }

  /** The middleware's decision: the resolved caller, or the error it answers with. */
  function Authenticate(
    header: Option<string>,
    decodeBase64: string -> string,
    findUser: (string, string) -> seq<UserRow>
  ): (r: Result<Caller, ApiError>)
    ensures r.Failure? ==> r.error.Status() == 401
    ensures r.Failure? ==> r.error in {AuthRequired, InvalidToken, InvalidAuthHeader, InvalidCredentials}
  {
    var h := HeaderText(header);
    if StartsWith(h, BearerPrefix) then
      match ParseToken(h[|BearerPrefix|..])
      case Some(id) => Success(TokenCaller(id))
      case None => Failure(InvalidToken)
    else if !StartsWith(h, BasicPrefix) then
      Failure(AuthRequired)
    else
      var decoded := decodeBase64(h[|BasicPrefix|..]);
      match IndexOf(decoded, ':')
      case None => Failure(InvalidAuthHeader)
      case Some(idx) =>
        var email := decoded[..idx];
        var password := decoded[idx + 1..];
        if email == "" || password == "" then
          Failure(InvalidCredentials)
        else
          var rows := findUser(email, password);
          if |rows| == 0 then Failure(InvalidCredentials) else Success(RowCaller(rows[0]))
  }

  /**
   * A Bearer header is accepted exactly when its token is `uid:` and digits; the caller is
   * the decimal value of the digits, whatever the users table holds.
   */
  lemma BearerHeader(token: string, decodeBase64: string -> string, findUser: (string, string) -> seq<UserRow>)
    ensures Authenticate(Some(BearerPrefix + token), decodeBase64, findUser)
      == if IsUidToken(token) then Success(TokenCaller(DecimalValue(token[|TokenPrefix|..])))
         else Failure(InvalidToken)
  {
    var h := BearerPrefix + token;
    assert StartsWith(h, BearerPrefix);
    assert h[|BearerPrefix|..] == token;
  }

  /** A missing header, an empty one, or one with neither scheme is `auth_required`. */
  lemma NoScheme(header: Option<string>, decodeBase64: string -> string, findUser: (string, string) -> seq<UserRow>)
    requires !StartsWith(HeaderText(header), BearerPrefix) && !StartsWith(HeaderText(header), BasicPrefix)
    ensures Authenticate(header, decodeBase64, findUser) == Failure(AuthRequired)
  {
  }

  /**
   * The scheme names are case sensitive and need their space: whatever follows, `bearer ` and
   * `basic ` headers are not Bearer or Basic headers, and neither are the bare scheme names.
   */
  lemma SchemeNeedsExactPrefix(t: string, decodeBase64: string -> string, findUser: (string, string) -> seq<UserRow>)
    ensures Authenticate(Some("bearer " + t), decodeBase64, findUser) == Failure(AuthRequired)
    ensures Authenticate(Some("basic " + t), decodeBase64, findUser) == Failure(AuthRequired)
    ensures Authenticate(Some("Bearer"), decodeBase64, findUser) == Failure(AuthRequired)
    ensures Authenticate(Some("Basic"), decodeBase64, findUser) == Failure(AuthRequired)
    ensures Authenticate(None, decodeBase64, findUser) == Failure(AuthRequired)
  {
    var lower := "bearer " + t;
    assert !StartsWith(lower, BearerPrefix) by { assert lower[0] != BearerPrefix[0]; }
    assert !StartsWith(lower, BasicPrefix) by { assert lower[0] != BasicPrefix[0]; }
    var basic := "basic " + t;
    assert !StartsWith(basic, BearerPrefix) by { assert basic[0] != BearerPrefix[0]; }
    assert !StartsWith(basic, BasicPrefix) by { assert basic[0] != BasicPrefix[0]; }
    assert !StartsWith("Bearer", BasicPrefix) by { assert "Bearer"[1] != BasicPrefix[1]; }
    assert !StartsWith("Basic", BearerPrefix) by { assert "Basic"[1] != BearerPrefix[1]; }
  }

  /** Basic credentials without a `:` are `invalid_auth_header`. */
  lemma BasicWithoutColon(encoded: string, decodeBase64: string -> string, findUser: (string, string) -> seq<UserRow>)
    requires ':' !in decodeBase64(encoded)
    ensures Authenticate(Some(BasicPrefix + encoded), decodeBase64, findUser) == Failure(InvalidAuthHeader)
  {
    var h := BasicPrefix + encoded;
    assert !StartsWith(h, BearerPrefix) by { assert h[1] != BearerPrefix[1]; }
    assert h[|BasicPrefix|..] == encoded;
  }

  /**
   * Basic credentials split at the first `:`; everything after it, further colons included,
   * is the password. Empty parts are rejected before the lookup; otherwise the caller is the
   * first row the lookup returns, and no row is `invalid_credentials`.
   */
  lemma BasicCredentials(
    encoded: string, email: string, password: string,
    decodeBase64: string -> string, findUser: (string, string) -> seq<UserRow>
  )
    requires decodeBase64(encoded) == email + ":" + password && ':' !in email
    ensures Authenticate(Some(BasicPrefix + encoded), decodeBase64, findUser)
      == if email == "" || password == "" then Failure(InvalidCredentials)
         else if findUser(email, password) == [] then Failure(InvalidCredentials)
         else Success(RowCaller(findUser(email, password)[0]))
  {
    var h := BasicPrefix + encoded;
    assert !StartsWith(h, BearerPrefix) by { assert h[1] != BearerPrefix[1]; }
    assert h[|BasicPrefix|..] == encoded;
    var decoded := email + ":" + password;
    IndexOfSplit(email, ':', password);
    assert decoded[..|email|] == email;
    assert decoded[|email| + 1..] == password;
  }

  /** The login route's `token`: `uid:${rows[0].id}` when the query matched a row, none otherwise. */
  function LoginToken(rows: seq<UserRow>): (t: Option<string>)
    ensures t.Some? <==> |rows| > 0
    ensures t.Some? ==> StartsWith(t.value, TokenPrefix)
  {
    if |rows| > 0 then Some(TokenPrefix + IntToString(rows[0].id)) else None
  }

  /** Every token the login route can form for a natural id is accepted and names that id. */
  lemma TokenRoundTrip(id: nat)
    ensures ParseToken(TokenPrefix + NatToDecimal(id)) == Some(id)
  {
    var t := TokenPrefix + NatToDecimal(id);
    assert t[|TokenPrefix|..] == NatToDecimal(id);
    DecimalRoundTrip(id);
  }

  /**
   * Conversely, an accepted token without superfluous leading zeros is exactly the token of
   * the id it names; `uid:007` is accepted too and names 7, but login never forms it.
   */
  lemma TokenCanonical(token: string)
    requires IsUidToken(token) && Canonical(token[|TokenPrefix|..])
    ensures ParseToken(token).Some? && token == TokenPrefix + NatToDecimal(ParseToken(token).value)
  {
    var digits := token[|TokenPrefix|..];
    DecimalCanonical(digits);
    assert token == TokenPrefix + digits;
  }

  /**
   * Sending back the token of a successful login as `Bearer <token>` authenticates as the
   * logged-in row's id; a negative id would render as `uid:-n`, which the pattern rejects.
   */
  lemma LoginThenBearer(rows: seq<UserRow>, decodeBase64: string -> string, findUser: (string, string) -> seq<UserRow>)
    requires |rows| > 0
    ensures Authenticate(Some(BearerPrefix + LoginToken(rows).value), decodeBase64, findUser)
      == if rows[0].id >= 0 then Success(TokenCaller(rows[0].id)) else Failure(InvalidToken)
  {
    var t := LoginToken(rows).value;
    BearerHeader(t, decodeBase64, findUser);
    if rows[0].id >= 0 {
      TokenRoundTrip(rows[0].id);
    } else {
      assert t[|TokenPrefix|] == '-';
      assert !IsDigit(t[|TokenPrefix|..][0]);
    }
  }
}
