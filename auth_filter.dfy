/**
 * The authentication filter in front of the API handlers (AuthFilter.java): it reads a token from
 * the `Authorization` header, as "Bearer <token>" or as the bare token, and either passes the
 * request on or answers 401.
 */
module AuthFilter {
  import opened Wrappers
  import opened Text
  import opened Authentication

  const BearerPrefix: string := "Bearer "

  /** What the filter does with a request: hand it to the wrapped handler, or refuse it. */
  datatype Outcome =
    | Delegated
    | Refused(status: int, headers: seq<(string, string)>, body: string)

  /** The 401 answer `sendUnauthorized` writes. */
  const UnauthorizedResponse: Outcome :=
    Refused(401, [("Content-Type", "application/json"), ("WWW-Authenticate", "Bearer")],
            "{\"error\": \"Unauthorized\", \"message\": \"Valid authentication token required\"}")

  /**
   * `extractToken`: null for a missing or empty header; after an exact "Bearer " prefix the rest
   * of the header, trimmed; otherwise the whole header, trimmed. The token is always trimmed.
   */
  function ExtractToken(authHeader: Option<string>): (r: Option<string>)
    ensures authHeader.None? || authHeader == Some("") ==> r.None?
    ensures authHeader.Some? && authHeader.value != "" ==> r.Some?
    ensures r.Some? ==> JavaTrim(r.value) == r.value
  {
    if authHeader.None? || authHeader.value == "" then None
    else
      var raw := if StartsWith(authHeader.value, BearerPrefix) then authHeader.value[|BearerPrefix|..] else authHeader.value;
      JavaTrimKeeps(JavaTrim(raw));
      Some(JavaTrim(raw))
  }

  /** The header the web editor builds, "Bearer " and the token, gives the token back. */
  lemma BearerHeaderRoundTrip(token: string)
    requires JavaTrim(token) == token
    ensures ExtractToken(Some(BearerPrefix + token)) == Some(token)
  {
    assert StartsWith(BearerPrefix + token, BearerPrefix);
    assert (BearerPrefix + token)[|BearerPrefix|..] == token;
  }

  /** Without the exact prefix, the whole header is trimmed. */
  lemma ExtractWithoutPrefix(header: string)
    requires header != "" && !StartsWith(header, BearerPrefix)
    ensures ExtractToken(Some(header)) == Some(JavaTrim(header))
  {
  }

  /** A bare trimmed token not starting with "Bearer " is taken as it is. */
  lemma PlainHeaderRoundTrip(token: string)
    requires token != "" && JavaTrim(token) == token && !StartsWith(token, BearerPrefix)
    ensures ExtractToken(Some(token)) == Some(token)
  {
    ExtractWithoutPrefix(token);
  }

  /** "bearer " in lower case is no prefix: the whole header becomes the token. */
  lemma PrefixIsCaseSensitive(token: string)
    requires token != "" && JavaTrim(token) == token
    ensures ExtractToken(Some("bearer " + token)) == Some("bearer " + token)
  {
    var h := "bearer " + token;
    assert h[0] != BearerPrefix[0];
    assert h[|h| - 1] == token[|token| - 1];
    JavaTrimKeeps(h);
    ExtractWithoutPrefix(h);
  }

  /**
   * `handle`: with authentication disabled the request goes through without the header being read;
   * otherwise it goes through exactly when the extracted token is non-empty and equals the stored
   * one, and is refused with 401 and `WWW-Authenticate: Bearer` when not.
   */
  method Handle(config: AuthConfig, authHeader: Option<string>) returns (outcome: Outcome)
    ensures !config.authEnabled ==> outcome == Delegated
    ensures config.authEnabled ==>
              (outcome == Delegated <==>
                 ExtractToken(authHeader).Some? && ExtractToken(authHeader).value != "" &&
                 ExtractToken(authHeader) == config.authToken)
    ensures outcome == Delegated || outcome == UnauthorizedResponse
  {
    if !config.authEnabled {
      return Delegated;
    }
    var token := ExtractToken(authHeader);
    var valid := config.ValidateToken(token);
    if valid {
      outcome := Delegated;
    } else {
      outcome := UnauthorizedResponse;
    }
  }
}
