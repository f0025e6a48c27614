/** The HTTP gate of auth/jwt.go: `GetTokenFromRequest`, `JWTMiddleware`
    and `AdminOnlyMiddleware`. A request is an object whose header map the
    gate updates in place; the response is the gate's verdict (a status
    with its reason, or "call next"). The library's decoding of token
    strings is the parameter `decode`, and the time of the request the
    parameter `now`. */
module AuthGate {
  import opened Results
  import opened GoStrings
  import opened AuthTokens

  const AuthorizationHeader: string := "Authorization"
  const UserIDHeader: string := "X-User-ID"
  const UserRoleHeader: string := "X-User-Role"
  const BearerPrefix: string := "Bearer "

  /** Why the gate answers instead of calling the next handler. */
  datatype Reason =
    | MissingToken             // "Missing authorization token"
    | InvalidToken(err: AuthError)  // "Invalid token: " and the library's error
    | AdminRequired            // "Admin access required"

  /** The gate's decision: answer a preflight with 200, refuse with a
      reason, or admit with the verified claims and call `next` once. */
  datatype Verdict = Preflight | Refuse(reason: Reason) | Admit(claims: Claims)

  /** The status code written for a verdict; an admitted request gets
      whatever the next handler writes. */
  function Status(v: Verdict): (code: int)
    requires !v.Admit?
    ensures code in {200, 401, 403}
    ensures v.Preflight? ==> code == 200
    ensures v.Refuse? && v.reason.AdminRequired? ==> code == 403
    ensures v.Refuse? && !v.reason.AdminRequired? ==> code == 401
  {
    match v
    case Preflight => 200
    case Refuse(r) => if r.AdminRequired? then 403 else 401
  }

  /** GetTokenFromRequest: the rest of a "Bearer " Authorization header,
      otherwise the "token" query parameter (possibly ""). */
  function GetTokenFromRequest(headers: map<string, string>, query: map<string, string>): (tok: string)
    ensures HasPrefix(Lookup(headers, AuthorizationHeader), BearerPrefix) ==>
              BearerPrefix + tok == Lookup(headers, AuthorizationHeader)
    ensures !HasPrefix(Lookup(headers, AuthorizationHeader), BearerPrefix) ==> tok == Lookup(query, "token")
  {
    var authHeader := Lookup(headers, AuthorizationHeader);
    if authHeader != "" && HasPrefix(authHeader, BearerPrefix) then TrimPrefix(authHeader, BearerPrefix)
    else Lookup(query, "token")
  }

  /** The decision of JWTMiddleware for a request at time `now`: only
      OPTIONS is a preflight, and this gate never asks for the admin role. */
  function Gate(httpMethod: string, headers: map<string, string>, query: map<string, string>,
                decode: string -> Parsed, now: Seconds): (v: Verdict)
    ensures v.Preflight? <==> httpMethod == "OPTIONS"
    ensures v.Refuse? ==> !v.reason.AdminRequired?
  {
    if httpMethod == "OPTIONS" then Preflight
    else
      var tok := GetTokenFromRequest(headers, query);
      if tok == "" then Refuse(MissingToken)
      else match ValidateToken(decode(tok), now)
        case Failure(err) => Refuse(InvalidToken(err))
        case Success(c) => Admit(c)
  }

  /** The decision of AdminOnlyMiddleware: the JWT gate, then the role;
      only the role "admin" is ever admitted. */
  function AdminGate(httpMethod: string, headers: map<string, string>, query: map<string, string>,
                     decode: string -> Parsed, now: Seconds): (v: Verdict)
    ensures v.Preflight? <==> httpMethod == "OPTIONS"
    ensures v.Admit? ==> v.claims.role == "admin"
  {
    match Gate(httpMethod, headers, query, decode, now)
    case Admit(c) => if c.role != "admin" then Refuse(AdminRequired) else Admit(c)
    case v => v
  }

  /** The headers an admitted request carries on to `next`: the verified
      identity replaces whatever the client sent, and no other header
      changes. */
  function Stamped(headers: map<string, string>, c: Claims): (h: map<string, string>)
    ensures h.Keys == headers.Keys + {UserIDHeader, UserRoleHeader}
    ensures h[UserIDHeader] == c.userID && h[UserRoleHeader] == c.role
    ensures forall k :: k in headers && k != UserIDHeader && k != UserRoleHeader ==> h[k] == headers[k]
  {
    headers[UserIDHeader := c.userID][UserRoleHeader := c.role]
  }

  class Request {
    var httpMethod: string
    var headers: map<string, string>
    var query: map<string, string>

    constructor(httpMethod: string, headers: map<string, string>, query: map<string, string>)
      ensures this.httpMethod == httpMethod && this.headers == headers && this.query == query
    {
      this.httpMethod := httpMethod;
      this.headers := headers;
      this.query := query;
    }

    function Header(name: string): string
      reads this
    {
      Lookup(headers, name)
    }

    /** r.Header.Set(name, value). */
    method SetHeader(name: string, value: string)
      modifies this
      ensures headers == old(headers)[name := value]
      ensures httpMethod == old(httpMethod) && query == old(query)
    {
      headers := headers[name := value];
    }
  }

  /** JWTMiddleware's handler: preflight, refusal, or the request stamped
      with the verified identity and passed on. */
  method JWTMiddleware(r: Request, decode: string -> Parsed, now: Seconds) returns (v: Verdict)
    modifies r
    ensures v == Gate(old(r.httpMethod), old(r.headers), old(r.query), decode, now)
    ensures r.httpMethod == old(r.httpMethod) && r.query == old(r.query)
    ensures r.headers == if v.Admit? then Stamped(old(r.headers), v.claims) else old(r.headers)
  {
    if r.httpMethod == "OPTIONS" {
      return Preflight;
    }
    var tokenString := GetTokenFromRequest(r.headers, r.query);
    if tokenString == "" {
      return Refuse(MissingToken);
    }
    var validated := ValidateToken(decode(tokenString), now);
    if validated.Failure? {
      return Refuse(InvalidToken(validated.error));
    }
    var claims := validated.value;
    r.SetHeader(UserIDHeader, claims.userID);
    r.SetHeader(UserRoleHeader, claims.role);
    return Admit(claims);
  }

  /** AdminOnlyMiddleware's handler: JWTMiddleware around a handler that
      reads back the role header and refuses anything but "admin". */
  method AdminOnlyMiddleware(r: Request, decode: string -> Parsed, now: Seconds) returns (v: Verdict)
    modifies r
    ensures v == AdminGate(old(r.httpMethod), old(r.headers), old(r.query), decode, now)
    ensures r.httpMethod == old(r.httpMethod) && r.query == old(r.query)
    ensures var g := Gate(old(r.httpMethod), old(r.headers), old(r.query), decode, now);
            r.headers == if g.Admit? then Stamped(old(r.headers), g.claims) else old(r.headers)
  {
    v := JWTMiddleware(r, decode, now);
    if v.Admit? {
      var role := r.Header(UserRoleHeader);
      if role != "admin" {
        v := Refuse(AdminRequired);
      }
    }
  }

  // ---------------------------------------------------------------------
  // Properties of the gate

  /** A preflight request is answered 200 without looking at any token. */
  lemma PreflightIgnoresToken(headers: map<string, string>, query: map<string, string>, decode: string -> Parsed,
                              now: Seconds)
    ensures Gate("OPTIONS", headers, query, decode, now) == Preflight
    ensures AdminGate("OPTIONS", headers, query, decode, now) == Preflight
    ensures Status(Gate("OPTIONS", headers, query, decode, now)) == 200
  {
  }

  /** The gate admits exactly the non-preflight requests that carry a
      non-empty token that validates now, and then with that token's
      claims. */
  lemma GateAdmitsValidTokens(httpMethod: string, headers: map<string, string>, query: map<string, string>,
                              decode: string -> Parsed, now: Seconds)
    ensures var tok := GetTokenFromRequest(headers, query);
            Gate(httpMethod, headers, query, decode, now).Admit? <==>
              httpMethod != "OPTIONS" && tok != "" && ValidateToken(decode(tok), now).Success?
    ensures var tok := GetTokenFromRequest(headers, query);
            Gate(httpMethod, headers, query, decode, now).Admit? ==>
              Gate(httpMethod, headers, query, decode, now).claims == ValidateToken(decode(tok), now).value
    ensures var tok := GetTokenFromRequest(headers, query);
            httpMethod != "OPTIONS" && tok == "" ==> Gate(httpMethod, headers, query, decode, now) == Refuse(MissingToken)
  {
  }

  /** A signed token presented after its expiry is refused with 401 by
      both gates. */
  lemma ExpiredTokenUnauthorized(httpMethod: string, headers: map<string, string>, query: map<string, string>,
                                 decode: string -> Parsed, now: Seconds)
    requires httpMethod != "OPTIONS"
    requires var tok := GetTokenFromRequest(headers, query);
             tok != "" && decode(tok).Decoded? && IsHmac(decode(tok).token.alg) && decode(tok).token.signatureOk
             && Expired(decode(tok).token, now)
    ensures Gate(httpMethod, headers, query, decode, now) == Refuse(InvalidToken(TokenExpired))
    ensures AdminGate(httpMethod, headers, query, decode, now) == Refuse(InvalidToken(TokenExpired))
    ensures Status(Gate(httpMethod, headers, query, decode, now)) == 401
  {
  }

  /** The admin gate admits exactly what the JWT gate admits with role
      "admin"; every other admitted request becomes a 403. */
  lemma AdminGateSpec(httpMethod: string, headers: map<string, string>, query: map<string, string>,
                      decode: string -> Parsed, now: Seconds)
    ensures var g := Gate(httpMethod, headers, query, decode, now);
            var a := AdminGate(httpMethod, headers, query, decode, now);
            && (a.Admit? <==> g.Admit? && g.claims.role == "admin")
            && (g.Admit? && g.claims.role != "admin" ==> !a.Admit? && Status(a) == 403)
            && (!g.Admit? ==> a == g)
  {
  }

  /** A bearer header carries the token through unchanged. */
  lemma BearerRoundTrip(headers: map<string, string>, query: map<string, string>, tok: string)
    ensures GetTokenFromRequest(headers[AuthorizationHeader := BearerPrefix + tok], query) == tok
  {
    var h := BearerPrefix + tok;
    assert h[..|BearerPrefix|] == BearerPrefix;
    assert BearerPrefix + GetTokenFromRequest(headers[AuthorizationHeader := h], query) == h;
  }

  /** A bare "Bearer " header yields the empty token, so the query's token
      is never consulted and the request is refused as missing a token. */
  lemma BareBearerShadowsQuery(httpMethod: string, headers: map<string, string>, query: map<string, string>,
                               decode: string -> Parsed, now: Seconds)
    requires Lookup(headers, AuthorizationHeader) == BearerPrefix && httpMethod != "OPTIONS"
    ensures GetTokenFromRequest(headers, query) == ""
    ensures Gate(httpMethod, headers, query, decode, now) == Refuse(MissingToken)
  {
    assert BearerPrefix[..|BearerPrefix|] == BearerPrefix;
  }

  /** A header in another scheme falls back to the query's token. */
  lemma OtherSchemeUsesQuery(headers: map<string, string>, query: map<string, string>)
    requires !HasPrefix(Lookup(headers, AuthorizationHeader), BearerPrefix)
    ensures GetTokenFromRequest(headers, query) == Lookup(query, "token")
  {
  }

  /** The login flow end to end: a token issued for a user, presented as a
      bearer token within 24 hours, is admitted with the user's ID and
      role; presented later, it is refused with 401. */
  lemma IssuedTokenAdmitted(user: User, issued: Seconds, now: Seconds, httpMethod: string,
                            headers: map<string, string>, query: map<string, string>, tok: string,
                            decode: string -> Parsed)
    requires httpMethod != "OPTIONS" && tok != "" && decode(tok) == Decoded(GenerateToken(user, issued))
    ensures var h := headers[AuthorizationHeader := BearerPrefix + tok];
            var v := Gate(httpMethod, h, query, decode, now);
            now < issued + AccessLifetime ==>
              v.Admit? && Stamped(h, v.claims)[UserIDHeader] == user.userID
              && Stamped(h, v.claims)[UserRoleHeader] == user.role
    ensures var h := headers[AuthorizationHeader := BearerPrefix + tok];
            var v := Gate(httpMethod, h, query, decode, now);
            now >= issued + AccessLifetime ==> v == Refuse(InvalidToken(TokenExpired)) && Status(v) == 401
  {
    BearerRoundTrip(headers, query, tok);
  }

  /** A refresh token is accepted as an access token for its 7 days: the
      gate admits it with empty user ID and role, and the admin gate
      refuses it with 403. */
  lemma RefreshTokenPassesGate(userID: string, issued: Seconds, now: Seconds, httpMethod: string,
                               headers: map<string, string>, query: map<string, string>, tok: string,
                               decode: string -> Parsed)
    requires httpMethod != "OPTIONS" && tok != "" && decode(tok) == Decoded(GenerateRefreshToken(userID, issued))
    requires now < issued + RefreshLifetime
    ensures var h := headers[AuthorizationHeader := BearerPrefix + tok];
            var v := Gate(httpMethod, h, query, decode, now);
            v.Admit? && v.claims.userID == "" && v.claims.role == ""
    ensures var h := headers[AuthorizationHeader := BearerPrefix + tok];
            AdminGate(httpMethod, h, query, decode, now) == Refuse(AdminRequired)
  {
    BearerRoundTrip(headers, query, tok);
  }
}
