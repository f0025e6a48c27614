/** The token side of auth/jwt.go: the user and password tables, login
    (`AuthenticateUser`), the claims the two token constructors build, the
    checks of `ValidateToken` and the lookup of `RefreshAccessToken`.

    The JWT library is modelled abstractly. The library's decoding of a
    token string is given as a `Parsed` value. A decoded `Token` records
    its signing method, its claims and whether its signature verifies
    under the server secret; a token as issued is HS256-signed with that
    secret. The library's time check is modelled concretely: with
    golang-jwt v5's defaults a token is expired from its "exp" instant on
    (no leeway), a token without "exp" never expires, and "iat" is not
    checked. */
module AuthTokens {
  import opened Results

  /** Seconds since the epoch; `time.Now()` becomes a parameter. */
  type Seconds = int

  /** An access token lives 24 hours, a refresh token 7 days. */
  const AccessLifetime: int := 24 * 60 * 60
  const RefreshLifetime: int := 7 * 24 * 60 * 60
  const Issuer: string := "minio-cloud-storage"

  datatype User = User(userID: string, username: string, email: string, role: string)

  /** The jwt.RegisteredClaims fields the code sets; a missing NumericDate
      is `None`. */
  datatype Registered = Registered(subject: string, issuer: string, issuedAt: Option<Seconds>, expiresAt: Option<Seconds>)

  /** The payload decoded into the `Claims` struct: the user fields and the
      registered claims. Fields absent from a payload decode as "". */
  datatype Claims = Claims(userID: string, username: string, email: string, role: string, registered: Registered)

  datatype SigningMethod = HS256 | HS384 | HS512 | RS256 | ES256 | EdDSA | NoSigning

  /** The `*jwt.SigningMethodHMAC` family. */
  predicate IsHmac(m: SigningMethod) {
    m.HS256? || m.HS384? || m.HS512?
  }

  datatype Token = Token(alg: SigningMethod, claims: Claims, signatureOk: bool)

  /** The library's expiry check at time `now`: valid only strictly
      before "exp"; a token without "exp" passes. */
  predicate Expired(t: Token, now: Seconds): (b: bool)
    ensures t.claims.registered.expiresAt.None? ==> !b
    ensures t.claims.registered.expiresAt.Some? ==> (b <==> !(now < t.claims.registered.expiresAt.value))
  {
    t.claims.registered.expiresAt.Some? && now >= t.claims.registered.expiresAt.value
  }

  /** What the library makes of a token string. */
  datatype Parsed = Malformed | Decoded(token: Token)

  datatype AuthError =
    | UserNotFound                               // "user not found"
    | InvalidPassword                            // "invalid password"
    | TokenMalformed                             // the string does not decode
    | UnexpectedSigningMethod(alg: SigningMethod)  // the key callback refuses a non-HMAC method
    | SignatureInvalid                           // the signature does not verify with the secret
    | TokenExpired                               // "exp" is not after the time of use

  // ---------------------------------------------------------------------
  // Tables

  /** Go's read of a missing map key, the zero value "". Also Header.Get and
      Query().Get for a single-valued parameter. */
  function Lookup(m: map<string, string>, k: string): string {
    if k in m then m[k] else ""
  }

  function DefaultUsers(): map<string, User> {
    map[
      "user123" := User("user123", "testuser", "test@example.com", "user"),
      "admin" := User("admin", "admin", "admin@example.com", "admin")
    ]
  }

  function DefaultPasswords(): map<string, string> {
    map["user123" := "password123", "admin" := "adminpass"]
  }

  // ---------------------------------------------------------------------
  // Operations

  /** AuthenticateUser: the stored user when the ID exists and the password
      equals its table entry. */
  function AuthenticateUser(users: map<string, User>, passwords: map<string, string>, userID: string, password: string)
    : (r: Result<User, AuthError>)
    ensures r.Success? <==> userID in users && Lookup(passwords, userID) == password
    ensures r.Success? ==> r.value == users[userID]
    ensures r.Failure? ==> (r.error == UserNotFound <==> userID !in users)
    ensures r.Failure? ==> r.error == UserNotFound || r.error == InvalidPassword
  {
    if userID !in users then Failure(UserNotFound)
    else if Lookup(passwords, userID) != password then Failure(InvalidPassword)
    else Success(users[userID])
  }

  /** GenerateToken(user) at time `now`: an HS256 token carrying the four
      user fields, issued now, valid until 24 hours later. */
  function GenerateToken(user: User, now: Seconds): (t: Token)
    ensures t.alg == HS256 && t.signatureOk
    ensures forall later :: Expired(t, later) <==> later >= now + AccessLifetime
    ensures t.claims.userID == user.userID && t.claims.username == user.username
    ensures t.claims.email == user.email && t.claims.role == user.role
    ensures t.claims.registered.issuer == Issuer && t.claims.registered.subject == ""
    ensures t.claims.registered.issuedAt == Some(now) && t.claims.registered.expiresAt == Some(now + AccessLifetime)
  {
    Token(HS256, Claims(user.userID, user.username, user.email, user.role,
                        Registered("", Issuer, Some(now), Some(now + AccessLifetime))), true)
  }

  /** GenerateRefreshToken(userID) at time `now`: registered claims only,
      with the user ID as subject and a 7-day expiry; no role. */
  function GenerateRefreshToken(userID: string, now: Seconds): (t: Token)
    ensures t.alg == HS256 && t.signatureOk
    ensures forall later :: Expired(t, later) <==> later >= now + RefreshLifetime
    ensures t.claims.userID == "" && t.claims.username == "" && t.claims.email == "" && t.claims.role == ""
    ensures t.claims.registered.subject == userID && t.claims.registered.issuer == Issuer
    ensures t.claims.registered.issuedAt == Some(now) && t.claims.registered.expiresAt == Some(now + RefreshLifetime)
  {
    Token(HS256, Claims("", "", "", "", Registered(userID, Issuer, Some(now), Some(now + RefreshLifetime))), true)
  }

  /** ValidateToken at time `now`: the library's checks in its order. The
      key callback refuses a non-HMAC method before any signature is
      checked, and the time is checked only on a verified signature. */
  function ValidateToken(p: Parsed, now: Seconds): (r: Result<Claims, AuthError>)
    ensures r.Success? <==> p.Decoded? && IsHmac(p.token.alg) && p.token.signatureOk && !Expired(p.token, now)
    ensures r.Success? ==> r.value == p.token.claims
    ensures p.Malformed? ==> r == Failure(TokenMalformed)
    ensures p.Decoded? && !IsHmac(p.token.alg) ==> r == Failure(UnexpectedSigningMethod(p.token.alg))
    ensures p.Decoded? && IsHmac(p.token.alg) && !p.token.signatureOk ==> r == Failure(SignatureInvalid)
    ensures p.Decoded? && IsHmac(p.token.alg) && p.token.signatureOk && Expired(p.token, now) ==>
              r == Failure(TokenExpired)
    ensures p.Decoded? && IsHmac(p.token.alg) && p.token.signatureOk && p.token.claims.registered.expiresAt.None? ==>
              r.Success?
  {
    match p
    case Malformed => Failure(TokenMalformed)
    case Decoded(t) =>
      if !IsHmac(t.alg) then Failure(UnexpectedSigningMethod(t.alg))
      else if !t.signatureOk then Failure(SignatureInvalid)
      else if Expired(t, now) then Failure(TokenExpired)
      else Success(t.claims)
  }

  /** The signature check of RefreshAccessToken, whose key callback hands
      the byte secret to any method: only an HMAC method can verify with it,
      so any other method fails as an invalid signature. */
  predicate VerifiesWithSecret(t: Token) {
    IsHmac(t.alg) && t.signatureOk
  }

  /** RefreshAccessToken at time `now`: a fresh access token for the
      current table entry of the token's subject, provided the presented
      token verifies and has not expired. */
  function RefreshAccessToken(p: Parsed, users: map<string, User>, now: Seconds): (r: Result<Token, AuthError>)
    ensures r.Success? <==>
              p.Decoded? && VerifiesWithSecret(p.token) && !Expired(p.token, now)
              && p.token.claims.registered.subject in users
    ensures r.Success? ==> r.value == GenerateToken(users[p.token.claims.registered.subject], now)
    ensures p.Malformed? ==> r == Failure(TokenMalformed)
    ensures p.Decoded? && !VerifiesWithSecret(p.token) ==> r == Failure(SignatureInvalid)
    ensures p.Decoded? && VerifiesWithSecret(p.token) && Expired(p.token, now) ==> r == Failure(TokenExpired)
    ensures p.Decoded? && VerifiesWithSecret(p.token) && !Expired(p.token, now) ==>
              p.token.claims.registered.subject !in users ==> r == Failure(UserNotFound)
  {
    match p
    case Malformed => Failure(TokenMalformed)
    case Decoded(t) =>
      if !VerifiesWithSecret(t) then Failure(SignatureInvalid)
      else if Expired(t, now) then Failure(TokenExpired)
      else if t.claims.registered.subject !in users then Failure(UserNotFound)
      else Success(GenerateToken(users[t.claims.registered.subject], now))
  }

  // ---------------------------------------------------------------------
  // Properties

  /** A token as issued validates, with the user's identity, for 24 hours
      from its issue, and is refused as expired from then on. */
  lemma IssuedTokenValidates(user: User, issued: Seconds, now: Seconds)
    ensures now < issued + AccessLifetime ==>
              && ValidateToken(Decoded(GenerateToken(user, issued)), now) == Success(GenerateToken(user, issued).claims)
              && ValidateToken(Decoded(GenerateToken(user, issued)), now).value.userID == user.userID
              && ValidateToken(Decoded(GenerateToken(user, issued)), now).value.role == user.role
    ensures now >= issued + AccessLifetime ==>
              ValidateToken(Decoded(GenerateToken(user, issued)), now) == Failure(TokenExpired)
  {
  }

  /** Login then issue: a successful login yields a token that validates
      with the stored user's identity and role while it is fresh. */
  lemma LoginTokenCarriesStoredUser(users: map<string, User>, passwords: map<string, string>,
                                    userID: string, password: string, issued: Seconds, now: Seconds)
    requires AuthenticateUser(users, passwords, userID, password).Success?
    requires issued <= now < issued + AccessLifetime
    ensures var c := ValidateToken(Decoded(GenerateToken(users[userID], issued)), now);
            c.Success? && c.value.userID == users[userID].userID && c.value.role == users[userID].role
  {
    IssuedTokenValidates(users[userID], issued, now);
  }

  /** A user without a password entry logs in with the empty password, since
      a missing key reads as "". */
  lemma MissingPasswordAcceptsEmpty(users: map<string, User>, passwords: map<string, string>, userID: string)
    requires userID in users && userID !in passwords
    ensures AuthenticateUser(users, passwords, userID, "") == Success(users[userID])
    ensures forall pw :: pw != "" ==> AuthenticateUser(users, passwords, userID, pw) == Failure(InvalidPassword)
  {
  }

  /** The built-in tables. */
  lemma DefaultLogins(other: string, pw: string)
    requires other != "user123" && other != "admin"
    ensures AuthenticateUser(DefaultUsers(), DefaultPasswords(), "admin", "adminpass").Success?
    ensures AuthenticateUser(DefaultUsers(), DefaultPasswords(), "admin", "adminpass").value.role == "admin"
    ensures AuthenticateUser(DefaultUsers(), DefaultPasswords(), "user123", "password123").value.role == "user"
    ensures AuthenticateUser(DefaultUsers(), DefaultPasswords(), "user123", "adminpass") == Failure(InvalidPassword)
    ensures AuthenticateUser(DefaultUsers(), DefaultPasswords(), other, pw) == Failure(UserNotFound)
  {
  }

  /** The algorithm check comes first: a non-HMAC token is refused as such
      whatever its signature and expiry. RefreshAccessToken has no such
      check and refuses the same token only as an invalid signature. */
  lemma MethodCheckedFirst(t: Token, users: map<string, User>, now: Seconds)
    requires !IsHmac(t.alg)
    ensures ValidateToken(Decoded(t), now) == Failure(UnexpectedSigningMethod(t.alg))
    ensures RefreshAccessToken(Decoded(t), users, now) == Failure(SignatureInvalid)
  {
  }

  /** Refreshing a refresh token as issued: within 7 days of its issue, the
      access token of the subject's current table entry, or "user not
      found"; from then on, refused as expired. */
  lemma RefreshRoundTrip(userID: string, issued: Seconds, users: map<string, User>, now: Seconds)
    ensures RefreshAccessToken(Decoded(GenerateRefreshToken(userID, issued)), users, now) ==
              if now >= issued + RefreshLifetime then Failure(TokenExpired)
              else if userID in users then Success(GenerateToken(users[userID], now))
              else Failure(UserNotFound)
  {
  }

  /** The role of a refreshed access token comes from the table, never from
      the presented token: tokens that differ only in their user fields
      refresh to the same result, and a table change of the role shows. */
  lemma RefreshRoleFromTable(t: Token, c: Claims, users: map<string, User>, now: Seconds, role: string)
    requires c.registered == t.claims.registered
    ensures RefreshAccessToken(Decoded(t), users, now) == RefreshAccessToken(Decoded(t.(claims := c)), users, now)
    ensures var s := t.claims.registered.subject;
            RefreshAccessToken(Decoded(t), users, now).Success? ==>
              RefreshAccessToken(Decoded(t), users[s := users[s].(role := role)], now).value.claims.role == role
  {
  }

  /** An access token carries no subject, so presenting it for refresh
      fails with "user not found" while it is fresh (unless the table has
      an entry for ""), and as expired afterwards. */
  lemma AccessTokenDoesNotRefresh(user: User, issued: Seconds, users: map<string, User>, now: Seconds)
    requires "" !in users
    ensures RefreshAccessToken(Decoded(GenerateToken(user, issued)), users, now) ==
              if now >= issued + AccessLifetime then Failure(TokenExpired) else Failure(UserNotFound)
  {
  }

  /** A refresh token passes ValidateToken, decoding to empty user fields,
      for its whole 7 days: longer than any access token lives. */
  lemma RefreshTokenValidates(userID: string, issued: Seconds, now: Seconds)
    ensures now < issued + RefreshLifetime ==>
              && ValidateToken(Decoded(GenerateRefreshToken(userID, issued)), now).Success?
              && var c := ValidateToken(Decoded(GenerateRefreshToken(userID, issued)), now).value;
                 c.userID == "" && c.role == "" && c.registered.subject == userID
    ensures now >= issued + RefreshLifetime ==>
              ValidateToken(Decoded(GenerateRefreshToken(userID, issued)), now) == Failure(TokenExpired)
    ensures AccessLifetime < RefreshLifetime
  {
  }
}
