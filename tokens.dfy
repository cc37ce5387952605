/**
 * JSON Web Tokens as the servers use them (server/index.js:48-84), with the
 * signature treated as an ideal oracle: a token is the payload it was signed
 * over together with the key that signed it, and verifying with a key succeeds
 * exactly when that key signed it.
 */
module Tokens {
  import opened Prelude
  import opened Text

  /** JWT_SECRET signs access tokens, JWT_REFRESH_SECRET signs refresh tokens;
      `Foreign` stands for any token the server did not sign (forged or malformed). */
  datatype Key = AccessSecret | RefreshSecret | Foreign(n: nat)

  /** A signed token: key, the `userId` claim and the `iat` claim, which
      `jwt.sign` fills in with the current time in whole seconds. */
  datatype Jwt = Jwt(key: Key, userId: string, issuedAt: int)

  datatype TokenPair = TokenPair(accessToken: Jwt, refreshToken: Jwt)

  /** `jwt.sign({ userId }, key)` at the instant `nowMs` (Math.floor(Date.now() / 1000) seconds). */
  function Sign(key: Key, userId: string, nowMs: int): Jwt
  {
    Jwt(key, userId, nowMs / SECOND_MS)
  }

  /** `jwt.verify(token, key)` succeeding. Expiry (`exp`) is not modelled. */
  predicate Verifies(token: Jwt, key: Key)
  {
    token.key == key
  }

  /** `generateTokens(userId)`: an access token and a refresh token for the same
      user, signed with different secrets, so neither can stand in for the other. */
  function GenerateTokens(userId: string, nowMs: int): (r: TokenPair)
    ensures Verifies(r.accessToken, AccessSecret) && !Verifies(r.accessToken, RefreshSecret)
    ensures Verifies(r.refreshToken, RefreshSecret) && !Verifies(r.refreshToken, AccessSecret)
    ensures r.accessToken.userId == userId && r.refreshToken.userId == userId
    ensures r.accessToken != r.refreshToken
  {
    TokenPair(Sign(AccessSecret, userId, nowMs), Sign(RefreshSecret, userId, nowMs))
  }

  /** Because `iat` has a resolution of one second, two pairs minted for the same
      user coincide exactly when they are minted in the same second. */
  lemma SameSecondSameTokens(userId: string, t1: int, t2: int)
    ensures GenerateTokens(userId, t1) == GenerateTokens(userId, t2) <==> t1 / SECOND_MS == t2 / SECOND_MS
  {
  }

  // ----- the authenticateToken middleware (server/index.js:62-77) -----

  /** `Proceed` calls `next()` with the decoded claims; the other two are the 401 and 403 replies. */
  datatype AuthDecision = Proceed(claims: Jwt) | AccessTokenRequired | InvalidOrExpired

  function AuthStatus(d: AuthDecision): nat
  {
    match d
    case Proceed(_) => 200
    case AccessTokenRequired => 401
    case InvalidOrExpired => 403
  }

  /** The token is the second space-separated piece of the Authorization header;
      `decode` stands for the JWT library's parsing of that text. */
  function Authenticate(header: Option<string>, decode: string -> Option<Jwt>): AuthDecision
  {
    if header.None? || header.value == [] then AccessTokenRequired
    else
      var pieces := Split(header.value, ' ');
      if |pieces| < 2 || pieces[1] == [] then AccessTokenRequired
      else
        match decode(pieces[1])
        case None => InvalidOrExpired
        case Some(t) => if Verifies(t, AccessSecret) then Proceed(t) else InvalidOrExpired
  }

  /** A `Bearer <token>` header reaches `next()` exactly when the token is an access
      token; a refresh token or a foreign one is refused with 403, never 401. */
  lemma BearerHeader(token: string, decode: string -> Option<Jwt>)
    requires token != [] && ' ' !in token
    ensures var d := Authenticate(Some("Bearer " + token), decode);
            && (d.Proceed? <==> decode(token).Some? && Verifies(decode(token).value, AccessSecret))
            && (d.Proceed? ==> d.claims == decode(token).value)
            && (!d.Proceed? ==> d == InvalidOrExpired)
  {
    assert "Bearer " + token == "Bearer" + [' '] + token;
    assert ' ' !in "Bearer";
    SplitAtFirst("Bearer", token, ' ');
    SplitNone(token, ' ');
  }

  /** A header with no space in it carries no token: 401 whatever it says. */
  lemma HeaderWithoutSpace(h: string, decode: string -> Option<Jwt>)
    requires ' ' !in h
    ensures Authenticate(Some(h), decode) == AccessTokenRequired
  {
    SplitNone(h, ' ');
  }
}
