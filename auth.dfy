/** `getUserIdFromToken`: who is asking, according to the `token` cookie. */
module Auth {
  import opened Wrappers
  import opened Crypto

  const TokenCookieName := "token"

  /** `req.cookies.get('token')?.value`. */
  function TokenCookie(cookies: map<string, string>): (v: Option<string>)
    ensures v.Some? <==> TokenCookieName in cookies
    ensures v.Some? ==> v.value == cookies[TokenCookieName]
  {
    if TokenCookieName in cookies then Some(cookies[TokenCookieName]) else None
  }

  /**
   * `getUserIdFromToken(req)`: no user for an absent or empty token; otherwise the
   * `userId` claim of a token that verifies, and no user for any verify failure.
   */
  function UserIdFromToken(cookies: map<string, string>, verify: string -> VerifyOutcome): (r: Option<int>)
    ensures (TokenCookieName !in cookies || cookies[TokenCookieName] == "") ==> r.None?
    ensures TokenCookieName in cookies && cookies[TokenCookieName] != "" ==>
      match verify(cookies[TokenCookieName])
      case Verified(claims) => r == Some(claims.userId)
      case Rejected(_) => r.None?
  {
    var token := TokenCookie(cookies);
    if token.None? || token.value == "" then None
    else
      match verify(token.value)
      case Verified(claims) => Some(claims.userId)
      case Rejected(_) => None
  }

  /** `if (!userId)` in the callers: a missing id and the id 0 both count as unauthenticated. */
  predicate Authenticated(id: Option<int>)
  {
    id.Some? && id.value != 0
  }

  /**
   * Any token that resolves to a user at `now` (one issued here or any other
   * string in the cookie) verified at `now`, and the claims it carried had not
   * expired: the expiry check cannot be bypassed.
   */
  lemma ResolvedTokenUnexpired(cfg: Config, cookies: map<string, string>, now: nat)
    requires Sound(cfg)
    requires UserIdFromToken(cookies, VerifierAt(cfg, now)).Some?
    ensures TokenCookie(cookies).Some?
    ensures cfg.verify(TokenCookie(cookies).value, now).Verified?
    ensures now < cfg.verify(TokenCookie(cookies).value, now).claims.exp
    ensures UserIdFromToken(cookies, VerifierAt(cfg, now)) == Some(cfg.verify(TokenCookie(cookies).value, now).claims.userId)
  {
  }

  /** Without a non-empty token the verifier is never consulted: any two verifiers give the same answer. */
  lemma NoTokenNoVerify(cookies: map<string, string>, v1: string -> VerifyOutcome, v2: string -> VerifyOutcome)
    requires TokenCookie(cookies).None? || TokenCookie(cookies).value == ""
    ensures UserIdFromToken(cookies, v1) == UserIdFromToken(cookies, v2) == None
  {
  }

  /** Every verify failure gives the same answer, whatever its reason. */
  lemma FailuresIndistinguishable(token: string, e1: VerifyError, e2: VerifyError, v1: string -> VerifyOutcome, v2: string -> VerifyOutcome)
    requires v1(token) == Rejected(e1) && v2(token) == Rejected(e2)
    ensures UserIdFromToken(map[TokenCookieName := token], v1) == UserIdFromToken(map[TokenCookieName := token], v2)
  {
  }

  /** A token issued at `iat` resolves to the id it was issued for during its hour of life. */
  lemma IssuedTokenResolves(cfg: Config, userId: int, iat: nat, now: nat)
    requires Sound(cfg)
    requires now < iat + TokenLifetime
    ensures UserIdFromToken(map[TokenCookieName := Issue(cfg, userId, iat)], VerifierAt(cfg, now)) == Some(userId)
  {
  }

  /** From the moment it expires, an issued token resolves to nobody. */
  lemma ExpiredTokenRejected(cfg: Config, userId: int, iat: nat, now: nat)
    requires Sound(cfg)
    requires iat + TokenLifetime <= now
    ensures UserIdFromToken(map[TokenCookieName := Issue(cfg, userId, iat)], VerifierAt(cfg, now)) == None
  {
  }
}
