/**
 * The libraries the handlers call but that are not part of this model: `bcryptjs`
 * and `jsonwebtoken` (a JWT per RFC 7519, signed with the process-wide
 * JWT_SECRET). They are given to the handlers as functions; `Sound` states the
 * little that the handlers rely on.
 */
module Crypto {

  /** `expiresIn: '1h'`, in seconds. */
  const TokenLifetime: nat := 3600

  /** The payload of a session token: the `userId` claim and the registered `iat` and `exp` claims (RFC 7519, sections 4.1.6 and 4.1.4). */
  datatype Claims = Claims(userId: int, iat: nat, exp: nat)

  /** Why `jwt.verify` throws. */
  datatype VerifyError = BadSignature | Malformed | Expired

  datatype VerifyOutcome = Verified(claims: Claims) | Rejected(error: VerifyError)

  /**
   * Process configuration. `hash(password, salt)` is `bcrypt.hash(password, 10)`
   * with its random salt made an input; `compare` is `bcrypt.compare`; `sign` and
   * `verify(token, now)` are `jwt.sign` and `jwt.verify` with the secret;
   * `nodeEnv` is NODE_ENV.
   */
  datatype Config = Config(
    hash: (string, nat) -> string,
    compare: (string, string) -> bool,
    sign: Claims -> string,
    verify: (string, nat) -> VerifyOutcome,
    nodeEnv: string)

  /**
   * What the handlers rely on from the libraries: a password matches every hash of
   * itself; a token signed here is never empty and verifies to its own claims
   * exactly until its `exp`, after which it is rejected as expired; and no token
   * verifies at or after the `exp` it carries.
   */
  ghost predicate Sound(cfg: Config)
  {
    && (forall p, salt: nat :: cfg.compare(p, cfg.hash(p, salt)))
    && (forall c :: cfg.sign(c) != "")
    && (forall c, now: nat :: cfg.verify(cfg.sign(c), now) == if now < c.exp then Verified(c) else Rejected(Expired))
    && (forall t, now: nat :: cfg.verify(t, now).Verified? ==> now < cfg.verify(t, now).claims.exp)
  }

  /** `jwt.verify(_, JWT_SECRET)` as seen at time `now`. */
  function VerifierAt(cfg: Config, now: nat): string -> VerifyOutcome
  {
    t => cfg.verify(t, now)
  }

  /** `jwt.sign({ userId }, JWT_SECRET, { expiresIn: '1h' })` at time `now`: `iat` is `now`, `exp` one hour later. */
  function Issue(cfg: Config, userId: int, now: nat): string
  {
    cfg.sign(Claims(userId, now, now + TokenLifetime))
  }
}
