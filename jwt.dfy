/** Signed tokens as the services use them: a claim set bound to the signing secret, issued with
    a lifetime in seconds, and checked by signature first and expiry second. */
module Jwt {
  import opened Common

  const Day := 86400
  /** Access-token lifetime when none is configured (`'7d'`). */
  const DefaultAccessLifetime := 7 * Day
  /** Refresh-token lifetime (`'30d'`), fixed. */
  const RefreshLifetime := 30 * Day
  /** The `type` claim only refresh tokens carry. */
  const RefreshType := "refresh"

  /** The process configuration the token code reads: the signing secret and the optional
      access-token lifetime, in seconds. */
  datatype Config = Config(secret: string, accessLifetime: Option<nat>)

  function AccessLifetime(cfg: Config): nat {
    match cfg.accessLifetime
    case None => DefaultAccessLifetime
    case Some(l) => l
  }

  /** The payload: the user id, the optional `type`, and the issue and expiry times in seconds. */
  datatype Claims = Claims(userId: Id, tokenType: Option<string>, iat: int, exp: int)

  /** A token either carries a claim set signed with some key, or is text that does not parse as
      a signed token at all. */
  datatype Token = Signed(claims: Claims, key: string) | Garbled(text: string)

  datatype Verdict = Verified(claims: Claims) | Malformed | Expired

  /** `jwt.sign(payload, secret, { expiresIn })` at time `now`. */
  function Sign(userId: Id, tokenType: Option<string>, secret: string, now: int, lifetime: nat): (t: Token)
    ensures t.Signed? && t.key == secret
    ensures t.claims.userId == userId && t.claims.tokenType == tokenType
    ensures t.claims.iat == now && t.claims.exp == now + lifetime
  {
    Signed(Claims(userId, tokenType, now, now + lifetime), secret)
  }

  /** `jwt.verify(token, secret)` at time `now`: a token that does not parse or whose signature
      does not check is malformed whatever its expiry; a genuine token is expired from its `exp`
      second on. */
  function Verify(t: Token, secret: string, now: int): (v: Verdict)
    ensures v.Verified? <==> t.Signed? && t.key == secret && now < t.claims.exp
    ensures v.Verified? ==> v.claims == t.claims
    ensures v.Expired? <==> t.Signed? && t.key == secret && now >= t.claims.exp
  {
    match t
    case Garbled(_) => Malformed
    case Signed(c, k) =>
      if k != secret then Malformed
      else if now >= c.exp then Expired
      else Verified(c)
  }

  /** A token signed with the secret verifies to its own claims for exactly `lifetime` seconds
      after it was issued, and is expired from then on. */
  lemma SignedVerifiesUntilExpiry(userId: Id, tokenType: Option<string>, secret: string, issued: int, lifetime: nat, now: int)
    requires issued <= now
    ensures var t := Sign(userId, tokenType, secret, issued, lifetime);
      Verify(t, secret, now) == (if now < issued + lifetime then Verified(t.claims) else Expired)
  {
  }

  /** A token signed with another secret never verifies, not even before its expiry. */
  lemma ForeignSecretIsMalformed(t: Token, secret: string, now: int)
    requires t.Signed? && t.key != secret
    ensures Verify(t, secret, now) == Malformed
  {
  }
}
