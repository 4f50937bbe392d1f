/** The time rules of access tokens, with the saturating 64-bit arithmetic they are written in. */
module AccessToken {
  const I64_MAX := 0x7fff_ffff_ffff_ffff
  const I64_MIN := -0x8000_0000_0000_0000

  const CLOCK_SKEW := 60
  const MAX_LIFETIME := 15 * 60

  type I64 = x: int | I64_MIN <= x <= I64_MAX

  datatype Claims = Claims(user: nat, organization: nat, session: nat, iat: I64, nbf: I64, exp: I64)

  function Saturate(x: int): I64 {
    if x > I64_MAX then I64_MAX else if x < I64_MIN then I64_MIN else x
  }

  predicate ValidLifetime(c: Claims) {
    !(|| c.iat < 0
      || c.nbf < Saturate(c.iat - CLOCK_SKEW)
      || c.exp <= c.nbf
      || c.exp <= c.iat
      || Saturate(c.exp - c.iat) > MAX_LIFETIME)
  }

  /** The checks made on decoded claims whose signature, issuer and audience are right. */
  predicate Accepted(c: Claims, now: I64) {
    && ValidLifetime(c)
    && !(|| c.exp <= now
         || c.nbf > Saturate(now + CLOCK_SKEW)
         || c.iat > Saturate(now + CLOCK_SKEW))
  }

  /** Saturation never matters: acceptance is the plain window of RFC 7519 sections 4.1.4 to 4.1.6. */
  lemma AcceptedIff(c: Claims, now: I64)
    ensures Accepted(c, now) <==>
      && 0 <= c.iat && c.iat - 60 <= c.nbf < c.exp && c.iat < c.exp <= c.iat + 900
      && c.iat - 60 <= now < c.exp && c.nbf - 60 <= now
  {}
}
