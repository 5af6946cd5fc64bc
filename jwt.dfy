/** Signed bearer tokens (JSON Web Tokens, RFC 7519) as the server issues
    and checks them. Signing and signature checking belong to a library
    that is not part of this model: a token is its claims plus whether its
    signature checks out against the server's key. Two tokens with the same
    claims are the same string, so they are the same value here too. */
module Jwt {
  import opened Text

  /** The claims the server puts in a token. A claim the server leaves out
      (`twoFactorVerified` in a challenge token, `twoFactorRequired` in a
      session token) reads as `false`. `iat` and `exp` are in seconds
      (section 4.1.6 and section 4.1.4 of RFC 7519). */
  datatype Claims = Claims(userId: nat, twoFactorRequired: bool, twoFactorVerified: bool, iat: int, exp: int)

  datatype Token = Token(claims: Claims, signatureValid: bool)

  /** `expiresIn: '5m'` */
  const ChallengeTtlSeconds: nat := 5 * 60

  /** `expiresIn: '7d'` */
  const SessionTtlSeconds: nat := 7 * 24 * 60 * 60

  /** The library's clock: whole seconds of `Date.now()`. */
  function Seconds(nowMs: nat): nat {
    nowMs / 1000
  }

  /** The token issued after the password step of a 2FA account:
      `{userId, twoFactorRequired: true}`, valid for five minutes. */
  function ChallengeToken(userId: nat, nowMs: nat): Token {
    Token(Claims(userId, true, false, Seconds(nowMs), Seconds(nowMs) + ChallengeTtlSeconds), true)
  }

  /** The session token: `{userId, twoFactorVerified: true}`, valid for
      seven days. */
  function SessionToken(userId: nat, nowMs: nat): Token {
    Token(Claims(userId, false, true, Seconds(nowMs), Seconds(nowMs) + SessionTtlSeconds), true)
  }

  /** The token `/register` issues and stores: `{userId}` alone, valid for
      seven days. It claims neither that a second factor is pending nor
      that one was passed. */
  function RegisterToken(userId: nat, nowMs: nat): Token {
    Token(Claims(userId, false, false, Seconds(nowMs), Seconds(nowMs) + SessionTtlSeconds), true)
  }

  /** `jwt.verify(token, secret)`: the claims when the signature holds and
      the token has not yet expired (it is expired from second `exp` on);
      `None` where the library throws. */
  function Verify(token: Token, nowMs: nat): (r: Option<Claims>)
    ensures r.Some? <==> token.signatureValid && Seconds(nowMs) < token.claims.exp
    ensures r.Some? ==> r.value == token.claims
  {
    if !token.signatureValid || Seconds(nowMs) >= token.claims.exp then None
    else Some(token.claims)
  }

  /** A challenge token verifies for exactly five minutes from the second
      it was issued in, and never says that the second factor was passed. */
  lemma ChallengeLifetime(userId: nat, issuedMs: nat, nowMs: nat)
    requires issuedMs <= nowMs
    ensures Verify(ChallengeToken(userId, issuedMs), nowMs).Some? <==>
              Seconds(nowMs) - Seconds(issuedMs) < ChallengeTtlSeconds
    ensures !ChallengeToken(userId, issuedMs).claims.twoFactorVerified
  {
  }

  /** A session token verifies for exactly seven days. */
  lemma SessionLifetime(userId: nat, issuedMs: nat, nowMs: nat)
    requires issuedMs <= nowMs
    ensures Verify(SessionToken(userId, issuedMs), nowMs).Some? <==>
              Seconds(nowMs) - Seconds(issuedMs) < SessionTtlSeconds
    ensures SessionToken(userId, issuedMs).claims.twoFactorVerified
  {
  }
}
