/** The two request guards of middleware/auth.js. `auth` admits any
    signed, unexpired token that is still on its owner's token list;
    `require2FA` admits only a token that also says the second factor was
    passed. A missing `Authorization` header, and one that holds nothing
    after the `Bearer ` prefix, are `None`. */
module AuthMiddleware {
  import opened Text
  import Jwt
  import opened UserModel

  /** What a guard does with a request: answer 401 with one of three
      errors, or pass it on with `req.token` and `req.user` set. */
  datatype GuardResult =
    | NoToken
    | SecondFactorRequired
    | InvalidToken(error: string)
    | Accepted(token: Jwt.Token, user: User)

  const NoTokenError := "No token provided, access denied"
  const AuthInvalidError := "Invalid or expired token, please login again"
  const SecondFactorError := "Two-factor authentication required"
  const Require2FAInvalidError := "Invalid or expired token"

  /** `User.findOne({_id: id, 'tokens.token': token})` */
  function FindWithToken(users: seq<User>, id: nat, token: Jwt.Token): (u: User?)
    reads users
    ensures u != null ==> u in users && u.id == id && token in u.tokens
    ensures u == null ==> forall v :: v in users ==> !(v.id == id && token in v.tokens)
  {
    if users == [] then null
    else if users[0].id == id && token in users[0].tokens then users[0]
    else FindWithToken(users[1..], id, token)
  }

  /** The token is still held by the user it names. */
  predicate Held(users: seq<User>, token: Jwt.Token)
    reads users
  {
    exists v :: v in users && v.id == token.claims.userId && token in v.tokens
  }

  function Auth(users: seq<User>, header: Option<Jwt.Token>, nowMs: nat): (r: GuardResult)
    reads users
    ensures r.NoToken? <==> header.None?
    ensures r.Accepted? <==>
              header.Some? && Jwt.Verify(header.value, nowMs).Some? && Held(users, header.value)
    ensures r.Accepted? ==>
              r.token == header.value && r.user in users &&
              r.user.id == r.token.claims.userId && r.token in r.user.tokens
    ensures r.InvalidToken? ==> r.error == AuthInvalidError
    ensures !r.SecondFactorRequired?
  {
    if header.None? then NoToken
    else
      var decoded := Jwt.Verify(header.value, nowMs);
      if decoded.None? then InvalidToken(AuthInvalidError)
      else
        var user := FindWithToken(users, decoded.value.userId, header.value);
        if user == null then InvalidToken(AuthInvalidError)
        else Accepted(header.value, user)
  }

  function Require2FA(users: seq<User>, header: Option<Jwt.Token>, nowMs: nat): (r: GuardResult)
    reads users
    ensures r.NoToken? <==> header.None?
    ensures r.SecondFactorRequired? <==>
              header.Some? && Jwt.Verify(header.value, nowMs).Some? && !header.value.claims.twoFactorVerified
    ensures r.Accepted? <==>
              header.Some? && Jwt.Verify(header.value, nowMs).Some? &&
              header.value.claims.twoFactorVerified && Held(users, header.value)
    ensures r.Accepted? ==>
              r.token == header.value && r.user in users &&
              r.user.id == r.token.claims.userId && r.token in r.user.tokens
    ensures r.InvalidToken? ==> r.error == Require2FAInvalidError
  {
    if header.None? then NoToken
    else
      var decoded := Jwt.Verify(header.value, nowMs);
      if decoded.None? then InvalidToken(Require2FAInvalidError)
      else if !decoded.value.twoFactorVerified then SecondFactorRequired
      else
        var user := FindWithToken(users, decoded.value.userId, header.value);
        if user == null then InvalidToken(Require2FAInvalidError)
        else Accepted(header.value, user)
  }

  /** `require2FA` is the stricter guard: whatever it admits, `auth`
      admits with the same token and user. */
  lemma Require2FAStricter(users: seq<User>, header: Option<Jwt.Token>, nowMs: nat)
    ensures Require2FA(users, header, nowMs).Accepted? ==>
              Auth(users, header, nowMs) == Require2FA(users, header, nowMs)
  {
  }

  /** A challenge token never passes `require2FA`, however fresh. */
  lemma ChallengeNeverPassesRequire2FA(users: seq<User>, userId: nat, issuedMs: nat, nowMs: nat)
    ensures !Require2FA(users, Some(Jwt.ChallengeToken(userId, issuedMs)), nowMs).Accepted?
  {
  }

  /** No token on a user's list is a challenge token. The handlers only
      ever store session tokens, and `/register` stores its own `{userId}`
      token, which claims no pending second factor either. */
  predicate NoChallengeTokens(users: seq<User>)
    reads users
  {
    forall v, t :: v in users && t in v.tokens ==> !t.claims.twoFactorRequired
  }

  /** While no challenge token is stored, a challenge token does not pass
      `auth` either. */
  lemma ChallengeNeverPassesAuth(users: seq<User>, userId: nat, issuedMs: nat, nowMs: nat)
    requires NoChallengeTokens(users)
    ensures !Auth(users, Some(Jwt.ChallengeToken(userId, issuedMs)), nowMs).Accepted?
  {
  }

  /** The token a user got at registration opens the routes behind `auth`
      while it lasts, but never the ones behind `require2FA`, since it does
      not say that a second factor was passed. Storing it keeps
      `NoChallengeTokens`. */
  lemma RegisterTokenPassesAuthOnly(users: seq<User>, u: User, issuedMs: nat, nowMs: nat)
    requires u in users && Jwt.RegisterToken(u.id, issuedMs) in u.tokens
    requires issuedMs <= nowMs && Jwt.Seconds(nowMs) - Jwt.Seconds(issuedMs) < Jwt.SessionTtlSeconds
    ensures Auth(users, Some(Jwt.RegisterToken(u.id, issuedMs)), nowMs).Accepted?
    ensures Require2FA(users, Some(Jwt.RegisterToken(u.id, issuedMs)), nowMs) == SecondFactorRequired
    ensures NoChallengeTokens(users) ==>
              forall v, t :: v in users && t in v.tokens + [Jwt.RegisterToken(u.id, issuedMs)] ==>
                !t.claims.twoFactorRequired
  {
    assert Held(users, Jwt.RegisterToken(u.id, issuedMs));
  }

  /** A token taken off its owner's list (logout) no longer passes either
      guard, even though its signature and lifetime still hold. */
  lemma RevokedTokenRefused(users: seq<User>, token: Jwt.Token, nowMs: nat)
    requires forall v :: v in users && v.id == token.claims.userId ==> token !in v.tokens
    ensures !Auth(users, Some(token), nowMs).Accepted?
    ensures !Require2FA(users, Some(token), nowMs).Accepted?
  {
  }
}
