/** The handlers of routes/auth.js that make up the login flow and the
    management of two-factor authentication, over a collection of user
    documents. Each handler is one request: it runs its guard (when the
    route has one), then changes at most the one document the request is
    about. Every `await user.save()` is taken to succeed, so a handler's
    changes all land together.

    Two invariants of the collection are kept by every handler:
    2FA is never on without a secret, and no challenge token is ever
    stored on a user's token list. */
module AuthRoutes {
  import opened Text
  import Jwt
  import Totp
  import TwoFactorAuth
  import opened UserModel
  import opened AuthMiddleware

  // ---------------------------------------------------------------------
  // Responses
  // ---------------------------------------------------------------------

  datatype Response =
    /** An error status with its `error` text. */
    | Failure(status: nat, error: string)
    /** 400 after a wrong password, with the attempts left before the lock. */
    | WrongPassword(error: string, remainingAttempts: nat)
    /** 401 from `require2FA` with `requires2FA: true`. */
    | SecondFactorNeeded(error: string)
    /** The password was right and the account has 2FA on. */
    | TwoFactorChallenge(message: string, tempToken: Jwt.Token)
    /** A session token was issued. */
    | LoggedIn(message: string, token: Jwt.Token, userId: nat, twoFactorEnabled: bool)
    /** A session token was issued for a recovery code. */
    | RecoveryLoggedIn(message: string, token: Jwt.Token, userId: nat, remainingRecoveryCodes: nat)
    | SetupInitiated(message: string, qrCode: string, secret: string, recoveryCodes: seq<string>)
    | TwoFactorChanged(message: string, userId: nat, twoFactorEnabled: bool)
    | ProfileData(userId: nat, twoFactorEnabled: bool, lastLoginAt: Option<int>, remainingRecoveryCodes: nat)
    | Done(message: string)

  const MissingCredentialsError := "Email and password are required"
  const InvalidCredentialsError := "Invalid email or password"
  const LockedError := "Account is locked. Please try again later."
  const MissingCodeError := "Temporary token and verification code are required"
  const MissingRecoveryCodeError := "Temporary token and recovery code are required"
  const InvalidTempTokenError := "Invalid or expired temporary token"
  const NotEnabledError := "Two-factor authentication not enabled for this user"
  const InvalidCodeError := "Invalid verification code"
  const InvalidRecoveryCodeError := "Invalid recovery code"
  const CodeRequiredError := "Verification code is required"
  const NotInitializedError := "2FA not initialized"

  /** The 401 answer of a guard that did not let the request through. */
  function Refusal(g: GuardResult): Response
    requires !g.Accepted?
  {
    match g
    case NoToken => Failure(401, NoTokenError)
    case SecondFactorRequired => SecondFactorNeeded(SecondFactorError)
    case InvalidToken(error) => Failure(401, error)
  }

  // ---------------------------------------------------------------------
  // Invariants of the collection
  // ---------------------------------------------------------------------

  /** No user has 2FA on without a secret. */
  predicate AllConsistent(users: seq<User>)
    reads users
  {
    forall v :: v in users ==> v.Consistent()
  }

  /** `tokens.filter(t => t.token !== token)`: every other token, in order. */
  function RemoveToken(tokens: seq<Jwt.Token>, token: Jwt.Token): (r: seq<Jwt.Token>)
    ensures forall t :: t in r <==> t in tokens && t != token
    ensures |r| <= |tokens|
    ensures token !in tokens ==> r == tokens
  {
    if tokens == [] then []
    else if tokens[0] == token then RemoveToken(tokens[1..], token)
    else [tokens[0]] + RemoveToken(tokens[1..], token)
  }

  /** `filter` works piece by piece: the tokens it keeps stay in their
      order, duplicates included. */
  lemma {:induction false} RemoveTokenConcat(a: seq<Jwt.Token>, b: seq<Jwt.Token>, token: Jwt.Token)
    ensures RemoveToken(a + b, token) == RemoveToken(a, token) + RemoveToken(b, token)
  {
    if a == [] {
      assert a + b == b;
    } else {
      assert (a + b)[0] == a[0];
      assert (a + b)[1..] == a[1..] + b;
      RemoveTokenConcat(a[1..], b, token);
    }
  }

  // ---------------------------------------------------------------------
  // POST /login
  // ---------------------------------------------------------------------

  /** `passwordMatches` is the outcome of `user.comparePassword(password)`. */
  method Login(users: seq<User>, email: string, password: string, passwordMatches: bool, nowMs: nat)
    returns (r: Response)
    modifies users
    ensures forall v :: v in users && v != FindByEmail(users, email) ==> unchanged(v)
    ensures email == "" || password == "" ==>
              r == Failure(400, MissingCredentialsError) && forall v :: v in users ==> unchanged(v)
    ensures email != "" && password != "" ==>
              var u := FindByEmail(users, email);
              && (u == null ==> r == Failure(400, InvalidCredentialsError))
              && (u != null && IsLocked(old(u.Lock()), nowMs) ==>
                    r == Failure(429, LockedError) && unchanged(u))
              && (u != null && !IsLocked(old(u.Lock()), nowMs) && !passwordMatches ==>
                    && u.State() == old(u.State()).(lock := AfterFailure(old(u.Lock()), nowMs))
                    && r == WrongPassword(InvalidCredentialsError, RemainingAttempts(u.loginAttempts)))
              && (u != null && !IsLocked(old(u.Lock()), nowMs) && passwordMatches && old(u.twoFactorEnabled) ==>
                    && u.State() == old(u.State()).(lock := Unlocked, lastLoginAt := Some(nowMs))
                    && r == TwoFactorChallenge("Two-factor authentication required", Jwt.ChallengeToken(u.id, nowMs)))
              && (u != null && !IsLocked(old(u.Lock()), nowMs) && passwordMatches && !old(u.twoFactorEnabled) ==>
                    && u.State() == old(u.State()).(lock := Unlocked, lastLoginAt := Some(nowMs),
                                                     tokens := old(u.tokens) + [Jwt.SessionToken(u.id, nowMs)])
                    && r == LoggedIn("Login successful", Jwt.SessionToken(u.id, nowMs), u.id, false))
    ensures r.LoggedIn? ==> Require2FA(users, Some(r.token), nowMs).Accepted?
    ensures old(AllConsistent(users)) ==> AllConsistent(users)
    ensures old(NoChallengeTokens(users)) ==> NoChallengeTokens(users)
  {
    if email == "" || password == "" {
      return Failure(400, MissingCredentialsError);
    }
    var user := FindByEmail(users, email);
    if user == null {
      return Failure(400, InvalidCredentialsError);
    }
    if user.IsAccountLocked(nowMs) {
      return Failure(429, LockedError);
    }
    if !passwordMatches {
      user.IncrementLoginAttempts(nowMs);
      return WrongPassword(InvalidCredentialsError, RemainingAttempts(user.loginAttempts));
    }
    user.ResetLoginAttempts();
    user.lastLoginAt := Some(nowMs);
    if user.twoFactorEnabled {
      return TwoFactorChallenge("Two-factor authentication required", Jwt.ChallengeToken(user.id, nowMs));
    }
    var token := Jwt.SessionToken(user.id, nowMs);
    user.tokens := user.tokens + [token];
    r := LoggedIn("Login successful", token, user.id, user.twoFactorEnabled);
  }

  // ---------------------------------------------------------------------
  // POST /verify-2fa and POST /verify-recovery-code
  // ---------------------------------------------------------------------

  /** The user a temporary token leads to: `null` when the
      token is missing, does not verify, or names no user. Any verifying
      token is taken, not only a challenge token. */
  function TokenUser(users: seq<User>, tempToken: Option<Jwt.Token>, nowMs: nat): (u: User?)
    ensures u != null ==>
              && tempToken.Some? && Jwt.Verify(tempToken.value, nowMs).Some?
              && u in users && u.id == tempToken.value.claims.userId
    ensures (&& tempToken.Some? && Jwt.Verify(tempToken.value, nowMs).Some?
             && exists v :: v in users && v.id == tempToken.value.claims.userId) ==> u != null
  {
    if tempToken.None? || Jwt.Verify(tempToken.value, nowMs).None? then null
    else FindById(users, tempToken.value.claims.userId)
  }

  method Verify2FA(users: seq<User>, tempToken: Option<Jwt.Token>, code: string,
                   hotp: Totp.CodeGenerator, nowMs: nat)
    returns (r: Response)
    modifies users
    ensures tempToken.None? || code == "" ==> r == Failure(400, MissingCodeError)
    ensures tempToken.Some? && code != "" && Jwt.Verify(tempToken.value, nowMs).None? ==>
              r == Failure(401, InvalidTempTokenError)
    ensures tempToken.Some? && code != "" && Jwt.Verify(tempToken.value, nowMs).Some? ==>
              var u := TokenUser(users, tempToken, nowMs);
              && (u == null || !old(u.twoFactorEnabled) || !Truthy(old(u.twoFactorSecret)) ==>
                    r == Failure(400, NotEnabledError))
              && (u != null && old(u.twoFactorEnabled) && Truthy(old(u.twoFactorSecret)) ==>
                    (r.LoggedIn? <==> Totp.Accepts(hotp, old(u.twoFactorSecret).value, code, nowMs, Totp.Window)))
              && (u != null && old(u.twoFactorEnabled) && Truthy(old(u.twoFactorSecret)) &&
                  !Totp.Accepts(hotp, old(u.twoFactorSecret).value, code, nowMs, Totp.Window) ==>
                    r == Failure(400, InvalidCodeError))
    ensures !r.LoggedIn? ==> r.Failure? && forall v :: v in users ==> unchanged(v)
    ensures r.LoggedIn? ==>
              var u := TokenUser(users, tempToken, nowMs);
              && u != null && r.userId == u.id
              && r == LoggedIn("Two-factor authentication verified", Jwt.SessionToken(u.id, nowMs), u.id, true)
              && u.State() == old(u.State()).(tokens := old(u.tokens) + [r.token])
              && forall v :: v in users && v != u ==> unchanged(v)
    ensures r.LoggedIn? ==> Require2FA(users, Some(r.token), nowMs).Accepted?
    ensures old(AllConsistent(users)) ==> AllConsistent(users)
    ensures old(NoChallengeTokens(users)) ==> NoChallengeTokens(users)
  {
    if tempToken.None? || code == "" {
      return Failure(400, MissingCodeError);
    }
    var decoded := Jwt.Verify(tempToken.value, nowMs);
    if decoded.None? {
      return Failure(401, InvalidTempTokenError);
    }
    var user := FindById(users, decoded.value.userId);
    if user == null || !user.twoFactorEnabled || !Truthy(user.twoFactorSecret) {
      return Failure(400, NotEnabledError);
    }
    if !Totp.Verify(hotp, user.twoFactorSecret.value, code, nowMs, Totp.Window) {
      return Failure(400, InvalidCodeError);
    }
    var token := Jwt.SessionToken(user.id, nowMs);
    user.tokens := user.tokens + [token];
    r := LoggedIn("Two-factor authentication verified", token, user.id, user.twoFactorEnabled);
  }

  /** `findIndex(c => c === code)` from position `from` on. */
  function FindExact(codes: seq<string>, code: string, from: nat): (i: int)
    requires from <= |codes|
    ensures i == -1 || from <= i < |codes|
    ensures i != -1 ==> codes[i] == code
    ensures forall j :: from <= j < |codes| && (i == -1 || j < i) ==> codes[j] != code
    decreases |codes| - from
  {
    if from == |codes| then -1
    else if codes[from] == code then from
    else FindExact(codes, code, from + 1)
  }

  /** The server's use of a recovery code: the submitted code, trimmed,
      must equal a stored code exactly (letter case included); the first
      such entry is spliced out. `None` when nothing matches. */
  function Redeem(codes: seq<string>, submitted: string): (r: Option<seq<string>>)
    ensures r.Some? <==> Trim(submitted) in codes
    ensures r.Some? ==>
              exists i :: && 0 <= i < |codes| && codes[i] == Trim(submitted)
                          && Trim(submitted) !in codes[..i]
                          && r.value == codes[..i] + codes[i + 1..]
  {
    var i := FindExact(codes, Trim(submitted), 0);
    if i == -1 then None else Some(codes[..i] + codes[i + 1..])
  }

  /** With no two stored codes alike, a code redeems once: the list loses
      exactly that entry and the same code is refused afterwards. */
  lemma RedeemSingleUse(codes: seq<string>, submitted: string)
    requires forall i, j :: 0 <= i < j < |codes| ==> codes[i] != codes[j]
    requires Redeem(codes, submitted).Some?
    ensures |Redeem(codes, submitted).value| == |codes| - 1
    ensures Redeem(Redeem(codes, submitted).value, submitted).None?
  {
    var rest := Redeem(codes, submitted).value;
    var i :| && 0 <= i < |codes| && codes[i] == Trim(submitted)
             && Trim(submitted) !in codes[..i] && rest == codes[..i] + codes[i + 1..];
    forall k | 0 <= k < |rest|
      ensures rest[k] != Trim(submitted)
    {
      if k >= i {
        assert rest[k] == codes[k + 1];
      } else {
        assert rest[k] == codes[..i][k];
      }
    }
  }

  /** The server compares letter case, the client's helper does not: a
      code that is stored only in the normalised form of what was typed is
      refused here although the client's helper takes it. */
  lemma ServerIsCaseSensitive(codes: seq<string>, submitted: string)
    requires TwoFactorAuth.NormalizeCode(submitted) in codes
    requires Trim(submitted) !in codes
    ensures Redeem(codes, submitted).None?
    ensures TwoFactorAuth.VerifyRecoveryCode(Some(codes), submitted).success
  {
    var i :| 0 <= i < |codes| && codes[i] == TwoFactorAuth.NormalizeCode(submitted);
    TwoFactorAuth.NormalizeCodeIdempotent(submitted);
    assert TwoFactorAuth.SameCode(codes[i], submitted);
  }

  /** One such code: a lower-case entry for an upper-case stored code. */
  lemma LowerCaseCodeRefused()
    ensures Redeem(["AB12CD"], "ab12cd").None?
    ensures TwoFactorAuth.VerifyRecoveryCode(Some(["AB12CD"]), "ab12cd").success
  {
    assert Trim("ab12cd") == "ab12cd";
    assert "AB12CD" != "ab12cd";
    assert TwoFactorAuth.NormalizeCode("ab12cd") == "AB12CD";
    ServerIsCaseSensitive(["AB12CD"], "ab12cd");
  }

  method VerifyRecoveryCode(users: seq<User>, tempToken: Option<Jwt.Token>, recoveryCode: string, nowMs: nat)
    returns (r: Response)
    modifies users
    ensures tempToken.None? || recoveryCode == "" ==> r == Failure(400, MissingRecoveryCodeError)
    ensures tempToken.Some? && recoveryCode != "" && Jwt.Verify(tempToken.value, nowMs).None? ==>
              r == Failure(401, InvalidTempTokenError)
    ensures tempToken.Some? && recoveryCode != "" && Jwt.Verify(tempToken.value, nowMs).Some? ==>
              var u := TokenUser(users, tempToken, nowMs);
              && (u == null || !old(u.twoFactorEnabled) ==> r == Failure(400, NotEnabledError))
              && (u != null && old(u.twoFactorEnabled) && Redeem(old(u.twoFactorRecoveryCodes), recoveryCode).None? ==>
                    r == Failure(400, InvalidRecoveryCodeError))
              && (u != null && old(u.twoFactorEnabled) && Redeem(old(u.twoFactorRecoveryCodes), recoveryCode).Some? ==>
                    r.RecoveryLoggedIn?)
    ensures !r.RecoveryLoggedIn? ==> r.Failure? && forall v :: v in users ==> unchanged(v)
    ensures r.RecoveryLoggedIn? ==>
              var u := TokenUser(users, tempToken, nowMs);
              && u != null
              && r == RecoveryLoggedIn("Recovery code verified", Jwt.SessionToken(u.id, nowMs), u.id,
                                        |u.twoFactorRecoveryCodes|)
              && u.State() == old(u.State()).(
                   twoFactorRecoveryCodes := Redeem(old(u.twoFactorRecoveryCodes), recoveryCode).value,
                   tokens := old(u.tokens) + [r.token])
              && forall v :: v in users && v != u ==> unchanged(v)
    ensures r.RecoveryLoggedIn? ==> Require2FA(users, Some(r.token), nowMs).Accepted?
    ensures old(AllConsistent(users)) ==> AllConsistent(users)
    ensures old(NoChallengeTokens(users)) ==> NoChallengeTokens(users)
  {
    if tempToken.None? || recoveryCode == "" {
      return Failure(400, MissingRecoveryCodeError);
    }
    var decoded := Jwt.Verify(tempToken.value, nowMs);
    if decoded.None? {
      return Failure(401, InvalidTempTokenError);
    }
    var user := FindById(users, decoded.value.userId);
    if user == null || !user.twoFactorEnabled {
      return Failure(400, NotEnabledError);
    }
    var remaining := Redeem(user.twoFactorRecoveryCodes, recoveryCode);
    if remaining.None? {
      return Failure(400, InvalidRecoveryCodeError);
    }
    user.twoFactorRecoveryCodes := remaining.value;
    var token := Jwt.SessionToken(user.id, nowMs);
    user.tokens := user.tokens + [token];
    r := RecoveryLoggedIn("Recovery code verified", token, user.id, |user.twoFactorRecoveryCodes|);
  }

  // ---------------------------------------------------------------------
  // Routes behind `auth`: /enable-2fa, /confirm-2fa, /disable-2fa,
  // /logout, /logout-all
  // ---------------------------------------------------------------------

  /** The name the server registers the secret under. */
  function SecretName(email: string): string {
    "RMS System (" + email + ")"
  }

  /** `qrDataUrl(uri)` stands for `qrcode.toDataURL(uri)`. */
  method Enable2FA(users: seq<User>, header: Option<Jwt.Token>, nowMs: nat,
                   speakeasy: TwoFactorAuth.SecretGenerator, qrDataUrl: string -> string,
                   random36: nat -> string)
    returns (r: Response)
    modifies users
    ensures !old(Auth(users, header, nowMs)).Accepted? ==>
              r == Refusal(old(Auth(users, header, nowMs))) && forall v :: v in users ==> unchanged(v)
    ensures old(Auth(users, header, nowMs)).Accepted? ==>
              var u := old(Auth(users, header, nowMs)).user;
              var generated := speakeasy(SecretName(u.email));
              && r.SetupInitiated?
              && r == SetupInitiated("2FA setup initiated", qrDataUrl(generated.otpauthUrl), generated.base32, r.recoveryCodes)
              && |r.recoveryCodes| == TwoFactorAuth.RecoveryCodeCount
              && (forall i :: 0 <= i < |r.recoveryCodes| ==>
                    r.recoveryCodes[i] == TwoFactorAuth.RecoveryCodeFrom(random36(i)))
              && u.State() == old(u.State()).(twoFactorEnabled := false, twoFactorSecret := Some(generated.base32),
                                               twoFactorRecoveryCodes := r.recoveryCodes)
              && forall v :: v in users && v != u ==> unchanged(v)
    ensures old(AllConsistent(users)) ==> AllConsistent(users)
    ensures old(NoChallengeTokens(users)) ==> NoChallengeTokens(users)
  {
    var g := Auth(users, header, nowMs);
    if !g.Accepted? {
      return Refusal(g);
    }
    var user := g.user;
    var secret := speakeasy(SecretName(user.email));
    var qrCode := qrDataUrl(secret.otpauthUrl);
    user.twoFactorSecret := Some(secret.base32);
    var recoveryCodes := TwoFactorAuth.GenerateRecoveryCodes(random36);
    user.twoFactorRecoveryCodes := recoveryCodes;
    user.twoFactorEnabled := false;
    r := SetupInitiated("2FA setup initiated", qrCode, secret.base32, recoveryCodes);
  }

  method Confirm2FA(users: seq<User>, header: Option<Jwt.Token>, code: string,
                    hotp: Totp.CodeGenerator, nowMs: nat)
    returns (r: Response)
    modifies users
    ensures !old(Auth(users, header, nowMs)).Accepted? ==> r == Refusal(old(Auth(users, header, nowMs)))
    ensures old(Auth(users, header, nowMs)).Accepted? ==>
              var u := old(Auth(users, header, nowMs)).user;
              && (code == "" ==> r == Failure(400, CodeRequiredError))
              && (code != "" && !Truthy(old(u.twoFactorSecret)) ==> r == Failure(400, NotInitializedError))
              && (code != "" && Truthy(old(u.twoFactorSecret)) ==>
                    (r.TwoFactorChanged? <==> Totp.Accepts(hotp, old(u.twoFactorSecret).value, code, nowMs, Totp.Window)))
              && (code != "" && Truthy(old(u.twoFactorSecret)) &&
                  !Totp.Accepts(hotp, old(u.twoFactorSecret).value, code, nowMs, Totp.Window) ==>
                    r == Failure(400, InvalidCodeError))
              && (r.TwoFactorChanged? ==>
                    && r == TwoFactorChanged("Two-factor authentication enabled", u.id, true)
                    && u.State() == old(u.State()).(twoFactorEnabled := true))
    ensures !r.TwoFactorChanged? ==> forall v :: v in users ==> unchanged(v)
    ensures old(Auth(users, header, nowMs)).Accepted? ==>
              forall v :: v in users && v != old(Auth(users, header, nowMs)).user ==> unchanged(v)
    ensures old(AllConsistent(users)) ==> AllConsistent(users)
    ensures old(NoChallengeTokens(users)) ==> NoChallengeTokens(users)
  {
    var g := Auth(users, header, nowMs);
    if !g.Accepted? {
      return Refusal(g);
    }
    var user := g.user;
    if code == "" {
      return Failure(400, CodeRequiredError);
    }
    if !Truthy(user.twoFactorSecret) {
      return Failure(400, NotInitializedError);
    }
    if !Totp.Verify(hotp, user.twoFactorSecret.value, code, nowMs, Totp.Window) {
      return Failure(400, InvalidCodeError);
    }
    user.twoFactorEnabled := true;
    r := TwoFactorChanged("Two-factor authentication enabled", user.id, user.twoFactorEnabled);
  }

  method Disable2FA(users: seq<User>, header: Option<Jwt.Token>, nowMs: nat)
    returns (r: Response)
    modifies users
    ensures !old(Auth(users, header, nowMs)).Accepted? ==>
              r == Refusal(old(Auth(users, header, nowMs))) && forall v :: v in users ==> unchanged(v)
    ensures old(Auth(users, header, nowMs)).Accepted? ==>
              var u := old(Auth(users, header, nowMs)).user;
              && r == TwoFactorChanged("Two-factor authentication disabled", u.id, false)
              && u.State() == old(u.State()).(twoFactorEnabled := false, twoFactorSecret := None,
                                               twoFactorRecoveryCodes := [])
              && forall v :: v in users && v != u ==> unchanged(v)
    ensures old(AllConsistent(users)) ==> AllConsistent(users)
    ensures old(NoChallengeTokens(users)) ==> NoChallengeTokens(users)
  {
    var g := Auth(users, header, nowMs);
    if !g.Accepted? {
      return Refusal(g);
    }
    var user := g.user;
    user.twoFactorEnabled := false;
    user.twoFactorSecret := None;
    user.twoFactorRecoveryCodes := [];
    r := TwoFactorChanged("Two-factor authentication disabled", user.id, user.twoFactorEnabled);
  }

  /** Logging out takes the presented token off the list; with unique ids
      it no longer passes `auth` afterwards. */
  method Logout(users: seq<User>, header: Option<Jwt.Token>, nowMs: nat)
    returns (r: Response)
    modifies users
    ensures !old(Auth(users, header, nowMs)).Accepted? ==>
              r == Refusal(old(Auth(users, header, nowMs))) && forall v :: v in users ==> unchanged(v)
    ensures old(Auth(users, header, nowMs)).Accepted? ==>
              var u := old(Auth(users, header, nowMs)).user;
              && r == Done("Logout successful")
              && u.State() == old(u.State()).(tokens := RemoveToken(old(u.tokens), header.value))
              && forall v :: v in users && v != u ==> unchanged(v)
    ensures UniqueIds(users) ==> !Auth(users, header, nowMs).Accepted?
    ensures old(AllConsistent(users)) ==> AllConsistent(users)
    ensures old(NoChallengeTokens(users)) ==> NoChallengeTokens(users)
  {
    var g := Auth(users, header, nowMs);
    if !g.Accepted? {
      return Refusal(g);
    }
    var user := g.user;
    user.tokens := RemoveToken(user.tokens, g.token);
    r := Done("Logout successful");
    if UniqueIds(users) {
      forall v | v in users && v.id == header.value.claims.userId
        ensures header.value !in v.tokens
      {
        var i :| 0 <= i < |users| && users[i] == v;
        var j :| 0 <= j < |users| && users[j] == user;
      }
    }
  }

  /** Logging out everywhere empties the list: no token of that user
      passes `auth` afterwards. */
  method LogoutAll(users: seq<User>, header: Option<Jwt.Token>, nowMs: nat)
    returns (r: Response)
    modifies users
    ensures !old(Auth(users, header, nowMs)).Accepted? ==>
              r == Refusal(old(Auth(users, header, nowMs))) && forall v :: v in users ==> unchanged(v)
    ensures old(Auth(users, header, nowMs)).Accepted? ==>
              var u := old(Auth(users, header, nowMs)).user;
              && r == Done("Logged out from all devices")
              && u.State() == old(u.State()).(tokens := [])
              && forall v :: v in users && v != u ==> unchanged(v)
    ensures UniqueIds(users) && r.Done? ==>
              forall t: Jwt.Token :: t.claims.userId == header.value.claims.userId ==>
                !Auth(users, Some(t), nowMs).Accepted?
    ensures old(AllConsistent(users)) ==> AllConsistent(users)
    ensures old(NoChallengeTokens(users)) ==> NoChallengeTokens(users)
  {
    var g := Auth(users, header, nowMs);
    if !g.Accepted? {
      return Refusal(g);
    }
    var user := g.user;
    user.tokens := [];
    r := Done("Logged out from all devices");
    if UniqueIds(users) {
      forall v | v in users && v.id == header.value.claims.userId
        ensures v.tokens == []
      {
        var i :| 0 <= i < |users| && users[i] == v;
        var j :| 0 <= j < |users| && users[j] == user;
      }
    }
  }

  // ---------------------------------------------------------------------
  // GET /profile (behind `require2FA`)
  // ---------------------------------------------------------------------

  function Profile(users: seq<User>, header: Option<Jwt.Token>, nowMs: nat): (r: Response)
    reads users
    ensures r.ProfileData? <==> Require2FA(users, header, nowMs).Accepted?
    ensures r.ProfileData? ==>
              var u := Require2FA(users, header, nowMs).user;
              r.userId == u.id && r.twoFactorEnabled == u.twoFactorEnabled &&
              r.lastLoginAt == u.lastLoginAt && r.remainingRecoveryCodes == |u.twoFactorRecoveryCodes|
  {
    var g := Require2FA(users, header, nowMs);
    if !g.Accepted? then Refusal(g)
    else ProfileData(g.user.id, g.user.twoFactorEnabled, g.user.lastLoginAt, |g.user.twoFactorRecoveryCodes|)
  }

  // ---------------------------------------------------------------------
  // A run of requests
  // ---------------------------------------------------------------------

  /** Five wrong passwords lock a fresh account: a sixth attempt a moment
      later is refused with 429 even with the right password, and the
      counter stays where it was. */
  method LockoutScenario(t0: nat) returns (r: Response, attempts: nat)
    ensures r == Failure(429, LockedError) && attempts == MaxLoginAttempts
  {
    var user := new User(1, "ama@example.com");
    var users := [user];
    assert FindByEmail(users, "ama@example.com") == user;
    var k := 0;
    while k < MaxLoginAttempts
      invariant 0 <= k <= MaxLoginAttempts
      invariant user.loginAttempts == k
      invariant user.lockUntil == if k == MaxLoginAttempts then Some(t0 + LockTimeMs) else None
    {
      var failed := Login(users, "ama@example.com", "wrong", false, t0);
      k := k + 1;
    }
    r := Login(users, "ama@example.com", "right", true, t0 + 1);
    attempts := user.loginAttempts;
  }
}
