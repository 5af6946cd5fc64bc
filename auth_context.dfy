/** The client-side sign-in of src/context/AuthContext.tsx, which works on
    the in-memory user list of the demo store instead of the server. The
    signed-in user is the provider's `user`; the copy it keeps in
    `localStorage` always equals it and is not modelled separately. */
module AuthContext {
  import opened Text
  import Totp
  import TwoFactorAuth

  datatype Role = Admin | DataEntry | Viewer

  /** The client's `User` record. Optional fields are `None` when absent. */
  datatype ClientUser = ClientUser(
    id: string,
    name: string,
    email: string,
    role: Role,
    password: Option<string>,
    twoFactorEnabled: bool,
    twoFactorSecret: Option<string>,
    twoFactorRecoveryCodes: Option<seq<string>>)

  /** The shared demo store; handlers overwrite entries of `users`. */
  class Store {
    var users: seq<ClientUser>

    constructor (users: seq<ClientUser>)
      ensures this.users == users
    {
      this.users := users;
    }
  }

  /** `users.findIndex(u => u.id === id)` */
  function IndexOfId(users: seq<ClientUser>, id: string): (i: int)
    ensures -1 <= i < |users|
    ensures i != -1 ==> users[i].id == id
    ensures forall j :: 0 <= j < |users| && (i == -1 || j < i) ==> users[j].id != id
  {
    if users == [] then -1
    else if users[0].id == id then 0
    else var k := IndexOfId(users[1..], id); if k == -1 then -1 else k + 1
  }

  /** The store after `store.users[userIndex] = updated` for the first
      entry with the same id, or unchanged when there is none. */
  function ReplaceById(users: seq<ClientUser>, updated: ClientUser): (r: seq<ClientUser>)
    ensures |r| == |users|
    ensures forall j :: 0 <= j < |users| ==> r[j].id == users[j].id
    ensures forall j :: 0 <= j < |users| && j != IndexOfId(users, updated.id) ==> r[j] == users[j]
    ensures IndexOfId(users, updated.id) != -1 ==> r[IndexOfId(users, updated.id)] == updated
    ensures (exists j :: 0 <= j < |users| && users[j].id == updated.id) ==> updated in r
    ensures (forall j :: 0 <= j < |users| ==> users[j].id != updated.id) ==> r == users
  {
    var i := IndexOfId(users, updated.id);
    if i == -1 then users else users[i := updated]
  }

  /** The login lookup: the e-mail matches ignoring letter case and the
      stored password matches exactly. */
  predicate LoginMatch(u: ClientUser, email: string, password: string) {
    ToLower(u.email) == ToLower(email) && u.password == Some(password)
  }

  /** `store.users.find(...)` with `LoginMatch`. */
  function FindLogin(users: seq<ClientUser>, email: string, password: string): (r: Option<ClientUser>)
    ensures r.Some? <==> exists u :: u in users && LoginMatch(u, email, password)
    ensures r.Some? ==> r.value in users && LoginMatch(r.value, email, password)
    ensures r.Some? ==>
              exists i :: && 0 <= i < |users| && users[i] == r.value
                          && forall j :: 0 <= j < i ==> !LoginMatch(users[j], email, password)
  {
    if users == [] then None
    else if LoginMatch(users[0], email, password) then Some(users[0])
    else FindLogin(users[1..], email, password)
  }

  /** A user that must pass a second factor: 2FA on and a secret present. */
  predicate NeedsSecondFactor(u: ClientUser) {
    u.twoFactorEnabled && Truthy(u.twoFactorSecret)
  }

  /** Whether `verify2FA(code, u)` succeeds. */
  predicate CodeAccepted(u: ClientUser, code: string, hotp: Totp.CodeGenerator, nowMs: nat) {
    NeedsSecondFactor(u) && TwoFactorAuth.VerifyTwoFactorCode(hotp, u.twoFactorSecret.value, code, nowMs).success
  }

  datatype LoginResult = LoginResult(success: bool, requires2FA: bool, tempUser: Option<ClientUser>)

  class AuthProvider {
    /** The signed-in user, `null` before sign-in. */
    var user: Option<ClientUser>
    const store: Store

    constructor (store: Store)
      ensures this.store == store && user == None
    {
      this.store := store;
      user := None;
    }

    /** `login(email, password)` */
    method Login(email: string, password: string) returns (r: LoginResult)
      modifies this`user
      ensures r.success <==> exists u :: u in store.users && LoginMatch(u, email, password)
      ensures !r.success ==> r == LoginResult(false, false, None) && user == old(user)
      ensures r.success ==>
                var u := FindLogin(store.users, email, password).value;
                && (NeedsSecondFactor(u) ==> r == LoginResult(true, true, Some(u)) && user == old(user))
                && (!NeedsSecondFactor(u) ==> r == LoginResult(true, false, None) && user == Some(u))
    {
      var found := FindLogin(store.users, email, password);
      if found.Some? {
        if found.value.twoFactorEnabled && Truthy(found.value.twoFactorSecret) {
          return LoginResult(true, true, Some(found.value));
        }
        user := Some(found.value);
        return LoginResult(true, false, None);
      }
      r := LoginResult(false, false, None);
    }

    /** `verify2FA(code, tempUser)`: signs the user in exactly when the
        window-2 check accepts the code for the user's own secret. */
    method Verify2FA(code: string, tempUser: ClientUser, hotp: Totp.CodeGenerator, nowMs: nat)
      returns (ok: bool)
      modifies this`user
      ensures ok <==> CodeAccepted(tempUser, code, hotp, nowMs)
      ensures ok <==> NeedsSecondFactor(tempUser) &&
                      Totp.Accepts(hotp, tempUser.twoFactorSecret.value, code, nowMs, Totp.Window)
      ensures user == if ok then Some(tempUser) else old(user)
    {
      if !tempUser.twoFactorEnabled || !Truthy(tempUser.twoFactorSecret) {
        return false;
      }
      var verificationResult := TwoFactorAuth.VerifyTwoFactorCode(hotp, tempUser.twoFactorSecret.value, code, nowMs);
      if verificationResult.success {
        user := Some(tempUser);
        return true;
      }
      ok := false;
    }

    /** `verifyRecoveryCode(code, tempUser)`: on success the user comes back
        with the code used up, replaces its own entry in the store, and is
        signed in; on failure nothing changes. */
    method VerifyRecoveryCode(code: string, tempUser: ClientUser) returns (ok: bool)
      modifies this`user, store`users
      ensures ok <==> tempUser.twoFactorEnabled && tempUser.twoFactorRecoveryCodes.Some? &&
                      TwoFactorAuth.VerifyRecoveryCode(tempUser.twoFactorRecoveryCodes, code).success
      ensures ok ==>
                var remaining := TwoFactorAuth.VerifyRecoveryCode(tempUser.twoFactorRecoveryCodes, code).remainingCodes;
                var updated := tempUser.(twoFactorRecoveryCodes := Some(remaining));
                && |remaining| == |tempUser.twoFactorRecoveryCodes.value| - 1
                && store.users == ReplaceById(old(store.users), updated)
                && user == Some(updated)
      ensures !ok ==> store.users == old(store.users) && user == old(user)
    {
      if !tempUser.twoFactorEnabled || tempUser.twoFactorRecoveryCodes.None? {
        return false;
      }
      var verificationResult := TwoFactorAuth.VerifyRecoveryCode(tempUser.twoFactorRecoveryCodes, code);
      if verificationResult.success {
        TwoFactorAuth.ConsumeRemovesOne(tempUser.twoFactorRecoveryCodes.value, code);
        var updatedUser := tempUser.(twoFactorRecoveryCodes := Some(verificationResult.remainingCodes));
        var userIndex := IndexOfId(store.users, tempUser.id);
        if userIndex != -1 {
          store.users := store.users[userIndex := updatedUser];
        }
        user := Some(updatedUser);
        return true;
      }
      ok := false;
    }

    /** `logout()` */
    method Logout()
      modifies this`user
      ensures user == None
    {
      user := None;
    }

    /** `updateAuthUser(updated)` */
    method UpdateAuthUser(updated: ClientUser)
      modifies this`user
      ensures user == Some(updated)
    {
      user := Some(updated);
    }
  }

  /** E-mail matching ignores letter case on both sides. */
  lemma LoginIgnoresEmailCase(users: seq<ClientUser>, email: string, password: string)
    ensures FindLogin(users, ToLower(email), password) == FindLogin(users, email, password)
    ensures FindLogin(users, ToUpper(email), password) == FindLogin(users, email, password)
  {
    LowerLowerUpper(email);
    MatchIgnoresEmailCase(users, email, password);
  }

  lemma LowerLowerUpper(s: string)
    ensures ToLower(ToLower(s)) == ToLower(s)
    ensures ToLower(ToUpper(s)) == ToLower(s)
  {
  }

  lemma {:induction false} MatchIgnoresEmailCase(users: seq<ClientUser>, email: string, password: string)
    requires ToLower(ToLower(email)) == ToLower(email) && ToLower(ToUpper(email)) == ToLower(email)
    ensures FindLogin(users, ToLower(email), password) == FindLogin(users, email, password)
    ensures FindLogin(users, ToUpper(email), password) == FindLogin(users, email, password)
  {
    if users != [] {
      MatchIgnoresEmailCase(users[1..], email, password);
    }
  }
}
