/** The user document of models/User.js and its account-lockout counter.

    The lockout rules are stated twice: once as functions on a small value
    (`LockState`), which the lemmas below reason about, and once as the
    document's own methods, which update the fields in place and promise
    to do what the functions say. */
module UserModel {
  import opened Text
  import Jwt

  // ---------------------------------------------------------------------
  // Lockout, on values
  // ---------------------------------------------------------------------

  /** The number of failed logins that locks an account. */
  const MaxLoginAttempts: nat := 5

  /** How long a lock lasts: 30 minutes, in milliseconds. */
  const LockTimeMs: nat := 30 * 60 * 1000

  /** `loginAttempts` and `lockUntil` (milliseconds since the epoch). */
  datatype LockState = LockState(loginAttempts: nat, lockUntil: Option<int>)

  /** The schema defaults, and what a successful login goes back to. */
  const Unlocked := LockState(0, None)

  /** `isAccountLocked`: a lock time is set and has not been reached. A
      lock ends by itself once the clock reaches it; nothing has to be
      written for that. */
  predicate IsLocked(s: LockState, nowMs: int): (locked: bool)
    ensures s.lockUntil.None? ==> !locked
    ensures s.lockUntil.Some? && nowMs >= s.lockUntil.value ==> !locked
    ensures s.lockUntil.Some? && nowMs < s.lockUntil.value ==> locked
  {
    s.lockUntil.Some? && nowMs < s.lockUntil.value
  }

  /** `incrementLoginAttempts` at time `nowMs`. A failure counts exactly
      one attempt. From the fifth failure on the account is locked for
      exactly 30 minutes from the failure; before that the lock time is
      left as it was. */
  function AfterFailure(s: LockState, nowMs: int): (r: LockState)
    ensures r.loginAttempts == s.loginAttempts + 1
    ensures s.loginAttempts + 1 >= MaxLoginAttempts ==>
              (forall t :: nowMs <= t < nowMs + LockTimeMs ==> IsLocked(r, t)) &&
              !IsLocked(r, nowMs + LockTimeMs)
    ensures s.loginAttempts + 1 < MaxLoginAttempts ==>
              r.lockUntil == s.lockUntil && forall t :: IsLocked(r, t) == IsLocked(s, t)
  {
    var attempts := s.loginAttempts + 1;
    LockState(attempts, if attempts >= MaxLoginAttempts then Some(nowMs + LockTimeMs) else s.lockUntil)
  }

  /** `Math.max(0, 5 - loginAttempts)`, the hint a failed login returns:
      how many more failures the account takes before it locks. */
  function RemainingAttempts(loginAttempts: nat): (r: nat)
    ensures r <= MaxLoginAttempts
    ensures r == 0 <==> loginAttempts >= MaxLoginAttempts
    ensures r > 0 ==> loginAttempts + r == MaxLoginAttempts
  {
    if loginAttempts >= MaxLoginAttempts then 0 else MaxLoginAttempts - loginAttempts
  }

  /** The hint reaches 0 exactly when the failure locks the account. */
  lemma RemainingZeroIffLocked(s: LockState, nowMs: int)
    ensures RemainingAttempts(AfterFailure(s, nowMs).loginAttempts) == 0 <==>
              AfterFailure(s, nowMs).lockUntil == Some(nowMs + LockTimeMs) && s.loginAttempts + 1 >= MaxLoginAttempts
    ensures RemainingAttempts(AfterFailure(s, nowMs).loginAttempts) + AfterFailure(s, nowMs).loginAttempts >= MaxLoginAttempts
  {
  }

  /** A reset account is never locked. */
  lemma ResetUnlocks(nowMs: int)
    ensures !IsLocked(Unlocked, nowMs) && RemainingAttempts(Unlocked.loginAttempts) == MaxLoginAttempts
  {
  }

  /** A run of failed logins at the given times, in order. */
  function Failures(s: LockState, times: seq<int>): LockState {
    if times == [] then s
    else AfterFailure(Failures(s, times[..|times| - 1]), times[|times| - 1])
  }

  /** After a run of failures the counter has grown by the length of the
      run; since the lock's expiry never resets the counter, once the
      count reaches 5 every further failure renews the lock for 30 minutes
      from that failure, and before that the lock time is untouched. */
  lemma {:induction false} FailureRun(s: LockState, times: seq<int>)
    ensures Failures(s, times).loginAttempts == s.loginAttempts + |times|
    ensures times != [] && s.loginAttempts + |times| >= MaxLoginAttempts ==>
              Failures(s, times).lockUntil == Some(times[|times| - 1] + LockTimeMs)
    ensures s.loginAttempts + |times| < MaxLoginAttempts ==> Failures(s, times).lockUntil == s.lockUntil
  {
    if times != [] {
      FailureRun(s, times[..|times| - 1]);
    }
  }

  /** Five failures on a fresh account lock it for 30 minutes from the
      fifth. */
  lemma FiveFailuresLock(times: seq<int>)
    requires |times| == MaxLoginAttempts
    ensures forall t :: times[4] <= t < times[4] + LockTimeMs ==> IsLocked(Failures(Unlocked, times), t)
  {
    FailureRun(Unlocked, times);
  }

  // ---------------------------------------------------------------------
  // The document
  // ---------------------------------------------------------------------

  /** Everything a handler may change on a user, as one value. */
  datatype UserState = UserState(
    twoFactorEnabled: bool,
    twoFactorSecret: Option<string>,
    twoFactorRecoveryCodes: seq<string>,
    lastLoginAt: Option<int>,
    lock: LockState,
    tokens: seq<Jwt.Token>)

  class User {
    /** `_id` */
    const id: nat
    /** Stored trimmed and lower-cased by the schema. */
    const email: string
    var twoFactorEnabled: bool
    var twoFactorSecret: Option<string>
    var twoFactorRecoveryCodes: seq<string>
    var lastLoginAt: Option<int>
    var loginAttempts: nat
    var lockUntil: Option<int>
    /** The session tokens this user may still present. */
    var tokens: seq<Jwt.Token>

    /** A new document with the schema defaults. */
    constructor (id: nat, email: string)
      ensures this.id == id && this.email == ToLower(Trim(email))
      ensures State() == UserState(false, None, [], None, Unlocked, [])
    {
      this.id := id;
      this.email := ToLower(Trim(email));
      twoFactorEnabled := false;
      twoFactorSecret := None;
      twoFactorRecoveryCodes := [];
      lastLoginAt := None;
      loginAttempts := 0;
      lockUntil := None;
      tokens := [];
    }

    function Lock(): LockState
      reads this
    {
      LockState(loginAttempts, lockUntil)
    }

    function State(): UserState
      reads this
    {
      UserState(twoFactorEnabled, twoFactorSecret, twoFactorRecoveryCodes, lastLoginAt, Lock(), tokens)
    }

    /** 2FA is never on without a secret to check codes against. */
    predicate Consistent()
      reads this
    {
      twoFactorEnabled ==> Truthy(twoFactorSecret)
    }

    /** The document's check, on its own counter and lock time. */
    predicate IsAccountLocked(nowMs: int): (locked: bool)
      reads this
      ensures locked <==> IsLocked(LockState(loginAttempts, lockUntil), nowMs)
    {
      IsLocked(Lock(), nowMs)
    }

    method IncrementLoginAttempts(nowMs: int)
      modifies this`loginAttempts, this`lockUntil
      ensures Lock() == AfterFailure(old(Lock()), nowMs)
    {
      loginAttempts := loginAttempts + 1;
      if loginAttempts >= MaxLoginAttempts {
        lockUntil := Some(nowMs + LockTimeMs);
      }
    }

    method ResetLoginAttempts()
      modifies this`loginAttempts, this`lockUntil
      ensures Lock() == Unlocked
    {
      loginAttempts := 0;
      lockUntil := None;
    }
  }

  // ---------------------------------------------------------------------
  // The collection
  // ---------------------------------------------------------------------

  /** `_id` is unique in the collection. */
  predicate UniqueIds(users: seq<User>) {
    forall i, j :: 0 <= i < |users| && 0 <= j < |users| && users[i].id == users[j].id ==> i == j
  }

  /** `User.findById(id)` */
  function FindById(users: seq<User>, id: nat): (u: User?)
    ensures u != null ==> u in users && u.id == id
    ensures u == null ==> forall v :: v in users ==> v.id != id
  {
    if users == [] then null
    else if users[0].id == id then users[0]
    else FindById(users[1..], id)
  }

  /** `User.findOne({email})`: the schema trims and lower-cases the value
      it looks for as it does the stored one. */
  function FindByEmail(users: seq<User>, email: string): (u: User?)
    ensures u != null ==> u in users && u.email == ToLower(Trim(email))
    ensures u == null ==> forall v :: v in users ==> v.email != ToLower(Trim(email))
  {
    if users == [] then null
    else if users[0].email == ToLower(Trim(email)) then users[0]
    else FindByEmail(users[1..], email)
  }
}
