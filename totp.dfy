/** Time-based one-time passwords as the login flow uses them.

    The code for a counter (RFC 4226 section 5.3, dynamic truncation of an
    HMAC-SHA-1 value to six decimal digits) is computed by a library that is
    not part of this model, so the generator is a parameter: `hotp(secret,
    counter)` is the code an authenticator app shows for the Base32 `secret`
    at time-step `counter`. What the model fixes is how the current counter
    is derived from the clock (RFC 6238 section 4: 30-second steps from the
    Unix epoch) and which counters a verification accepts (RFC 6238
    section 5.2: every counter within `window` steps of the current one). */
module Totp {

  /** `hotp(secret, counter)`: the six-digit code of `secret` at `counter`. */
  type CodeGenerator = (string, int) -> string

  /** The time step, in milliseconds (30 seconds). */
  const StepMs: nat := 30000

  /** The resynchronisation window every caller in the system passes. */
  const Window: nat := 2

  /** The time-step counter at `nowMs` milliseconds since the epoch. */
  function Counter(nowMs: nat): (c: nat)
    ensures c * StepMs <= nowMs < (c + 1) * StepMs
  {
    nowMs / StepMs
  }

  /** The reference definition of acceptance: some counter at most `window`
      steps away from the current one yields exactly the submitted code. */
  ghost predicate Accepts(hotp: CodeGenerator, secret: string, token: string, nowMs: nat, window: nat) {
    exists c: int :: Counter(nowMs) - window <= c <= Counter(nowMs) + window && hotp(secret, c) == token
  }

  /** Tries the counters `from`, `from + 1`, ..., `last` in turn. */
  function MatchesFrom(hotp: CodeGenerator, secret: string, token: string, from: int, last: int): (r: bool)
    ensures r <==> exists c: int :: from <= c <= last && hotp(secret, c) == token
    decreases last - from + 1
  {
    if from > last then false
    else if hotp(secret, from) == token then true
    else MatchesFrom(hotp, secret, token, from + 1, last)
  }

  /** `totp.verify({secret, token, window})`: scans the counters from
      `window` steps before the current one to `window` steps after it. */
  function Verify(hotp: CodeGenerator, secret: string, token: string, nowMs: nat, window: nat): (r: bool)
    ensures r <==> Accepts(hotp, secret, token, nowMs, window)
  {
    MatchesFrom(hotp, secret, token, Counter(nowMs) - window, Counter(nowMs) + window)
  }

  /** A code from any of the two steps before or after the current one is
      accepted with window 2. */
  lemma WindowTolerance(hotp: CodeGenerator, secret: string, nowMs: nat, d: int)
    requires -(Window as int) <= d <= Window
    ensures Verify(hotp, secret, hotp(secret, Counter(nowMs) + d), nowMs, Window)
  {
    assert Counter(nowMs) - Window <= Counter(nowMs) + d <= Counter(nowMs) + Window;
  }

  /** A code three steps old is refused, unless it happens to coincide with
      one of the five codes inside the window. */
  lemma OutsideWindow(hotp: CodeGenerator, secret: string, nowMs: nat)
    requires forall c: int :: Counter(nowMs) - 2 <= c <= Counter(nowMs) + 2 ==>
               hotp(secret, c) != hotp(secret, Counter(nowMs) - 3)
    ensures !Verify(hotp, secret, hotp(secret, Counter(nowMs) - 3), nowMs, Window)
  {
  }

  /** Clock drift: a code that the authenticator computed at `clientMs` is
      accepted at `nowMs` whenever the two clocks are at most 60 seconds
      apart. */
  lemma DriftTolerance(hotp: CodeGenerator, secret: string, clientMs: nat, nowMs: nat)
    requires -60000 <= clientMs - nowMs <= 60000
    ensures Verify(hotp, secret, hotp(secret, Counter(clientMs)), nowMs, Window)
  {
    var c, n := Counter(clientMs), Counter(nowMs);
    assert c * StepMs <= clientMs < (c + 1) * StepMs;
    assert n * StepMs <= nowMs < (n + 1) * StepMs;
    assert (c - n) * StepMs < 90000 && (n - c) * StepMs < 90000;
    assert -2 <= c - n <= 2;
    WindowTolerance(hotp, secret, nowMs, c - n);
  }
}
