/** The client-side two-factor helpers of src/lib/twoFactorAuth.ts:
    enrolment material (a secret and a batch of recovery codes), the
    window-2 TOTP check, and the consumption of one recovery code. */
module TwoFactorAuth {
  import opened Text
  import Totp

  // ---------------------------------------------------------------------
  // Setup
  // ---------------------------------------------------------------------

  /** What the secret generator of the TOTP library returns for one call. */
  datatype GeneratedSecret = GeneratedSecret(base32: string, otpauthUrl: string)

  /** The secret generator: label in, fresh secret and provisioning URI out. */
  type SecretGenerator = string -> GeneratedSecret

  datatype TwoFactorSetup = TwoFactorSetup(secret: string, qrCode: string, recoveryCodes: seq<string>)

  /** The number of recovery codes in one batch. */
  const RecoveryCodeCount: nat := 10

  /** `s.substring(start, end)`: both ends are clamped to the string and
      swapped when out of order. */
  function JsSubstring(s: string, start: nat, end: nat): (r: string)
    ensures |r| <= |s|
    ensures start <= end ==> |r| <= end - start
  {
    var a := if start < |s| then start else |s|;
    var b := if end < |s| then end else |s|;
    if a <= b then s[a..b] else s[b..a]
  }

  predicate NoLowerCase(s: string) {
    forall i :: 0 <= i < |s| ==> !IsLowerLetter(s[i])
  }

  /** One recovery code from one base-36 rendering of a random fraction
      (`Math.random().toString(36)`, which starts with "0."): the next six
      characters at most, upper-cased. */
  function RecoveryCodeFrom(random36: string): (code: string)
    ensures |code| <= 6 && NoLowerCase(code)
  {
    ToUpper(JsSubstring(random36, 2, 8))
  }

  /** The batch loop shared by the client setup and the server's
      /enable-2fa: ten codes, the i-th from the i-th random draw.
      `random36(i)` stands for the string of the i-th `Math.random()` call. */
  method GenerateRecoveryCodes(random36: nat -> string) returns (codes: seq<string>)
    ensures |codes| == RecoveryCodeCount
    ensures forall i :: 0 <= i < |codes| ==> codes[i] == RecoveryCodeFrom(random36(i))
    ensures forall i :: 0 <= i < |codes| ==> |codes[i]| <= 6 && NoLowerCase(codes[i])
  {
    codes := [];
    for i := 0 to RecoveryCodeCount
      invariant |codes| == i
      invariant forall j :: 0 <= j < i ==> codes[j] == RecoveryCodeFrom(random36(j))
    {
      codes := codes + [RecoveryCodeFrom(random36(i))];
    }
  }

  /** The label under which the client registers the secret. */
  function SecretLabel(email: string): string {
    "RateEase (" + email + ")"
  }

  /** `generateTwoFactorSecret(email)`: the library's secret and URI for the
      label of `email`, and a fresh batch of recovery codes. */
  method GenerateTwoFactorSecret(email: string, speakeasy: SecretGenerator, random36: nat -> string)
    returns (setup: TwoFactorSetup)
    ensures setup.secret == speakeasy(SecretLabel(email)).base32
    ensures setup.qrCode == speakeasy(SecretLabel(email)).otpauthUrl
    ensures |setup.recoveryCodes| == RecoveryCodeCount
    ensures forall i :: 0 <= i < |setup.recoveryCodes| ==>
              setup.recoveryCodes[i] == RecoveryCodeFrom(random36(i))
  {
    var generated := speakeasy(SecretLabel(email));
    var codes := GenerateRecoveryCodes(random36);
    setup := TwoFactorSetup(generated.base32, generated.otpauthUrl, codes);
  }

  // ---------------------------------------------------------------------
  // TOTP verification
  // ---------------------------------------------------------------------

  datatype TwoFactorVerifyResult = TwoFactorVerifyResult(success: bool, message: string)

  const VerifiedMessage := "Verification successful"
  const InvalidCodeMessage := "Invalid verification code"

  /** `verifyTwoFactorCode(secret, code)` at time `nowMs`: success exactly
      when the window-2 check accepts, and the message tells only that. */
  function VerifyTwoFactorCode(hotp: Totp.CodeGenerator, secret: string, code: string, nowMs: nat)
    : (r: TwoFactorVerifyResult)
    ensures r.success <==> Totp.Accepts(hotp, secret, code, nowMs, Totp.Window)
    ensures r.message == if r.success then VerifiedMessage else InvalidCodeMessage
  {
    if !Totp.Verify(hotp, secret, code, nowMs, Totp.Window) then
      TwoFactorVerifyResult(false, InvalidCodeMessage)
    else
      TwoFactorVerifyResult(true, VerifiedMessage)
  }

  // ---------------------------------------------------------------------
  // Recovery codes
  // ---------------------------------------------------------------------

  /** Both the stored and the submitted code are compared trimmed and
      upper-cased. */
  function NormalizeCode(code: string): string {
    ToUpper(Trim(code))
  }

  /** Normalising twice changes nothing: a normalised code has no white
      space at either end and no lower-case letter. */
  lemma NormalizeCodeIdempotent(code: string)
    ensures NormalizeCode(NormalizeCode(code)) == NormalizeCode(code)
  {
    var t := Trim(code);
    var x := ToUpper(t);
    TrimShape(code);
    if x != [] {
      assert !IsJsWhitespace(x[0]);
      assert !IsJsWhitespace(x[|x| - 1]);
      assert TrimStart(x) == x;
      assert TrimEnd(x) == x;
    }
    ToUpperForgetsCase(t);
  }

  predicate SameCode(stored: string, submitted: string) {
    NormalizeCode(stored) == NormalizeCode(submitted)
  }

  /** `i` is the first entry of `codes` that matches `submitted`. */
  predicate FirstMatch(codes: seq<string>, submitted: string, i: int) {
    && 0 <= i < |codes|
    && SameCode(codes[i], submitted)
    && forall j :: 0 <= j < i ==> !SameCode(codes[j], submitted)
  }

  /** `findIndex` from position `from` on, for an already normalised code;
      -1 when no later entry matches. */
  function FindCode(codes: seq<string>, normalized: string, from: nat): (i: int)
    requires from <= |codes|
    ensures i == -1 || from <= i < |codes|
    ensures i != -1 ==> NormalizeCode(codes[i]) == normalized
    ensures forall j :: from <= j < |codes| && (i == -1 || j < i) ==> NormalizeCode(codes[j]) != normalized
    decreases |codes| - from
  {
    if from == |codes| then -1
    else if NormalizeCode(codes[from]) == normalized then from
    else FindCode(codes, normalized, from + 1)
  }

  datatype RecoveryResult = RecoveryResult(success: bool, remainingCodes: seq<string>)

  /** `verifyRecoveryCode(recoveryCodes, code)`. `None` stands for an
      undefined list. The caller's list is a value, so it is never changed;
      the result carries a new one. */
  function VerifyRecoveryCode(recoveryCodes: Option<seq<string>>, code: string): (r: RecoveryResult)
    ensures recoveryCodes.None? || recoveryCodes.value == [] ==> r == RecoveryResult(false, [])
    ensures recoveryCodes.Some? ==>
              (r.success <==> exists i :: 0 <= i < |recoveryCodes.value| && SameCode(recoveryCodes.value[i], code))
    ensures recoveryCodes.Some? && !r.success ==> r.remainingCodes == recoveryCodes.value
    ensures r.success ==>
              && recoveryCodes.Some?
              && exists i :: FirstMatch(recoveryCodes.value, code, i) &&
                             r.remainingCodes == recoveryCodes.value[..i] + recoveryCodes.value[i + 1..]
  {
    if recoveryCodes.None? || |recoveryCodes.value| == 0 then
      RecoveryResult(false, [])
    else
      var codes := recoveryCodes.value;
      var codeIndex := FindCode(codes, NormalizeCode(code), 0);
      if codeIndex == -1 then
        RecoveryResult(false, codes)
      else
        assert FirstMatch(codes, code, codeIndex);
        RecoveryResult(true, codes[..codeIndex] + codes[codeIndex + 1..])
  }

  /** A successful match removes exactly one entry: one fewer code, and the
      removed one is the first entry that matches the submitted code. */
  lemma ConsumeRemovesOne(codes: seq<string>, code: string)
    requires VerifyRecoveryCode(Some(codes), code).success
    ensures |VerifyRecoveryCode(Some(codes), code).remainingCodes| == |codes| - 1
    ensures exists i :: FirstMatch(codes, code, i) &&
              multiset(VerifyRecoveryCode(Some(codes), code).remainingCodes) + multiset{codes[i]} == multiset(codes)
  {
    var rest := VerifyRecoveryCode(Some(codes), code).remainingCodes;
    var i :| FirstMatch(codes, code, i) && rest == codes[..i] + codes[i + 1..];
    RemoveAt(codes, i);
  }

  lemma RemoveAt<T>(s: seq<T>, i: nat)
    requires i < |s|
    ensures multiset(s[..i] + s[i + 1..]) + multiset{s[i]} == multiset(s)
  {
    assert s == s[..i] + [s[i]] + s[i + 1..];
  }

  /** A miss on a defined list hands the list back unchanged. */
  lemma MissKeepsList(codes: seq<string>, code: string)
    requires forall k :: 0 <= k < |codes| ==> !SameCode(codes[k], code)
    ensures VerifyRecoveryCode(Some(codes), code) == RecoveryResult(false, codes)
  {
  }

  /** Two codes that differ only in surrounding white space or letter case
      have the same effect. */
  lemma MatchIgnoresCaseAndPadding(recoveryCodes: Option<seq<string>>, code: string, p: string, q: string)
    requires AllWhitespace(p) && AllWhitespace(q)
    ensures VerifyRecoveryCode(recoveryCodes, p + code + q) == VerifyRecoveryCode(recoveryCodes, code)
    ensures VerifyRecoveryCode(recoveryCodes, ToLower(code)) == VerifyRecoveryCode(recoveryCodes, code)
  {
    TrimIgnoresPadding(p, code, q);
    assert NormalizeCode(p + code + q) == NormalizeCode(code);
    LowerTrim(code);
    assert NormalizeCode(ToLower(code)) == NormalizeCode(code);
  }

  lemma LowerTrim(code: string)
    ensures ToUpper(Trim(ToLower(code))) == ToUpper(Trim(code))
  {
    LowerTrimStart(code);
    LowerTrimEnd(TrimStart(code));
    ToUpperForgetsCase(Trim(code));
  }

  lemma {:induction false} LowerTrimStart(s: string)
    ensures TrimStart(ToLower(s)) == ToLower(TrimStart(s))
  {
    if s != [] {
      assert ToLower(s)[0] == LowerChar(s[0]);
      if IsJsWhitespace(s[0]) {
        assert ToLower(s)[1..] == ToLower(s[1..]);
        LowerTrimStart(s[1..]);
      }
    }
  }

  lemma {:induction false} LowerTrimEnd(s: string)
    ensures TrimEnd(ToLower(s)) == ToLower(TrimEnd(s))
  {
    if s != [] {
      assert ToLower(s)[|s| - 1] == LowerChar(s[|s| - 1]);
      if IsJsWhitespace(s[|s| - 1]) {
        assert ToLower(s)[..|s| - 1] == ToLower(s[..|s| - 1]);
        LowerTrimEnd(s[..|s| - 1]);
      }
    }
  }

  /** No two entries of the list are the same code once normalised. */
  predicate DistinctCodes(codes: seq<string>) {
    forall i, j :: 0 <= i < j < |codes| ==> NormalizeCode(codes[i]) != NormalizeCode(codes[j])
  }

  /** Single use: in a list without duplicates, a code that succeeds once
      fails the second time and leaves the shortened list as it is. */
  lemma SingleUse(codes: seq<string>, code: string)
    requires DistinctCodes(codes)
    requires VerifyRecoveryCode(Some(codes), code).success
    ensures var first := VerifyRecoveryCode(Some(codes), code);
            VerifyRecoveryCode(Some(first.remainingCodes), code) == RecoveryResult(false, first.remainingCodes)
  {
    var rest := VerifyRecoveryCode(Some(codes), code).remainingCodes;
    var i :| FirstMatch(codes, code, i) && rest == codes[..i] + codes[i + 1..];
    NoSecondMatch(codes, code, i, rest);
    MissKeepsList(rest, code);
  }

  lemma NoSecondMatch(codes: seq<string>, code: string, i: nat, rest: seq<string>)
    requires DistinctCodes(codes) && FirstMatch(codes, code, i)
    requires rest == codes[..i] + codes[i + 1..]
    ensures forall k :: 0 <= k < |rest| ==> !SameCode(rest[k], code)
  {
    var n := NormalizeCode(code);
    forall k | 0 <= k < |rest|
      ensures NormalizeCode(rest[k]) != n
    {
      if k < i {
        assert rest[k] == codes[k];
      } else {
        assert rest[k] == codes[k + 1];
        assert NormalizeCode(codes[i]) == n;
        assert NormalizeCode(codes[i]) != NormalizeCode(codes[k + 1]);
      }
    }
  }
}
