/** The enrolment panel of src/components/twoFactorSettings.tsx as a state
    machine. Starting setup only fills the panel's pending state (secret,
    recovery codes, QR image); the user record changes only when a code
    for the pending secret checks out, and then it takes the pending secret
    and codes together. Disabling clears all three 2FA fields together. */
module TwoFactorSettings {
  import opened Text
  import Totp
  import TwoFactorAuth
  import opened AuthContext

  /** The user record once enrolment succeeds. */
  function Enabled(u: ClientUser, secret: string, codes: seq<string>): ClientUser {
    u.(twoFactorEnabled := true, twoFactorSecret := Some(secret), twoFactorRecoveryCodes := Some(codes))
  }

  /** The user record once 2FA is turned off. */
  function Disabled(u: ClientUser): ClientUser {
    u.(twoFactorEnabled := false, twoFactorSecret := None, twoFactorRecoveryCodes := None)
  }

  class Settings {
    /** The `user` prop: the record the panel was opened for. */
    const user: ClientUser
    const auth: AuthProvider
    var verificationCode: string
    var tempSecret: Option<string>
    var tempRecoveryCodes: seq<string>
    var qrCode: Option<string>
    var showRecoveryCodes: bool

    /** Nothing pending. */
    predicate Idle()
      reads this
    {
      tempSecret == None && tempRecoveryCodes == [] && qrCode == None &&
      verificationCode == "" && !showRecoveryCodes
    }

    constructor (user: ClientUser, auth: AuthProvider)
      ensures this.user == user && this.auth == auth && Idle()
    {
      this.user := user;
      this.auth := auth;
      verificationCode := "";
      tempSecret := None;
      tempRecoveryCodes := [];
      qrCode := None;
      showRecoveryCodes := false;
    }

    /** The code field's `onChange`. */
    method EnterCode(code: string)
      modifies this`verificationCode
      ensures verificationCode == code
    {
      verificationCode := code;
    }

    /** `handleEnable2FA`: a fresh secret and batch go into the pending
        state. `qrDataUrl(uri)` is the QR image, `None` where rendering
        throws; then the earlier image stays. The user record, the store
        and the signed-in user are untouched. */
    method HandleEnable2FA(speakeasy: TwoFactorAuth.SecretGenerator, random36: nat -> string,
                           qrDataUrl: string -> Option<string>)
      modifies this`tempSecret, this`tempRecoveryCodes, this`qrCode
      ensures var generated := speakeasy(TwoFactorAuth.SecretLabel(user.email));
              && tempSecret == Some(generated.base32)
              && qrCode == (if qrDataUrl(generated.otpauthUrl).Some? then qrDataUrl(generated.otpauthUrl) else old(qrCode))
      ensures |tempRecoveryCodes| == TwoFactorAuth.RecoveryCodeCount
      ensures forall i :: 0 <= i < |tempRecoveryCodes| ==>
                tempRecoveryCodes[i] == TwoFactorAuth.RecoveryCodeFrom(random36(i))
    {
      var setup := TwoFactorAuth.GenerateTwoFactorSecret(user.email, speakeasy, random36);
      tempSecret := Some(setup.secret);
      tempRecoveryCodes := setup.recoveryCodes;
      var qrCodeData := qrDataUrl(setup.qrCode);
      if qrCodeData.Some? {
        qrCode := qrCodeData;
      }
    }

    /** `handleVerify2FA`: with no pending secret, nothing happens. A wrong
        code changes nothing. A right one enables 2FA on the user's entry
        in the store and on the signed-in user, with exactly the pending
        secret and codes, and clears the pending state. */
    method HandleVerify2FA(hotp: Totp.CodeGenerator, nowMs: nat)
      modifies this`tempSecret, this`tempRecoveryCodes, this`qrCode, this`verificationCode, this`showRecoveryCodes
      modifies auth`user, auth.store`users
      ensures var accepted := Truthy(old(tempSecret)) &&
                              Totp.Accepts(hotp, old(tempSecret).value, old(verificationCode), nowMs, Totp.Window);
              && (accepted ==>
                    var updated := Enabled(user, old(tempSecret).value, old(tempRecoveryCodes));
                    && auth.store.users == ReplaceById(old(auth.store.users), updated)
                    && auth.user == Some(updated)
                    && Idle())
              && (!accepted ==>
                    && auth.store.users == old(auth.store.users) && auth.user == old(auth.user)
                    && tempSecret == old(tempSecret) && tempRecoveryCodes == old(tempRecoveryCodes)
                    && qrCode == old(qrCode) && verificationCode == old(verificationCode)
                    && showRecoveryCodes == old(showRecoveryCodes))
    {
      if !Truthy(tempSecret) {
        return;
      }
      var result := TwoFactorAuth.VerifyTwoFactorCode(hotp, tempSecret.value, verificationCode, nowMs);
      if result.success {
        var updatedUser := Enabled(user, tempSecret.value, tempRecoveryCodes);
        var userIndex := IndexOfId(auth.store.users, user.id);
        if userIndex != -1 {
          auth.store.users := auth.store.users[userIndex := updatedUser];
        }
        auth.UpdateAuthUser(updatedUser);
        tempSecret := None;
        tempRecoveryCodes := [];
        qrCode := None;
        verificationCode := "";
        showRecoveryCodes := false;
      }
    }

    /** `handleDisable2FA` */
    method HandleDisable2FA()
      modifies auth`user, auth.store`users
      ensures auth.store.users == ReplaceById(old(auth.store.users), Disabled(user))
      ensures auth.user == Some(Disabled(user))
    {
      var updatedUser := Disabled(user);
      var userIndex := IndexOfId(auth.store.users, user.id);
      if userIndex != -1 {
        auth.store.users := auth.store.users[userIndex := updatedUser];
      }
      auth.UpdateAuthUser(updatedUser);
    }

    /** `handleCancelSetup`: drops everything pending. */
    method HandleCancelSetup()
      modifies this`tempSecret, this`tempRecoveryCodes, this`qrCode, this`verificationCode, this`showRecoveryCodes
      ensures Idle()
    {
      tempSecret := None;
      tempRecoveryCodes := [];
      qrCode := None;
      verificationCode := "";
      showRecoveryCodes := false;
    }
  }

  /** After a successful enrolment the next sign-in asks for a second
      factor, and the code the authenticator shows now is accepted; after
      disabling, sign-in needs no second factor. */
  lemma EnrolmentTakesEffect(u: ClientUser, secret: string, codes: seq<string>,
                             hotp: Totp.CodeGenerator, nowMs: nat)
    requires secret != ""
    ensures NeedsSecondFactor(Enabled(u, secret, codes))
    ensures CodeAccepted(Enabled(u, secret, codes), hotp(secret, Totp.Counter(nowMs)), hotp, nowMs)
    ensures !NeedsSecondFactor(Disabled(Enabled(u, secret, codes)))
  {
    Totp.WindowTolerance(hotp, secret, nowMs, 0);
  }

  /** A recovery code handed out at enrolment signs the user in once on
      the client, and only once when the batch has no repeats. */
  lemma EnrolledRecoveryCodeWorksOnce(u: ClientUser, secret: string, codes: seq<string>, i: nat)
    requires i < |codes| && TwoFactorAuth.DistinctCodes(codes)
    ensures var e := Enabled(u, secret, codes);
            var first := TwoFactorAuth.VerifyRecoveryCode(e.twoFactorRecoveryCodes, codes[i]);
            && first.success
            && !TwoFactorAuth.VerifyRecoveryCode(Some(first.remainingCodes), codes[i]).success
  {
    assert TwoFactorAuth.SameCode(codes[i], codes[i]);
    TwoFactorAuth.SingleUse(codes, codes[i]);
  }
}
