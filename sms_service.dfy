/** Ghanaian phone numbers and the sending side of src/lib/sms-service.ts.

    A number is normalised to the international form without a plus sign
    ("233" and nine digits) and is valid in exactly three shapes once its
    non-digits are dropped: ten digits starting with 0, twelve digits
    starting with 233, or nine digits starting with 2 or 5. */
module SmsService {
  import opened Text

  /** The digits of a number: `String(phone || '').replace(/\D/g, '')`. */
  function Cleaned(phone: string): string {
    StripNonDigits(phone)
  }

  predicate LocalShape(d: string) {
    StartsWith(d, "0") && |d| == 10
  }

  predicate InternationalShape(d: string) {
    StartsWith(d, "233") && |d| == 12
  }

  predicate ShortShape(d: string) {
    |d| == 9 && (StartsWith(d, "2") || StartsWith(d, "5"))
  }

  /** `isValidGhanaianPhoneNumber`: one of the three shapes. A number is
      valid exactly when normalising it gives the international form. */
  predicate IsValid(phone: string): (valid: bool)
    ensures valid <==> InternationalShape(Normalize(phone))
  {
    var d := Cleaned(phone);
    assert LocalShape(d) || ShortShape(d) ==> Normalize(phone)[..3] == "233";
    LocalShape(d) || InternationalShape(d) || ShortShape(d)
  }

  /** `normalizePhoneNumber` */
  function Normalize(phone: string): (r: string)
    ensures AllDigits(r)
  {
    var d := Cleaned(phone);
    if LocalShape(d) then "233" + d[1..]
    else if InternationalShape(d) then d
    else if ShortShape(d) then "233" + d
    else d
  }

  /** A valid number normalises to twelve digits starting with 233, and
      normalising keeps the national number (the last nine digits). */
  lemma ValidNormalizesToInternational(phone: string)
    requires IsValid(phone)
    ensures InternationalShape(Normalize(phone))
    ensures Normalize(phone)[3..] == Cleaned(phone)[|Cleaned(phone)| - 9..]
  {
    var d := Cleaned(phone);
    var r := Normalize(phone);
    if LocalShape(d) {
      assert r == "233" + d[1..];
      assert r[..3] == "233";
    } else if InternationalShape(d) {
    } else {
      assert r == "233" + d;
      assert r[..3] == "233";
    }
  }

  /** An invalid number comes back as its bare digits. */
  lemma InvalidKeepsDigits(phone: string)
    requires !IsValid(phone)
    ensures Normalize(phone) == Cleaned(phone)
  {
  }

  /** Normalising twice is normalising once. */
  lemma NormalizeIdempotent(phone: string)
    ensures Normalize(Normalize(phone)) == Normalize(phone)
  {
    if IsValid(phone) {
      ValidNormalizesToInternational(phone);
    }
  }

  /** Normalising neither makes a number valid nor invalid. */
  lemma NormalizePreservesValidity(phone: string)
    ensures IsValid(Normalize(phone)) <==> IsValid(phone)
  {
    if IsValid(phone) {
      ValidNormalizesToInternational(phone);
    }
  }

  // ---------------------------------------------------------------------
  // Sending
  // ---------------------------------------------------------------------

  /** What the internal SMS endpoint answers: the HTTP status, whether it
      was 2xx, and the body's `success` and `error` fields. */
  datatype Reply = Reply(ok: bool, status: nat, success: bool, error: Option<string>)

  /** `fetch('/api/sms', {phoneNumber, message})`: `None` where the call or
      the body's parsing throws. */
  type Transport = (string, string) -> Option<Reply>

  datatype SendResult = SendResult(success: bool, error: Option<string>)

  const EmptyMessageError := "SMS message is empty. Cannot send."
  const ConnectError := "Could not connect to the SMS service."

  function InvalidNumberError(phone: string): string {
    "Invalid phone number format: " + phone
  }

  function UnknownError(status: nat): string {
    "An unknown error occurred (status: " + NatToDecimal(status) + ")."
  }

  /** `sendSingleSms(phoneNumber, message)` */
  function SendSingleSms(phone: string, message: string, transport: Transport): (r: SendResult)
    ensures message == "" ==> r == SendResult(false, Some(EmptyMessageError))
    ensures message != "" && !IsValid(phone) ==> r == SendResult(false, Some(InvalidNumberError(phone)))
    ensures r.success <==>
              && message != "" && IsValid(phone)
              && var reply := transport(Normalize(phone), message);
                 reply.Some? && reply.value.ok && reply.value.success
    ensures r.success <==> r.error.None?
  {
    if message == "" then SendResult(false, Some(EmptyMessageError))
    else
      var normalizedPhone := Normalize(phone);
      if !IsValid(normalizedPhone) then
        NormalizePreservesValidity(phone);
        SendResult(false, Some(InvalidNumberError(phone)))
      else
        NormalizePreservesValidity(phone);
        match transport(normalizedPhone, message)
        case None => SendResult(false, Some(ConnectError))
        case Some(reply) =>
          if reply.ok && reply.success then SendResult(true, None)
          else SendResult(false, Some(if Truthy(reply.error) then reply.error.value else UnknownError(reply.status)))
  }

  /** The checks come before any network call: when they fail, the
      transport is not consulted at all. */
  lemma RejectedBeforeSending(phone: string, message: string, t1: Transport, t2: Transport)
    requires message == "" || !IsValid(phone)
    ensures SendSingleSms(phone, message, t1) == SendSingleSms(phone, message, t2)
  {
  }

  /** What gets sent is the normalised number, in international form. */
  lemma SendsInternationalNumber(phone: string, message: string, transport: Transport)
    requires SendSingleSms(phone, message, transport).success
    ensures InternationalShape(Normalize(phone))
    ensures transport(Normalize(phone), message).Some?
  {
    ValidNormalizesToInternational(phone);
  }

  /** A property or business that may carry a phone number (the first of
      its `PHONE NUMBER` and `Phone Number` fields that is set). */
  datatype Recipient = Recipient(id: string, phone: Option<string>)

  datatype Outcome = Outcome(propertyId: string, success: bool, error: Option<string>)

  const NoPhoneError := "No phone number"

  /** A recipient has a phone number when it is set and not blank. */
  predicate HasPhone(item: Recipient) {
    Truthy(item.phone) && Trim(item.phone.value) != ""
  }

  /** `sendSms(items, template)`: `message(item)` is the template filled in
      for the item. */
  function SendSms(items: seq<Recipient>, message: Recipient -> string, transport: Transport): (r: seq<Outcome>)
    ensures |r| == |items|
    ensures forall i :: 0 <= i < |items| ==> r[i].propertyId == items[i].id
    ensures forall i :: 0 <= i < |items| && !HasPhone(items[i]) ==> r[i] == Outcome(items[i].id, false, Some(NoPhoneError))
    ensures forall i :: 0 <= i < |items| && HasPhone(items[i]) ==>
              r[i].success == SendSingleSms(items[i].phone.value, message(items[i]), transport).success &&
              r[i].error == SendSingleSms(items[i].phone.value, message(items[i]), transport).error
  {
    seq(|items|, i requires 0 <= i < |items| =>
      if HasPhone(items[i]) then
        var result := SendSingleSms(items[i].phone.value, message(items[i]), transport);
        Outcome(items[i].id, result.success, result.error)
      else Outcome(items[i].id, false, Some(NoPhoneError)))
  }

  /** Each recipient's outcome depends on that recipient alone: sending to
      a list is sending to its parts. */
  lemma SendSmsSplits(a: seq<Recipient>, b: seq<Recipient>, message: Recipient -> string, transport: Transport)
    ensures SendSms(a + b, message, transport) == SendSms(a, message, transport) + SendSms(b, message, transport)
  {
    var whole := SendSms(a + b, message, transport);
    var parts := SendSms(a, message, transport) + SendSms(b, message, transport);
    forall i | 0 <= i < |whole|
      ensures whole[i] == parts[i]
    {
      if i < |a| {
        assert (a + b)[i] == a[i];
      } else {
        assert (a + b)[i] == b[i - |a|];
      }
    }
  }
}
