/** The server endpoint of src/app/api/sms/route.ts: its own phone-number
    normalisation (which has no rule for nine-digit numbers) and the checks
    `POST` makes before it calls the SMS gateway. */
module SmsRoute {
  import opened Text
  import SmsService

  /** The route's `normalizePhoneNumber` */
  function Normalize(phone: string): (r: string)
    ensures AllDigits(r)
  {
    var d := SmsService.Cleaned(phone);
    if SmsService.LocalShape(d) then "233" + d[1..]
    else if SmsService.InternationalShape(d) then d
    else d
  }

  /** The two normalisations agree except on nine-digit numbers starting
      with 2 or 5, which only the client's version prefixes with 233. */
  lemma AgreesWithService(phone: string)
    ensures !SmsService.ShortShape(SmsService.Cleaned(phone)) ==> Normalize(phone) == SmsService.Normalize(phone)
    ensures SmsService.ShortShape(SmsService.Cleaned(phone)) ==>
              Normalize(phone) == SmsService.Cleaned(phone) &&
              SmsService.Normalize(phone) == "233" + SmsService.Cleaned(phone)
  {
  }

  /** A number the client has normalised reaches the gateway unchanged. */
  lemma KeepsServiceOutput(phone: string)
    ensures Normalize(SmsService.Normalize(phone)) == SmsService.Normalize(phone)
  {
    if SmsService.IsValid(phone) {
      SmsService.ValidNormalizesToInternational(phone);
    }
  }

  /** The request as `POST` reads it: the JSON body's two fields and the
      two settings from the environment, each `None` when absent. */
  datatype Request = Request(phoneNumber: Option<string>, message: Option<string>,
                             apiKey: Option<string>, senderId: Option<string>)

  /** A refusal with its status and error text, or the gateway call the
      route goes on to make (its outcome is not part of this model). */
  datatype Response =
    | Refused(status: nat, error: string)
    | Dispatch(to: string, sms: string)

  const MissingFieldsError := "Phone number and message are required."
  const NotConfiguredError := "SMS service is not configured on the server. Please check .env.local file."
  const EmptyNumberError := "Invalid or empty phone number provided."

  function Post(req: Request): (r: Response)
    ensures !Truthy(req.phoneNumber) || !Truthy(req.message) ==> r == Refused(400, MissingFieldsError)
    ensures Truthy(req.phoneNumber) && Truthy(req.message) && (!Truthy(req.apiKey) || !Truthy(req.senderId)) ==>
              r == Refused(500, NotConfiguredError)
    ensures Truthy(req.phoneNumber) && Truthy(req.message) && Truthy(req.apiKey) && Truthy(req.senderId) &&
            (forall i :: 0 <= i < |req.phoneNumber.value| ==> !IsDigit(req.phoneNumber.value[i])) ==>
              r == Refused(400, EmptyNumberError)
    ensures r.Dispatch? <==>
              && Truthy(req.phoneNumber) && Truthy(req.message)
              && Truthy(req.apiKey) && Truthy(req.senderId)
              && exists i :: 0 <= i < |req.phoneNumber.value| && IsDigit(req.phoneNumber.value[i])
    ensures r.Dispatch? ==> r.to != [] && AllDigits(r.to) && r.sms == req.message.value
    ensures r.Dispatch? ==> r.to == Normalize(req.phoneNumber.value)
  {
    if !Truthy(req.phoneNumber) || !Truthy(req.message) then Refused(400, MissingFieldsError)
    else if !Truthy(req.apiKey) || !Truthy(req.senderId) then Refused(500, NotConfiguredError)
    else
      var normalizedPhoneNumber := Normalize(req.phoneNumber.value);
      if normalizedPhoneNumber == "" then
        NoDigitsNormalizeEmpty(req.phoneNumber.value);
        Refused(400, EmptyNumberError)
      else
        NoDigitsNormalizeEmpty(req.phoneNumber.value);
        Dispatch(normalizedPhoneNumber, req.message.value)
  }

  /** The route's number is empty exactly when the input had no digit. */
  lemma NoDigitsNormalizeEmpty(phone: string)
    ensures Normalize(phone) == "" <==> forall i :: 0 <= i < |phone| ==> !IsDigit(phone[i])
  {
    var d := SmsService.Cleaned(phone);
    if d == [] {
      forall i | 0 <= i < |phone|
        ensures !IsDigit(phone[i])
      {
        assert phone[i] in phone;
      }
    } else {
      assert d[0] in d;
    }
  }

  /** What the client sends after its own checks passed is dispatched to
      that very number, once the server is configured. */
  lemma ClientRequestDispatched(phone: string, message: string, apiKey: string, senderId: string)
    requires message != "" && SmsService.IsValid(phone)
    requires apiKey != "" && senderId != ""
    ensures Post(Request(Some(SmsService.Normalize(phone)), Some(message), Some(apiKey), Some(senderId))) ==
              Dispatch(SmsService.Normalize(phone), message)
  {
    SmsService.ValidNormalizesToInternational(phone);
    KeepsServiceOutput(phone);
  }
}
