/** Dispatch of codes (users/utils.py). Delivery itself is foreign I/O: whether the mail
    server or the SMS provider accepted the message is a parameter, and dispatch never
    changes the OTP it is given. What is modelled is the configuration guard, the
    normalisation of the recipient's phone number, and what each sender returns. */
module UserUtils {
  import opened Wrappers
  import opened Text
  import opened UserModels

  /** The three Twilio settings, each possibly missing (`getattr(settings, ..., None)`). */
  datatype TwilioSettings = TwilioSettings(
    accountSid: Option<string>,
    authToken: Option<string>,
    phoneNumber: Option<string>)

  /** A setting counts as present when it exists and is not the empty string. */
  predicate IsSet(setting: Option<string>) {
    setting.Some? && setting.value != ""
  }

  /** The guard of `send_otp_phone`: all three settings are present and non-empty. */
  predicate TwilioConfigured(t: TwilioSettings) {
    IsSet(t.accountSid) && IsSet(t.authToken) && IsSet(t.phoneNumber)
  }

  /** The recipient number handed to the SMS provider: a number already carrying a '+'
      is kept, one starting with the Indian country code 91 gets a '+', and any other
      number is taken to be Indian and gets '+91'. */
  function NormalizePhone(number: string): (r: string)
    ensures StartsWith(r, "+")
    ensures EndsWith(r, number) && |r| <= |number| + 3
    ensures StartsWith(number, "+") <==> r == number
    ensures !StartsWith(number, "+") ==> StartsWith(r, "+91")
    ensures !StartsWith(number, "+") && StartsWith(number, "91") ==> |r| == |number| + 1
    ensures !StartsWith(number, "+") && !StartsWith(number, "91") ==> |r| == |number| + 3
  {
    if StartsWith(number, "+") then number
    else if !StartsWith(number, "91") then "+91" + number
    else "+" + number
  }

  /** Normalising an already normalised number changes nothing. */
  lemma NormalizePhoneIdempotent(number: string)
    ensures NormalizePhone(NormalizePhone(number)) == NormalizePhone(number)
  {
  }

  /** `send_otp_email`: the mail is sent with `fail_silently=False`, so a refused mail
      raises instead of returning; on success the OTP comes back unchanged. */
  function SendOtpEmail(otp: OtpRow, delivered: bool): (r: Result<OtpRow, string>)
    ensures r.Ok? <==> delivered
    ensures r.Ok? ==> r.value == otp
  {
    if delivered then Ok(otp) else Err("SMTP error")
  }

  /** `send_otp_phone`: None without sending when Twilio is not configured; None when
      sending fails (a missing contact makes the normalisation itself fail, which the
      same handler catches); the OTP unchanged on success. `delivered` is the
      provider's verdict on the message sent to `SmsRecipient(otp)`. */
  function SendOtpPhone(t: TwilioSettings, otp: OtpRow, delivered: bool): (r: Option<OtpRow>)
    ensures !TwilioConfigured(t) ==> r.None?
    ensures r.Some? <==> TwilioConfigured(t) && otp.contactInfo.Some? && delivered
    ensures r.Some? ==> r.value == otp && SmsRecipient(otp).Some?
  {
    if !TwilioConfigured(t) then None
    else if otp.contactInfo.None? then None
    else if delivered then Some(otp)
    else None
  }

  /** The number an SMS for `otp` is addressed to, when it has a contact. */
  function SmsRecipient(otp: OtpRow): (r: Option<string>)
    ensures r.Some? <==> otp.contactInfo.Some?
    ensures r.Some? ==> StartsWith(r.value, "+") && EndsWith(r.value, otp.contactInfo.value)
  {
    match otp.contactInfo
    case None => None
    case Some(c) => Some(NormalizePhone(c))
  }
}
