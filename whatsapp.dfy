/**
 * `WhatsAppManager` (whatsapp.py, copied in app.py:325-361): the enabled flag,
 * normalisation of Egyptian numbers to the `+20` international form, and the
 * mapping of the Twilio reply to a result. The HTTP call to Twilio is a
 * function from the message to its outcome.
 */
module WhatsApp {
  import opened Basics
  import opened Text

  /** The three Twilio settings, `None` when the environment variable is unset. */
  datatype Manager = Manager(sid: Option<string>, token: Option<string>, number: Option<string>)

  /** `self.enabled`. */
  predicate Enabled(m: Manager)
    ensures Enabled(m) <==> forall k :: 0 <= k < 3 ==> Truthy([m.sid, m.token, m.number][k])
  {
    var all := [m.sid, m.token, m.number];
    assert all[0] == m.sid && all[1] == m.token && all[2] == m.number;
    Truthy(m.sid) && Truthy(m.token) && Truthy(m.number)
  }

  /** The rebinding of `phone` in `send_message`. */
  function NormalizePhone(phone: string): (r: string)
    ensures StartsWith(r, "+")
  {
    if StartsWith(phone, "+") then phone
    else if StartsWith(phone, "0") then "+20" + phone[1..]
    else "+20" + phone
  }

  /** Normalised numbers keep their form; a leading `0` becomes `+20`, anything else gets `+20` in front. */
  lemma NormalizePhoneSpec(phone: string)
    ensures NormalizePhone(NormalizePhone(phone)) == NormalizePhone(phone)
    ensures StartsWith(phone, "+") ==> NormalizePhone(phone) == phone
    ensures StartsWith(phone, "0") ==> NormalizePhone(phone) == "+2" + phone
    ensures !StartsWith(phone, "+") && !StartsWith(phone, "0") ==>
              NormalizePhone(phone) == "+20" + phone
    ensures !StartsWith(phone, "+") ==> |NormalizePhone(phone)| == |phone| + (if StartsWith(phone, "0") then 2 else 3)
  {
    if StartsWith(phone, "0") {
      assert phone[0] == '0';
      assert phone == ['0'] + phone[1..];
      assert "+2" + phone == "+2" + (['0'] + phone[1..]) == ("+2" + ['0']) + phone[1..];
      assert "+2" + ['0'] == "+20";
    }
  }

  /** An 11-digit local mobile number `01XXXXXXXXX` becomes the 13-character `+201XXXXXXXXX`. */
  lemma NormalizeLocalMobile(phone: string)
    requires |phone| == 11 && StartsWith(phone, "01")
    ensures NormalizePhone(phone) == "+2" + phone
    ensures |NormalizePhone(phone)| == 13
    ensures NormalizePhone(phone)[..4] == "+201"
  {
    NormalizePhoneSpec(phone);
    assert phone[..2] == "01";
  }

  /** The form fields posted to Twilio. */
  datatype Delivery = Delivery(from: string, to: string, body: string)

  /** What the Twilio request produced: a status with the `sid` of the body, or an exception. */
  datatype TwilioOutcome = Replied(status: int, sid: Option<string>) | TwilioRaised(message: string)

  datatype SendError = Disabled | SendStatus(status: int) | SendRaised(message: string)

  datatype SendResult = Sent(messageId: Option<string>, to: string) | SendFailed(error: SendError)

  /**
   * The form of `send_message`: from the configured sender, to the number in
   * its `+` international form, with the message as the body.
   */
  function DeliveryFor(m: Manager, phone: string, message: string): (d: Delivery)
    requires Enabled(m)
    ensures StartsWith(d.from, "whatsapp:") && d.from[|"whatsapp:"|..] == m.number.value
    ensures StartsWith(d.to, "whatsapp:+") && d.body == message
    ensures d.to == "whatsapp:" + NormalizePhone(phone)
    ensures |phone| == 11 && StartsWith(phone, "01") ==> d.to == "whatsapp:+2" + phone
  {
    NormalizePhoneSpec(phone);
    assert StartsWith(phone, "01") ==> phone[0] == '0';
    Delivery("whatsapp:" + m.number.value, "whatsapp:" + NormalizePhone(phone), message)
  }

  /** `WhatsAppManager.send_message`. */
  function SendMessage(m: Manager, phone: string, message: string, twilio: Delivery -> TwilioOutcome): (r: SendResult)
    ensures !Enabled(m) ==> r == SendFailed(Disabled)
    ensures r.Sent? <==> Enabled(m) && twilio(DeliveryFor(m, phone, message)).Replied?
                         && twilio(DeliveryFor(m, phone, message)).status == 201
    ensures r.Sent? ==> r.to == NormalizePhone(phone)
                        && r.messageId == twilio(DeliveryFor(m, phone, message)).sid
  {
    if !Enabled(m) then SendFailed(Disabled)
    else
      match twilio(DeliveryFor(m, phone, message))
      case TwilioRaised(msg) => SendFailed(SendRaised(msg))
      case Replied(status, sid) =>
        if status == 201 then Sent(sid, NormalizePhone(phone)) else SendFailed(SendStatus(status))
  }

  /** A disabled manager answers the same whatever Twilio would do: no request is made. */
  lemma DisabledSendsNothing(m: Manager, phone: string, message: string,
                             t1: Delivery -> TwilioOutcome, t2: Delivery -> TwilioOutcome)
    requires !Enabled(m)
    ensures SendMessage(m, phone, message, t1) == SendMessage(m, phone, message, t2) == SendFailed(Disabled)
  {
  }

  /** Every status other than 201, and every exception, is a failure carrying it. */
  lemma SendFailureCases(m: Manager, phone: string, message: string, twilio: Delivery -> TwilioOutcome)
    requires Enabled(m)
    ensures var o := twilio(DeliveryFor(m, phone, message));
            (o.Replied? && o.status != 201 ==> SendMessage(m, phone, message, twilio) == SendFailed(SendStatus(o.status)))
            && (o.TwilioRaised? ==> SendMessage(m, phone, message, twilio) == SendFailed(SendRaised(o.message)))
  {
  }
}
