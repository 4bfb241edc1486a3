/** The admin's OTP page (`AdminVerifyOTP`): the same verify, resend and
    cooldown logic as the user's page, over the admin flow's keys. */
module AdminVerifyOtpPage {
  import opened Base
  import opened AuthStore
  import opened OtpCooldown

  const BlankEmailText: string := "Please enter admin email first."
  const ResentText: string := "Admin OTP resent"

  /** The token's three steps on success: `saveToken`,
      `setAwaitingAdminOtp(false)`, `clearPendingAdminEmail`. */
  method EndFlow(store: Store, jwt: string)
    modifies store
    ensures store.items == AdminOtpDone(old(store.items), jwt)
  {
    store.SaveToken(jwt);
    store.SetAwaitingAdminOtp(false);
    store.ClearPendingAdminEmail();
  }

  class Page {
    var email: string
    var otp: string
    var msg: string
    var resendMsg: string
    var isVerifying: bool
    var cooldown: int

    /** The email field starts as the pending admin email the login left. */
    constructor (store: Store)
      ensures email == store.GetPendingAdminEmail()
      ensures otp == "" && msg == "" && resendMsg == ""
      ensures !isVerifying && cooldown == 0
    {
      email := store.GetPendingAdminEmail();
      otp, msg, resendMsg := "", "", "";
      isVerifying, cooldown := false, 0;
    }

    /** One tick of the interval timer. */
    method TickCooldown()
      modifies this
      ensures cooldown == Tick(old(cooldown)) && cooldown >= 0
      ensures old(cooldown) > 0 ==> cooldown < old(cooldown)
      ensures email == old(email) && otp == old(otp) && msg == old(msg)
      ensures resendMsg == old(resendMsg) && isVerifying == old(isVerifying)
    {
      cooldown := Tick(cooldown);
    }

    /** `handleVerify`: as on the user's page, but a token ends the admin
        flow and the page goes to the user administration. */
    method HandleVerify(store: Store, answer: PostResult)
      returns (posted: VerifyPayload, navigate: Option<string>)
      modifies this, store
      ensures posted == Payload(email, otp)
      ensures msg == VerifyText(answer)
      ensures match AcceptedToken(answer)
              case Some(jwt) => store.items == AdminOtpDone(old(store.items), jwt) && navigate == Some("/admin/users")
              case None => store.items == old(store.items) && navigate.None?
      ensures !isVerifying
      ensures email == old(email) && otp == old(otp) && resendMsg == old(resendMsg) && cooldown == old(cooldown)
    {
      msg := "Verifying admin OTP...";
      isVerifying := true;
      posted := Payload(email, otp);
      navigate := TakeAnswer(store, answer);
      isVerifying := false;
    }

    /** The `try`/`catch` part of `handleVerify`: the message, and for a
        token the end of the flow. */
    method TakeAnswer(store: Store, answer: PostResult) returns (navigate: Option<string>)
      modifies this, store
      ensures msg == VerifyText(answer)
      ensures match AcceptedToken(answer)
              case Some(jwt) => store.items == AdminOtpDone(old(store.items), jwt) && navigate == Some("/admin/users")
              case None => store.items == old(store.items) && navigate.None?
      ensures email == old(email) && otp == old(otp) && resendMsg == old(resendMsg)
      ensures cooldown == old(cooldown) && isVerifying == old(isVerifying)
    {
      navigate := None;
      match answer {
        case Answered(message, token) =>
          msg := OrText(message, "Verified");
          if token.Some? && token.value != "" {
            EndFlow(store, token.value);
            navigate := Some("/admin/users");
          }
        case Rejected(message) =>
          msg := OrText(message, "OTP verification failed");
      }
    }

    /** `handleResend`: the shared resend step with the admin texts. */
    method HandleResend(answer: PostResult) returns (posted: Option<string>)
      modifies this
      ensures var out := Resend(Normalised(old(email)), old(cooldown), answer, BlankEmailText, ResentText);
              posted == out.posted && resendMsg == out.message && cooldown == out.cooldown
      ensures email == old(email) && otp == old(otp) && msg == old(msg) && isVerifying == old(isVerifying)
    {
      resendMsg := "";
      var norm := Normalised(email);
      if norm == "" {
        resendMsg := BlankEmailText;
        return None;
      }
      if cooldown > 0 {
        return None;
      }
      posted := Some(norm);
      match answer {
        case Answered(message, _) =>
          resendMsg := OrText(message, ResentText);
          cooldown := ResendCooldownSeconds;
        case Rejected(message) =>
          resendMsg := OrText(message, "Failed to resend OTP");
          var wait := ParseWait(message);
          if wait.Some? {
            cooldown := wait.value;
          }
      }
    }
  }
}
