/** The user's OTP page (`VerifyOTP`): verifying the emailed code, asking for
    a new one, and the resend cooldown shown on its button. Each handler runs
    to completion with the server's answer as a parameter. */
module VerifyOtpPage {
  import opened Base
  import opened AuthStore
  import opened OtpCooldown

  const BlankEmailText: string := "Please enter your email first."
  const ResentText: string := "OTP resent"

  /** The token's three steps on success: `saveToken`, `clearPendingEmail`,
      `setAwaitingOtp(false)`. */
  method EndFlow(store: Store, jwt: string)
    modifies store
    ensures store.items == UserOtpDone(old(store.items), jwt)
  {
    store.SaveToken(jwt);
    store.ClearPendingEmail();
    store.SetAwaitingOtp(false);
  }

  class Page {
    var email: string
    var otp: string
    var msg: string
    var resendMsg: string
    var isVerifying: bool
    var cooldown: int

    constructor ()
      ensures email == "" && otp == "" && msg == "" && resendMsg == ""
      ensures !isVerifying && cooldown == 0
    {
      email, otp, msg, resendMsg := "", "", "", "";
      isVerifying, cooldown := false, 0;
    }

    /** One tick of the interval timer. */
    method TickCooldown()
      modifies this
      ensures cooldown == Tick(old(cooldown)) && cooldown >= 0
      ensures old(cooldown) > 0 ==> cooldown < old(cooldown)
      ensures email == old(email) && otp == old(otp) && msg == old(msg)
      ensures resendMsg == old(resendMsg) && isVerifying == old(isVerifying)
    {
      cooldown := Tick(cooldown);
    }

    /** `handleVerify`: posts the normalised email and the trimmed code; a
        token in the answer is saved and ends the pending OTP flow (the
        page then goes to the dashboard), anything else changes no flag. */
    method HandleVerify(store: Store, answer: PostResult)
      returns (posted: VerifyPayload, navigate: Option<string>)
      modifies this, store
      ensures posted == Payload(email, otp)
      ensures msg == VerifyText(answer)
      ensures match AcceptedToken(answer)
              case Some(jwt) => store.items == UserOtpDone(old(store.items), jwt) && navigate == Some("/dashboard")
              case None => store.items == old(store.items) && navigate.None?
      ensures !isVerifying
      ensures email == old(email) && otp == old(otp) && resendMsg == old(resendMsg) && cooldown == old(cooldown)
    {
      msg := "Verifying...";
      isVerifying := true;
      posted := Payload(email, otp);
      navigate := TakeAnswer(store, answer);
      isVerifying := false;
    }

    /** The `try`/`catch` part of `handleVerify`: the message, and for a
        token the end of the flow. */
    method TakeAnswer(store: Store, answer: PostResult) returns (navigate: Option<string>)
      modifies this, store
      ensures msg == VerifyText(answer)
      ensures match AcceptedToken(answer)
              case Some(jwt) => store.items == UserOtpDone(old(store.items), jwt) && navigate == Some("/dashboard")
              case None => store.items == old(store.items) && navigate.None?
      ensures email == old(email) && otp == old(otp) && resendMsg == old(resendMsg)
      ensures cooldown == old(cooldown) && isVerifying == old(isVerifying)
    {
      navigate := None;
      match answer {
        case Answered(message, token) =>
          msg := OrText(message, "Verified");
          if token.Some? && token.value != "" {
            EndFlow(store, token.value);
            navigate := Some("/dashboard");
          }
        case Rejected(message) =>
          msg := OrText(message, "OTP verification failed");
      }
    }

    /** `handleResend`: nothing is posted for a blank email (a prompt is
        shown instead) or while the cooldown runs; otherwise the outcome is
        the shared resend step with this page's texts. */
    method HandleResend(answer: PostResult) returns (posted: Option<string>)
      modifies this
      ensures var out := Resend(Normalised(old(email)), old(cooldown), answer, BlankEmailText, ResentText);
              posted == out.posted && resendMsg == out.message && cooldown == out.cooldown
      ensures email == old(email) && otp == old(otp) && msg == old(msg) && isVerifying == old(isVerifying)
    {
      resendMsg := "";
      var norm := Normalised(email);
      if norm == "" {
        resendMsg := BlankEmailText;
        return None;
      }
      if cooldown > 0 {
        return None;
      }
      posted := Some(norm);
      match answer {
        case Answered(message, _) =>
          resendMsg := OrText(message, ResentText);
          cooldown := ResendCooldownSeconds;
        case Rejected(message) =>
          resendMsg := OrText(message, "Failed to resend OTP");
          var wait := ParseWait(message);
          if wait.Some? {
            cooldown := wait.value;
          }
      }
    }
  }
}
