/** The OTP resend cooldown as both sides see it: the server's "Please wait
    Ns" refusal, the client's parse of that message and the client's
    one-second countdown step; and what the client's OTP pages get back. */
module OtpCooldown {
  import opened Base

  /** What one of the OTP pages' posts came back with: a response body's
      `message` and `token`, or an error response's `message` (each may be
      missing). */
  datatype PostResult = Answered(message: Option<string>, token: Option<string>)
                      | Rejected(message: Option<string>)

  /** JavaScript's `text || fallback` for a string that may be missing. */
  function OrText(text: Option<string>, fallback: string): string {
    if text.Some? && text.value != "" then text.value else fallback
  }

  /** The body of a verify post. */
  datatype VerifyPayload = VerifyPayload(email: string, otp: string)

  /** The email as both pages' handlers send it: trimmed and lower-cased. */
  function Normalised(email: string): (r: string)
    ensures r == "" <==> JsTrim(email) == ""
  {
    Lower(JsTrim(email))
  }

  /** The verify post's body: the normalised email and the trimmed code. */
  function Payload(email: string, otp: string): VerifyPayload {
    VerifyPayload(Normalised(email), JsTrim(otp))
  }

  /** The message both pages show once a verify post is answered. */
  function VerifyText(answer: PostResult): string {
    match answer
    case Answered(message, _) => OrText(message, "Verified")
    case Rejected(message) => OrText(message, "OTP verification failed")
  }

  /** The token a verify answer hands over: a non-empty `token` in a
      successful response. */
  function AcceptedToken(answer: PostResult): (r: Option<string>)
    ensures r.Some? <==> answer.Answered? && answer.token.Some? && answer.token.value != ""
    ensures r.Some? ==> r == answer.token
  {
    if answer.Answered? && answer.token.Some? && answer.token.value != "" then answer.token else None
  }

  /** The server's resend cooldown, in seconds, and the client's copy of it. */
  const ResendCooldownSeconds: nat := 30

  /** The message of the server's 429 answer. */
  function WaitMessage(wait: nat): string {
    "Please wait " + NatToString(wait) + "s before requesting another OTP."
  }

  // ------------------------------------------------------------ countdown

  /** The interval's state updater: 1 and below go to 0, anything else
      counts down by one. */
  function Tick(s: int): (r: int)
    ensures r >= 0
    ensures s >= 1 ==> r == s - 1
    ensures s <= 1 ==> r == 0
  {
    if s <= 1 then 0 else s - 1
  }

  /** The cooldown after `n` ticks. */
  function Ticks(s: int, n: nat): int
    decreases n
  {
    if n == 0 then s else Ticks(Tick(s), n - 1)
  }

  /** Starting from a positive cooldown `s`, the countdown stays positive for
      fewer than `s` ticks and is 0 from the `s`-th tick on. */
  lemma {:induction false} TicksReachZero(s: nat, n: nat)
    ensures n < s ==> Ticks(s, n) == s - n
    ensures n >= s ==> Ticks(s, n) == 0
    decreases n
  {
    if n > 0 {
      if s == 0 {
        TicksStayZero(n - 1);
      } else {
        TicksReachZero(s - 1, n - 1);
      }
    }
  }

  lemma {:induction false} TicksStayZero(n: nat)
    ensures Ticks(0, n) == 0
    decreases n
  {
    if n > 0 {
      TicksStayZero(n - 1);
    }
  }

  // ------------------------------------------------------------- resend

  /** Where `handleResend` ends: what it posted (None when it sent no
      request), the text it shows and the cooldown it leaves. */
  datatype ResendOutcome = ResendOutcome(posted: Option<string>, message: string, cooldown: int)

  /** `handleResend` of either OTP page, from the normalised email, the
      cooldown it starts with and the answer a request would get. The pages
      differ only in the text for a blank email and for a resend. */
  function Resend(norm: string, cooldown: int, answer: PostResult, blankText: string, resentText: string): ResendOutcome {
    if norm == "" then ResendOutcome(None, blankText, cooldown)
    else if cooldown > 0 then ResendOutcome(None, "", cooldown)
    else
      match answer
      case Answered(message, _) => ResendOutcome(Some(norm), OrText(message, resentText), ResendCooldownSeconds)
      case Rejected(message) =>
        var wait := ParseWait(message);
        ResendOutcome(Some(norm), OrText(message, "Failed to resend OTP"),
                      if wait.Some? then wait.value else cooldown)
  }

  /** A request goes out exactly when the email is not blank and no
      cooldown runs, and it carries that email. */
  lemma ResendPostsOnlyWhenIdle(norm: string, cooldown: int, answer: PostResult, blankText: string, resentText: string)
    ensures Resend(norm, cooldown, answer, blankText, resentText).posted.Some? <==> norm != "" && cooldown <= 0
    ensures Resend(norm, cooldown, answer, blankText, resentText).posted.Some? ==>
              Resend(norm, cooldown, answer, blankText, resentText).posted.value == norm
    ensures norm == "" ==> Resend(norm, cooldown, answer, blankText, resentText).message == blankText
    ensures norm != "" && cooldown > 0 ==> Resend(norm, cooldown, answer, blankText, resentText) == ResendOutcome(None, "", cooldown)
  {
  }

  /** The cooldown is never negative after a resend that started from a
      non-negative one, and the 30 seconds a resend starts are counted off
      by exactly 30 ticks. */
  lemma ResendCooldownRunsDown(norm: string, cooldown: int, answer: PostResult, blankText: string, resentText: string)
    requires cooldown >= 0
    ensures Resend(norm, cooldown, answer, blankText, resentText).cooldown >= 0
    ensures answer.Answered? && norm != "" && cooldown == 0 ==>
              var c := Resend(norm, cooldown, answer, blankText, resentText).cooldown;
              c == ResendCooldownSeconds && Ticks(c, 29) > 0 && Ticks(c, 30) == 0
  {
    TicksReachZero(ResendCooldownSeconds, 29);
    TicksReachZero(ResendCooldownSeconds, 30);
  }

  /** A refusal carrying the server's "Please wait Ns" message sets the
      client's cooldown to exactly N. */
  lemma ResendAdoptsServerWait(norm: string, cooldown: int, wait: nat, blankText: string, resentText: string)
    requires norm != "" && cooldown <= 0
    ensures Resend(norm, cooldown, Rejected(Some(WaitMessage(wait))), blankText, resentText)
              == ResendOutcome(Some(norm), WaitMessage(wait), wait)
  {
    WaitMessageRoundTrip(wait);
  }

  // ------------------------------------------------------- message parse

  /** Length of the run of regex `\s` characters starting at `i`. */
  function WsRun(s: string, i: nat): (r: nat)
    requires i <= |s|
    ensures i + r <= |s|
    decreases |s| - i
  {
    if i < |s| && IsJsWhitespace(s[i]) then 1 + WsRun(s, i + 1) else 0
  }

  /** Length of the run of decimal digits starting at `i`. */
  function DigitRun(s: string, i: nat): (r: nat)
    requires i <= |s|
    ensures i + r <= |s|
    ensures forall k :: i <= k < i + r ==> IsDigit(s[k])
    decreases |s| - i
  {
    if i < |s| && IsDigit(s[i]) then 1 + DigitRun(s, i + 1) else 0
  }

  /** `/wait\s+(\d+)\s*s/i` tried at position `i`: the captured digits, if it
      matches there. The classes `\s` and `\d` are disjoint from each other
      and from the letters, so the greedy runs never need to back off and
      the match at a position is unique. Case-insensitivity only applies to
      ASCII letters here. */
  function MatchAt(s: string, i: nat): (r: Option<string>)
    requires i <= |s|
    ensures r.Some? ==> |r.value| > 0 && forall k :: 0 <= k < |r.value| ==> IsDigit(r.value[k])
  {
    if i + 4 > |s| || Lower(s[i..i + 4]) != "wait" then None
    else
      var gap := WsRun(s, i + 4);
      var k := i + 4 + gap;
      var digits := DigitRun(s, k);
      var m := k + digits;
      var n := m + WsRun(s, m);
      if gap == 0 || digits == 0 || n == |s| || LowerChar(s[n]) != 's' then None
      else Some(s[k..m])
  }

  /** The leftmost match at or after `i`. */
  function FirstMatch(s: string, i: nat): (r: Option<string>)
    requires i <= |s|
    ensures r.Some? ==> |r.value| > 0 && forall k :: 0 <= k < |r.value| ==> IsDigit(r.value[k])
    decreases |s| - i
  {
    if MatchAt(s, i).Some? then MatchAt(s, i)
    else if i == |s| then None
    else FirstMatch(s, i + 1)
  }

  /** `serverMsg?.match(/wait\s+(\d+)\s*s/i)` followed by `parseInt(m[1], 10)`. */
  function ParseWait(serverMsg: Option<string>): Option<nat> {
    if serverMsg.None? then None
    else
      match FirstMatch(serverMsg.value, 0)
      case None => None
      case Some(digits) => Some(DigitsValue(digits))
  }

  lemma {:induction false} DigitRunOf(s: string, i: nat, len: nat)
    requires i + len <= |s|
    requires forall k :: i <= k < i + len ==> IsDigit(s[k])
    requires i + len == |s| || !IsDigit(s[i + len])
    ensures DigitRun(s, i) == len
    decreases len
  {
    if len > 0 {
      DigitRunOf(s, i + 1, len - 1);
    }
  }

  lemma NoMatchInGreeting(s: string, i: nat)
    requires 12 <= |s| && s[..12] == "Please wait " && i < 7
    ensures MatchAt(s, i).None?
  {
    var w := s[i..i + 4];
    assert w[0] == s[..12][i];
    assert w[0] in "Please ";
    assert Lower(w)[0] == LowerChar(w[0]) != 'w';
  }

  lemma MatchAfterGreeting(s: string, digits: string, tail: string)
    requires |digits| > 0 && forall k :: 0 <= k < |digits| ==> IsDigit(digits[k])
    requires |tail| > 0 && tail[0] == 's'
    requires s == "Please wait " + digits + tail
    ensures MatchAt(s, 7) == Some(digits)
  {
    assert s[7..11] == "wait";
    assert s[11] == ' ' && s[12] == digits[0];
    assert WsRun(s, 11) == 1;
    var m := 12 + |digits|;
    assert s[12..m] == digits;
    assert s[m] == 's';
    DigitRunOf(s, 12, |digits|);
  }

  /** The client reads back exactly the wait the server put in its message. */
  lemma WaitMessageRoundTrip(wait: nat)
    ensures ParseWait(Some(WaitMessage(wait))) == Some(wait)
  {
    var digits := NatToString(wait);
    NatToStringDigits(wait);
    var s := WaitMessage(wait);
    assert s == "Please wait " + digits + "s before requesting another OTP.";
    assert s[..12] == "Please wait ";
    MatchAfterGreeting(s, digits, "s before requesting another OTP.");
    var i := 7;
    while i > 0
      invariant 0 <= i <= 7
      invariant FirstMatch(s, i) == Some(digits)
    {
      NoMatchInGreeting(s, i - 1);
      i := i - 1;
    }
  }
}
