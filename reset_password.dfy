/**
 * The password-reset modal: the ordered password-strength checker, and the
 * one-time-password flow driven by the flags `otpSent`, `otpSending`,
 * `verified`, `resendLoader` and a once-a-second countdown from 60. The
 * remote calls (send, verify, change) are represented by how they settle.
 */
module ResetPassword {
  import opened JsText

  // ---------------------------------------------------------------------------
  // Password strength

  predicate HasUpper(v: string) { exists k :: 0 <= k < |v| && 'A' <= v[k] <= 'Z' }
  predicate HasLower(v: string) { exists k :: 0 <= k < |v| && 'a' <= v[k] <= 'z' }
  predicate HasDigit(v: string) { exists k :: 0 <= k < |v| && '0' <= v[k] <= '9' }
  predicate IsSpecial(c: char) { c in "!@#$%^&*" }
  predicate HasSpecial(v: string) { exists k :: 0 <= k < |v| && IsSpecial(v[k]) }

  /** `validatePassword`: the checks run in order and the first that fails
      names the problem, so the result is the message of the first rule of
      `RuleOrder` that `v` breaks. */
  function ValidatePassword(v: string): (r: Option<string>)
    ensures r == FirstBroken(v, RuleOrder)
  {
    var rs := RuleOrder;
    assert FirstBroken(v, rs[6..]) == None;
    assert FirstBroken(v, rs[5..]) == if !HasSpecial(v) then Some(RuleMessage(Special)) else None;
    assert FirstBroken(v, rs[4..]) == if !HasDigit(v) then Some(RuleMessage(Digit)) else FirstBroken(v, rs[5..]);
    assert FirstBroken(v, rs[3..]) == if !HasLower(v) then Some(RuleMessage(Lower)) else FirstBroken(v, rs[4..]);
    assert FirstBroken(v, rs[2..]) == if !HasUpper(v) then Some(RuleMessage(Upper)) else FirstBroken(v, rs[3..]);
    assert FirstBroken(v, rs[1..]) == if JsLength(v) < 6 then Some(RuleMessage(MinLength)) else FirstBroken(v, rs[2..]);
    if v == "" then Some("Password is required")
    else if JsLength(v) < 6 then Some("Password must be at least 6 characters")
    else if !HasUpper(v) then Some("Include at least one uppercase letter")
    else if !HasLower(v) then Some("Include at least one lowercase letter")
    else if !HasDigit(v) then Some("Include at least one number")
    else if !HasSpecial(v) then Some("Include a special character (!@#$%^&*)")
    else None
  }

  /** The rules, independently of the order of the checks above. */
  datatype Rule = Required | MinLength | Upper | Lower | Digit | Special

  predicate Satisfies(v: string, rule: Rule) {
    match rule
    case Required => v != ""
    case MinLength => JsLength(v) >= 6
    case Upper => HasUpper(v)
    case Lower => HasLower(v)
    case Digit => HasDigit(v)
    case Special => HasSpecial(v)
  }

  function RuleMessage(rule: Rule): string {
    match rule
    case Required => "Password is required"
    case MinLength => "Password must be at least 6 characters"
    case Upper => "Include at least one uppercase letter"
    case Lower => "Include at least one lowercase letter"
    case Digit => "Include at least one number"
    case Special => "Include a special character (!@#$%^&*)"
  }

  const RuleOrder: seq<Rule> := [Required, MinLength, Upper, Lower, Digit, Special]

  /** The message of the first rule in `rules` that `v` breaks, if any. */
  function FirstBroken(v: string, rules: seq<Rule>): Option<string>
  {
    if rules == [] then None
    else if !Satisfies(v, rules[0]) then Some(RuleMessage(rules[0]))
    else FirstBroken(v, rules[1..])
  }

  /** `rules` holds of `v` throughout exactly when none of them is broken. */
  lemma {:induction false} NothingBrokenIffAllHold(v: string, rules: seq<Rule>)
    ensures FirstBroken(v, rules).None? <==> forall k :: 0 <= k < |rules| ==> Satisfies(v, rules[k])
  {
    if rules != [] {
      NothingBrokenIffAllHold(v, rules[1..]);
      assert forall k :: 1 <= k < |rules| ==> rules[k] == rules[1..][k - 1];
    }
  }

  /** A password is accepted exactly when it keeps every rule. */
  lemma AcceptedIffAllRulesHold(v: string)
    ensures ValidatePassword(v).None? <==> forall k :: 0 <= k < |RuleOrder| ==> Satisfies(v, RuleOrder[k])
    ensures ValidatePassword(v).None? <==>
      v != "" && JsLength(v) >= 6 && HasUpper(v) && HasLower(v) && HasDigit(v) && HasSpecial(v)
  {
    NothingBrokenIffAllHold(v, RuleOrder);
  }

  /** An empty value is "required"; a short one (in UTF-16 code units) gets
      the length message, whatever else it lacks. */
  lemma EarlierRulesWin(v: string)
    ensures v == "" ==> ValidatePassword(v) == Some("Password is required")
    ensures v != "" && JsLength(v) < 6 ==> ValidatePassword(v) == Some("Password must be at least 6 characters")
  {
  }

  // ---------------------------------------------------------------------------
  // Resend countdown

  /** The part of the modal's state the interval touches. */
  datatype Countdown = Countdown(resendLoader: bool, seconds: int, ticking: bool)

  /** One interval tick: count down, or at zero re-enable resending, reset to
      60 and stop. */
  function Tick(c: Countdown): (d: Countdown)
    ensures !d.resendLoader <==> c.seconds == 0 || !c.resendLoader
    ensures !d.ticking <==> c.seconds == 0 || !c.ticking
    ensures 0 <= c.seconds <= 60 ==> 0 <= d.seconds <= 60
  {
    if c.seconds == 0 then Countdown(false, 60, false)
    else c.(seconds := c.seconds - 1)
  }

  function Ticks(c: Countdown, n: nat): Countdown
    decreases n
  {
    if n == 0 then c else Ticks(Tick(c), n - 1)
  }

  /** Right after a successful send, resending stays blocked for 60 ticks and
      is allowed again on the 61st, when the interval stops. */
  lemma {:induction false} ResendBlockedForSixtyTicks(n: nat)
    requires n <= 61
    ensures Ticks(Countdown(true, 60, true), n) ==
      if n <= 60 then Countdown(true, 60 - n, true) else Countdown(false, 60, false)
  {
    if n > 0 {
      TicksFrom(60, n);
    }
  }

  lemma {:induction false} TicksFrom(s: int, n: nat)
    requires 0 <= s && n <= s + 1
    ensures Ticks(Countdown(true, s, true), n) ==
      if n <= s then Countdown(true, s - n, true) else Countdown(false, 60, false)
  {
    if n > 0 {
      if s == 0 {
        assert Ticks(Countdown(false, 60, false), 0) == Countdown(false, 60, false);
      } else {
        TicksFrom(s - 1, n - 1);
      }
    }
  }

  // ---------------------------------------------------------------------------
  // The modal

  class ResetPasswordModal {
    var email: string
    var password: string
    var passErr: Option<string>
    var otpSent: bool
    var otpSending: bool
    var verified: bool
    var resendLoader: bool
    var seconds: int
    var ticking: bool  // whether the interval is running

    /** The countdown stays in 0..60, sits at 60 while stopped, runs exactly
        while resending is blocked, and blocks resending only once an OTP has
        gone out. */
    ghost predicate Valid()
      reads this
    {
      0 <= seconds <= 60 && (!ticking ==> seconds == 60) &&
      ticking == resendLoader && (resendLoader ==> otpSent)
    }

    ghost predicate IsInitial()
      reads this
    {
      email == "" && password == "" && passErr == None && !otpSent && !otpSending &&
      !verified && !resendLoader && seconds == 60 && !ticking
    }

    constructor ()
      ensures IsInitial() && Valid()
    {
      email, password, passErr := "", "", None;
      otpSent, otpSending, verified, resendLoader := false, false, false, false;
      seconds, ticking := 60, false;
    }

    function Clock(): Countdown
      reads this
    {
      Countdown(resendLoader, seconds, ticking)
    }

    /** The interval callback; it only fires while the interval runs. */
    method OnTick()
      requires Valid() && ticking
      modifies this
      ensures Valid()
      ensures Clock() == Tick(old(Clock()))
      ensures email == old(email) && password == old(password) && passErr == old(passErr)
      ensures otpSent == old(otpSent) && otpSending == old(otpSending) && verified == old(verified)
    {
      if seconds == 0 {
        resendLoader := false;
        seconds := 60;
        ticking := false;
      } else {
        seconds := seconds - 1;
      }
    }

    /** `resetState`: every field back to its initial value, interval stopped. */
    method ResetState()
      modifies this
      ensures IsInitial() && Valid()
    {
      email, password, passErr := "", "", None;
      otpSent, otpSending, verified, resendLoader := false, false, false, false;
      seconds, ticking := 60, false;
    }

    method SetEmail(value: string)
      requires Valid()
      modifies this
      ensures Valid() && email == value
      ensures password == old(password) && passErr == old(passErr) && otpSent == old(otpSent)
      ensures otpSending == old(otpSending) && verified == old(verified) && Clock() == old(Clock())
    {
      email := value;
    }

    /** Whether the "Send OTP" button can be pressed: it is `disabled` without
        an e-mail or once the OTP has gone out, and `loading` (so not
        clickable either) while a send is in flight and no OTP has gone out. */
    function CanSendOtp(): (b: bool)
      reads this
      ensures b <==> email != "" && !otpSent && !(otpSending && !otpSent)
      ensures b ==> !otpSending
    {
      email != "" && !otpSent && !otpSending
    }

    /** `handleSendOtp`, up to the request going out. */
    method HandleSendOtp()
      requires Valid()
      modifies this
      ensures Valid() && otpSending
      ensures email == old(email) && password == old(password) && passErr == old(passErr)
      ensures otpSent == old(otpSent) && verified == old(verified) && Clock() == old(Clock())
    {
      otpSending := true;
    }

    /** The send request settling: on success the OTP counts as sent and the
        resend countdown starts; on failure only the spinner stops. */
    method SendOtpSettled(ok: bool)
      requires Valid()
      modifies this
      ensures Valid() && !otpSending
      ensures ok ==> otpSent && resendLoader && ticking && seconds == old(seconds)
      ensures !ok ==> otpSent == old(otpSent) && Clock() == old(Clock())
      ensures email == old(email) && password == old(password) && passErr == old(passErr)
      ensures verified == old(verified)
    {
      if ok {
        otpSent := true;
        otpSending := false;
        resendLoader := true;
        ticking := true;
      } else {
        otpSending := false;
      }
    }

    /** `resendOtp`: sends again only when the countdown is not blocking it. */
    method ResendOtp() returns (sent: bool)
      requires Valid()
      modifies this
      ensures Valid()
      ensures sent <==> !old(resendLoader)
      ensures otpSending == (sent || old(otpSending))
      ensures email == old(email) && password == old(password) && passErr == old(passErr)
      ensures otpSent == old(otpSent) && verified == old(verified) && Clock() == old(Clock())
    {
      sent := !resendLoader;
      if sent {
        HandleSendOtp();
      }
    }

    /** The verification request settling: success marks the OTP verified. */
    method VerifyOtpSettled(ok: bool)
      requires Valid()
      modifies this
      ensures Valid()
      ensures verified == (old(verified) || ok)
      ensures email == old(email) && password == old(password) && passErr == old(passErr)
      ensures otpSent == old(otpSent) && otpSending == old(otpSending) && Clock() == old(Clock())
    {
      if ok {
        verified := true;
      }
    }

    /** The new-password field's change handler: the error follows the value. */
    method OnPasswordChange(value: string)
      requires Valid()
      modifies this
      ensures Valid() && password == value && passErr == ValidatePassword(value)
      ensures email == old(email) && otpSent == old(otpSent) && otpSending == old(otpSending)
      ensures verified == old(verified) && Clock() == old(Clock())
    {
      password := value;
      passErr := ValidatePassword(value);
    }

    /** `handleResetPassword`: a weak password sets the error and stops there;
        a valid one issues the change request. */
    method HandleResetPassword() returns (requested: bool)
      requires Valid()
      modifies this
      ensures Valid()
      ensures requested <==> ValidatePassword(password).None?
      ensures !requested ==> passErr == ValidatePassword(password)
      ensures requested ==> passErr == old(passErr)
      ensures email == old(email) && password == old(password) && otpSent == old(otpSent)
      ensures otpSending == old(otpSending) && verified == old(verified) && Clock() == old(Clock())
    {
      var error := ValidatePassword(password);
      if error.Some? {
        passErr := error;
        return false;
      }
      requested := true;
    }

    /** The change request settling: success closes the modal and resets it;
        failure only notifies. */
    method ChangePassSettled(ok: bool) returns (close: bool)
      requires Valid()
      modifies this
      ensures Valid() && close == ok
      ensures ok ==> IsInitial()
      ensures !ok ==>
        email == old(email) && password == old(password) && passErr == old(passErr) &&
        otpSent == old(otpSent) && otpSending == old(otpSending) && verified == old(verified) &&
        Clock() == old(Clock())
    {
      close := ok;
      if ok {
        ResetState();
      }
    }

    /** `changeEmail`: back to the e-mail step, keeping the address typed. */
    method ChangeEmail()
      requires Valid()
      modifies this
      ensures Valid()
      ensures !otpSent && !verified && !resendLoader && seconds == 60 && !ticking
      ensures email == old(email) && password == old(password) && passErr == old(passErr)
      ensures otpSending == old(otpSending)
    {
      otpSent := false;
      verified := false;
      resendLoader := false;
      seconds := 60;
      ticking := false;
    }
  }
}
