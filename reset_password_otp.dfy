/** The reset page of `frontend/src/pages/auth/ResetPasswordOTP.jsx`: six one-digit boxes for
    the code, the password-strength meter, the checks made before the request is sent, and the
    resend countdown. */
module ResetPasswordOtp {
  import opened Common
  import opened Strings
  import opened PasswordStrength
  import LoginForm

  const OTP_SLOTS := 6
  const COUNTDOWN_START := 45

  /** `/^\d?$/.test(v)`: empty, or a single decimal digit. */
  predicate DigitOrEmpty(v: string) {
    v == "" || (|v| == 1 && IsDigit(v[0]))
  }

  /** The `otp` state: one box per digit of the code. */
  class OtpBuffer {
    var slots: array<string>

    ghost predicate Valid()
      reads this, slots
    {
      slots.Length == OTP_SLOTS && forall i :: 0 <= i < slots.Length ==> DigitOrEmpty(slots[i])
    }

    constructor ()
      ensures Valid() && fresh(slots)
      ensures slots[..] == ["", "", "", "", "", ""]
    {
      slots := new string[6](_ => "");
    }

    /** `handleOtpChange(value, index)`: a value that is neither empty nor one digit is
        ignored; otherwise only box `index` changes. The answer is the box that takes the focus
        next, if any. */
    method HandleOtpChange(value: string, index: int) returns (focus: Option<int>)
      requires Valid() && 0 <= index < OTP_SLOTS
      modifies slots
      ensures Valid()
      ensures DigitOrEmpty(value) ==> slots[..] == old(slots[..])[index := value]
      ensures !DigitOrEmpty(value) ==> slots[..] == old(slots[..])
      ensures focus.Some? <==> DigitOrEmpty(value) && value != "" && index < OTP_SLOTS - 1
      ensures focus.Some? ==> focus.value == index + 1
    {
      if !DigitOrEmpty(value) {
        return None;
      }
      slots[index] := value;
      focus := if value != "" && index < 5 then Some(index + 1) else None;
    }

    /** `handleBackspace(e, index)`: Backspace in an empty box hands the focus back to the box
        before it, the one whose digit moved the focus here; any other key, a filled box or the
        first box moves nothing. */
    function HandleBackspace(key: string, index: int): (focus: Option<int>)
      reads this, slots
      requires Valid() && 0 <= index < OTP_SLOTS
      ensures focus.Some? <==> key == "Backspace" && slots[index] == "" && index > 0
      ensures focus.Some? ==> 0 <= focus.value < OTP_SLOTS && focus.value + 1 == index
    {
      if key == "Backspace" && slots[index] == "" && index > 0 then Some(index - 1) else None
    }
  }

  /** The page's `{ label, color, width }`. */
  datatype Meter = Meter(level: string, color: string, width: string)

  /** The `if` chain of this page's `checkStrength`. */
  function ResetBand(score: int): Meter
  {
    if score <= 1 then Meter("Weak", "bg-red-500", "25%")
    else if score == 2 then Meter("Medium", "bg-yellow-500", "50%")
    else if score == 3 then Meter("Strong", "bg-green-500", "75%")
    else Meter("Very Strong", "bg-blue-600", "100%")
  }

  /** `checkStrength`: the same five criteria as the login form, counted one at a time. */
  method CheckStrength(pass: string) returns (m: Meter)
    ensures m == ResetBand(Score(pass))
    ensures m.level == "Very Strong" <==> Score(pass) >= 4
  {
    var score := 0;
    if Utf16Length(pass) > 5 { score := score + 1; }
    if Utf16Length(pass) > 8 { score := score + 1; }
    if HasUpper(pass) { score := score + 1; }
    if HasDigit(pass) { score := score + 1; }
    if HasSymbol(pass) { score := score + 1; }
    m := ResetBand(score);
  }

  /** For every password this meter and the login form's agree on the label and the colour, and
      the width is the one the login form draws for that label. */
  lemma MetersAgree(p: string)
    ensures ResetBand(Score(p)).level == LoginForm.LoginBand(Score(p)).level
    ensures ResetBand(Score(p)).color == LoginForm.LoginBand(Score(p)).color
    ensures ResetBand(Score(p)).width == LoginForm.MeterWidth(ResetBand(Score(p)).level)
  {
  }

  /** What `submit` does: report a problem, or post the email, the joined code and the new
      password. */
  datatype Submission = Notify(msg: string) | Send(email: string, otp: string, newPassword: string)

  /** `submit` with the page's email `state?.email || ""`; `code.length` counts UTF-16 code
      units. */
  function Submit(stateEmail: Option<string>, otp: seq<string>, newPass: string, confirmPass: string): (r: Submission)
    ensures Utf16Length(Concat(otp)) < 6 ==> r == Notify("Enter 6-digit OTP")
    ensures Utf16Length(Concat(otp)) >= 6 && newPass != confirmPass ==> r == Notify("Passwords do not match")
    ensures r.Send? <==> Utf16Length(Concat(otp)) >= 6 && newPass == confirmPass
    ensures r.Send? ==>
      r.otp == Concat(otp) && r.newPassword == newPass
      && r.email == (if Present(stateEmail) then stateEmail.value else "")
  {
    JoinEmptySepIsConcat(otp);
    var code := Join(otp, "");
    if Utf16Length(code) < 6 then Notify("Enter 6-digit OTP")
    else if newPass != confirmPass then Notify("Passwords do not match")
    else Send(if Present(stateEmail) then stateEmail.value else "", code, newPass)
  }

  /** A valid buffer lets the request through exactly when every box holds a digit, and the code
      it sends is then six digits. */
  lemma SubmitNeedsEveryBox(slots: seq<string>, email: Option<string>, newPass: string)
    requires |slots| == OTP_SLOTS && forall i :: 0 <= i < |slots| ==> DigitOrEmpty(slots[i])
    ensures Submit(email, slots, newPass, newPass).Send? <==> forall i :: 0 <= i < |slots| ==> slots[i] != ""
    ensures Submit(email, slots, newPass, newPass).Send? ==>
      |Submit(email, slots, newPass, newPass).otp| == 6 && AllDigits(Submit(email, slots, newPass, newPass).otp)
  {
    BoxesConcat(slots);
    Utf16LengthBmp(Concat(slots));
  }

  /** Joining boxes of at most one digit each gives at most one character per box, exactly one
      per box when none is empty, and only digits. */
  lemma {:induction false} BoxesConcat(parts: seq<string>)
    requires forall i :: 0 <= i < |parts| ==> DigitOrEmpty(parts[i])
    ensures |Concat(parts)| <= |parts|
    ensures |Concat(parts)| == |parts| <==> forall i :: 0 <= i < |parts| ==> parts[i] != ""
    ensures AllDigits(Concat(parts))
  {
    if parts != [] {
      BoxesConcat(parts[1..]);
      assert Concat(parts) == parts[0] + Concat(parts[1..]);
      if parts[0] == "" {
        assert |Concat(parts)| < |parts|;
      } else {
        assert forall i :: 1 <= i < |parts| ==> parts[i] == parts[1..][i - 1];
      }
    }
  }

  /** One second of the countdown: it stops at zero. */
  function Tick(countdown: nat): (r: nat)
    ensures countdown == 0 ==> r == 0
    ensures countdown > 0 ==> r == countdown - 1
  {
    if countdown == 0 then 0 else countdown - 1
  }

  /** The countdown after `n` seconds. */
  function Ticks(countdown: nat, n: nat): nat
    decreases n
  {
    if n == 0 then countdown else Ticks(Tick(countdown), n - 1)
  }

  /** After `n` seconds the countdown has gone down by `n`, but not below zero. */
  lemma {:induction false} TicksCountDown(countdown: nat, n: nat)
    ensures Ticks(countdown, n) == if n >= countdown then 0 else countdown - n
    decreases n
  {
    if n > 0 {
      TicksCountDown(Tick(countdown), n - 1);
    }
  }

  /** `resendOTP`: a successful resend restarts the countdown at 45; a failed one leaves it. */
  function Resend(countdown: nat, sent: bool): (r: nat)
    ensures sent ==> r == COUNTDOWN_START
    ensures !sent ==> r == countdown
  {
    if sent then COUNTDOWN_START else countdown
  }

  /** From a (re)sent code the countdown reaches zero after exactly 45 seconds. */
  lemma CountdownEnds(countdown: nat)
    ensures Ticks(Resend(countdown, true), COUNTDOWN_START) == 0
    ensures Ticks(Resend(countdown, true), COUNTDOWN_START - 1) == 1
  {
    TicksCountDown(COUNTDOWN_START, COUNTDOWN_START);
    TicksCountDown(COUNTDOWN_START, COUNTDOWN_START - 1);
  }
}
