/** The password-strength meter of `frontend/src/components/Auth/LoginForm.jsx`. */
module LoginForm {
  import opened Strings
  import opened PasswordStrength

  /** The `{ label, color }` the meter shows; `level` is the label. */
  datatype Strength = Strength(level: string, color: string)

  /** The `switch (score)` of `checkStrength`, with its `default` case. */
  function LoginBand(score: int): Strength
  {
    if score == 0 || score == 1 then Strength("Weak", "bg-red-500")
    else if score == 2 then Strength("Medium", "bg-yellow-500")
    else if score == 3 then Strength("Strong", "bg-green-500")
    else if score == 4 || score == 5 then Strength("Very Strong", "bg-blue-600")
    else Strength("", "")
  }

  /** `checkStrength`: adds up the five criteria one `if` at a time, then labels the score. The
      `default` case is never taken. */
  method CheckStrength(pass: string) returns (s: Strength)
    ensures s == LoginBand(Score(pass))
    ensures s.level == "Weak" <==> Score(pass) <= 1
    ensures s.level == "Medium" <==> Score(pass) == 2
    ensures s.level == "Strong" <==> Score(pass) == 3
    ensures s.level == "Very Strong" <==> Score(pass) >= 4
    ensures s.level != ""
  {
    var score := 0;
    if Utf16Length(pass) > 5 { score := score + 1; }
    if Utf16Length(pass) > 8 { score := score + 1; }
    if HasUpper(pass) { score := score + 1; }
    if HasDigit(pass) { score := score + 1; }
    if HasSymbol(pass) { score := score + 1; }
    s := LoginBand(score);
  }

  /** The meter's width for a label: a quarter per band, full for anything else. */
  function MeterWidth(level: string): (w: string)
    ensures level == "Weak" ==> w == "25%"
    ensures level == "Medium" ==> w == "50%"
    ensures level == "Strong" ==> w == "75%"
    ensures level !in {"Weak", "Medium", "Strong"} ==> w == "100%"
  {
    if level == "Weak" then "25%"
    else if level == "Medium" then "50%"
    else if level == "Strong" then "75%"
    else "100%"
  }

  /** "Very Strong" needs a length above five: the character classes alone give three
      points at most. The empty password is "Weak". */
  lemma VeryStrongIsLong(p: string)
    ensures LoginBand(Score(p)).level == "Very Strong" ==> Utf16Length(p) > 5
    ensures LoginBand(Score("")).level == "Weak"
  {
    ShortScore(p);
    ShortScore("");
  }
}
