/** The email check and the password-strength label of
    `frontend/src/components/Auth/RegisterForm.jsx`. */
module RegisterForm {
  import opened Strings
  import opened PasswordStrength

  /** A non-empty run of characters that are not white space: `\S+` matched in full. */
  predicate NonWhiteRun(t: string) {
    t != [] && NoWhite(t)
  }

  /** `t` as a whole matches `\S+@\S+\.\S+`. */
  predicate LooseShape(t: string) {
    exists a, d :: 0 < a < d < |t| - 1 && t[a] == '@' && t[d] == '.'
                   && NonWhiteRun(t[..a]) && NonWhiteRun(t[a + 1..d]) && NonWhiteRun(t[d + 1..])
  }

  /** `/\S+@\S+\.\S+/.test(s)`: some stretch of `s` has that shape (the pattern is not anchored). */
  predicate LooseEmail(s: string) {
    exists i, j :: 0 <= i <= j <= |s| && LooseShape(s[i..j])
  }

  /** An `@` at `a` and a later `.` at `d` around which the pattern can match: a non-space
      before the `@`, non-spaces up to the `.`, and a non-space after it. */
  predicate LooseWindow(s: string, a: int, d: int) {
    1 <= a && a + 1 < d && d + 1 < |s| && s[a] == '@' && s[d] == '.'
    && !IsWhite(s[a - 1]) && NoWhite(s[a + 1..d]) && !IsWhite(s[d + 1])
  }

  /** The unanchored match depends only on such a window. */
  lemma LooseEmailIff(s: string)
    ensures LooseEmail(s) <==> exists a, d :: LooseWindow(s, a, d)
  {
    if LooseEmail(s) {
      LooseEmailWindow(s);
    }
    if exists a, d :: LooseWindow(s, a, d) {
      var a, d :| LooseWindow(s, a, d);
      WindowLooseEmail(s, a, d);
    }
  }

  lemma LooseEmailWindow(s: string)
    requires LooseEmail(s)
    ensures exists a, d :: LooseWindow(s, a, d)
  {
    var i, j :| 0 <= i <= j <= |s| && LooseShape(s[i..j]);
    var t := s[i..j];
    var a', d' :| 0 < a' < d' < |t| - 1 && t[a'] == '@' && t[d'] == '.'
                  && NonWhiteRun(t[..a']) && NonWhiteRun(t[a' + 1..d']) && NonWhiteRun(t[d' + 1..]);
    ShapeWindow(s, i, j, a', d');
  }

  lemma ShapeWindow(s: string, i: int, j: int, a: int, d: int)
    requires 0 <= i <= j <= |s|
    requires 0 < a && a + 1 < d < j - i - 1 && s[i..j][a] == '@' && s[i..j][d] == '.'
    requires NoWhite(s[i..j][..a]) && NoWhite(s[i..j][a + 1..d]) && NoWhite(s[i..j][d + 1..])
    ensures LooseWindow(s, i + a, i + d)
  {
    var t := s[i..j];
    assert t[..a][a - 1] == s[i + a - 1];
    assert t[d + 1..][0] == s[i + d + 1];
    SliceOfSlice(s, i, j, a + 1, d);
  }

  lemma WindowLooseEmail(s: string, a: int, d: int)
    requires LooseWindow(s, a, d)
    ensures LooseEmail(s)
  {
    var t := s[a - 1..d + 2];
    assert t[1] == '@' && t[d - a + 1] == '.';
    assert t[..1] == [s[a - 1]];
    SliceOfSlice(s, a - 1, d + 2, 2, d - a + 1);
    assert t[d - a + 2..] == [s[d + 1]];
    assert LooseShape(t);
  }

  /** A slice of a slice is a slice of the original. */
  lemma SliceOfSlice(s: string, i: int, j: int, k: int, l: int)
    requires 0 <= i <= j <= |s| && 0 <= k <= l <= j - i
    ensures s[i..j][k..l] == s[i + k..i + l]
  {
    assert forall n :: 0 <= n < l - k ==> s[i..j][k..l][n] == s[i + k + n];
  }

  /** `validateEmail`: the flag the form shows, which also accepts an empty field. */
  function EmailValid(email: string): (ok: bool)
    ensures ok <==> LooseEmail(email) || email == ""
  {
    LooseEmail(email) || |email| == 0
  }

  /** `checkStrength`: "" for an empty password, "Weak" below six code units, "Medium" without
      both a capital and a digit, and "Strong" otherwise. */
  function RegisterStrength(pwd: string): (level: string)
    ensures level == "" <==> pwd == ""
    ensures level == "Weak" <==> 0 < Utf16Length(pwd) < 6
    ensures level == "Medium" <==> Utf16Length(pwd) >= 6 && !(HasUpper(pwd) && HasDigit(pwd))
    ensures level == "Strong" <==> Utf16Length(pwd) >= 6 && HasUpper(pwd) && HasDigit(pwd)
  {
    if pwd == "" then ""
    else if Utf16Length(pwd) < 6 then "Weak"
    else if !HasUpper(pwd) || !HasDigit(pwd) then "Medium"
    else "Strong"
  }

  /** Three emoji are six code units, so the form calls them "Medium". */
  lemma EmojiPasswordMedium()
    ensures RegisterStrength("\U{1F600}\U{1F600}\U{1F600}") == "Medium"
  {
    EmojiLength();
    assert !HasUpper("\U{1F600}\U{1F600}\U{1F600}");
  }

  /** A password this form calls "Strong" earns at least three of the five points of the login
      and reset meters. */
  lemma StrongScoresThree(pwd: string)
    requires RegisterStrength(pwd) == "Strong"
    ensures Score(pwd) >= 3
  {
  }
}
