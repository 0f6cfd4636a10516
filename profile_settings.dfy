/** The profile form of `frontend/src/pages/user/ProfileSettings.jsx`: the strict email
    pattern, when the form may be submitted, and what a successful reply does to the signed-in
    user. */
module ProfileSettings {
  import opened Common
  import opened Strings
  import RegisterForm

  /** `[^\s@]`: neither white space nor `@`. */
  predicate Plain(c: char) {
    !IsWhite(c) && c != '@'
  }

  /** `[^\s@]+` matched in full. */
  predicate PlainRun(t: string) {
    t != [] && forall i :: 0 <= i < |t| ==> Plain(t[i])
  }

  /** `isValidEmail`: the whole of `s` matches `^[^\s@]+@[^\s@]+\.[^\s@]+$`. */
  predicate IsValidEmail(s: string) {
    exists a, d :: 0 < a < d < |s| && StrictSplit(s, a, d)
  }

  /** The places of the `@` and of the `.` the pattern's last part follows. */
  predicate StrictSplit(s: string, a: int, d: int) {
    0 < a < d < |s| - 1 && s[a] == '@' && s[d] == '.'
    && PlainRun(s[..a]) && PlainRun(s[a + 1..d]) && PlainRun(s[d + 1..])
  }

  /** A valid address has no white space and exactly one `@`. */
  lemma ValidEmailOneAt(s: string)
    requires IsValidEmail(s)
    ensures NoWhite(s)
    ensures exists a :: 0 < a < |s| && s[a] == '@' && forall k :: 0 <= k < |s| && s[k] == '@' ==> k == a
  {
    var a, d :| 0 < a < d < |s| && StrictSplit(s, a, d);
    assert PlainRun(s[..a]) && PlainRun(s[a + 1..d]) && PlainRun(s[d + 1..]);
    forall k | 0 <= k < |s|
      ensures !IsWhite(s[k]) && (s[k] == '@' ==> k == a)
    {
      if k < a {
        assert s[..a][k] == s[k];
      } else if a < k < d {
        assert s[a + 1..d][k - a - 1] == s[k];
      } else if k == d {
      } else if k > d {
        assert s[d + 1..][k - d - 1] == s[k];
      }
    }
  }

  /** Every address this form accepts also passes the registration form's looser check. */
  lemma ValidEmailIsLoose(s: string)
    requires IsValidEmail(s)
    ensures RegisterForm.LooseEmail(s)
  {
    var a, d :| 0 < a < d < |s| && StrictSplit(s, a, d);
    assert PlainRun(s[..a]) && PlainRun(s[a + 1..d]) && PlainRun(s[d + 1..]);
    assert s[d + 1..][0] == s[d + 1];
    assert s[..a][a - 1] == s[a - 1];
    forall k | a + 1 <= k < d
      ensures !IsWhite(s[k])
    {
      assert s[a + 1..d][k - a - 1] == s[k];
    }
    assert RegisterForm.LooseWindow(s, a, d);
    RegisterForm.LooseEmailIff(s);
  }

  /** The signed-in user as the auth context holds it. */
  datatype SessionUser = SessionUser(name: Option<string>, email: Option<string>)

  /** The form's starting `name` and `email`: `user?.name || ""` and `user?.email || ""`. */
  function InitialFields(user: Option<SessionUser>): (f: (string, string))
    ensures user.Some? && Present(user.value.name) ==> f.0 == user.value.name.value
    ensures !(user.Some? && Present(user.value.name)) ==> f.0 == ""
    ensures user.Some? && Present(user.value.email) ==> f.1 == user.value.email.value
    ensures !(user.Some? && Present(user.value.email)) ==> f.1 == ""
  {
    (if user.Some? && Present(user.value.name) then user.value.name.value else "",
     if user.Some? && Present(user.value.email) then user.value.email.value else "")
  }

  /** `isFormValid`: a name at least three code units long once trimmed, a valid address, and a
      change to the name or the address (`user?.name` is `undefined` without a user). */
  function IsFormValid(name: string, email: string, user: Option<SessionUser>): (ok: bool)
    ensures ok ==> Utf16Length(Trim(name)) >= 3 && IsValidEmail(email)
    ensures ok ==> user.None? || Some(name) != user.value.name || Some(email) != user.value.email
    ensures Utf16Length(Trim(name)) >= 3 && IsValidEmail(email) && user.None? ==> ok
    ensures user.Some? && user.value.name == Some(name) && user.value.email == Some(email) ==> !ok
  {
    var current := if user.Some? then user.value else SessionUser(None, None);
    Utf16Length(Trim(name)) >= 3 && IsValidEmail(email) && (Some(name) != current.name || Some(email) != current.email)
  }

  /** `handleSubmit`: the body sent, or nothing when the form is invalid. */
  function SubmitRequest(name: string, email: string, user: Option<SessionUser>): (r: Option<(string, string)>)
    ensures r.Some? <==> IsFormValid(name, email, user)
    ensures r.Some? ==> r.value == (name, email)
  {
    if IsFormValid(name, email, user) then Some((name, email)) else None
  }

  /** `{ ...user, ...updatedUser }` over the name and the email: a field the server returned
      replaces the stored one, a field it left out keeps the stored one. */
  function Spread(user: Option<SessionUser>, updated: SessionUser): (r: SessionUser)
    ensures updated.name.Some? ==> r.name == updated.name
    ensures updated.email.Some? ==> r.email == updated.email
    ensures updated.name.None? ==> r.name == (if user.Some? then user.value.name else None)
    ensures updated.email.None? ==> r.email == (if user.Some? then user.value.email else None)
  {
    var stored := if user.Some? then user.value else SessionUser(None, None);
    SessionUser(if updated.name.Some? then updated.name else stored.name,
                if updated.email.Some? then updated.email else stored.email)
  }

  /** The signed-in user after the reply: on success `updateUser` merges the returned user into
      the stored one, on failure the stored user stays. */
  function AfterReply(user: Option<SessionUser>, returned: Option<SessionUser>): (r: Option<SessionUser>)
    ensures returned.Some? ==> r == Some(Spread(user, returned.value))
    ensures returned.Some? && returned.value.name.Some? && returned.value.email.Some? ==> r == returned
    ensures returned.None? ==> r == user
  {
    if returned.Some? then Some(Spread(user, returned.value)) else user
  }

  /** The form as it first appears can never be submitted: either it shows the user's own
      name and address unchanged, or a field starts empty and fails its check. */
  lemma UntouchedFormRefused(user: Option<SessionUser>)
    ensures !IsFormValid(InitialFields(user).0, InitialFields(user).1, user)
  {
    var (name, email) := InitialFields(user);
    if name == "" {
      assert |Trim(name)| == 0;
    }
  }

  /** Once the server echoes back what was submitted, submitting the same form again is
      refused: nothing has changed. */
  lemma ResubmitRefused(name: string, email: string, user: Option<SessionUser>)
    requires SubmitRequest(name, email, user).Some?
    ensures SubmitRequest(name, email, AfterReply(user, Some(SessionUser(Some(name), Some(email))))).None?
  {
  }
}
