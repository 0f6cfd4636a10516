/** The user document of `backend/models/user.model.js`: the role enum, the `trim` and
    `lowercase` setters on name and email, and the password-reset challenge paths. */
module UserModel {
  import opened Common
  import opened Strings

  datatype Role = Employee | Admin

  function RoleName(r: Role): string
  {
    match r
    case Employee => "employee"
    case Admin => "admin"
  }

  const ROLES: seq<string> := ["employee", "admin"]

  /** The role enum check, `["employee", "admin"].includes(role)`. */
  function ParseRole(s: string): (r: Option<Role>)
    ensures r.Some? <==> s in ROLES
    ensures r.Some? ==> RoleName(r.value) == s
  {
    if s == "employee" then Some(Employee) else if s == "admin" then Some(Admin) else None
  }

  /** A stored user. `password` is the bcrypt hash. `resetOtp` is the SHA-256 hex digest of a
      pending one-time code and `resetOtpExpires` its expiry in milliseconds; both are null
      (`None`) when no reset is pending. */
  datatype User = User(
    name: string,
    email: string,
    password: string,
    role: Role,
    resetOtp: Option<string>,
    resetOtpExpires: Option<int>,
    createdAt: int)

  /** The email path's setters as the schema declares them: `lowercase`, then `trim`. Mongoose
      runs them on assignment and on query filter values. */
  function EmailSetter(e: string): string
  {
    Trim(Lower(e))
  }

  /** The normalisation the auth handlers apply, `String(email).trim().toLowerCase()`. */
  function NormalizeEmail(e: string): string
  {
    Lower(Trim(e))
  }

  /** The handlers' normalisation and the schema's setters agree, and normalising twice is
      normalising once: a normalised address is stored and looked up unchanged. */
  lemma NormalizeEmailIsSetter(e: string)
    ensures NormalizeEmail(e) == EmailSetter(e)
    ensures EmailSetter(NormalizeEmail(e)) == NormalizeEmail(e)
  {
    LowerTrimCommute(e);
    var n := Lower(Trim(e));
    LowerIdempotent(Trim(e));
    assert Lower(n) == n;
    TrimIdempotent(Lower(e));
  }

  /** No ASCII capital letter: what the `lowercase` setter leaves. */
  predicate NoUpper(s: string)
  {
    forall i :: 0 <= i < |s| ==> !IsUpperAscii(s[i])
  }

  /** `lowercase` leaves no capital letter. */
  lemma LowerNoUpper(s: string)
    ensures NoUpper(Lower(s))
  {
  }

  /** Trimming only drops characters, so it adds no capital letter. */
  lemma TrimNoUpper(s: string)
    requires NoUpper(s)
    ensures NoUpper(Trim(s))
  {
    TrimIsCore(s);
    var t := Trim(s);
    var i, j :| 0 <= i <= j <= |s| && t == s[i..j];
    NoUpperSlice(s, i, j);
  }

  lemma NoUpperSlice(s: string, i: int, j: int)
    requires NoUpper(s) && 0 <= i <= j <= |s|
    ensures NoUpper(s[i..j])
  {
    assert forall k :: 0 <= k < j - i ==> s[i..j][k] == s[i + k];
  }

  /** A value stored through the email setters is trimmed and has no capital letter. */
  lemma EmailSetterStored(e: string)
    ensures Trimmed(EmailSetter(e)) && NoUpper(EmailSetter(e))
  {
    TrimTrimmed(Lower(e));
    LowerNoUpper(e);
    TrimNoUpper(Lower(e));
  }

  /** Every stored user: `name` and `email` passed their setters and the required check, and the
      two challenge paths are set and cleared together. */
  predicate UserValid(u: User)
  {
    u.name != "" && Trimmed(u.name)
    && u.email != "" && Trimmed(u.email) && NoUpper(u.email)
    && (u.resetOtp.Some? <==> u.resetOtpExpires.Some?)
  }

  /** `User.create({...})`: the given paths through their setters, the challenge at its default. */
  function NewUser(name: string, email: string, password: string, role: Role, now: int): User
  {
    User(Trim(name), EmailSetter(email), password, role, None, None, now)
  }

  /** A new user has no pending reset, and is stored exactly when name and email are non-empty
      after their setters; a stored one keeps the collection invariant. */
  lemma NewUserValid(name: string, email: string, password: string, role: Role, now: int)
    ensures var u := NewUser(name, email, password, role, now);
      u.resetOtp.None? && u.resetOtpExpires.None? && u.role == role && u.password == password
      && (u.name != "" && u.email != "" ==> UserValid(u))
  {
    TrimTrimmed(name);
    EmailSetterStored(email);
  }

  /** No two users share an email: the schema's unique index. */
  predicate UniqueEmails(users: map<string, User>)
  {
    forall a, b :: a in users && b in users && a != b ==> users[a].email != users[b].email
  }
}
