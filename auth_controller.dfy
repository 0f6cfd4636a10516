/** The handlers of `backend/controllers/authController.js`: registration, login and the profile
    of the signed-in user, over the user collection of `UserController`. */
module AuthController {
  import opened Common
  import opened Strings
  import opened TicketModel
  import opened UserModel
  import opened UserController

  /** `role === "admin" ? "admin" : "employee"`: only the exact string "admin" asks for an
      administrator. */
  function RoleChoice(role: Option<string>): (r: Role)
    ensures r == Admin <==> role == Some("admin")
    ensures r == Employee <==> role != Some("admin")
  {
    if role == Some("admin") then Admin else Employee
  }

  /** Some stored user has this email and the password hashes to the stored hash. */
  predicate Authenticates(svc: Services, m: map<string, User>, email: string, password: string)
  {
    exists id :: id in m && m[id].email == email && svc.bcryptHash(password) == m[id].password
  }

  /** The normalisation ignores the case of the ASCII letters ... */
  lemma NormalizeIgnoresCase(a: string, b: string)
    requires Lower(a) == Lower(b)
    ensures NormalizeEmail(a) == NormalizeEmail(b)
  {
    LowerTrimCommute(a);
    LowerTrimCommute(b);
  }

  /** ... and white space around the address. */
  lemma NormalizeIgnoresPadding(w1: string, e: string, w2: string)
    requires AllWhite(w1) && AllWhite(w2)
    ensures NormalizeEmail(w1 + e + w2) == NormalizeEmail(e)
  {
    TrimPadding(w1, e, w2);
  }

  /** So an address typed with other capitals and surrounded by white space signs in to the
      same account as the address itself, with the same password. */
  lemma AuthenticatesNormalized(svc: Services, m: map<string, User>, e: string, typed: string,
                                w1: string, w2: string, password: string)
    requires Lower(typed) == Lower(e) && AllWhite(w1) && AllWhite(w2)
    ensures Authenticates(svc, m, NormalizeEmail(w1 + typed + w2), password) <==> Authenticates(svc, m, NormalizeEmail(e), password)
  {
    NormalizeIgnoresPadding(w1, typed, w2);
    NormalizeIgnoresCase(typed, e);
  }

  /** Login and registration normalise alike, and normalising an already normalised address
      changes nothing: the address a user registered with is the one the next lookup uses. */
  lemma NormalizeEmailIdempotent(e: string)
    ensures NormalizeEmail(NormalizeEmail(e)) == NormalizeEmail(e)
  {
    NormalizeEmailIsSetter(e);
    NormalizeEmailIsSetter(NormalizeEmail(e));
  }

  /** Storing a registered user whose (already normalised) address no one holds keeps the
      collection invariant. */
  lemma RegisterKeepsValid(svc: Services, m: map<string, User>, id: string, name: string, email: string,
                           hash: string, role: Role, now: int)
    requires UsersValid(svc, m) && ValidId(svc, id)
    requires Trim(name) != "" && email != "" && EmailSetter(email) == email
    requires forall k :: k in m ==> m[k].email != email
    ensures UsersValid(svc, m[id := NewUser(name, email, hash, role, now)])
  {
    var u := NewUser(name, email, hash, role, now);
    NewUserValid(name, email, hash, role, now);
    assert u.name == Trim(name) && u.email == email;
    UsersValidPut(svc, m, id, u);
  }

  /** What storing the registered user leaves behind: a valid collection holding the new
      document, whose address and password sign in. */
  lemma RegisterOutcome(svc: Services, m: map<string, User>, id: string, name: string, email: string,
                        password: string, role: Role, now: int, m': map<string, User>)
    requires UsersValid(svc, m) && ValidId(svc, id)
    requires Trim(name) != "" && email != "" && EmailSetter(email) == email
    requires forall k :: k in m ==> m[k].email != email
    requires m' == m[id := NewUser(name, email, svc.bcryptHash(password), role, now)]
    ensures UsersValid(svc, m')
    ensures id in m' && m'[id].email == email && m'[id].name == Trim(name)
    ensures Authenticates(svc, m', email, password)
  {
    RegisterKeepsValid(svc, m, id, name, email, svc.bcryptHash(password), role, now);
    assert m'[id].email == email && m'[id].password == svc.bcryptHash(password);
  }

  const INVALID_CREDENTIALS := "Invalid credentials"

  /** `registerUser`. `newId` is the ObjectId `User.create` assigns and `now` the clock. The
      token in the reply is left out. */
  method RegisterUser(store: UserStore, name: Option<string>, email: Option<string>,
                      password: Option<string>, role: Option<string>, newId: string, now: int)
    returns (reply: Reply, profile: Option<Profile>)
    requires store.Valid()
    requires ValidId(store.svc, newId) && newId !in store.users
    modifies store
    ensures store.Valid()
    ensures !(Present(name) && Present(email) && Present(password)) ==>
      reply == Reply(400, "Please fill all required fields")
    ensures (Present(name) && Present(email) && Present(password)
             && exists id :: id in old(store.users) && old(store.users)[id].email == NormalizeEmail(email.value)) ==>
      reply == Reply(400, "User already exists")
    ensures reply.code == 201 <==>
      Present(name) && Present(email) && Present(password)
      && Trim(name.value) != "" && NormalizeEmail(email.value) != ""
      && forall id :: id in old(store.users) ==> old(store.users)[id].email != NormalizeEmail(email.value)
    ensures reply.code == 201 ==>
      reply.message == "User registered"
      && store.users == old(store.users)[newId := NewUser(name.value, NormalizeEmail(email.value), store.svc.bcryptHash(password.value), RoleChoice(role), now)]
      && store.users[newId].email == NormalizeEmail(email.value)
      && store.users[newId].name == Trim(name.value)
      && profile == Some(ProfileOf(newId, store.users[newId]))
      && Authenticates(store.svc, store.users, NormalizeEmail(email.value), password.value)
    ensures reply.code != 201 ==> store.users == old(store.users) && profile.None?
    ensures reply.code == 500 ==> reply.message == "Server error"
    ensures reply.code == 201 || reply.code == 400 || reply.code == 500
  {
    profile := None;
    if !(Present(name) && Present(email) && Present(password)) {
      return Reply(400, "Please fill all required fields"), None;
    }
    var normalized := NormalizeEmail(email.value);
    NormalizeEmailIsSetter(email.value);
    if exists id :: id in store.users && store.users[id].email == normalized {
      return Reply(400, "User already exists"), None;
    }
    reply, profile := CreateUser(store, name.value, normalized, password.value, RoleChoice(role), newId, now);
  }

  /** The `User.create` step of `registerUser`, reached once the address is known to be free. */
  method CreateUser(store: UserStore, name: string, email: string, password: string, role: Role,
                    newId: string, now: int)
    returns (reply: Reply, profile: Option<Profile>)
    requires store.Valid()
    requires ValidId(store.svc, newId) && newId !in store.users
    requires EmailSetter(email) == email
    requires forall id :: id in store.users ==> store.users[id].email != email
    modifies store
    ensures store.Valid()
    ensures reply.code == 201 <==> Trim(name) != "" && email != ""
    ensures reply.code == 201 ==>
      reply.message == "User registered"
      && store.users == old(store.users)[newId := NewUser(name, email, store.svc.bcryptHash(password), role, now)]
      && store.users[newId].email == email
      && store.users[newId].name == Trim(name)
      && profile == Some(ProfileOf(newId, store.users[newId]))
      && Authenticates(store.svc, store.users, email, password)
    ensures reply.code != 201 ==> reply == Reply(500, "Server error") && store.users == old(store.users) && profile.None?
  {
    var hashed := store.svc.bcryptHash(password);
    var u := NewUser(name, email, hashed, role, now);
    if Trim(name) == "" || email == "" {
      // A required validator refuses the value its setter emptied (the email setter leaves a
      // normalised address as it is).
      return Reply(500, "Server error"), None;
    }
    RegisterOutcome(store.svc, store.users, newId, name, email, password, role, now, store.users[newId := u]);
    store.users := store.users[newId := u];
    reply, profile := Reply(201, "User registered"), Some(ProfileOf(newId, u));
  }

  /** `loginUser`. Both ways of failing after the required-field check give the same reply. The
      token in the reply is left out. */
  method LoginUser(store: UserStore, email: Option<string>, password: Option<string>)
    returns (reply: Reply, profile: Option<Profile>)
    requires store.Valid()
    ensures !(Present(email) && Present(password)) ==> reply == Reply(400, "Email and password required")
    ensures (Present(email) && Present(password)
             && forall id :: id in store.users ==> store.users[id].email != NormalizeEmail(email.value)) ==>
      reply == Reply(401, INVALID_CREDENTIALS)
    ensures reply.code == 200 <==>
      Present(email) && Present(password) && Authenticates(store.svc, store.users, NormalizeEmail(email.value), password.value)
    ensures reply.code == 200 ==>
      reply.message == "Login successful"
      && (exists id :: id in store.users && profile == Some(ProfileOf(id, store.users[id]))
                      && store.users[id].email == NormalizeEmail(email.value))
    ensures reply.code != 200 ==> profile.None?
    ensures reply.code != 200 && Present(email) && Present(password) ==> reply == Reply(401, INVALID_CREDENTIALS)
  {
    profile := None;
    if !(Present(email) && Present(password)) {
      return Reply(400, "Email and password required"), None;
    }
    var normalized := NormalizeEmail(email.value);
    if !exists id :: id in store.users && store.users[id].email == normalized {
      return Reply(401, INVALID_CREDENTIALS), None;
    }
    var id :| id in store.users && store.users[id].email == normalized;
    var u := store.users[id];
    if store.svc.bcryptHash(password.value) != u.password {
      // Emails are unique, so no other user could have matched.
      return Reply(401, INVALID_CREDENTIALS), None;
    }
    reply, profile := Reply(200, "Login successful"), Some(ProfileOf(id, u));
  }

  /** `getUserProfile` for `actor`, the id `req.user` carries. */
  method GetUserProfile(store: UserStore, actor: Option<string>) returns (reply: Reply, profile: Option<OwnProfile>)
    ensures actor.None? ==> reply == Reply(401, "Not authorized")
    ensures actor.Some? && !ValidId(store.svc, actor.value) ==> reply == Reply(500, "Server error")
    ensures actor.Some? && ValidId(store.svc, actor.value) && actor.value !in store.users ==>
      reply == Reply(404, "User not found")
    ensures reply.code == 200 <==> actor.Some? && ValidId(store.svc, actor.value) && actor.value in store.users
    ensures reply.code == 200 ==>
      profile == Some(OwnProfileOf(actor.value, store.users[actor.value]))
      && profile.value.resetOtp == store.users[actor.value].resetOtp
      && profile.value.resetOtpExpires == store.users[actor.value].resetOtpExpires
    ensures reply.code != 200 ==> profile.None?
  {
    if actor.None? {
      return Reply(401, "Not authorized"), None;
    }
    if !ValidId(store.svc, actor.value) {
      // `findById` cannot cast the id.
      return Reply(500, "Server error"), None;
    }
    if actor.value !in store.users {
      return Reply(404, "User not found"), None;
    }
    reply, profile := Reply(200, ""), Some(OwnProfileOf(actor.value, store.users[actor.value]));
  }
}
