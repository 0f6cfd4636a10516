/** The handlers of `backend/controllers/userController.js` over an in-memory user collection:
    the admin listing with its paging arithmetic, role changes with the self-demotion guard, the
    one-time password-reset code, password change and profile update. */
module UserController {
  import opened Common
  import opened Strings
  import opened Sorting
  import opened TicketModel
  import opened UserModel

  /** What the handlers send of a user: the document without its secrets. */
  datatype Profile = Profile(id: string, name: string, email: string, role: Role)

  function ProfileOf(id: string, u: User): Profile
  {
    Profile(id, u.name, u.email, u.role)
  }

  /** What `select("-password")` leaves of a user's own document: the profile together with
      the password-reset challenge and the creation time. */
  datatype OwnProfile = OwnProfile(
    profile: Profile,
    resetOtp: Option<string>,
    resetOtpExpires: Option<int>,
    createdAt: int)

  function OwnProfileOf(id: string, u: User): OwnProfile
  {
    OwnProfile(ProfileOf(id, u), u.resetOtp, u.resetOtpExpires, u.createdAt)
  }

  /** The users of `m` the search keeps, ordered by the requested field and direction. */
  method OrderedListing(m: map<string, User>, matchI: (string, string) -> bool, p: ListParams)
    returns (ordered: seq<string>)
    ensures forall id :: multiset(ordered)[id] == (if id in m && Listed(matchI, p.search, m[id]) then 1 else 0)
    ensures SortedBy(ordered, IdOrder(m, p.field, p.ascending))
    ensures forall x :: x in ordered ==> x in m
  {
    var found := ListedIds(m, matchI, p.search);
    IdOrderTotal(m, p.field, p.ascending);
    ordered := SortBy(found, IdOrder(m, p.field, p.ascending));
    forall x | x in ordered
      ensures x in m
    {
      assert x in multiset(ordered);
    }
  }

  /** The profiles of the users `ids` names, in that order. */
  function ProfilesOf(m: map<string, User>, ids: seq<string>): (r: seq<Profile>)
    requires forall x :: x in ids ==> x in m
    ensures |r| == |ids|
    ensures forall i :: 0 <= i < |ids| ==> r[i] == ProfileOf(ids[i], m[ids[i]])
  {
    if ids == [] then [] else [ProfileOf(ids[0], m[ids[0]])] + ProfilesOf(m, ids[1..])
  }

  /** The collection invariant: every key is a valid ObjectId, every document passed its
      validators, and no email is stored twice. */
  ghost predicate UsersValid(svc: Services, m: map<string, User>)
  {
    (forall id :: id in m ==> ValidId(svc, id) && UserValid(m[id])) && UniqueEmails(m)
  }

  /** Replacing a document by one with the same email keeps the invariant. */
  lemma UsersValidSameEmail(svc: Services, m: map<string, User>, id: string, u: User)
    requires UsersValid(svc, m) && id in m && UserValid(u) && u.email == m[id].email
    ensures UsersValid(svc, m[id := u])
  {
  }

  /** Storing a document whose email no other document holds keeps the invariant. */
  lemma UsersValidPut(svc: Services, m: map<string, User>, id: string, u: User)
    requires UsersValid(svc, m) && ValidId(svc, id) && UserValid(u)
    requires forall k :: k in m && k != id ==> m[k].email != u.email
    ensures UsersValid(svc, m[id := u])
  {
  }

  // ---------------------------------------------------------------------------------------
  // getAllUsers: query parameters, order and paging

  /** `req.query` of the listing; `None` is an absent parameter. `page` and `limit` are the
      integers `parseInt` reads. */
  datatype UserQuery = UserQuery(page: Option<int>, limit: Option<int>, search: Option<string>,
                                 sortBy: Option<string>, sortDir: Option<string>)

  datatype SortField = ByName | ByRole | ByCreatedAt

  function FieldName(f: SortField): string
  {
    match f
    case ByName => "name"
    case ByRole => "role"
    case ByCreatedAt => "createdAt"
  }

  const ALLOWED_SORT: seq<string> := ["name", "role", "createdAt"]

  /** `allowedSort.includes(sortBy) ? sortBy : "createdAt"`, with `sortBy` defaulting to
      "createdAt". */
  function SortFieldOf(sortBy: Option<string>): (r: SortField)
    ensures sortBy.Some? && sortBy.value in ALLOWED_SORT ==> FieldName(r) == sortBy.value
    ensures !(sortBy.Some? && sortBy.value in ALLOWED_SORT) ==> r == ByCreatedAt
  {
    if sortBy == Some("name") then ByName
    else if sortBy == Some("role") then ByRole
    else ByCreatedAt
  }

  /** The values the handler derives from the query. */
  datatype ListParams = ListParams(search: string, field: SortField, ascending: bool,
                                   pageNum: nat, lim: nat, skip: nat)

  function OrElse<T>(o: Option<T>, d: T): T
  {
    if o.Some? then o.value else d
  }

  /** Lines 11-35 of the handler: defaults, the trimmed search, the sort field and direction,
      and `pageNum`, `lim` and `skip`. */
  function ListParamsOf(q: UserQuery): (p: ListParams)
    ensures p.search == Trim(OrElse(q.search, ""))
    ensures p.field == SortFieldOf(q.sortBy)
    ensures p.ascending <==> q.sortDir == Some("asc")
    ensures p.pageNum >= 1 && p.lim >= 1
    ensures OrElse(q.page, 1) >= 1 ==> p.pageNum == OrElse(q.page, 1)
    ensures OrElse(q.limit, 10) >= 1 ==> p.lim == OrElse(q.limit, 10)
    ensures p.skip == PageStart(p.pageNum, p.lim)
  {
    var page, limit := OrElse(q.page, 1), OrElse(q.limit, 10);
    var pageNum: nat := if page > 1 then page else 1;
    var lim: nat := if limit > 1 then limit else 1;
    var skip := PageStart(pageNum, lim);
    ListParams(Trim(OrElse(q.search, "")), SortFieldOf(q.sortBy), q.sortDir == Some("asc"),
               pageNum, lim, skip)
  }

  /** A non-empty search that the database refuses as a pattern: the listing fails. */
  predicate BadSearch(q: UserQuery, validRegex: string -> bool)
  {
    var s := ListParamsOf(q).search;
    s != "" && !validRegex(s)
  }

  /** `Math.ceil(total / lim)`: zero pages for an empty result. */
  function Pages(total: nat, lim: nat): nat
    requires lim > 0
  {
    (total + lim - 1) / lim
  }

  /** Every matching user is on exactly one page in 1..pages: the page `skip`/`limit` select
      for it holds its position. */
  lemma PageOfPosition(total: nat, lim: nat, i: nat)
    requires lim > 0 && i < total
    ensures var page := i / lim + 1;
      1 <= page <= Pages(total, lim) && (page - 1) * lim <= i < page * lim
  {
    assert Pages(total, lim) == CeilDiv(total, lim);
    var q := i / lim;
    assert i == q * lim + i % lim;
    MulSucc(q, lim);
    MulLess(q, Pages(total, lim), lim);
  }

  /** A page past the last one starts past the last matching user, so it is empty. */
  lemma PastLastPage(total: nat, lim: nat, pageNum: int)
    requires lim > 0 && pageNum > Pages(total, lim)
    ensures (pageNum - 1) * lim >= total
  {
    assert Pages(total, lim) == CeilDiv(total, lim);
    assert (pageNum - 1) * lim >= Pages(total, lim) * lim;
  }

  /** The order of one field, as the database compares its values. */
  function FieldLe(f: SortField, a: User, b: User): bool
  {
    match f
    case ByName => StrLe(a.name, b.name)
    case ByRole => StrLe(RoleName(a.role), RoleName(b.role))
    case ByCreatedAt => a.createdAt <= b.createdAt
  }

  /** `.sort({ [sortField]: sortDirection })` on the ids of `m`. */
  function IdOrder(m: map<string, User>, f: SortField, ascending: bool): (string, string) -> bool
  {
    (a: string, b: string) =>
      a !in m || b !in m || (if ascending then FieldLe(f, m[a], m[b]) else FieldLe(f, m[b], m[a]))
  }

  lemma IdOrderTotal(m: map<string, User>, f: SortField, ascending: bool)
    ensures Total(IdOrder(m, f, ascending))
  {
    forall a: string, b: string
      ensures IdOrder(m, f, ascending)(a, b) || IdOrder(m, f, ascending)(b, a)
    {
      if a in m && b in m {
        StrLeTotal(m[a].name, m[b].name);
        StrLeTotal(RoleName(m[a].role), RoleName(m[b].role));
      }
    }
  }

  /** The `$or` filter: an empty search keeps everyone, otherwise the case-insensitive regex
      `q` must match the name or the email. `matchI(q, v)` is that regex test. */
  predicate Listed(matchI: (string, string) -> bool, q: string, u: User)
  {
    q == "" || matchI(q, u.name) || matchI(q, u.email)
  }

  // ---------------------------------------------------------------------------------------
  // Password-reset challenge

  /** Ten minutes in milliseconds, how long an issued code is accepted. */
  const OTP_TTL: int := 10 * 60 * 1000

  /** `Math.floor(100000 + draw * 900000)` for the draw of `Math.random()`. */
  function OtpCode(draw: real): (n: nat)
    requires 0.0 <= draw < 1.0
    ensures 100000 <= n <= 999999
  {
    var x := 100000.0 + draw * 900000.0;
    assert 100000.0 <= x < 1000000.0;
    x.Floor
  }

  /** The code as it is mailed: six decimal digits. */
  function OtpString(draw: real): (s: string)
    requires 0.0 <= draw < 1.0
    ensures |s| == 6 && AllDigits(s)
    ensures DecimalValue(s) == OtpCode(draw)
  {
    SixDigits(OtpCode(draw));
    DecimalRoundTrip(OtpCode(draw));
    DecimalString(OtpCode(draw))
  }

  /** Issuing a challenge: the digest of the code and its expiry are stored. */
  function Issue(u: User, digest: string, now: int): User
  {
    u.(resetOtp := Some(digest), resetOtpExpires := Some(now + OTP_TTL))
  }

  /** Redeeming it: the new password hash is stored and the challenge cleared. */
  function Redeem(u: User, passwordHash: string): User
  {
    u.(password := passwordHash, resetOtp := None, resetOtpExpires := None)
  }

  /** The reset query's conditions on one user: same digest, expiry strictly after `now`. */
  predicate ChallengeOpen(u: User, digest: string, now: int)
  {
    u.resetOtp == Some(digest) && u.resetOtpExpires.Some? && u.resetOtpExpires.value > now
  }

  /** Some user with this email has an open challenge with this digest. */
  predicate ResetMatch(m: map<string, User>, email: string, digest: string, now: int)
  {
    exists id :: id in m && m[id].email == email && ChallengeOpen(m[id], digest, now)
  }

  /** An issued challenge accepts its own digest until ten minutes have passed and nothing after
      that, and no other digest at all; a redeemed one accepts nothing. */
  lemma ChallengeLifetime(u: User, digest: string, issuedAt: int, d: string, now: int, p: string)
    ensures ChallengeOpen(Issue(u, digest, issuedAt), d, now) <==> d == digest && now < issuedAt + OTP_TTL
    ensures !ChallengeOpen(Redeem(u, p), d, now)
  {
  }

  /** Once the owner of an email redeemed the challenge, no code is accepted for that email: with
      emails unique, that owner is the only candidate and its challenge is gone. */
  lemma RedeemCloses(m: map<string, User>, id: string, p: string, email: string, digest: string, now: int)
    requires UniqueEmails(m) && id in m && m[id].email == email
    ensures !ResetMatch(m[id := Redeem(m[id], p)], email, digest, now)
  {
  }

  /** Issuing and redeeming keep a user valid and leave name, email and role alone. */
  lemma ChallengeKeepsUser(u: User, digest: string, now: int, p: string)
    requires UserValid(u)
    ensures UserValid(Issue(u, digest, now)) && UserValid(Redeem(u, p))
    ensures Issue(u, digest, now).(resetOtp := u.resetOtp, resetOtpExpires := u.resetOtpExpires) == u
    ensures Redeem(u, p).(password := u.password, resetOtp := u.resetOtp, resetOtpExpires := u.resetOtpExpires) == u
  {
  }

  /** Issuing a challenge to the owner of an email: the collection stays valid and that owner
      is the only user with the email. */
  lemma IssueOutcome(svc: Services, m: map<string, User>, id: string, key: string, digest: string, now: int)
    requires UsersValid(svc, m) && id in m && m[id].email == key
    ensures UsersValid(svc, m[id := Issue(m[id], digest, now)])
    ensures forall k :: k in m && m[k].email == key ==> k == id
  {
    ChallengeKeepsUser(m[id], digest, now, "");
    UsersValidSameEmail(svc, m, id, Issue(m[id], digest, now));
  }

  /** Redeeming the challenge of the owner of an email: the collection stays valid, that owner
      is the only user with the email, and no digest opens a reset for it any more. */
  lemma RedeemOutcome(svc: Services, m: map<string, User>, id: string, key: string, digest: string,
                      hash: string, m': map<string, User>)
    requires UsersValid(svc, m) && id in m && m[id].email == key
    requires m' == m[id := Redeem(m[id], hash)]
    ensures UsersValid(svc, m')
    ensures forall k :: k in m && m[k].email == key ==> k == id
    ensures forall t :: !ResetMatch(m', key, digest, t)
  {
    ChallengeKeepsUser(m[id], "", 0, hash);
    UsersValidSameEmail(svc, m, id, Redeem(m[id], hash));
    forall t | true
      ensures !ResetMatch(m', key, digest, t)
    {
      RedeemCloses(m, id, hash, key, digest, t);
    }
  }

  /** `.skip(skip).limit(lim)`: at most `lim` of the ids, the run starting at position `skip`. */
  function PageWindow(ids: seq<string>, p: ListParams): (r: seq<string>)
    ensures |r| <= p.lim
    ensures p.skip + p.lim <= |ids| ==> r == ids[p.skip..p.skip + p.lim]
    ensures p.skip <= |ids| < p.skip + p.lim ==> r == ids[p.skip..]
    ensures |ids| <= p.skip ==> r == []
    ensures forall x :: x in r ==> x in ids
  {
    var r := JsSlice(ids, p.skip, p.skip + p.lim);
    forall x | x in r
      ensures x in ids
    {
      SliceMembers(ids, p.skip, p.skip + p.lim, x);
    }
    r
  }

  /** The ids `User.find(filter)` selects, each once, in no particular order. */
  method ListedIds(m: map<string, User>, matchI: (string, string) -> bool, q: string)
    returns (found: seq<string>)
    ensures forall id :: multiset(found)[id] == (if id in m && Listed(matchI, q, m[id]) then 1 else 0)
  {
    var all := KeysOf(m);
    found := [];
    var i := 0;
    while i < |all|
      invariant 0 <= i <= |all|
      invariant forall id :: multiset(found)[id] == (if id in all[..i] && Listed(matchI, q, m[id]) then 1 else 0)
    {
      assert all[..i + 1] == all[..i] + [all[i]];
      assert all[i] !in all[..i];
      if Listed(matchI, q, m[all[i]]) {
        found := found + [all[i]];
      }
      i := i + 1;
    }
    assert all[..i] == all;
  }

  const OTP_SENT := "If email exists, OTP has been sent"

  const FETCH_USERS_FAILED := "Failed to fetch users"

  /** The user collection and the handlers of `userController.js`. */
  class UserStore {
    const svc: Services
    var users: map<string, User>

    ghost predicate Valid()
      reads this
    {
      UsersValid(svc, users)
    }

    constructor (svc: Services)
      ensures this.svc == svc && users == map[] && Valid()
    {
      this.svc := svc;
      users := map[];
    }

    /** `getAllUsers`. `matchI` is the case-insensitive `$regex` test and `validRegex` says
        whether the database accepts a text as a regular expression: the trimmed search goes
        into `$regex` unescaped, so a search such as "(" makes `find` and `countDocuments`
        reject and the handler answer 500. `ordered` is every matching user in the requested
        order; `window` is the requested page of it, and `data` what is sent of those users. */
    method GetAllUsers(q: UserQuery, matchI: (string, string) -> bool, validRegex: string -> bool)
      returns (reply: Reply, data: seq<Profile>, total: nat, page: int, pages: nat,
               ghost ordered: seq<string>, ghost window: seq<string>)
      ensures reply.code == 200 <==> !BadSearch(q, validRegex)
      ensures BadSearch(q, validRegex) ==> reply == Reply(500, FETCH_USERS_FAILED) && data == []
      ensures !BadSearch(q, validRegex) ==>
        page == ListParamsOf(q).pageNum && pages == Pages(total, ListParamsOf(q).lim)
        && total == |ordered|
        && window == PageWindow(ordered, ListParamsOf(q))
        && |window| <= ListParamsOf(q).lim
        && |data| == |window|
      ensures !BadSearch(q, validRegex) ==> forall id ::
        multiset(ordered)[id] == (if id in users && Listed(matchI, ListParamsOf(q).search, users[id]) then 1 else 0)
      ensures !BadSearch(q, validRegex) ==>
        SortedBy(ordered, IdOrder(users, ListParamsOf(q).field, ListParamsOf(q).ascending))
      ensures !BadSearch(q, validRegex) ==>
        forall i :: 0 <= i < |data| ==> window[i] in users && data[i] == ProfileOf(window[i], users[window[i]])
    {
      var p := ListParamsOf(q);
      if p.search != "" && !validRegex(p.search) {
        reply, data, total, page, pages := Reply(500, FETCH_USERS_FAILED), [], 0, 0, 0;
        ordered, window := [], [];
        return;
      }
      var sorted := OrderedListing(users, matchI, p);
      ordered, total := sorted, |sorted|;
      var sel := PageWindow(sorted, p);
      window := sel;
      data := ProfilesOf(users, sel);
      reply, page, pages := Reply(200, ""), p.pageNum, Pages(total, p.lim);
    }

    /** `updateUserRole`: `actor` is the caller's id, `targetId` the route parameter and
        `role` the body's role. */
    method UpdateUserRole(actor: Option<string>, targetId: string, role: Option<string>)
      returns (reply: Reply, updated: Option<Profile>)
      requires Valid()
      modifies this
      ensures Valid()
      ensures !(role.Some? && role.value in ROLES) ==> reply == Reply(400, "Invalid role")
      ensures role.Some? && role.value in ROLES && actor == Some(targetId) && role.value != "admin" ==>
        reply == Reply(400, "You cannot demote yourself")
      ensures reply.code == 200 <==>
        role.Some? && role.value in ROLES && !(actor == Some(targetId) && role.value != "admin")
        && ValidId(svc, targetId) && targetId in old(users)
      ensures reply.code == 200 ==>
        reply.message == "Role updated successfully"
        && users == old(users)[targetId := old(users)[targetId].(role := ParseRole(role.value).value)]
        && updated == Some(ProfileOf(targetId, users[targetId]))
      ensures reply.code == 200 && actor == Some(targetId) ==> users[targetId].role == Admin
      ensures (role.Some? && role.value in ROLES && !(actor == Some(targetId) && role.value != "admin")
               && !ValidId(svc, targetId)) ==>
        reply == Reply(500, "Failed to update role")
      ensures (role.Some? && role.value in ROLES && !(actor == Some(targetId) && role.value != "admin")
               && ValidId(svc, targetId) && targetId !in old(users)) ==>
        reply == Reply(404, "User not found")
      ensures reply.code != 200 ==> users == old(users) && updated.None?
      ensures reply.code == 200 || reply.code == 400 || reply.code == 404 || reply.code == 500
    {
      updated := None;
      if !(role.Some? && role.value in ROLES) {
        return Reply(400, "Invalid role"), None;
      }
      if actor.Some? && actor.value == targetId && role.value != "admin" {
        return Reply(400, "You cannot demote yourself"), None;
      }
      if !ValidId(svc, targetId) {
        // `findByIdAndUpdate` cannot cast the id: CastError.
        return Reply(500, "Failed to update role"), None;
      }
      if targetId !in users {
        return Reply(404, "User not found"), None;
      }
      var u := users[targetId].(role := ParseRole(role.value).value);
      UsersValidSameEmail(svc, users, targetId, u);
      users := users[targetId := u];
      reply, updated := Reply(200, "Role updated successfully"), Some(ProfileOf(targetId, u));
    }

    /** `sendPasswordResetOTP`: `draw` is the value of `Math.random()` and `now` the clock.
        `code` is the code mailed to the user; `sendEmail` hands a transport failure back as a
        value, which the handler ignores, so delivery never changes the reply. */
    method SendPasswordResetOTP(email: Option<string>, draw: real, now: int)
      returns (reply: Reply, code: Option<string>)
      requires Valid()
      requires 0.0 <= draw < 1.0
      modifies this
      ensures Valid()
      ensures !Present(email) ==> reply == Reply(400, "Email required") && users == old(users) && code.None?
      ensures Present(email) ==> reply == Reply(200, OTP_SENT)
      ensures (Present(email) && forall id :: id in old(users) ==> old(users)[id].email != EmailSetter(email.value)) ==>
        users == old(users) && code.None?
      ensures forall id :: (Present(email) && id in old(users) && old(users)[id].email == EmailSetter(email.value)) ==>
        code == Some(OtpString(draw))
        && users == old(users)[id := Issue(old(users)[id], svc.sha256Hex(code.value), now)]
    {
      code := None;
      if !Present(email) {
        return Reply(400, "Email required"), None;
      }
      var key := EmailSetter(email.value);
      if !exists id :: id in users && users[id].email == key {
        return Reply(200, OTP_SENT), None;
      }
      var id :| id in users && users[id].email == key;
      var otp := OtpString(draw);
      var digest := svc.sha256Hex(otp);
      IssueOutcome(svc, users, id, key, digest, now);
      ghost var before := users;
      users := users[id := Issue(users[id], digest, now)];
      code := Some(otp);
      forall k | k in before && before[k].email == key
        ensures users == before[k := Issue(before[k], digest, now)]
      {
        assert k == id;
      }
      reply := Reply(200, OTP_SENT);
    }

    /** `resetPasswordWithOTP` at time `now`. */
    method ResetPasswordWithOTP(email: Option<string>, otp: Option<string>, newPassword: Option<string>, now: int)
      returns (reply: Reply)
      requires Valid()
      modifies this
      ensures Valid()
      ensures !(Present(email) && Present(otp) && Present(newPassword)) ==>
        reply == Reply(400, "Missing fields") && users == old(users)
      ensures (Present(email) && Present(otp) && Present(newPassword)
               && !ResetMatch(old(users), EmailSetter(email.value), svc.sha256Hex(otp.value), now)) ==>
        reply == Reply(400, "Invalid or expired OTP") && users == old(users)
      ensures reply.code == 200 <==>
        Present(email) && Present(otp) && Present(newPassword)
        && ResetMatch(old(users), EmailSetter(email.value), svc.sha256Hex(otp.value), now)
      ensures reply.code == 200 ==>
        reply.message == "Password reset successful"
        && (forall id :: id in old(users) && old(users)[id].email == EmailSetter(email.value) ==>
              users == old(users)[id := Redeem(old(users)[id], svc.bcryptHash(newPassword.value))])
        && (forall t :: !ResetMatch(users, EmailSetter(email.value), svc.sha256Hex(otp.value), t))
      ensures reply.code == 200 || reply.code == 400
    {
      if !(Present(email) && Present(otp) && Present(newPassword)) {
        return Reply(400, "Missing fields");
      }
      var key := EmailSetter(email.value);
      var digest := svc.sha256Hex(otp.value);
      if !exists id :: id in users && users[id].email == key && ChallengeOpen(users[id], digest, now) {
        return Reply(400, "Invalid or expired OTP");
      }
      var id :| id in users && users[id].email == key && ChallengeOpen(users[id], digest, now);
      var hash := svc.bcryptHash(newPassword.value);
      RedeemOutcome(svc, users, id, key, digest, hash, users[id := Redeem(users[id], hash)]);
      users := users[id := Redeem(users[id], hash)];
      reply := Reply(200, "Password reset successful");
    }

    /** `changePassword` for the signed-in user `actorId`. `bcrypt.compare` and `bcrypt.hash`
        throw on a missing argument. */
    method ChangePassword(actorId: string, currentPassword: Option<string>, newPassword: Option<string>)
      returns (reply: Reply)
      requires Valid()
      modifies this
      ensures Valid()
      ensures ValidId(svc, actorId) && actorId !in old(users) ==> reply == Reply(404, "User not found")
      ensures (ValidId(svc, actorId) && actorId in old(users) && currentPassword.Some?
               && svc.bcryptHash(currentPassword.value) != old(users)[actorId].password) ==>
        reply == Reply(400, "Incorrect current password")
      ensures reply.code == 200 <==>
        ValidId(svc, actorId) && actorId in old(users) && currentPassword.Some? && newPassword.Some?
        && svc.bcryptHash(currentPassword.value) == old(users)[actorId].password
      ensures reply.code == 200 ==>
        reply.message == "Password updated"
        && users == old(users)[actorId := old(users)[actorId].(password := svc.bcryptHash(newPassword.value))]
      ensures reply.code != 200 ==> users == old(users)
      ensures reply.code == 500 ==> reply.message == "Failed to change password"
      ensures reply.code == 200 || reply.code == 400 || reply.code == 404 || reply.code == 500
    {
      if !ValidId(svc, actorId) {
        // `findById` cannot cast the id.
        return Reply(500, "Failed to change password");
      }
      if actorId !in users {
        return Reply(404, "User not found");
      }
      var u := users[actorId];
      if currentPassword.None? {
        return Reply(500, "Failed to change password");
      }
      if svc.bcryptHash(currentPassword.value) != u.password {
        return Reply(400, "Incorrect current password");
      }
      if newPassword.None? {
        return Reply(500, "Failed to change password");
      }
      var v := u.(password := svc.bcryptHash(newPassword.value));
      UsersValidSameEmail(svc, users, actorId, v);
      users := users[actorId := v];
      reply := Reply(200, "Password updated");
    }

    /** `updateProfile` for the signed-in user `actorId`: `findByIdAndUpdate` with the update
        run through the `trim` and `lowercase` setters and, with `runValidators`, the required
        validators; the unique index refuses an email another user holds. */
    method UpdateProfile(actorId: string, name: Option<string>, email: Option<string>)
      returns (reply: Reply, updated: Option<OwnProfile>)
      requires Valid()
      modifies this
      ensures Valid()
      ensures !(Present(name) && Present(email)) ==> reply == Reply(400, "Name and email are required")
      ensures (Present(name) && Present(email) && ValidId(svc, actorId)
               && Trim(name.value) != "" && EmailSetter(email.value) != "" && actorId !in old(users)) ==>
        reply == Reply(404, "User not found")
      ensures reply.code == 200 <==>
        Present(name) && Present(email) && ValidId(svc, actorId)
        && Trim(name.value) != "" && EmailSetter(email.value) != "" && actorId in old(users)
        && (forall k :: k in old(users) && k != actorId ==> old(users)[k].email != EmailSetter(email.value))
      ensures reply.code == 200 ==>
        reply.message == "Profile updated successfully"
        && users == old(users)[actorId := old(users)[actorId].(name := Trim(name.value), email := EmailSetter(email.value))]
        && updated == Some(OwnProfileOf(actorId, users[actorId]))
        && updated.value.resetOtp == old(users)[actorId].resetOtp
        && updated.value.resetOtpExpires == old(users)[actorId].resetOtpExpires
      ensures reply.code != 200 ==> users == old(users) && updated.None?
      ensures reply.code == 500 ==> reply.message == "Failed to update profile"
      ensures reply.code == 200 || reply.code == 400 || reply.code == 404 || reply.code == 500
    {
      updated := None;
      if !(Present(name) && Present(email)) {
        return Reply(400, "Name and email are required"), None;
      }
      var n, e := Trim(name.value), EmailSetter(email.value);
      if !ValidId(svc, actorId) || n == "" || e == "" {
        // A CastError on the id, or a required validator refusing a value its setter emptied.
        return Reply(500, "Failed to update profile"), None;
      }
      if actorId !in users {
        return Reply(404, "User not found"), None;
      }
      if exists k :: k in users && k != actorId && users[k].email == e {
        // Duplicate key on the unique email index.
        return Reply(500, "Failed to update profile"), None;
      }
      var u := users[actorId].(name := n, email := e);
      TrimTrimmed(name.value);
      EmailSetterStored(email.value);
      UsersValidPut(svc, users, actorId, u);
      users := users[actorId := u];
      reply, updated := Reply(200, "Profile updated successfully"), Some(OwnProfileOf(actorId, u));
    }
  }
}
