# TechAssist helpdesk core in Dafny

TechAssist is a helpdesk: employees open tickets against a department and a priority, and
administrators move them through six states, assign them, resolve them and manage the
departments, the priorities and the user accounts. This project models the core of it.

- **The backend.** The two Mongoose schemas (tickets and users, with their `trim` and `lowercase`
  setters, enums, defaults and required validators) and the five controllers. The controllers are
  authentication, tickets, departments, priorities and users. Each collection is a `map` field of
  a store class, and each handler is a method on it that changes that field. The methods state
  every reply code and message, and what the collection looks like afterwards.
- **The notification texts.** The subject, lines and rows that each template builds from a
  populated ticket.
- **The client.** The pure logic of the pages and forms:
  - the validation of the ticket form and the `truncate` helper;
  - the password-strength meters;
  - the email checks of the registration and profile forms;
  - the six-box one-time-code input and its resend countdown;
  - the filter, sort, paging, selection and CSV export of the administrator's ticket page;
  - the chart counts of both dashboards;
  - the initials and role buttons of the user list.

Shared building blocks have their own modules:

- `Common`: optional values, JavaScript truthiness, `slice`, paging arithmetic and `join`.
- `Strings`: JavaScript white space, `trim`, ASCII case mapping, `includes`, string order,
  decimal printing and the UTF-16 length that `length` and `slice` count in.
- `Sorting`: `Array.prototype.sort` and the database `sort`, as a stable insertion sort proved
  to return a sorted permutation.
- `Tally`: the `map[key] = (map[key] || 0) + 1` counting loop followed by `Object.entries`,
  which lists the keys that are array indices first, in ascending numeric order, and the
  other keys in insertion order (section 10.1.11.1 of ECMA-262).
- `Csv`: the field quoting of section 2 of RFC 4180.

Calls the model cannot see are parameters:

- `Services` holds `ObjectId.isValid`, bcrypt and SHA-256.
- The clock value `now`, the `Math.random()` draw and the id the database assigns are method
  parameters.

A handler is modelled as it runs once its route guards have passed. The signed-in user is an
optional parameter. Request fields are absent or strings.

A Dafny string is a sequence of Unicode characters. JavaScript's `length` and `slice` count
UTF-16 code units, and a character outside the Basic Multilingual Plane takes two of them;
the client's length checks are stated in code units.

Four behaviours of the handlers that the model keeps:

- A duplicate registration email is answered with 400 "User already exists".
- A duplicate department or priority name is answered with 400.
- `getTicketStats` is open to any signed-in user.
- On "Resolved" the resolution becomes `updates.resolution || ticket.resolution`. The whitelist
  loop then copies any defined `resolution`, so an explicit "" empties it.

## Model

| member | source | states |
|---|---|---|
| TicketModel.StatusDomain | backend/models/ticket.model.js:4-11 | `TICKET_STATUSES` is exactly the six state names in workflow order (Open, In Progress, Pending Review, Escalated, Resolved, Closed), with no name twice |
| TicketModel.StatusesCovered | backend/models/ticket.model.js:4-11 | every state is in the list, and two states with the same name are the same state |
| TicketModel.ParseStatus | backend/models/ticket.model.js:17 | a string passes the status enum check iff it is one of `TICKET_STATUSES`, and then it names the state it parses to |
| TicketModel.ParseStatusName | backend/models/ticket.model.js:17 | a stored state reads back as the same state |
| TicketModel.NewTicketDefaults | backend/models/ticket.model.js:15-28 | a created ticket is Open; resolution, reviewNotes and escalatedReason are ""; the dates are unset; createdBy and assignedTo are as given; `save` accepts it iff the trimmed title is non-empty and priority, department and createdBy are castable ids |
| TicketModel.NewTicketValid | backend/models/ticket.model.js:15-26 | a created ticket that `save` accepts has trimmed title and description, so it keeps the collection invariant |
| UserModel.ParseRole | backend/models/user.model.js:9 | a role passes the enum check iff it is "employee" or "admin", and then it names that role |
| UserModel.NormalizeEmailIsSetter | backend/models/user.model.js:7 | the handlers' `trim().toLowerCase()` equals the schema's lowercase-then-trim setters, and running the setters on a normalised email changes nothing |
| UserModel.LowerNoUpper | backend/models/user.model.js:7 | the `lowercase` setter leaves no capital letter |
| UserModel.EmailSetterStored | backend/models/user.model.js:7 | a stored email is trimmed and has no capital letter |
| UserModel.NewUserValid | backend/models/user.model.js:6-11 | a new user has no pending reset challenge (resetOtp and resetOtpExpires null); a user whose name and email are non-empty after their setters keeps the collection invariant |
| TicketController.IsValidObjectId | backend/controllers/ticketController.js:15-16 | a value counts as an ObjectId iff it is a truthy string that `ObjectId.isValid` accepts |
| TicketController.UpdateRejection | backend/controllers/ticketController.js:151-164 | an update is refused, always with 400, iff a truthy priority, department or assignedTo is not a valid id, or a truthy status is outside `TICKET_STATUSES` |
| TicketController.WhitelistFields | backend/controllers/ticketController.js:174-180 | the whitelist loop copies each of title, description, priority, department, assignedTo and resolution that the request defines, through its setter, and moves nothing else |
| TicketController.StatusStepFields | backend/controllers/ticketController.js:161-172 | a valid truthy status is stored; "Resolved" also stamps resolvedAt and sets resolution to `updates.resolution \|\| ticket.resolution`; nothing else changes |
| TicketController.MergedFields | backend/controllers/ticketController.js:161-180 | the saved document, path by path: the whitelisted paths, status, resolvedAt and resolution as the two blocks leave them, every other modelled path unchanged (the `updatedAt` stamp is not modelled) |
| TicketController.MergedKeepsOthers | backend/controllers/ticketController.js:161-182 | an update never changes createdBy, createdAt, or the review, escalation and closing paths |
| TicketController.MergedResolution | backend/controllers/ticketController.js:166-179 | "Resolved" stamps resolvedAt with now, and any other update leaves it alone; the final resolution is the request's when it is defined (even ""), else the previous one |
| TicketController.MergeTwice | backend/controllers/ticketController.js:161-182 | applying an update twice equals applying it once at the later time, so of the modelled paths only resolvedAt can differ |
| TicketController.MergedValid | backend/controllers/ticketController.js:174-182 | a merged document that `save` accepts keeps every stored text path trimmed |
| TicketController.CountStatusBound | backend/controllers/ticketController.js:236 | a per-status count is at most the number of tickets |
| TicketController.StatusCountsPartition | backend/controllers/ticketController.js:235-238 | each ticket is in exactly one of the six states, so the six counts add up to the total |
| TicketController.StoreValidPut | backend/controllers/ticketController.js:52-60 | storing a valid ticket under a valid id keeps the collection invariant |
| TicketController.StoreValidRemove | backend/controllers/ticketController.js:220 | removing a ticket keeps the collection invariant |
| TicketController.TicketStore.CreateTicket | backend/controllers/ticketController.js:29-81 | 401 without a user; 400 for a blank title, then for an invalid priority or department id, then for a missing department or priority; 201 iff every check passes, storing exactly the new ticket (trimmed text, caller as author, Open, assignedTo the given id if valid else null); on every other reply the store is unchanged |
| TicketController.TicketStore.GetMyTickets | backend/controllers/ticketController.js:84-99 | 401 without a user; otherwise exactly the caller's tickets, each once, newest first |
| TicketController.TicketStore.UpdateTicket | backend/controllers/ticketController.js:137-210 | 400 for an invalid id; 404 for a missing ticket; the rejection reply for a bad body; 200 iff all checks pass and `save` accepts the merge, which then replaces the ticket; otherwise the store is unchanged |
| TicketController.TicketStore.DeleteTicket | backend/controllers/ticketController.js:213-229 | 400 for an invalid id and 404 for a missing one, both leaving the store unchanged; otherwise exactly that id is removed |
| TicketController.TicketStore.GetTicketStats | backend/controllers/ticketController.js:232-243 | one count per status in `TICKET_STATUSES` order, each the number of tickets in that state, then the total, and the six counts add up to the total |
| UserController.UsersValidSameEmail | backend/models/user.model.js:7 | replacing a user by a valid one with the same email keeps the collection invariant, unique emails included |
| UserController.UsersValidPut | backend/models/user.model.js:6-11 | storing a valid user whose email no other user holds keeps the collection invariant |
| UserController.SortFieldOf | backend/controllers/userController.js:15-30 | the sort field is the requested one when it is name, role or createdAt, and createdAt otherwise, including when it is absent |
| UserController.ListParamsOf | backend/controllers/userController.js:11-35 | the search is the trimmed query; the direction is ascending iff sortDir is "asc"; page and limit default to 1 and 10 and are at least 1; skip is (pageNum - 1) * lim |
| UserController.PageOfPosition | backend/controllers/userController.js:35-50 | every matching user falls on exactly one page between 1 and `ceil(total / lim)`, the page whose skip/limit window holds its position |
| UserController.PastLastPage | backend/controllers/userController.js:35-50 | a page past `ceil(total / lim)` starts past the last matching user, so it is empty |
| UserController.IdOrderTotal | backend/controllers/userController.js:40 | the order `.sort({ [sortField]: sortDirection })` compares any two users |
| UserController.OtpCode | backend/controllers/userController.js:99 | `Math.floor(100000 + Math.random() * 900000)` lies in [100000, 999999] |
| UserController.OtpString | backend/controllers/userController.js:99 | the mailed code is six decimal digits that read back as the drawn number, so its value is in [100000, 999999] |
| UserController.ChallengeLifetime | backend/controllers/userController.js:102-141 | an issued challenge accepts exactly its own digest while now < issuedAt + 600000, and a redeemed one accepts nothing |
| UserController.RedeemCloses | backend/controllers/userController.js:129-141 | once the owner of an email has redeemed, no digest opens a reset for that email at any time, so the same code cannot be used twice |
| UserController.ChallengeKeepsUser | backend/controllers/userController.js:102-143 | issuing and redeeming keep the user valid, and change only the challenge paths (and the password on redeem) |
| UserController.PageWindow | backend/controllers/userController.js:41-42 | `.skip(skip).limit(lim)` gives at most lim ids: the run starting at skip, cut at the end of the list |
| UserController.ListedIds | backend/controllers/userController.js:19-38 | the ids `find(filter)` selects: each matching user exactly once, and no other |
| UserController.UserStore.GetAllUsers | backend/controllers/userController.js:9-55 | 500 "Failed to fetch users" for a non-empty trimmed search the database refuses as a regular expression; otherwise 200 with the matching users sorted by the chosen field, the page's window of them without secrets, total = the number matching, page = pageNum and pages = ceil(total / lim) |
| UserController.UserStore.UpdateUserRole | backend/controllers/userController.js:58-85 | 400 for a role outside employee/admin; 400 when the caller would set their own role to anything but admin; then 500 for an id that is not an ObjectId and 404 for one no user has; 200 iff the target exists, with its role the only modelled path changed; otherwise the store is unchanged |
| UserController.UserStore.SendPasswordResetOTP | backend/controllers/userController.js:88-113 | 400 "Email required" without an email; with one, always 200 with the same message, whether or not a user has the email, and whatever happens to the mail; an unknown email changes no user; for a known one the sha256 of the mailed six-digit code and an expiry of now + 600000 are stored |
| UserController.UserStore.ResetPasswordWithOTP | backend/controllers/userController.js:116-149 | 400 on a missing field, or when no user has that email with that digest and expiry strictly after now; on success the password hash is replaced, the challenge is cleared and no digest opens it again |
| UserController.UserStore.ChangePassword | backend/controllers/userController.js:152-171 | 404 for a missing user; 400 when the current password does not match; on success the password hash is the only modelled path that changes; otherwise the store is unchanged |
| UserController.UserStore.UpdateProfile | backend/controllers/userController.js:174-199 | 400 without a name or an email; 200 iff the user exists and the normalised email is free, with name and email replaced through their setters and the reply carrying the stored document without the password, reset code and expiry included; otherwise the store is unchanged |
| AuthController.RoleChoice | backend/controllers/authController.js:36 | the stored role is admin iff the request's role is exactly "admin", employee otherwise |
| AuthController.NormalizeIgnoresCase | backend/controllers/authController.js:23 | two addresses that differ only in the case of ASCII letters normalise to the same address |
| AuthController.NormalizeIgnoresPadding | backend/controllers/authController.js:23 | white space before and after an address does not change its normalised form |
| AuthController.AuthenticatesNormalized | backend/controllers/authController.js:65-66 | an address typed with other ASCII capitals and surrounded by white space signs in, with a given password, exactly when the address itself does |
| AuthController.NormalizeEmailIdempotent | backend/controllers/authController.js:23-65 | normalising an already normalised address changes nothing |
| AuthController.RegisterKeepsValid | backend/controllers/authController.js:32-37 | storing a registered user under a fresh address keeps the collection invariant |
| AuthController.RegisterUser | backend/controllers/authController.js:15-52 | 400 when name, email or password is missing; 400 and nothing stored when the normalised email exists; 201 iff all are given, the trimmed name and normalised email are non-empty and the email is free, storing exactly the new user (trimmed name, normalised email, hashed password, chosen role), who can then log in |
| AuthController.LoginUser | backend/controllers/authController.js:57-90 | 400 without email or password; 200 iff some user has the normalised email and the password matches; an unknown email and a wrong password give the identical 401 "Invalid credentials" |
| AuthController.GetUserProfile | backend/controllers/authController.js:95-110 | 401 without a user; 500 for an id that is not an ObjectId; 404 for a missing user; otherwise 200 with that user's document without the password: the profile, the stored reset code and expiry, and the creation time |
| Catalog.RequestedName | backend/controllers/departmentController.js:21-25 | `req.body?.name?.trim()` is accepted iff the body has a name that is not blank after trimming, and the accepted name is that trimmed, non-empty text |
| Catalog.OwnNameFree | backend/controllers/departmentController.js:58-59 | a record's own current name is never "held by another" record, and for an id not yet stored "held by another" is the same as "taken" |
| Catalog.CatalogPut | backend/controllers/departmentController.js:34-70 | storing a trimmed, non-empty name that no other record holds, under a valid id, keeps names unique and trimmed |
| Catalog.CatalogRemove | backend/controllers/departmentController.js:95 | removing a record keeps the catalog invariant |
| Catalog.ByNameTotal | backend/controllers/departmentController.js:9 | the order `.sort({ name: 1 })` compares any two records |
| Catalog.IdsByName | backend/controllers/departmentController.js:9 | every stored id exactly once, in ascending order of name |
| Catalog.ListByName | backend/controllers/departmentController.js:9-10 | `find().sort({ name: 1 })`: every stored record exactly once with its own name, names ascending |
| DepartmentController.DepartmentStore.GetDepartments | backend/controllers/departmentController.js:7-14 | 200 with every department exactly once, sorted by name |
| DepartmentController.DepartmentStore.CreateDepartment | backend/controllers/departmentController.js:19-45 | 400 "Name is required" for a missing or blank name; 400 "Department already exists" when a department has that trimmed name; 201 iff neither, storing exactly the trimmed name under the new id; otherwise nothing changes |
| DepartmentController.DepartmentStore.UpdateDepartment | backend/controllers/departmentController.js:50-88 | 400 for a blank name; 400 when another department uses the name (checked before the id is cast); 500 for an id that cannot be cast; 404 for a missing one; 200 iff all pass, renaming exactly that department; otherwise nothing changes |
| DepartmentController.DepartmentStore.DeleteDepartment | backend/controllers/departmentController.js:93-107 | 500 for an id that cannot be cast and 404 for a missing one, both changing nothing; otherwise 200 and exactly that department is removed |
| PriorityController.PriorityStore.GetPriorities | backend/controllers/priorityController.js:7-14 | 200 with every priority exactly once, sorted by name |
| PriorityController.PriorityStore.CreatePriority | backend/controllers/priorityController.js:19-37 | 400 "Name required" for a missing or blank name; 400 "Priority already exists" when a priority has that trimmed name; 201 iff neither, storing exactly the trimmed name under the new id; otherwise nothing changes |
| PriorityController.PriorityStore.UpdatePriority | backend/controllers/priorityController.js:42-73 | 400 for a blank name; 500 for an id that cannot be cast (the `$ne` filter casts it before any name is compared); 400 when another priority has the name; 404 for a missing id; 200 iff all pass, renaming exactly that priority; otherwise nothing changes |
| PriorityController.PriorityStore.DeletePriority | backend/controllers/priorityController.js:78-90 | 500 for an id that cannot be cast and 404 for a missing one, both changing nothing; otherwise 200 and exactly that priority is removed |
| EmailTemplates.GetDeptName | backend/utils/emailTemplates.js:3-8 | "Unknown" without a ticket; otherwise the populated department's name when it has one, the department itself when it is a string, and "Unknown" in every other case |
| EmailTemplates.DeptNameIsAName | backend/utils/emailTemplates.js:3-8 | the department shown is "Unknown", a name the populated department carries, or the string it is; never a bare ObjectId and never a printed object |
| EmailTemplates.ResolutionNote | backend/utils/emailTemplates.js:61 | `ticket.resolution?.trim() \|\| "—"` is never empty and is trimmed: the trimmed resolution when it is not blank, "—" otherwise |
| EmailTemplates.TicketCreatedAsWritten | backend/utils/emailTemplates.js:10-35 | the created notice as written: its subject is "New Ticket Created: " followed by the title |
| EmailTemplates.CreatedAsWrittenShowsObject | backend/utils/emailTemplates.js:20-30 | as written, the text and the HTML of the created notice for a populated priority carry "Priority: [object Object]" |
| EmailTemplates.TicketCreated | backend/utils/emailTemplates.js:10-35 | the corrected created notice: the same subject, "New Ticket Created: " followed by the title |
| EmailTemplates.CreatedNamesPriority | backend/utils/emailTemplates.js:20-30 | the corrected created notice shows a populated priority by its name, in the text and in the HTML |
| EmailTemplates.CreatedNamesDepartment | backend/utils/emailTemplates.js:11-31 | the created notice shows the department as `getDeptName` renders it, in the text and in the HTML |
| EmailTemplates.TicketAssigned | backend/utils/emailTemplates.js:37-57 | the assigned notice's subject is "Ticket Assigned to You: " followed by the title |
| EmailTemplates.AssignedNamesAssigner | backend/utils/emailTemplates.js:47-54 | the assigned notice names the assigner when there is one with a non-empty name, and "System" otherwise, in the text and in the HTML |
| EmailTemplates.TicketResolved | backend/utils/emailTemplates.js:59-81 | the resolved notice's subject is "Ticket Resolved: " followed by the title |
| EmailTemplates.ResolvedNamesResolverAndNotes | backend/utils/emailTemplates.js:61-78 | the resolved notice names the resolver or "Staff", and carries the trimmed resolution or "—" when it is missing or blank |
| EmailTemplates.TicketUpdated | backend/utils/emailTemplates.js:83-102 | the updated notice's subject is "Ticket Updated: " followed by the title |
| EmailTemplates.UpdatedShowsChanges | backend/utils/emailTemplates.js:92-99 | the updated notice shows the changes when they are non-empty and "Updated" otherwise, in the text and in the HTML |
| Validation.ValidateTicket | frontend/src/utils/validation.js:2-9 | exactly one message per failing field: title and description when missing or blank after trimming, priority and departmentId when missing or empty, each with its own text; no other key; valid iff there is no error, iff every field passes |
| Format.Truncate | frontend/src/utils/format.js:10-13 | "" for a missing or empty string; the string itself when its length in UTF-16 code units fits the limit (100 by default); otherwise `slice(0, length)` in code units followed by "…": a prefix of the string of `length` code units, or one fewer when the cut would split a surrogate pair |
| Format.TruncateBoundedIdempotent | frontend/src/utils/format.js:10-13 | with a non-negative limit the result is at most one code unit longer than the limit, and truncating it again changes nothing |
| Format.TruncateBmp | frontend/src/utils/format.js:12 | for a string inside the Basic Multilingual Plane that is too long, the result is its first `length` characters followed by "…" |
| Format.EllipsisAfterCut | frontend/src/utils/format.js:12 | a cut that fits the limit, followed by "…", is at most one code unit over the limit and is left alone by a second truncation |
| Strings.Utf16Length | frontend/src/utils/format.js:12 | `length` counts at least one and at most two code units per character, and is 0 only for the empty string |
| Strings.Utf16LengthAppend | frontend/src/utils/format.js:12 | the length of a concatenation is the sum of the lengths |
| Strings.Utf16LengthBmp | frontend/src/utils/format.js:12 | inside the Basic Multilingual Plane the length is the number of characters |
| Strings.EmojiLength | frontend/src/utils/format.js:12 | three emoji outside the Basic Multilingual Plane have length 6 |
| Strings.Utf16Prefix | frontend/src/utils/format.js:12 | `slice(0, n)` keeps the longest prefix whose length in code units is at most n: the next character would not fit |
| Strings.Utf16PrefixFilled | frontend/src/utils/format.js:12 | a part whose length is exactly the limit is the whole cut of any non-empty continuation, so cutting an already-cut string at the same limit gives the part back |
| TicketForm.FieldOf | frontend/src/components/Tickets/TicketForm.jsx:17-21 | an input name selects a form field iff it is exactly "title", "description", "department" or "priority" |
| TicketForm.HandleChange | frontend/src/components/Tickets/TicketForm.jsx:17-22 | `{...form, [name]: value}`: the named field takes the value and every other field keeps its own |
| TicketForm.HandleChangeLastWins | frontend/src/components/Tickets/TicketForm.jsx:17-22 | writing an input twice keeps only the last value, and writing back the value an input holds changes nothing |
| TicketForm.HandleSubmit | frontend/src/components/Tickets/TicketForm.jsx:24-40 | nothing is sent iff the title, department or priority is empty; otherwise the four fields go out as typed (the description may be empty) |
| TicketForm.FilledFormSubmits | frontend/src/components/Tickets/TicketForm.jsx:10-40 | from the initial form, typing a title, a department and a priority makes the form submittable, with an empty description |
| PasswordStrength.Score | frontend/src/components/Auth/LoginForm.jsx:31-38 | the number of the five criteria a password meets (length in UTF-16 code units above 5 and above 8, a capital, a digit, a symbol), never more than five |
| PasswordStrength.ShortScore | frontend/src/components/Auth/LoginForm.jsx:34-38 | a password of at most five code units scores at most three, and the empty password scores nothing |
| PasswordStrength.FullScore | frontend/src/components/Auth/LoginForm.jsx:34-38 | full marks iff the password is longer than eight code units and has a capital, a digit and a symbol |
| LoginForm.CheckStrength | frontend/src/components/Auth/LoginForm.jsx:31-54 | the score counted one criterion at a time is the five-point score; the label is Weak iff it is at most 1, Medium iff 2, Strong iff 3, Very Strong iff at least 4, so the `default` label "" never occurs |
| LoginForm.MeterWidth | frontend/src/components/Auth/LoginForm.jsx:154-158 | the meter is a quarter, half or three quarters wide for Weak, Medium and Strong, and full for any other label |
| LoginForm.VeryStrongIsLong | frontend/src/components/Auth/LoginForm.jsx:34-50 | a password the meter labels "Very Strong" is longer than five code units, and the empty password is "Weak" |
| RegisterForm.LooseEmailIff | frontend/src/components/Auth/RegisterForm.jsx:25 | `/\S+@\S+\.\S+/` finds a match iff some `@` has a non-white character before it, and some later `.` has at least one non-white character between it and the `@` and one after it, with no white space in between |
| RegisterForm.EmailValid | frontend/src/components/Auth/RegisterForm.jsx:24-27 | the flag is set iff the pattern matches somewhere in the address or the field is empty |
| RegisterForm.RegisterStrength | frontend/src/components/Auth/RegisterForm.jsx:30-38 | "" iff empty; Weak iff shorter than 6 UTF-16 code units; Medium iff at least 6 without both a capital and a digit; Strong iff at least 6 with both |
| RegisterForm.EmojiPasswordMedium | frontend/src/components/Auth/RegisterForm.jsx:30-38 | three emoji are six code units long, so the form calls them "Medium" |
| RegisterForm.StrongScoresThree | frontend/src/components/Auth/RegisterForm.jsx:30-38 | a password this form calls Strong earns at least three points on the login meter |
| ResetPasswordOtp.OtpBuffer.HandleOtpChange | frontend/src/pages/auth/ResetPasswordOTP.jsx:24-30 | a value that is neither empty nor one digit changes nothing; otherwise exactly box `index` takes it; the focus moves to index + 1 iff the value is a digit and the box is not the last; every box stays empty or one digit |
| ResetPasswordOtp.OtpBuffer.HandleBackspace | frontend/src/pages/auth/ResetPasswordOTP.jsx:32-36 | the focus moves iff the key is Backspace in an empty box that is not the first, and then to the box before it |
| ResetPasswordOtp.CheckStrength | frontend/src/pages/auth/ResetPasswordOTP.jsx:38-50 | the page's meter for the five-point score; Very Strong iff the score is at least 4 |
| ResetPasswordOtp.MetersAgree | frontend/src/pages/auth/ResetPasswordOTP.jsx:38-50 | for every password this meter and the login form's give the same label and colour, and the width the login form draws for that label |
| ResetPasswordOtp.Submit | frontend/src/pages/auth/ResetPasswordOTP.jsx:70-81 | "Enter 6-digit OTP" when the joined code is shorter than six UTF-16 code units; then "Passwords do not match"; the request is sent iff both checks pass, with `state?.email \|\| ""`, the joined code and the new password |
| ResetPasswordOtp.BoxesConcat | frontend/src/pages/auth/ResetPasswordOTP.jsx:72 | boxes of at most one digit join to at most one character per box, exactly one per box iff none is empty, and only digits |
| ResetPasswordOtp.SubmitNeedsEveryBox | frontend/src/pages/auth/ResetPasswordOTP.jsx:72-79 | with six valid boxes and matching passwords the request is sent iff every box is filled, and the code sent is then six digits |
| ResetPasswordOtp.Tick | frontend/src/pages/auth/ResetPasswordOTP.jsx:54-58 | one second of the countdown lowers it by one and stops at zero |
| ResetPasswordOtp.TicksCountDown | frontend/src/pages/auth/ResetPasswordOTP.jsx:54-58 | after n seconds the countdown has dropped by n, but not below zero |
| ResetPasswordOtp.Resend | frontend/src/pages/auth/ResetPasswordOTP.jsx:60-68 | a successful resend restarts the countdown at 45; a failed one leaves it |
| ResetPasswordOtp.CountdownEnds | frontend/src/pages/auth/ResetPasswordOTP.jsx:54-64 | after a resend the countdown reaches zero after exactly 45 seconds, and not before |
| ProfileSettings.ValidEmailOneAt | frontend/src/pages/user/ProfileSettings.jsx:19-20 | an address matching `^[^\s@]+@[^\s@]+\.[^\s@]+$` has no white space and exactly one `@` |
| ProfileSettings.ValidEmailIsLoose | frontend/src/pages/user/ProfileSettings.jsx:19-20 | every address this form accepts also passes the registration form's looser pattern |
| ProfileSettings.InitialFields | frontend/src/pages/user/ProfileSettings.jsx:9-10 | the form starts with the user's name and email when they are non-empty, and "" otherwise |
| ProfileSettings.IsFormValid | frontend/src/pages/user/ProfileSettings.jsx:22-25 | valid iff the trimmed name has at least three UTF-16 code units, the address matches, and the name or the address differs from the signed-in user's (every form counts as changed without a user) |
| ProfileSettings.UntouchedFormRefused | frontend/src/pages/user/ProfileSettings.jsx:9-25 | the form as it first appears can never be submitted |
| ProfileSettings.SubmitRequest | frontend/src/pages/user/ProfileSettings.jsx:27-33 | a request is sent iff the form is valid, and it carries the name and the email as typed |
| ProfileSettings.AfterReply | frontend/src/pages/user/ProfileSettings.jsx:33-37 | on success the returned user is merged into the signed-in one, its name and email replacing the stored ones and the other fields kept; on failure the signed-in user stays |
| ProfileSettings.Spread | frontend/src/context/AuthContext.jsx:66-70 | `{ ...user, ...updatedUser }`: each of name and email is the returned one when the server sent it, else the stored one |
| ProfileSettings.ResubmitRefused | frontend/src/pages/user/ProfileSettings.jsx:22-35 | once the server has echoed back what was submitted, submitting the same form again is refused |
| TicketsManagement.PageButtons | frontend/src/pages/admin/TicketsManagement.jsx:116-120 | the button list is the ascending run of pages from max(1, page − 2) to min(totalPages, page + 2); every button is an existing page, there are at most five, and the current page is among them when it exists |
| TicketsManagement.SafePage | frontend/src/pages/admin/TicketsManagement.jsx:243-245 | the page shown lies between 1 and max(1, ceil(total / perPage)): the requested page when it exists, 1 below the range and the last page above it |
| TicketsManagement.PageItems | frontend/src/pages/admin/TicketsManagement.jsx:247 | at most a page of rows: the run of the filtered list that starts at (safePage − 1) · perPage, cut at its end; never empty when the list is not |
| TicketsManagement.ShownMatchesItems | frontend/src/pages/admin/TicketsManagement.jsx:247 | for the page on display the "Showing a - b" caption starts at the position of its first row and counts exactly the rows shown |
| TicketsManagement.IndexOf | frontend/src/pages/admin/TicketsManagement.jsx:205-206 | the position of a status in `STATUS_ORDER`, which is the length of the list iff the status is not listed |
| TicketsManagement.PresentStatuses | frontend/src/pages/admin/TicketsManagement.jsx:204 | `new Set(statuses.filter(Boolean))`: each non-empty status some ticket has, once |
| TicketsManagement.StatusOptions | frontend/src/pages/admin/TicketsManagement.jsx:203-208 | the first option is "All" |
| TicketsManagement.StatusOptionsMembers | frontend/src/pages/admin/TicketsManagement.jsx:203-208 | after "All" the options are exactly the non-empty statuses some ticket has |
| TicketsManagement.StatusOptionsDistinct | frontend/src/pages/admin/TicketsManagement.jsx:203-208 | after "All" no option is listed twice |
| TicketsManagement.StatusOptionsOrder | frontend/src/pages/admin/TicketsManagement.jsx:205-207 | after "All" the statuses of `STATUS_ORDER` come first in workflow order, and the other statuses follow in ascending order |
| TicketsManagement.PipelineCounts | frontend/src/pages/admin/TicketsManagement.jsx:214-232 | the four optional filter steps together keep each ticket that passes every switched-on filter, as often as it occurs, and drop every other ticket |
| TicketsManagement.OrderTotal | frontend/src/pages/admin/TicketsManagement.jsx:233-239 | the comparator on `getValue` keys, ascending or descending, compares any two tickets |
| TicketsManagement.OrderTransitive | frontend/src/pages/admin/TicketsManagement.jsx:233-239 | the comparator chains, so tickets with equal keys keep the order the filters left them in |
| TicketsManagement.SortKey | frontend/src/pages/admin/TicketsManagement.jsx:233-238 | `getValue` gives lower-cased text, so the sort ignores the case of ASCII letters |
| TicketsManagement.Filtered | frontend/src/pages/admin/TicketsManagement.jsx:212-241 | each ticket passing the status, priority, department and search filters (each off at "All" or an empty query), as often as it occurs, and no other ticket; ordered by the chosen column's key, ascending for asc and descending for desc |
| TicketsManagement.SortedOutcome | frontend/src/pages/admin/TicketsManagement.jsx:239-240 | sorting the kept tickets keeps exactly the same tickets, each as often, in key order |
| TicketsManagement.NoFilterKeepsAll | frontend/src/pages/admin/TicketsManagement.jsx:213-232 | with every filter at "All" and a search of only white space, every ticket is kept |
| TicketsManagement.ToggleSort | frontend/src/pages/admin/TicketsManagement.jsx:339 | clicking the current column flips the direction; clicking another column sorts by it, descending |
| TicketsManagement.ToggleSortTwice | frontend/src/pages/admin/TicketsManagement.jsx:339 | two clicks on the same column give back the previous direction; two clicks on a new column sort it ascending |
| TicketsManagement.Toggled | frontend/src/pages/admin/TicketsManagement.jsx:249 | toggling an id flips its membership and no other id's |
| TicketsManagement.ToggleTwice | frontend/src/pages/admin/TicketsManagement.jsx:249 | toggling the same id twice gives back the selection |
| TicketsManagement.Selection.constructor | frontend/src/pages/admin/TicketsManagement.jsx:152-153 | the page starts with nothing selected and the page checkbox off |
| TicketsManagement.Selection.ToggleSelect | frontend/src/pages/admin/TicketsManagement.jsx:249 | the selection becomes the toggled selection; the page checkbox is untouched |
| TicketsManagement.Selection.ToggleSelectAllOnPage | frontend/src/pages/admin/TicketsManagement.jsx:250-253 | with the checkbox on, exactly the page's ids leave the selection and it turns off; with it off, exactly they join and it turns on; no other id changes |
| TicketsManagement.Selection.SyncSelectAll | frontend/src/pages/admin/TicketsManagement.jsx:254 | the checkbox stays on iff it was on and every id of the page is selected; the selection is untouched |
| TicketsManagement.Selection.Clear | frontend/src/pages/admin/TicketsManagement.jsx:283-297 | after a bulk action the selection is empty |
| TicketsManagement.BulkStatus | frontend/src/pages/admin/TicketsManagement.jsx:282 | the list keeps its length and order; each selected ticket takes the new status, each other keeps its own, and no other field changes |
| TicketsManagement.BulkDelete | frontend/src/pages/admin/TicketsManagement.jsx:297 | exactly the tickets whose id is not selected remain, each as often as before and in their previous order, so the ids left are the old ids minus the selection |
| ClientTicket.WithoutTicket | frontend/src/pages/admin/TicketsManagement.jsx:307 | the list a page keeps after deleting a ticket (also AdminDashboard.jsx line 150 and UserDashboard.jsx line 112): exactly the tickets with another id remain, each as often as before and in their previous order, and the deleted id is gone |
| TicketsManagement.ReplaceById | frontend/src/pages/admin/TicketsManagement.jsx:265 | the server's copy replaces each ticket with its id; every other ticket, the length and the set of ids stay |
| TicketsManagement.ExportValues | frontend/src/pages/admin/TicketsManagement.jsx:325-333 | one value per header, in header order, starting with the id and the title, with the status and the creation date in their places |
| TicketsManagement.ExportCells | frontend/src/pages/admin/TicketsManagement.jsx:315-316 | one escaped cell per header |
| TicketsManagement.ExportCellsRoundTrip | frontend/src/pages/admin/TicketsManagement.jsx:315-316 | every exported cell is one well-quoted CSV field that reads back as exactly its value, whatever quotes the value holds |
| TicketsManagement.ExportCsv | frontend/src/pages/admin/TicketsManagement.jsx:313-334 | no file iff there is no ticket to export; otherwise the header line, then for each ticket in order a newline and its escaped cells joined by commas |
| AdminDashboard.GetName | frontend/src/pages/admin/AdminDashboard.jsx:42-47 | "" for a missing reference; a string as it is; an object's non-empty name, else "" |
| AdminDashboard.GetId | frontend/src/pages/admin/AdminDashboard.jsx:49-54 | "" for a missing reference; a string as it is; an object's non-empty `_id`, else its non-empty `id`, else "" |
| AdminDashboard.Filtered | frontend/src/pages/admin/AdminDashboard.jsx:115-125 | a ticket stays iff each non-empty select matches its department id, priority id or status and the lower-cased, trimmed search is empty or occurs in the lower-cased haystack; kept tickets keep their multiplicity and no ticket is added |
| AdminDashboard.TitleMatchShows | frontend/src/pages/admin/AdminDashboard.jsx:116-123 | with the selects off, a ticket whose lower-cased title contains the search stays in the table |
| AdminDashboard.BlankSearchShowsAll | frontend/src/pages/admin/AdminDashboard.jsx:116-121 | with the selects off, a search of only white space keeps every ticket |
| AdminDashboard.TotalPages | frontend/src/pages/admin/AdminDashboard.jsx:91-127 | `max(1, ceil(n / 8))`: at least 1, enough pages of 8 for n tickets, and no empty page beyond the first |
| AdminDashboard.Paged | frontend/src/pages/admin/AdminDashboard.jsx:128 | at most 8 rows: the run of the filtered list starting at (page − 1) · 8, and nothing for a page past its end |
| AdminDashboard.ExistingPageNotEmpty | frontend/src/pages/admin/AdminDashboard.jsx:127-128 | every page from 1 to totalPages of a non-empty list shows at least one row |
| AdminDashboard.StatusPayload | frontend/src/pages/admin/AdminDashboard.jsx:130-136 | nothing is sent unless the change is confirmed; the payload carries the new status, and a resolution iff the status is "Resolved" and the prompt was answered (even with ""), which is then the answer |
| AdminDashboard.ChartLabel | frontend/src/pages/admin/AdminDashboard.jsx:160-169 | `getName(r) \|\| "Unknown"`: never empty; the reference's name, or "Unknown" when it has none |
| AdminDashboard.CountByLabel | frontend/src/pages/admin/AdminDashboard.jsx:157-173 | one entry per distinct label, each counting exactly the references with that label; every reference's label has an entry, and the counts add up to the number of references. The entries are in `Object.entries` order of the distinct labels (`Tally.JsKeyOrder` of them in first-occurrence order), which decides each slice's colour and the legend order. |
| AdminDashboard.TicketsByDept | frontend/src/pages/admin/AdminDashboard.jsx:157-164 | one entry per department label, counting the tickets under it, "Unknown" for a missing name; the counts add up to the number of tickets. The entries are in `Object.entries` order of the distinct labels (`Tally.JsKeyOrder` of them in first-occurrence order), which decides each slice's colour and the legend order. |
| AdminDashboard.TicketsByPriority | frontend/src/pages/admin/AdminDashboard.jsx:166-173 | one entry per priority label, counting the tickets under it, "Unknown" for a missing name; the counts add up to the number of tickets. The entries are in `Object.entries` order of the distinct labels (`Tally.JsKeyOrder` of them in first-occurrence order), which decides each slice's colour and the legend order. |
| AdminDashboard.RowValues | frontend/src/pages/admin/AdminDashboard.jsx:58-71 | one value per header column, in order: id, title, status, priority id and name, department id and name, creator `_id` and name, assignee `_id` and name, ISO creation date |
| AdminDashboard.RowAsWritten | frontend/src/pages/admin/AdminDashboard.jsx:58-71 | the row as written has one cell per header column |
| AdminDashboard.AsWrittenBreaksOnQuote | frontend/src/pages/admin/AdminDashboard.jsx:67 | as written, a creator named `O"Brien` gives a CreatedByName cell that is not a well-quoted CSV field, while the corrected row's cell is |
| AdminDashboard.AsWrittenAgrees | frontend/src/pages/admin/AdminDashboard.jsx:58-71 | while neither the creator's nor the assignee's name holds a quote, the row as written equals the corrected row |
| AdminDashboard.Row | frontend/src/pages/admin/AdminDashboard.jsx:58-71 | the corrected row has one cell per header column, all five quoted columns escaped alike |
| AdminDashboard.RowRoundTrip | frontend/src/pages/admin/AdminDashboard.jsx:60-69 | in the corrected row each quoted column is one well-quoted field that reads back as its value, and every other column is the value itself |
| AdminDashboard.ExportCsv | frontend/src/pages/admin/AdminDashboard.jsx:56-72 | as written: the header line, then for each ticket in order a newline and its row as written joined by commas |
| AdminDashboard.ExportCsvCorrected | frontend/src/pages/admin/AdminDashboard.jsx:56-72 | corrected: the header line, then for each ticket in order a newline and its corrected row joined by commas |
| AdminDashboard.ExportAgrees | frontend/src/pages/admin/AdminDashboard.jsx:67-69 | while no creator's or assignee's name holds a quote, the file as written is the corrected file |
| AdminDashboard.AsWrittenLosesQuotedNames | frontend/src/pages/admin/AdminDashboard.jsx:67-69 | as written, any creator or assignee name holding a quote is lost: its cell is not a well-quoted field or reads back as another value |
| AdminDashboard.Haystack | frontend/src/pages/admin/AdminDashboard.jsx:121 | the text searched is lower-cased and starts with the lower-cased title |
| AdminDashboard.HaystackFields | frontend/src/pages/admin/AdminDashboard.jsx:121-122 | the lower-cased description, department name, priority name and creator name all occur in the text searched |
| AdminDashboard.Shows | frontend/src/pages/admin/AdminDashboard.jsx:115-125 | a select that is on hides every ticket that does not match it, and a non-blank search hides every ticket whose text lacks it |
| UserDashboard.CountsOf | frontend/src/pages/user/UserDashboard.jsx:40-48 | total is the number of tickets, and each of the six counters is the number of times its state occurs among the tickets' statuses |
| UserDashboard.CountIsOccurrences | frontend/src/pages/user/UserDashboard.jsx:40-48 | the tickets that `filter` keeps for a state are as many as the occurrences of that state among the statuses |
| UserDashboard.CountsAddUp | frontend/src/pages/user/UserDashboard.jsx:40-48 | the six counters plus the tickets in no listed state add up to the total |
| UserDashboard.CountersCoverAll | frontend/src/pages/user/UserDashboard.jsx:40-48 | when every ticket is in one of the six states, the six counters add up to the total |
| UserDashboard.NewestFirst | frontend/src/pages/user/UserDashboard.jsx:59 | the newest-first comparator compares any two tickets and chains, and never puts an older ticket before a newer one |
| UserDashboard.FilteredTickets | frontend/src/pages/user/UserDashboard.jsx:50-60 | a ticket is listed iff its status is the chosen one (or the filter is "All") and its lower-cased title or description contains the lower-cased search, each as often as it occurs; newest first |
| UserDashboard.EmptySearchListsAll | frontend/src/pages/user/UserDashboard.jsx:51-58 | an empty search lists every ticket the status filter lets through |
| UserDashboard.SearchNotTrimmed | frontend/src/pages/user/UserDashboard.jsx:51 | the search is not trimmed: a single space hides a ticket titled "Printer" with no description |
| UserDashboard.TotalPages | frontend/src/pages/user/UserDashboard.jsx:22-62 | `ceil(n / 6)`: zero iff there is no ticket, enough pages of 6, and no empty last page |
| UserDashboard.Paginated | frontend/src/pages/user/UserDashboard.jsx:63-66 | at most 6 tickets: the run starting at (page − 1) · 6, and nothing for a page past the end |
| UserDashboard.NextPastEndAsWritten | frontend/src/pages/user/UserDashboard.jsx:209 | as written, with no ticket there are zero pages, yet Next is enabled on page 1 and leads to page 2, past every page |
| UserDashboard.NextEnabledAsWritten | frontend/src/pages/user/UserDashboard.jsx:209 | as written, Next is disabled only on the page equal to `totalPages`, so with zero pages it is enabled on every page |
| UserDashboard.AfterClick | frontend/src/pages/user/UserDashboard.jsx:199-213 | a click moves at most one page: Next goes to the next page whenever the page is below the last, Prev to the one before whenever the page is above 1, and otherwise the page stays |
| UserDashboard.ClicksStayInRange | frontend/src/pages/user/UserDashboard.jsx:199-213 | with Next enabled only before the last page, any click on Prev or Next keeps the page between 1 and max(1, totalPages) |
| UserDashboard.InRangePageNotEmpty | frontend/src/pages/user/UserDashboard.jsx:62-66 | a page in that range shows a ticket whenever there is one |
| UserDashboard.PriorityLabel | frontend/src/pages/user/UserDashboard.jsx:79 | `t.priority?.name \|\| "Unknown"` is never empty |
| UserDashboard.DepartmentLabel | frontend/src/pages/user/UserDashboard.jsx:88 | `t.department?.name \|\| "Unknown"` is never empty |
| UserDashboard.TicketsByStatus | frontend/src/pages/user/UserDashboard.jsx:68-74 | one entry per status present, each counting exactly the tickets in that status; every ticket's status has an entry, and the counts add up to the number of tickets. The entries are in `Object.entries` order of the distinct labels (`Tally.JsKeyOrder` of them in first-occurrence order), which decides each slice's colour and the legend order. |
| UserDashboard.TicketsByPriority | frontend/src/pages/user/UserDashboard.jsx:76-83 | one entry per priority label ("Unknown" for a missing name), each counting exactly its tickets, adding up to the number of tickets. The entries are in `Object.entries` order of the distinct labels (`Tally.JsKeyOrder` of them in first-occurrence order), which decides each slice's colour and the legend order. |
| UserDashboard.TicketsByDept | frontend/src/pages/user/UserDashboard.jsx:85-92 | one entry per department label ("Unknown" for a missing name), each counting exactly its tickets, adding up to the number of tickets. The entries are in `Object.entries` order of the distinct labels (`Tally.JsKeyOrder` of them in first-occurrence order), which decides each slice's colour and the legend order. |
| UserManagement.SplitWs | frontend/src/pages/admin/UserManagement.jsx:9 | `split(/\s+/)`: at least one part, none holding white space |
| UserManagement.SplitKeepsText | frontend/src/pages/admin/UserManagement.jsx:9 | the parts, put back together, are the text with its white space removed: splitting loses nothing else |
| UserManagement.SplitTrimmed | frontend/src/pages/admin/UserManagement.jsx:9 | splitting a trimmed non-empty name gives no empty part, and the first part starts with the name's first character |
| UserManagement.GetInitials | frontend/src/pages/admin/UserManagement.jsx:7-13 | "?" for a missing or empty name; otherwise at most two characters; for a name of several words exactly two, the first being the upper-cased first letter of the trimmed name |
| UserManagement.SeveralWordInitials | frontend/src/pages/admin/UserManagement.jsx:12 | for a name of several words the second initial is the upper-cased first letter of its last word, which is never empty |
| UserManagement.OneWordInitials | frontend/src/pages/admin/UserManagement.jsx:9-11 | a single word between white space gives its first two characters (or one, for a one-letter word), upper-cased |
| UserManagement.TwoWordInitials | frontend/src/pages/admin/UserManagement.jsx:9-12 | two words give the upper-cased first letters of the first and the last word |
| UserManagement.BlankNameInitials | frontend/src/pages/admin/UserManagement.jsx:8-11 | a name of only white space is truthy, so it gets not "?" but "" |
| UserManagement.CanModify | frontend/src/pages/admin/UserManagement.jsx:140-144 | false without a signed-in admin and on the row whose id equals the stored `_id`; true for a signed-in admin on any other row (a row whose id is the text "undefined" aside, which `String` of a missing `_id` spells) |
| UserManagement.RequestDemoteConfirm | frontend/src/pages/admin/UserManagement.jsx:131-138 | refused with the alert iff `String(currentUser._id) === String(user._id)`: the row's id equals the stored `_id`, or the stored user has no `_id` and the row's id is "undefined"; otherwise the confirm dialog opens for that user |
| UserManagement.ActionFor | frontend/src/pages/admin/UserManagement.jsx:181-213 | no action iff the stored `_id` equals the row's id; Demote iff another user is an admin, Promote iff another user is not; an enabled button means no change for that user is in flight, and an enabled Demote means the viewer may modify the user |
| UserManagement.RoleSent | frontend/src/pages/admin/UserManagement.jsx:207-234 | Promote sends "admin", a confirmed Demote sends "employee", and the "You" row sends nothing |
| UserManagement.NoSelfChange | frontend/src/pages/admin/UserManagement.jsx:131-144 | a row whose id equals the stored `_id` sends no role, refuses a demotion and cannot be modified |
| UserManagement.OidText | frontend/src/pages/admin/UserManagement.jsx:132 | `String(currentUser._id)`: the stored `_id`, or "undefined" when there is none |
| UserManagement.SelfDemoteAfterLogin | frontend/src/pages/admin/UserManagement.jsx:131-144 | as written, right after sign-in the stored user has `id` but no `_id`: the admin's own row is not recognised, shows an enabled Demote, the click opens the confirm dialog and the row sends "employee" |
| UserManagement.Account | frontend/src/context/AuthContext.jsx:37 | the account the stored user stands for: its `_id` when present, otherwise the `id` stored at sign-in |
| UserManagement.CanModifyById | frontend/src/pages/admin/UserManagement.jsx:140-144 | corrected: true iff a signed-in admin looks at a row that is not the viewer's own account |
| UserManagement.RequestDemoteById | frontend/src/pages/admin/UserManagement.jsx:131-138 | corrected: refused iff the row is the viewer's own account; otherwise the dialog opens for that user |
| UserManagement.ActionById | frontend/src/pages/admin/UserManagement.jsx:181-213 | corrected: no action iff the row is the viewer's own account; Demote iff another user is an admin; an enabled button means no change is in flight, and an enabled Demote means the viewer may modify the user |
| UserManagement.NoSelfChangeById | frontend/src/pages/admin/UserManagement.jsx:131-144 | corrected: one's own account sends no role, refuses a demotion and cannot be modified, after sign-in as well; whenever the stored `_id` is present the corrected row equals the row as written |
| UserManagement.RoleChangeFlips | frontend/src/pages/admin/UserManagement.jsx:195-234 | once the role a row sends is stored, the row offers the opposite action, and sending that restores the user |
| UserManagement.PageAfterQuery | frontend/src/pages/admin/UserManagement.jsx:84-86 | a change of search, sort field or direction goes back to page 1; otherwise the page stays |
| UserManagement.PagesShown | frontend/src/pages/admin/UserManagement.jsx:103 | `payload.pages \|\| 1` is at least 1, and is the server's count when that is positive |
| UserManagement.ClicksStayInRange | frontend/src/pages/admin/UserManagement.jsx:223-224 | Prev and Next keep the page between 1 and the page count, and a new query lands on page 1, which is always in range |
| UserManagement.AfterClick | frontend/src/pages/admin/UserManagement.jsx:223-224 | a click moves at most one page: Next goes to the next page whenever the page is below the count, Prev to the one before whenever the page is above 1, and otherwise the page stays |
| ClientTicket.NameOr | frontend/src/pages/admin/AdminDashboard.jsx:67-69 | `r?.name \|\| fallback` is the fallback, or the non-empty name of a populated reference |
| ClientTicket.IdsOf | frontend/src/pages/admin/AdminDashboard.jsx:150 | the set of ids of a ticket list holds each ticket's id and nothing else |
| Csv.EscapeRoundTrip | frontend/src/pages/admin/TicketsManagement.jsx:316 | `"${v.replaceAll('"', '""')}"` is one well-quoted field in the sense of section 2 of RFC 4180, and a reader recovers exactly v from it |
| Csv.NoQuotesUnchanged | frontend/src/pages/admin/AdminDashboard.jsx:67-69 | doubling the quotes of a value without quotes changes nothing |
| Csv.BareQuoteBreaks | frontend/src/pages/admin/AdminDashboard.jsx:67 | the value `O"Brien`, put between quotes undoubled, is not a well-quoted field |
| Csv.BareWrapLoses | frontend/src/pages/admin/AdminDashboard.jsx:67-69 | any value holding a quote, put between quotes undoubled, gives no field that reads back as that value |
| Csv.UndoubleShorter | frontend/src/pages/admin/TicketsManagement.jsx:316 | reading a field back never lengthens its inside, and shortens it when it holds a quote |
| Tally.TallyOf | frontend/src/pages/admin/AdminDashboard.jsx:157-163 | the `forEach` that bumps `map[key]` followed by `Object.entries` yields each distinct key once, in `Object.entries` order (index keys ascending, then the others by first occurrence), paired with its number of occurrences |
| Tally.FillCounts | frontend/src/pages/admin/AdminDashboard.jsx:158-162 | after the loop the object holds exactly the keys seen, each with its number of occurrences, inserted in first-occurrence order |
| Tally.EntriesKeys | frontend/src/pages/admin/AdminDashboard.jsx:163 | every entry's key occurs in the list, every key of the list has an entry, and no key has two |
| Tally.EntriesSum | frontend/src/pages/admin/AdminDashboard.jsx:157-163 | each entry counts exactly the occurrences of its key, which are at least one, and the counts add up to the length of the list |
| Tally.CountKeys | frontend/src/pages/user/UserDashboard.jsx:68-74 | one entry per distinct key, each counting exactly its key's occurrences, every key covered, adding up to the length of the list, the keys in `Object.entries` order |
| Tally.FirstSeenOrder | frontend/src/pages/admin/AdminDashboard.jsx:163 | when no key is an array index, `Object.entries` lists the keys in the order they first occur |
| Tally.JsKeyOrder | frontend/src/pages/admin/AdminDashboard.jsx:163 | `Object.entries` lists each key of the object once, as often as it was inserted, and no other |
| Tally.JsKeyOrderShape | frontend/src/pages/admin/AdminDashboard.jsx:163 | the keys that are array indices come first, in ascending numeric order; the other keys follow in insertion order |
| Tally.JsKeyOrderDistinct | frontend/src/pages/admin/AdminDashboard.jsx:163 | keys inserted once each are listed once each |
| Tally.NoIndexKeysInOrder | frontend/src/pages/admin/AdminDashboard.jsx:163 | without index keys the listing is the insertion order |
| Tally.IndexKeysAscend | frontend/src/pages/user/UserDashboard.jsx:82 | keys inserted as "3" and then "1" are listed as "1" and then "3" |
| Tally.TwoIndexKeysSwap | frontend/src/pages/admin/AdminDashboard.jsx:163 | two index keys inserted larger value first are listed smaller value first |
| Tally.ObjectEntries | frontend/src/pages/admin/AdminDashboard.jsx:172 | one pair per key of the object, in `Object.entries` order, each with the key's value |
| Tally.ObjectEntriesTallied | frontend/src/pages/admin/AdminDashboard.jsx:166-172 | once the loop has read every key, the entries are the distinct keys in `Object.entries` order with their numbers of occurrences |
| Sorting.SortBy | frontend/src/pages/admin/TicketsManagement.jsx:239 | `Array.prototype.sort` with a total comparator returns the same elements, each as often, in comparator order |
| Sorting.SortByKeepsElements | frontend/src/pages/user/UserDashboard.jsx:59 | sorting neither adds nor drops an element |
| Sorting.SortByStable | frontend/src/pages/admin/TicketsManagement.jsx:239 | `Array.prototype.sort` is stable: with a total, transitive comparator the elements that tie with any given one keep their relative order |
| Common.CeilDiv | frontend/src/pages/user/UserDashboard.jsx:62 | `Math.ceil(a / b)`: the least number of b-sized pages that hold a items |
| Common.PageCount | frontend/src/pages/admin/TicketsManagement.jsx:244 | `Math.max(1, Math.ceil(a / b))`: at least 1, enough b-sized pages for a items, and no empty page beyond the first |
| Common.JsSlice | frontend/src/pages/user/UserDashboard.jsx:63-66 | `Array.prototype.slice(start, end)` never grows the list, holds at most end − start items, and is the plain slice when the bounds lie inside the list |
| Common.Filter | frontend/src/pages/admin/TicketsManagement.jsx:215 | `Array.prototype.filter` keeps no more elements than it was given, and an element is kept iff it is in the list and passes |
| Strings.TrimIsCore | frontend/src/utils/validation.js:3 | `String.prototype.trim` removes exactly the white space at both ends, leaving a run of the text that neither starts nor ends with white space |
| Strings.TrimIdempotent | backend/models/user.model.js:6-7 | trimming twice is trimming once |
| Strings.TrimEmptyIff | frontend/src/utils/validation.js:3-4 | a string trims to "" iff it is all white space |
| Strings.TrimPadding | backend/controllers/authController.js:23 | white space around a string does not change its `trim` |
| Strings.TrimStartAfterWhite | backend/controllers/authController.js:23 | white space in front of a string is all removed by the leading trim |
| Strings.TrimEndBeforeWhite | backend/controllers/authController.js:23 | white space behind a string is all removed by the trailing trim |
| Strings.TrimStartAppend | backend/controllers/authController.js:23 | once a string holds something other than white space, the leading trim stops inside it |
| Strings.LowerTrimCommute | frontend/src/pages/admin/AdminDashboard.jsx:116 | `toLowerCase().trim()` and `trim().toLowerCase()` agree on every string |
| Strings.ContainsIff | frontend/src/pages/admin/TicketsManagement.jsx:231 | `includes` holds iff the needle occurs at some position of the text |
| Strings.StrLeTotal | frontend/src/pages/admin/TicketsManagement.jsx:239 | the comparison of strings, character by character in code-point order, relates any two strings |
| Strings.StrLeTrans | frontend/src/pages/admin/TicketsManagement.jsx:239 | the comparison of strings is transitive |
| Strings.StrLeAntisym | frontend/src/pages/admin/TicketsManagement.jsx:239 | two strings each at most the other are equal |
| Strings.DecimalString | backend/controllers/userController.js:99 | `n.toString()` is a run of decimal digits without a leading zero |
| Strings.DecimalRoundTrip | backend/controllers/userController.js:99 | reading the decimal text of n back gives n |
| Strings.SixDigits | backend/controllers/userController.js:99 | a number from 100000 to 999999 prints as exactly six digits, so every code the server issues has six |
| AuthController.CreateUser | backend/controllers/authController.js:30-36 | the `User.create` step: a name that trims to nothing or an empty address makes the required validators refuse the document (500, nothing stored); otherwise exactly one user is added under the new id, with the trimmed name and the given address, and the caller can then log in with the password |
| TicketController.CopyWhitelisted | backend/controllers/ticketController.js:174-180 | the loop over the six whitelisted paths leaves the ticket as the field-by-field application of the update to those paths |
| TicketController.CreatedBy | backend/controllers/ticketController.js:89 | `find({ createdBy })` keeps each ticket whose creator is the user exactly once, and no other |
| UserController.OrderedListing | backend/controllers/userController.js:38-40 | the users the filter matches, each once and nothing else, sorted by the requested field and direction |
| UserController.ProfilesOf | backend/controllers/userController.js:39 | `select("-password -resetOtp -resetOtpExpires")`: one public profile per listed user, in the listing's order |
| TicketController.TicketStore.GetAllTickets | backend/controllers/ticketController.js:102-109 | every stored ticket exactly once and nothing else, newest first, with 200 |
| TicketController.TicketStore.GetTicketById | backend/controllers/ticketController.js:117-131 | 400 for an id that is not an ObjectId, 404 for an unknown one, and otherwise 200 with exactly the stored ticket |

## Left out

- Email delivery (`sendEmail`, `emailService`, the OTP mail template): every handler that mails catches a delivery failure and answers as if the mail went out, so delivery never changes a reply or the stored state and is not modelled.
- bcrypt, SHA-256, JWT signing and `ObjectId.isValid` are abstract functions in `Services`; salts, token contents and expiry are not modelled. `bcrypt.compare` is modelled as equality of hashes.
- `Math.random()` is a parameter in [0, 1); the clock is an integer parameter.
- `populate`, `lean` and `select` are modelled as their effect on the returned data, not as database queries: `select("-password")` in `getUserProfile` and `updateProfile` leaves the reset code and its expiry in the reply (`UserController.OwnProfile`), while the listing and the role change drop them too (`UserController.Profile`). The `$regex` search of `getAllUsers` is an abstract case-insensitive match parameter, and whether the database accepts the search as a pattern is a second parameter.
- `getAdvancedStats`: a MongoDB aggregation pipeline (group by department, lookup) whose semantics are the database's.
- `logoutUser`: sends a constant reply and changes no state.
- The `11000` duplicate-key branches of the department handlers (`createDepartment` and `updateDepartment`; the priority handlers have none): they cannot be reached, because the handlers look the name up first, and concurrent requests are not modelled.
- Concurrency: requests run one at a time; the races between read and write and the failure of one half of a `Promise.all` are not modelled.
- Dates are integers (server) or ISO strings (client), compared as such; time zones, `toLocaleString` and `Date` parsing are left out.
- The monthly trend charts of both dashboards: they group tickets by the year and month of `getFullYear()` and `getMonth()`, which read the date in the browser's local time zone, and time zones are not modelled.
- The department and priority option lists of the ticket page: they are ordered by `localeCompare`, which depends on the locale.
- String order is code-point order, and case mapping covers ASCII only. `localeCompare` and full Unicode case mapping are left out. JavaScript's `<` on strings compares UTF-16 code units, which differs from code-point order only between a character above U+FFFF and one in U+E000 to U+FFFF.
- Format.Truncate: a cut that falls inside a surrogate pair keeps a lone high surrogate in JavaScript; a Dafny string cannot hold one, so the model ends the prefix one code unit earlier.
- UserManagement.GetInitials: `slice(0, 2)` and `[0]` count UTF-16 code units, so for a character above U+FFFF JavaScript keeps half of it; the model takes whole characters, and upper-casing covers ASCII letters only.
- The `updatedAt` path: `timestamps: true` (ticket.model.js:30, user.model.js:13) has Mongoose stamp it on every save, and the model does not hold it. TicketController.MergedFields, TicketController.MergeTwice and the UserStore handlers state what happens to the modelled paths only.
- UserController.UserStore.GetAllUsers: `parseInt` of a page or limit that is not a number gives NaN, which `Math.max` passes on to `skip`, `limit` and the reply; the query holds integers only, so that case is not modelled.
- UserController.UserStore.GetAllUsers: each user in `data` is its id, name, email and role; the `createdAt`, `updatedAt` and `__v` paths the selection keeps are not in `Profile`.
- UserController.UserStore.UpdateUserRole: the returned user is its id, name, email and role; the `createdAt`, `updatedAt` and `__v` paths the selection keeps are not in `Profile`.
- Tally.TallyOf: the count object is a plain `{}`, which inherits from `Object.prototype`; a key such as "constructor" or "toString" starts from the inherited function instead of undefined, and a key "__proto__" is never stored. The model counts every key as an own property, so its exact counts hold only for keys that are not names of `Object.prototype`.
- Tally.FillCounts: the same inherited keys; the exact count per key holds only for keys that are not names of `Object.prototype`.
- Tally.CountKeys: the same inherited keys; for them the source's entries hold a text instead of a count, or miss the key, so the counts no longer add up.
- AdminDashboard.CountByLabel: a department or priority named after an `Object.prototype` member is counted wrongly by the source, as for Tally.TallyOf; the model counts it exactly.
- AdminDashboard.TicketsByDept: as AdminDashboard.CountByLabel, for department names such as "constructor" or "__proto__".
- AdminDashboard.TicketsByPriority: as AdminDashboard.CountByLabel, for priority names such as "constructor" or "__proto__".
- UserDashboard.TicketsByPriority: as Tally.TallyOf, for priority names such as "constructor" or "__proto__".
- UserDashboard.TicketsByDept: as Tally.TallyOf, for department names such as "constructor" or "__proto__".
- ClientTicket.Ref: the `departmentId` and `departmentName` fallbacks of the tickets page (TicketsManagement.jsx:57, 180-181, 227, 236, 329, 340) are not modelled; the server always populates `department`, so for its data they never apply.
- The file download of the CSV exports (`Blob`, object URLs), the PDF export and `window.print`.
- React rendering, effects, `debounce`, toasts, confirmation modals and navigation. Only the state each handler computes is modelled, plus the one-second tick of the resend countdown.
- Text fields that arrive as `null` or as non-strings (except where a handler's branch depends on it) are not modelled.
- The authentication and admin middleware, the route tables, the database connection and the server start-up.
- `AdminDashboard.StatusPayload`: the default text of the notes prompt is not modelled; the notes are a parameter.

## Findings

| source | as written | input that shows it | evidently intended | confidence | as-written member | corrected member |
|---|---|---|---|---|---|---|
| backend/utils/emailTemplates.js:20-30 | the created-ticket mail interpolates `ticket.priority`, which the handler has populated into an object | a ticket whose priority is the populated document of "High" prints "[object Object]" as its priority | print the priority's name, as the department line does | not executed | EmailTemplates.CreatedAsWrittenShowsObject | EmailTemplates.CreatedNamesPriority |
| frontend/src/pages/admin/AdminDashboard.jsx:67-69 | the creator and assignee names are put between double quotes without doubling the quotes inside them | a creator named `O"Brien` gives the field `"O"Brien"`, which is not a well-formed CSV field | escape the names as the title and description are escaped | not executed | AdminDashboard.AsWrittenBreaksOnQuote | AdminDashboard.ExportCsvCorrected |
| frontend/src/pages/admin/UserManagement.jsx:131-144 | the own-row checks compare `currentUser._id`, which sign-in and registration never store: they store the account id under `id` (frontend/src/context/AuthContext.jsx line 37) | an admin who has just signed in sees an enabled Demote on their own row, and confirming it sends "employee" | compare the account id the stored user carries | not executed | UserManagement.SelfDemoteAfterLogin | UserManagement.NoSelfChangeById |
| frontend/src/pages/user/UserDashboard.jsx:209 | `totalPages` (line 62) is `Math.ceil(n / pageSize)`, which is 0 with no tickets, and Next is disabled only when `page === totalPages` | with no tickets, page 1 differs from 0, so Next is enabled and moves to page 2 | at least one page, so Next is disabled on the last page | not executed | UserDashboard.NextPastEndAsWritten | UserDashboard.ClicksStayInRange |
