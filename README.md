# LMS core — a Dafny model

This project models the core of a small learning-management system. The
system has three parts:

- An Express API server backed by MongoDB. It covers OTP password reset,
  registration, login and session lookup, learner profiles, course CRUD,
  banning users, and the "courses with enrolled users" report.
- The learner dashboard `Home`. It works out which course to load and when a
  banned learner is logged out. It also tracks course progress, completion
  checkboxes and the expand/collapse state of sections and chapters.
- The client-side validation of the `Register` form.

## Modules

- `Base`: `Option` and a sequence helper.
- `Text`: JavaScript's `trim` and ASCII `toLowerCase`, plus the email
  normalisation the server applies (`Normalize = Lower ∘ Trim`),
  `String.prototype.includes`, and decimal rendering of indices.
- `Courses`: the Mongoose course schema as datatypes. It covers the
  required-field validation on create and the "replace each supplied field"
  semantics of `findByIdAndUpdate`.
- `Server`: the server's state as the class `Lms`. The fields are the users,
  profiles, banned emails, courses and the in-memory OTP store. The
  collections are seqs or maps that each route reassigns, and each route is a
  method of `Lms`. Each method's `ensures` states the exact reply (status and
  message) and the whole new state for every branch, including the id counter `nextId`. `Lms.Valid` is the
  invariant the routes keep:
  - ids are fresh;
  - one user, one ban and one profile per email;
  - course ids are unique.

  The pure parts are functions with lemmas:
  - `GetOrCreate` lazily creates the default profile, and is idempotent.
  - `Grouping` is the report of courses with their enrolled users. The loop
    in `CoursesWithUsers` is proved to compute it.
  - `ResetPassword` rewrites a password, and touches exactly one account.
- `Home`: the dashboard.
  - `CalculateProgress` is the nested loop of `calculateProgress`. It is
    proved to count the subchapters of the course.
  - `ProgressPercentage` is `Math.round(completed / total * 100)` in exact
    integer arithmetic.
  - Checkbox keys `"s-c-i"` are proved injective. So toggling one subchapter
    leaves every other subchapter's checkbox alone.
- `RegisterForm`: the validation chain of the `Register` form. The email
  regular expression `^[^\s@]+@[^\s@]+\.[^\s@]+$` is given both as a
  structural match and as a plain reading, and the two are proved
  equivalent.
- `Scenarios`: multi-request scenarios run against `Lms`:
  - registering the same address twice;
  - a full OTP password reset, after which the old password is refused and
    the new one accepted;
  - an OTP cannot be used twice;
  - ban then unban.

Some behaviour follows the code as written (the model does the same):

- Registration creates only a `User`. The profile is created later, by the
  first `/api/current-user` or `/api/profile` request.
- Registering an existing email answers 400 "User already exists".
- Login with a banned email answers 401, not 403.
- Verifying an OTP for an email with no pending OTP answers 400.
- `PUT /api/profile` without an uploaded file sets `profileImage` to the body
  value, or `''` when there is none. It does not keep the stored path.
- `PUT /api/courses/:id` runs no schema validators, so it can blank out
  required fields.

Boundaries of the model:

- bcrypt is modelled as an injective digest `Bcrypt(secret)`.
- `Math.random` is a nondeterministic choice of digit.
- `Date.now()` is a `now` parameter.
- Mail delivery is a `mailDelivered` parameter. The route ignores the mail
  outcome, so the model does too.
- The multer upload is an `upload: Option<string>` file name.
- MongoDB `_id`s are natural numbers drawn from the counter `nextId`.

## Model

| member | source | states |
|---|---|---|
| Server.GenerateOtp | api/server.js:102-109 | the code has exactly `length` characters, each a decimal digit |
| Server.OtpCodeIsTrimmed | api/server.js:278-299 | a generated code is unchanged by the `trim` applied to the submitted OTP, and is non-empty, so it passes the missing-field check |
| Server.Lms.RequestOtp | api/server.js:257-272 | with the email normalised: 404 "User not found" when no account has it; otherwise stores a 6-digit code expiring 5 minutes after `now` under that email, answers "OTP sent to email", and changes nothing else |
| Server.Lms.VerifyOtp | api/server.js:275-322 | checks in source order: missing fields 400; no pending OTP 400; expired 400 (entry removed); wrong code 400; unknown user 404 (entry kept); otherwise the password is replaced by the hash of the trimmed new password, the entry is removed, and the reply is 200 |
| Server.ResetOneAccount | api/server.js:305-313 | resetting the password of the account found by email changes that account's password and no other account, and keeps unique emails |
| Server.Lms.Register | api/server.js:325-348 | an existing normalised email gives 400 "User already exists"; an empty email fails validation (500); otherwise exactly one user is added with the hashed trimmed password, and the reply is 201 |
| Server.Lms.Login | api/server.js:351-385 | banned 401, unknown 401 "User not found", wrong password 401 "Invalid credentials"; success puts the normalised email in the session; the stored data is unchanged |
| Server.Hash | api/server.js:337 | the digest is determined by, and determines, the password it was made from |
| Server.Matches | api/server.js:371 | `compare` accepts a password exactly when the digest was made from it |
| Server.GetOrCreate | api/server.js:401-410 | an existing profile is returned with the profiles unchanged; otherwise a profile for the email is appended and returned, and is then the one found |
| Server.Lms.GetOrCreateProfile | api/server.js:401-410 | returns the profile stored for the email, creating the default profile ("Default Name", "default-profile.png", no course) when there is none |
| Server.GetOrCreateIdempotent | api/server.js:441-450 | a second lookup after a create finds the created profile and adds nothing |
| Server.Populate | api/server.js:401 | `populate('selectedCourse')` replaces the course id by the course document with that id, or by null when it no longer exists |
| Server.Lms.CurrentUser | api/server.js:388-420 | no session gives 401 "Not authenticated"; a banned session email gives 401 "This account has been banned."; otherwise the populated profile, created on first use |
| Server.Lms.GetProfile | api/server.js:427-456 | empty email 400; banned 401; otherwise the populated profile, created on first use |
| Server.Lms.CreateProfile | api/server.js:459-475 | any empty required field gives 400; a duplicate email gives 500 (unique index); otherwise appends one profile whose image is the upload path or the default image, and the reply is 200 with that profile |
| Server.Lms.UpdateProfile | api/server.js:478-500 | empty email 400; unknown 404; empty name 500; otherwise only name, course and image of that profile change (image: upload path, else the body value) |
| Server.FindProfile | api/server.js:489 | returns the index of the first profile with the email, and none exactly when no profile has it |
| Courses.NewCourse | api/server.js:527-538 | a course is built exactly when title, description and category are present and non-empty and every nested required title is; fields are stored as given, with defaults for sections, enrollments and timestamps |
| Server.Lms.CreateCourse | api/server.js:566-576 | valid data appends one course with a fresh id and replies 201; invalid data replies 500 and changes nothing |
| Server.Lms.ListCourses | api/server.js:542-550 | returns every stored course, in store order |
| Courses.FindCourse | api/server.js:556 | returns the index of the first course with the id, and none exactly when no course has it |
| Server.Lms.GetCourse | api/server.js:553-563 | returns the stored course with that id, or 404 "Course not found" |
| Courses.ApplyUpdate | api/server.js:579-591 | each supplied field replaces the stored one, each absent field is kept, the id and creation time never change, and `updatedAt` becomes `now` |
| Courses.UpdateReplacesSections | api/server.js:584 | supplied sections replace the whole section list rather than merging |
| Courses.UpdateIdempotent | api/server.js:582-584 | sending the same update body twice at the same time gives the same course as sending it once |
| Courses.UpdateSkipsValidation | api/server.js:584 | an update with an empty title is stored as is, so a course can lose a field its schema requires |
| Server.Lms.UpdateCourse | api/server.js:579-591 | unknown id 404; otherwise only that course changes, to `ApplyUpdate` of it |
| Server.Lms.DeleteCourse | api/server.js:594-604 | unknown id 404; otherwise exactly that course is removed, and profiles keep their now-dangling course ids |
| Server.WithoutProfile | api/server.js:635 | `findOneAndDelete` removes the first profile with the email and keeps the others in order; nothing changes when there is none; under unique emails none is left |
| Server.Lms.BanUser | api/server.js:618-641 | unknown id 404; otherwise the email is banned once, even when it was already banned; the account and its profile are removed, and nothing else changes |
| Server.Lms.UnbanUser | api/server.js:655-667 | unknown ban id 404 "Banned user not found"; otherwise exactly that ban is removed |
| Server.Grouping | api/server.js:676-701 | one group per course, in course order, each holding the entries of the profiles enrolled in it |
| Server.EnrolledInMembership | api/server.js:685-699 | a profile's entry appears in a course's group exactly when some profile with that entry has selected that course |
| Server.EnrolledInAppend | api/server.js:685-699 | processing one more profile only appends to the group of the course it selected |
| Server.UnenrolledDropped | api/server.js:686-691 | profiles with no course, or with a course that no longer exists, appear in no group |
| Server.Lms.CoursesWithUsers | api/server.js:670-706 | the two loops over courses and profiles return exactly `Grouping(courses, profiles)` |
| Text.Trim | api/server.js:259 | the result is the input with its leading and trailing JavaScript whitespace removed, and neither end of it is whitespace |
| Text.NormalizeIdempotent | api/server.js:327 | normalising an already normalised email changes nothing, so stored emails match normalised lookups |
| Text.ParseNatToString | src/components/Home.jsx:263 | the decimal rendering of an index reads back as that index |
| Text.NatToStringInjective | src/components/Home.jsx:263 | distinct indices render to distinct strings |
| Text.ContainsAt | src/components/Home.jsx:57 | `includes` holds whenever the needle occurs at some position |
| Text.ContainsOccurs | src/components/Home.jsx:57 | `includes` holds only when the needle occurs at some position (with `ContainsAt`, exactly then) |
| Text.Contains | src/components/Home.jsx:57 | `includes` can hold only when the needle is no longer than the text |
| Text.Lower | src/components/Home.jsx:57 | `toLowerCase` keeps the length and maps each character on its own |
| Text.Normalize | api/server.js:327 | the model's ASCII reading of `trim().toLowerCase()` never lengthens an address, leaves no ASCII capital letter, and leaves no white space at either end |
| Home.CourseToLoad | src/components/Home.jsx:39-50 | a `courseId` query parameter wins; otherwise the populated course's id, or the raw id when it was not populated; otherwise nothing is loaded |
| Home.BanMentionForcesLogout | src/components/Home.jsx:53-61 | a 401 reply whose message mentions "banned" forces a logout |
| Home.BannedProfileReplyForcesLogout | src/components/Home.jsx:53-61 | the server's banned reply to a profile request forces the dashboard to log out |
| Home.LogoutNeedsBanMention | src/components/Home.jsx:53-58 | a logout is forced only by a 401 whose lowercased message contains "banned" at some position: any other error leaves the learner logged in |
| Home.ForcesLogout | src/components/Home.jsx:53-58 | the banned-response test holds only for a response with a message of at least six characters |
| Home.TotalSubChapters | src/components/Home.jsx:97-101 | no course counts 0, and every section contributes its sub-chapters to the total |
| Home.CompletedCount | src/components/Home.jsx:102 | the completed count never exceeds the number of keys in the map |
| Home.SectionsTotalAppend | src/components/Home.jsx:97-101 | the subchapter total over sections is additive |
| Home.CalculateProgress | src/components/Home.jsx:94-104 | `total` is the number of subchapters of the course, `completed` the number of checked keys, and both are 0 when no course is loaded |
| Home.RenderedKeys | src/components/Home.jsx:262-263 | every key the page can render for the course (once the section and chapter are expanded) is counted, and they number exactly the course's subchapter total |
| Home.SubChapterKeyInjective | src/components/Home.jsx:263 | distinct (section, chapter, subchapter) positions get distinct keys |
| Home.CompletedWithinCourse | src/components/Home.jsx:102 | when only rendered keys are checked, `completed` is at most `total` |
| Home.ProgressPercentage | src/components/Home.jsx:107 | the result is `completed/total*100` rounded to the nearest integer, halves up, and 0 when the total is 0 |
| Home.PercentageBounds | src/components/Home.jsx:107 | the percentage is at most 100 when completed ≤ total, exactly 100 when all are completed, and 0 when none are |
| Home.ToggleCompleted | src/components/Home.jsx:272-275 | flips the checked state of one key and keeps every other key |
| Home.ToggleTwice | src/components/Home.jsx:274 | toggling a key twice leaves it checked exactly when it was checked before |
| Home.ToggleCount | src/components/Home.jsx:274 | a toggle changes the completed count by exactly one, up or down by the key's previous state |
| Home.ToggleSubChapterIsolated | src/components/Home.jsx:263-275 | toggling one subchapter's checkbox leaves every other subchapter's checkbox unchanged |
| Home.ToggleSection | src/components/Home.jsx:201 | clicking the expanded section collapses it; clicking another section expands only that one |
| Home.ToggleChapter | src/components/Home.jsx:221-227 | flips the one clicked chapter's expanded state and keeps all other chapters of all sections |
| RegisterForm.EmailPatternCharacterised | src/components/Register.jsx:39-40 | the regular expression matches exactly a non-empty run without whitespace or `@`, then `@`, then a domain holding some `.` that is neither its first character nor the last character of the address |
| RegisterForm.MatchesEmailPattern | src/components/Register.jsx:39-40 | a string the pattern matches contains an `@` and has at least five characters |
| RegisterForm.Validate | src/components/Register.jsx:31-62 | each error message is returned exactly when its check fails and every earlier one passes; otherwise the email and password are submitted unchanged |
| RegisterForm.SubmittedEmailSurvivesTrim | src/components/Register.jsx:59-62 | an email the form submits has no surrounding whitespace, so the server's trim leaves it as is |
| RegisterForm.LengthCheckPrecedesServerTrim | src/components/Register.jsx:46-50 | the length check counts untrimmed characters: a password accepted by the form can be shorter than 6 after the server trims it |
| Scenarios.RegisterTwice | api/server.js:331-335 | registering the same address a second time answers 400 "User already exists" |
| Scenarios.PasswordReset | api/server.js:299-314 | after a full OTP reset, login with the old password gives 401 "Invalid credentials" and login with the new password succeeds |
| Scenarios.OtpSingleUse | api/server.js:287-314 | after a successful reset the same OTP is refused as not sent or expired |
| Scenarios.BanThenUnban | api/server.js:358-368 | while banned, login answers "This email has been banned."; after the unban, login answers "User not found", because the account was deleted |

## Left out

- Server.Lms.RequestOtp: sending the email (nodemailer, HTML body) is not modelled. The route replies the same whether or not the mail was sent, so `mailDelivered` is ignored.
- Server.GenerateOtp: `Math.random` is a nondeterministic digit choice, so no distribution is stated.
- Server.Hash: bcrypt's salt and cost factor are not modelled. The digest is injective, so `compare` holds exactly for the hashed password. bcrypt reads only the first 72 bytes of a password, so in the source two passwords sharing those bytes match the same hash; Scenarios.PasswordReset's refusal of the old password holds in the model only because `Hash` is injective.
- Server.Lms.VerifyOtp: `otpStore` is a plain JavaScript object in the source, and the model treats it as a map. With no OTP stored, the key `constructor` reads the inherited property, so the source answers "Invalid OTP" where the model answers "OTP not sent or expired".
- Server.Lms.RequestOtp: for the key `__proto__`, storing the OTP sets the object's prototype, and the later `delete` does nothing. So in the source the same code keeps working until it expires, which Scenarios.OtpSingleUse does not capture.
- Home.ProgressPercentage: the rounding is exact rational rounding. IEEE-754 error in `completed / total * 100` before `Math.round` is not modelled.
- Text.Lower: maps ASCII letters only. Unicode case mapping is not modelled; in JavaScript it can lengthen a string (`"İ".toLowerCase()` has two code units).
- Server.Lms.GetProfile, Server.Lms.UpdateCourse: query and body values are modelled as strings and as the listed course fields; object, array and `$`-operator inputs are not modelled. Express's query parser turns `?email[$regex]=^bob` into an object, which passes the `!email` check, so the ban and profile lookups run a pattern query and can return another address's profile. A course update body such as `{"$inc": {"enrollments": 1}}` or `{"$unset": {"sections": 1}}` is applied as a MongoDB operator, not as "each supplied field replaces the stored one".
- RegisterForm.Validate: length is counted in code points, where JavaScript counts UTF-16 code units. The two differ only for characters outside the Basic Multilingual Plane.
- Database and runtime failures are not modelled. Inside a handler's `try` block they answer 500. Some steps run outside any `try`: the `.trim()` of a missing body field in request-otp, verify-otp, register and login, and the lookups before their `try` blocks (all of request-otp). A failure there is an unhandled promise rejection. The request gets no answer, and on Node 15 or later the server process exits, which empties `otpStore` and the in-memory sessions. The model's handlers always answer and never lose that state.
- Malformed ObjectId strings (a `CastError`, hence 500) are not modelled. Ids are naturals.
- Concurrency between interleaved requests is not modelled. Each route runs atomically; in the source a request can interleave with others at each `await`.
- JSON `null` values in a course update body are not modelled (an absent field keeps the stored value).
- A client-supplied `_id`, `createdAt` or `updatedAt` in course bodies is not modelled.
- Sub-document `_id`s of sections, chapters and subchapters are not modelled.
- The session store is not modelled: cookie options, its 24-hour lifetime and `express-session` persistence. A session is an optional email.
- `GET /api/users` and `GET /api/banned-users` are not modelled. They return a collection unchanged, as the `users` and `banned` fields do.
- CORS, static file serving, the admin login page, the SPA fallback route and the server start-up are not modelled. They hold no logic beyond wiring.
- Multer's file naming is not modelled. The uploaded file name is a parameter.
- The React rendering, effects and the 20-second polling are not modelled. Also left out: `handleProfileUpdate` and `handleLogout`, whose only logic is the HTTP request modelled server-side; the other components; and the `alert` and `navigate` side effects.
- The `Home` course document keeps only the fields the progress logic reads (titles and the optional section/chapter/subchapter arrays).
