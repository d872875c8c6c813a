/** The account, one-time-password, profile, ban and course service of the
    API server. The five collections it works on are the fields of one
    object, `Lms`; every HTTP handler is a method of it that returns the
    response's status and body and changes the collections as the handler
    does. Clock readings, uploaded file names and the outcome of sending
    mail are parameters. */
module Server {
  import opened Base
  import opened Text
  import opened Courses

  /** A stored password hash. bcrypt is outside the model: the digest of a
      password is a value that determines the password it was made from. */
  datatype Digest = Bcrypt(secret: string)

  /** `bcrypt.hash(password, 10)`, without the salt: different passwords
      get different digests. */
  function Hash(password: string): (d: Digest)
    ensures d.secret == password
  {
    Bcrypt(password)
  }

  /** `bcrypt.compare(password, digest)`: a digest accepts the password it
      was made from and no other. */
  predicate Matches(password: string, digest: Digest)
    ensures Matches(password, digest) <==> digest.secret == password
  {
    digest == Hash(password)
  }

  datatype User = User(email: string, password: Digest)

  datatype Profile = Profile(email: string, name: string, selectedCourse: Option<Id>, profileImage: string)

  datatype BannedEmail = BannedEmail(email: string, bannedAt: int)

  datatype OtpRecord = OtpRecord(otp: string, expiry: int)

  /** What a successful login stores in the caller's session: `{ email }`. */
  datatype SessionUser = SessionUser(email: string)

  /** A profile as returned after `populate('selectedCourse')`: the course
      document in place of its id, or nothing when that id names no course. */
  datatype ProfileView = ProfileView(email: string, name: string, selectedCourse: Option<Course>, profileImage: string)

  datatype EnrolledUser = EnrolledUser(name: string, email: string, profileImage: string)

  datatype CourseGroup = CourseGroup(course: Course, enrolledUsers: seq<EnrolledUser>)

  /** An HTTP response: a success status with its body, or an error status
      with the message the handler sends. */
  datatype Reply<T> = Ok(status: nat, value: T) | Fail(status: nat, message: string)

  const OtpLength: nat := 6
  /** Five minutes, in milliseconds. */
  const OtpLifetime: int := 5 * 60 * 1000
  const OtpChars: string := "0123456789"
  const DefaultName: string := "Default Name"
  const DefaultImage: string := "default-profile.png"
  const UploadPrefix: string := "/uploads/"

  predicate IsOtpCode(s: string) {
    |s| == OtpLength && forall k :: 0 <= k < |s| ==> IsDigit(s[k])
  }

  /** A generated code is unaffected by the trim verify-otp applies to the submitted one. */
  lemma OtpCodeIsTrimmed(code: string)
    requires IsOtpCode(code)
    ensures Trim(code) == code && code != ""
  {
    assert !IsSpace(code[0]) && !IsSpace(code[|code| - 1]);
    TrimOfTrimmed(code);
  }

  /** `generateOTP(length)`: appends one character of `0123456789` per step;
      which one is `Math.random`'s choice. */
  method GenerateOtp(length: nat) returns (otp: string)
    ensures |otp| == length
    ensures forall k :: 0 <= k < |otp| ==> IsDigit(otp[k])
  {
    otp := "";
    for i := 0 to length
      invariant |otp| == i
      invariant forall k :: 0 <= k < |otp| ==> IsDigit(otp[k])
    {
      var pick :| 0 <= pick < |OtpChars|;
      otp := otp + [OtpChars[pick]];
    }
  }

  // ---------------------------------------------------------------------
  // Queries on the collections (`findOne`, `findById`)

  predicate EmailRegistered(users: map<Id, User>, email: string) {
    exists id :: id in users && users[id].email == email
  }

  predicate IsBanned(banned: map<Id, BannedEmail>, email: string) {
    exists id :: id in banned && banned[id].email == email
  }

  /** The user stored under `email` has the digest of `password`. */
  predicate PasswordAccepted(users: map<Id, User>, email: string, password: string) {
    exists id :: id in users && users[id].email == email && Matches(password, users[id].password)
  }

  /** The users after the account with `email` gets a new password digest. */
  function ResetPassword(users: map<Id, User>, email: string, digest: Digest): (r: map<Id, User>)
    ensures r.Keys == users.Keys
  {
    map id | id in users :: if users[id].email == email then users[id].(password := digest) else users[id]
  }

  /** With one account per email, resetting the account found under an email
      is resetting every account with that email. */
  lemma ResetOneAccount(users: map<Id, User>, id: Id, digest: Digest)
    requires UniqueUserEmails(users) && id in users
    ensures var after := users[id := users[id].(password := digest)];
      after == ResetPassword(users, users[id].email, digest) && UniqueUserEmails(after)
  {
    var after := users[id := users[id].(password := digest)];
    var expected := ResetPassword(users, users[id].email, digest);
    forall x | x in after ensures after[x] == expected[x] {
      if x != id {
        assert users[x].email != users[id].email;
      }
    }
  }

  predicate UniqueUserEmails(users: map<Id, User>) {
    forall a, b :: a in users && b in users && users[a].email == users[b].email ==> a == b
  }

  predicate UniqueBannedEmails(banned: map<Id, BannedEmail>) {
    forall a, b :: a in banned && b in banned && banned[a].email == banned[b].email ==> a == b
  }

  predicate UniqueProfileEmails(ps: seq<Profile>) {
    forall i, j :: 0 <= i < |ps| && 0 <= j < |ps| && ps[i].email == ps[j].email ==> i == j
  }

  predicate UniqueCourseIds(cs: seq<Course>) {
    forall i, j :: 0 <= i < |cs| && 0 <= j < |cs| && cs[i].id == cs[j].id ==> i == j
  }

  /** `Profile.findOne({ email })`: the position of the first profile with
      that email. It is the same first-match search as `Courses.FindCourse`,
      run on another collection with another key. */
  function FindProfile(ps: seq<Profile>, email: string): (r: Option<nat>)
    ensures r.Some? ==> r.value < |ps| && ps[r.value].email == email
    ensures r.Some? ==> forall k :: 0 <= k < r.value ==> ps[k].email != email
    ensures r.None? <==> forall k :: 0 <= k < |ps| ==> ps[k].email != email
  {
    if ps == [] then None
    else if ps[0].email == email then Some(0)
    else
      match FindProfile(ps[1..], email)
      case None => None
      case Some(k) => Some(k + 1)
  }

  function DefaultProfile(email: string): Profile {
    Profile(email, DefaultName, None, DefaultImage)
  }

  /** The read-with-implicit-create of current-user and GET /api/profile:
      the profiles afterwards and the profile returned. */
  function GetOrCreate(ps: seq<Profile>, email: string): (r: (seq<Profile>, Profile))
    ensures FindProfile(ps, email).Some? ==> r.0 == ps && r.1 == ps[FindProfile(ps, email).value]
    ensures FindProfile(ps, email).None? ==> r.0 == ps + [r.1]
    ensures r.1.email == email
    ensures FindProfile(r.0, email) == Some(|r.0| - 1) || r.0 == ps
  {
    match FindProfile(ps, email)
    case Some(i) => (ps, ps[i])
    case None =>
      var p := DefaultProfile(email);
      assert (ps + [p])[|ps|] == p;
      (ps + [p], p)
  }

  /** A missing profile is created as the default one, exactly once: a second
      get-or-create returns the same record and adds nothing. */
  lemma {:induction false} GetOrCreateIdempotent(ps: seq<Profile>, email: string)
    ensures var (after, p) := GetOrCreate(ps, email);
      && GetOrCreate(after, email) == (after, p)
      && (FindProfile(ps, email).None? ==>
            p == DefaultProfile(email)
            && forall k :: 0 <= k < |after| && after[k].email == email ==> k == |ps|)
  {
    var (after, p) := GetOrCreate(ps, email);
    match FindProfile(ps, email)
    case Some(i) =>
    case None =>
      assert after[|ps|] == p;
      assert FindProfile(after, email) == Some(|ps|);
  }

  /** The profile as sent after `populate('selectedCourse')`. */
  function Populate(p: Profile, cs: seq<Course>): (v: ProfileView)
    ensures v.email == p.email && v.name == p.name && v.profileImage == p.profileImage
    ensures v.selectedCourse.Some? <==>
      p.selectedCourse.Some? && exists k :: 0 <= k < |cs| && cs[k].id == p.selectedCourse.value
    ensures v.selectedCourse.Some? ==> v.selectedCourse.value in cs && v.selectedCourse.value.id == p.selectedCourse.value
  {
    var course :=
      match p.selectedCourse
      case None => None
      case Some(id) =>
        match FindCourse(cs, id)
        case None => None
        case Some(k) => Some(cs[k]);
    ProfileView(p.email, p.name, course, p.profileImage)
  }

  /** `Profile.findOneAndDelete({ email })`. */
  function WithoutProfile(ps: seq<Profile>, email: string): (r: seq<Profile>)
    ensures forall q :: q in r ==> q in ps
    ensures forall q :: q in ps && q.email != email ==> q in r
    ensures UniqueProfileEmails(ps) ==> forall k :: 0 <= k < |r| ==> r[k].email != email
    ensures FindProfile(ps, email).None? ==> r == ps
    ensures FindProfile(ps, email).Some? ==>
      var i := FindProfile(ps, email).value;
      |r| == |ps| - 1 && forall k :: 0 <= k < |r| ==> r[k] == ps[if k < i then k else k + 1]
  {
    match FindProfile(ps, email)
    case None => ps
    case Some(i) =>
      var r := RemoveAt(ps, i);
      assert forall k :: 0 <= k < |r| ==> r[k] == ps[if k < i then k else k + 1];
      forall q | q in ps && q.email != email ensures q in r {
        var j :| 0 <= j < |ps| && ps[j] == q;
        assert r[if j < i then j else j - 1] == q;
      }
      r
  }

  /** Removing a profile keeps the one-profile-per-email index intact. */
  lemma WithoutProfileKeepsUnique(ps: seq<Profile>, email: string)
    requires UniqueProfileEmails(ps)
    ensures UniqueProfileEmails(WithoutProfile(ps, email))
  {
    var r := WithoutProfile(ps, email);
    if FindProfile(ps, email).Some? {
      var i := FindProfile(ps, email).value;
      forall a, b | 0 <= a < |r| && 0 <= b < |r| && r[a].email == r[b].email ensures a == b {
        assert r[a] == ps[if a < i then a else a + 1];
        assert r[b] == ps[if b < i then b else b + 1];
      }
    }
  }

  // ---------------------------------------------------------------------
  // The grouping of courses-with-users

  function Entry(p: Profile): EnrolledUser {
    EnrolledUser(p.name, p.email, p.profileImage)
  }

  /** The entries of the profiles that selected course `id`, in profile order. */
  function EnrolledIn(ps: seq<Profile>, id: Id): seq<EnrolledUser> {
    if ps == [] then []
    else
      var last := ps[|ps| - 1];
      EnrolledIn(ps[..|ps| - 1], id) + (if last.selectedCourse == Some(id) then [Entry(last)] else [])
  }

  /** One group per course, in catalogue order, holding the profiles that selected it. */
  function Grouping(cs: seq<Course>, ps: seq<Profile>): (r: seq<CourseGroup>)
    ensures |r| == |cs|
    ensures forall i :: 0 <= i < |cs| ==> r[i].course == cs[i] && r[i].enrolledUsers == EnrolledIn(ps, cs[i].id)
  {
    seq(|cs|, i requires 0 <= i < |cs| => CourseGroup(cs[i], EnrolledIn(ps, cs[i].id)))
  }

  /** A profile is listed under a course exactly when it selected that course. */
  lemma {:induction false} EnrolledInMembership(ps: seq<Profile>, id: Id, e: EnrolledUser)
    ensures e in EnrolledIn(ps, id) <==>
      exists k :: 0 <= k < |ps| && ps[k].selectedCourse == Some(id) && Entry(ps[k]) == e
  {
    if ps != [] {
      var init := ps[..|ps| - 1];
      EnrolledInMembership(init, id, e);
      if e in EnrolledIn(ps, id) && e !in EnrolledIn(init, id) {
        assert ps[|ps| - 1].selectedCourse == Some(id) && Entry(ps[|ps| - 1]) == e;
      }
      if exists k :: 0 <= k < |ps| && ps[k].selectedCourse == Some(id) && Entry(ps[k]) == e {
        var k :| 0 <= k < |ps| && ps[k].selectedCourse == Some(id) && Entry(ps[k]) == e;
        if k < |ps| - 1 {
          assert init[k] == ps[k];
        }
      }
    }
  }

  /** The listing keeps profile order: it distributes over concatenation. */
  lemma {:induction false} EnrolledInAppend(a: seq<Profile>, b: seq<Profile>, id: Id)
    ensures EnrolledIn(a + b, id) == EnrolledIn(a, id) + EnrolledIn(b, id)
  {
    if b == [] {
      assert a + b == a;
    } else {
      var b' := b[..|b| - 1];
      assert (a + b)[..|a + b| - 1] == a + b';
      assert (a + b)[|a + b| - 1] == b[|b| - 1];
      EnrolledInAppend(a, b', id);
    }
  }

  /** A profile with no course, or with a course that is no longer in the
      catalogue, is listed under no course. */
  lemma UnenrolledDropped(cs: seq<Course>, ps: seq<Profile>, k: nat)
    requires UniqueProfileEmails(ps)
    requires k < |ps|
    requires ps[k].selectedCourse.None? || FindCourse(cs, ps[k].selectedCourse.value).None?
    ensures forall i :: 0 <= i < |cs| ==> Entry(ps[k]) !in Grouping(cs, ps)[i].enrolledUsers
  {
    forall i | 0 <= i < |cs| ensures Entry(ps[k]) !in Grouping(cs, ps)[i].enrolledUsers {
      EnrolledInMembership(ps, cs[i].id, Entry(ps[k]));
    }
  }

  // ---------------------------------------------------------------------
  // The service

  class Lms {
    var users: map<Id, User>
    var profiles: seq<Profile>
    var banned: map<Id, BannedEmail>
    var otpStore: map<string, OtpRecord>
    var courses: seq<Course>
    /** The next identifier the database hands out. */
    var nextId: Id

    /** Identifiers are issued once; the unique indexes of the schemas hold:
        one account, one profile and one ban row per email, one course per id. */
    ghost predicate Valid()
      reads this
    {
      && (forall id :: id in users ==> id < nextId)
      && (forall id :: id in banned ==> id < nextId)
      && (forall i :: 0 <= i < |courses| ==> courses[i].id < nextId)
      && UniqueUserEmails(users)
      && UniqueBannedEmails(banned)
      && UniqueProfileEmails(profiles)
      && UniqueCourseIds(courses)
    }

    constructor ()
      ensures Valid()
      ensures users == map[] && profiles == [] && banned == map[] && otpStore == map[] && courses == []
    {
      users, profiles, banned, otpStore, courses, nextId := map[], [], map[], map[], [], 0;
    }

    /** POST /api/request-otp */
    method RequestOtp(rawEmail: string, mailDelivered: bool, now: int) returns (r: Reply<string>)
      requires Valid()
      modifies this`otpStore
      ensures Valid()
      ensures var email := Normalize(rawEmail);
        if !EmailRegistered(users, email) then
          r == Fail(404, "User not found") && otpStore == old(otpStore)
        else
          && r == Ok(200, "OTP sent to email")
          && email in otpStore
          && otpStore == old(otpStore)[email := otpStore[email]]
          && IsOtpCode(otpStore[email].otp)
          && otpStore[email].expiry == now + OtpLifetime
    {
      var email := Normalize(rawEmail);
      if !EmailRegistered(users, email) {
        return Fail(404, "User not found");
      }
      var otp := GenerateOtp(OtpLength);
      otpStore := otpStore[email := OtpRecord(otp, now + OtpLifetime)];
      // sendOTPEmail's result (mailDelivered) is not consulted
      r := Ok(200, "OTP sent to email");
    }

    /** POST /api/verify-otp */
    method VerifyOtp(rawEmail: string, rawOtp: string, rawNewPassword: string, now: int) returns (r: Reply<string>)
      requires Valid()
      modifies this`otpStore, this`users
      ensures Valid()
      ensures var email, otp, password := Normalize(rawEmail), Trim(rawOtp), Trim(rawNewPassword);
        if email == "" || otp == "" || password == "" then
          r == Fail(400, "Missing required fields") && otpStore == old(otpStore) && users == old(users)
        else if email !in old(otpStore) then
          r == Fail(400, "OTP not sent or expired") && otpStore == old(otpStore) && users == old(users)
        else if now > old(otpStore)[email].expiry then
          r == Fail(400, "OTP has expired") && otpStore == old(otpStore) - {email} && users == old(users)
        else if old(otpStore)[email].otp != otp then
          r == Fail(400, "Invalid OTP") && otpStore == old(otpStore) && users == old(users)
        else if !EmailRegistered(old(users), email) then
          r == Fail(404, "User not found") && otpStore == old(otpStore) && users == old(users)
        else
          && r == Ok(200, "Password updated successfully")
          && otpStore == old(otpStore) - {email}
          && users == ResetPassword(old(users), email, Hash(password))
    {
      var email, otp, password := Normalize(rawEmail), Trim(rawOtp), Trim(rawNewPassword);
      if email == "" || otp == "" || password == "" {
        return Fail(400, "Missing required fields");
      }
      if email !in otpStore {
        return Fail(400, "OTP not sent or expired");
      }
      var record := otpStore[email];
      if now > record.expiry {
        otpStore := otpStore - {email};
        return Fail(400, "OTP has expired");
      }
      if record.otp != otp {
        return Fail(400, "Invalid OTP");
      }
      if !EmailRegistered(users, email) {
        return Fail(404, "User not found");
      }
      var id :| id in users && users[id].email == email;
      ResetOneAccount(users, id, Hash(password));
      users := users[id := users[id].(password := Hash(password))];
      otpStore := otpStore - {email};
      r := Ok(200, "Password updated successfully");
    }

    /** POST /api/register. No profile is created here. */
    method Register(rawEmail: string, rawPassword: string) returns (r: Reply<string>)
      requires Valid()
      modifies this`users, this`nextId
      ensures Valid()
      ensures var email := Normalize(rawEmail);
        if EmailRegistered(old(users), email) then
          r == Fail(400, "User already exists") && users == old(users) && nextId == old(nextId)
        else if email == "" then
          r == Fail(500, "Error registering user") && users == old(users) && nextId == old(nextId)
        else
          && r == Ok(201, "User registered successfully")
          && nextId == old(nextId) + 1
          && old(nextId) !in old(users)
          && users == old(users)[old(nextId) := User(email, Hash(Trim(rawPassword)))]
    {
      var email, password := Normalize(rawEmail), Trim(rawPassword);
      if EmailRegistered(users, email) {
        return Fail(400, "User already exists");
      }
      if email == "" {
        // the `required` validator of User.email rejects the save
        return Fail(500, "Error registering user");
      }
      users := users[nextId := User(email, Hash(password))];
      nextId := nextId + 1;
      r := Ok(201, "User registered successfully");
    }

    /** POST /api/login: the ban is checked before the account. Returns the
        response and the caller's session afterwards. */
    method Login(session: Option<SessionUser>, rawEmail: string, rawPassword: string)
      returns (r: Reply<bool>, session': Option<SessionUser>)
      requires Valid()
      ensures var email, password := Normalize(rawEmail), Trim(rawPassword);
        if IsBanned(banned, email) then
          r == Fail(401, "This email has been banned.") && session' == session
        else if !EmailRegistered(users, email) then
          r == Fail(401, "User not found") && session' == session
        else if !PasswordAccepted(users, email, password) then
          r == Fail(401, "Invalid credentials") && session' == session
        else
          r == Ok(200, true) && session' == Some(SessionUser(email))
    {
      var email, password := Normalize(rawEmail), Trim(rawPassword);
      if IsBanned(banned, email) {
        return Fail(401, "This email has been banned."), session;
      }
      if !EmailRegistered(users, email) {
        return Fail(401, "User not found"), session;
      }
      var id :| id in users && users[id].email == email;
      if Matches(password, users[id].password) {
        return Ok(200, true), Some(SessionUser(users[id].email));
      }
      return Fail(401, "Invalid credentials"), session;
    }

    /** The shared get-or-create step of current-user and GET /api/profile. */
    method GetOrCreateProfile(email: string) returns (p: Profile)
      requires Valid()
      modifies this`profiles
      ensures Valid()
      ensures (profiles, p) == GetOrCreate(old(profiles), email)
    {
      match FindProfile(profiles, email)
      case Some(i) =>
        p := profiles[i];
      case None =>
        p := DefaultProfile(email);
        profiles := profiles + [p];
    }

    /** GET /api/current-user. A banned session is answered 401 and left as it is. */
    method CurrentUser(session: Option<SessionUser>) returns (r: Reply<ProfileView>)
      requires Valid()
      modifies this`profiles
      ensures Valid()
      ensures session.None? ==> r == Fail(401, "Not authenticated") && profiles == old(profiles)
      ensures session.Some? && IsBanned(banned, session.value.email) ==>
        r == Fail(401, "This account has been banned.") && profiles == old(profiles)
      ensures session.Some? && !IsBanned(banned, session.value.email) ==>
        var (after, p) := GetOrCreate(old(profiles), session.value.email);
        profiles == after && r == Ok(200, Populate(p, courses))
    {
      if session.None? {
        return Fail(401, "Not authenticated");
      }
      var email := session.value.email;
      if IsBanned(banned, email) {
        return Fail(401, "This account has been banned.");
      }
      var p := GetOrCreateProfile(email);
      r := Ok(200, Populate(p, courses));
    }

    /** GET /api/profile?email=…; the address is used exactly as given. */
    method GetProfile(email: string) returns (r: Reply<ProfileView>)
      requires Valid()
      modifies this`profiles
      ensures Valid()
      ensures email == "" ==> r == Fail(400, "Email query parameter is required") && profiles == old(profiles)
      ensures email != "" && IsBanned(banned, email) ==>
        r == Fail(401, "This account has been banned.") && profiles == old(profiles)
      ensures email != "" && !IsBanned(banned, email) ==>
        var (after, p) := GetOrCreate(old(profiles), email);
        profiles == after && r == Ok(200, Populate(p, courses))
    {
      if email == "" {
        return Fail(400, "Email query parameter is required");
      }
      if IsBanned(banned, email) {
        return Fail(401, "This account has been banned.");
      }
      var p := GetOrCreateProfile(email);
      r := Ok(200, Populate(p, courses));
    }

    /** POST /api/profile. `upload` is the stored name of the uploaded image, if any. */
    method CreateProfile(name: string, course: Option<Id>, profileText: string, email: string, upload: Option<string>)
      returns (r: Reply<Profile>)
      requires Valid()
      modifies this`profiles
      ensures Valid()
      ensures var p := Profile(email, name, course, if upload.Some? then UploadPrefix + upload.value else DefaultImage);
        if name == "" || course.None? || profileText == "" || email == "" then
          r == Fail(400, "Name, course, profile text, and email are required") && profiles == old(profiles)
        else if FindProfile(old(profiles), email).Some? then
          r == Fail(500, "Failed to create profile") && profiles == old(profiles)
        else
          r == Ok(200, p) && profiles == old(profiles) + [p]
    {
      if name == "" || course.None? || profileText == "" || email == "" {
        return Fail(400, "Name, course, profile text, and email are required");
      }
      var image := if upload.Some? then UploadPrefix + upload.value else DefaultImage;
      var p := Profile(email, name, course, image);
      if FindProfile(profiles, email).Some? {
        // the unique index on Profile.email rejects the save
        return Fail(500, "Failed to create profile");
      }
      profiles := profiles + [p];
      r := Ok(200, p);
    }

    /** PUT /api/profile. `bodyImage` is `req.body.profileImage || ''`;
        `upload` is the stored name of the uploaded image, if any. */
    method UpdateProfile(name: string, course: Option<Id>, email: string, bodyImage: string, upload: Option<string>)
      returns (r: Reply<Profile>)
      requires Valid()
      modifies this`profiles
      ensures Valid()
      ensures var image := if upload.Some? then UploadPrefix + upload.value else bodyImage;
        if email == "" then
          r == Fail(400, "Email is required") && profiles == old(profiles)
        else if FindProfile(old(profiles), email).None? then
          r == Fail(404, "Profile not found") && profiles == old(profiles)
        else if name == "" then
          r == Fail(500, "Failed to update profile") && profiles == old(profiles)
        else
          var i := FindProfile(old(profiles), email).value;
          && r == Ok(200, Profile(email, name, course, image))
          && profiles == old(profiles)[i := Profile(email, name, course, image)]
    {
      var image := if upload.Some? then UploadPrefix + upload.value else bodyImage;
      if email == "" {
        return Fail(400, "Email is required");
      }
      match FindProfile(profiles, email)
      case None =>
        return Fail(404, "Profile not found");
      case Some(i) =>
        if name == "" {
          // the `required` validator of Profile.name rejects the save
          return Fail(500, "Failed to update profile");
        }
        var p := profiles[i].(name := name, selectedCourse := course, profileImage := image);
        profiles := profiles[i := p];
        r := Ok(200, p);
    }

    /** GET /api/courses */
    method ListCourses() returns (cs: seq<Course>)
      ensures cs == courses
    {
      cs := courses;
    }

    /** GET /api/course/:courseId */
    method GetCourse(id: Id) returns (r: Reply<Course>)
      ensures (exists k :: 0 <= k < |courses| && courses[k].id == id) ==> r.Ok? && r.status == 200 && r.value in courses && r.value.id == id
      ensures (forall k :: 0 <= k < |courses| ==> courses[k].id != id) ==> r == Fail(404, "Course not found")
    {
      match FindCourse(courses, id)
      case None =>
        r := Fail(404, "Course not found");
      case Some(k) =>
        r := Ok(200, courses[k]);
    }

    /** POST /api/courses */
    method CreateCourse(data: CourseFields, now: int) returns (r: Reply<Course>)
      requires Valid()
      modifies this`courses, this`nextId
      ensures Valid()
      ensures NewCourse(old(nextId), data, now).None? ==>
        r == Fail(500, "Failed to create course") && courses == old(courses) && nextId == old(nextId)
      ensures NewCourse(old(nextId), data, now).Some? ==>
        var c := NewCourse(old(nextId), data, now).value;
        r == Ok(201, c) && courses == old(courses) + [c] && nextId == old(nextId) + 1
        && forall k :: 0 <= k < |old(courses)| ==> old(courses)[k].id != c.id
    {
      match NewCourse(nextId, data, now)
      case None =>
        return Fail(500, "Failed to create course");
      case Some(c) =>
        courses := courses + [c];
        nextId := nextId + 1;
        r := Ok(201, c);
    }

    /** PUT /api/courses/:id */
    method UpdateCourse(id: Id, data: CourseFields, now: int) returns (r: Reply<Course>)
      requires Valid()
      modifies this`courses
      ensures Valid()
      ensures FindCourse(old(courses), id).None? ==>
        r == Fail(404, "Course not found") && courses == old(courses)
      ensures FindCourse(old(courses), id).Some? ==>
        var k := FindCourse(old(courses), id).value;
        var c := ApplyUpdate(old(courses)[k], data, now);
        r == Ok(200, c) && courses == old(courses)[k := c]
    {
      match FindCourse(courses, id)
      case None =>
        return Fail(404, "Course not found");
      case Some(k) =>
        var c := ApplyUpdate(courses[k], data, now);
        courses := courses[k := c];
        r := Ok(200, c);
    }

    /** DELETE /api/courses/:id. Profiles that selected the course keep its id. */
    method DeleteCourse(id: Id) returns (r: Reply<string>)
      requires Valid()
      modifies this`courses
      ensures Valid()
      ensures FindCourse(old(courses), id).None? ==>
        r == Fail(404, "Course not found") && courses == old(courses)
      ensures FindCourse(old(courses), id).Some? ==>
        && r == Ok(200, "Course deleted successfully")
        && courses == RemoveAt(old(courses), FindCourse(old(courses), id).value)
        && forall k :: 0 <= k < |courses| ==> courses[k].id != id
    {
      match FindCourse(courses, id)
      case None =>
        return Fail(404, "Course not found");
      case Some(k) =>
        courses := RemoveAt(courses, k);
        r := Ok(200, "Course deleted successfully");
    }

    /** DELETE /api/users/:id: bans the account's email (once), then deletes
        the account and its profile. */
    method BanUser(id: Id, now: int) returns (r: Reply<string>)
      requires Valid()
      modifies this`users, this`banned, this`profiles, this`nextId
      ensures Valid()
      ensures id !in old(users) ==>
        && r == Fail(404, "User not found")
        && users == old(users) && banned == old(banned) && profiles == old(profiles)
        && nextId == old(nextId)
      ensures id in old(users) ==>
        var email := old(users)[id].email;
        && r == Ok(200, "User blocked, banned, and deleted successfully")
        && users == old(users) - {id}
        && !EmailRegistered(users, email)
        && profiles == WithoutProfile(old(profiles), email)
        && (forall k :: 0 <= k < |profiles| ==> profiles[k].email != email)
        && IsBanned(banned, email)
        && (IsBanned(old(banned), email) ==> banned == old(banned) && nextId == old(nextId))
        && (!IsBanned(old(banned), email) ==>
              && old(nextId) !in old(banned)
              && banned == old(banned)[old(nextId) := BannedEmail(email, now)]
              && nextId == old(nextId) + 1)
    {
      if id !in users {
        return Fail(404, "User not found");
      }
      var email := users[id].email;
      if !IsBanned(banned, email) {
        banned := banned[nextId := BannedEmail(email, now)];
        assert nextId in banned;
        nextId := nextId + 1;
      }
      users := users - {id};
      WithoutProfileKeepsUnique(profiles, email);
      profiles := WithoutProfile(profiles, email);
      r := Ok(200, "User blocked, banned, and deleted successfully");
    }

    /** PUT /api/banned-users/:id/unblock: removes that ban row only; the
        deleted account is not restored. */
    method UnbanUser(bannedId: Id) returns (r: Reply<string>)
      requires Valid()
      modifies this`banned
      ensures Valid()
      ensures bannedId !in old(banned) ==> r == Fail(404, "Banned user not found") && banned == old(banned)
      ensures bannedId in old(banned) ==>
        r == Ok(200, "User unblocked successfully") && banned == old(banned) - {bannedId}
    {
      if bannedId !in banned {
        return Fail(404, "Banned user not found");
      }
      banned := banned - {bannedId};
      r := Ok(200, "User unblocked successfully");
    }

    /** GET /api/courses-with-users: one group per course, filled by a pass
        over the profiles. */
    method CoursesWithUsers() returns (groups: seq<CourseGroup>)
      requires Valid()
      ensures groups == Grouping(courses, profiles)
    {
      var cs, ps := courses, profiles;
      // courseGroups: a group per course, found through its id
      groups := [];
      var slot: map<Id, nat> := map[];
      for i := 0 to |cs|
        invariant |groups| == i
        invariant forall j :: 0 <= j < i ==> groups[j] == CourseGroup(cs[j], [])
        invariant forall id :: id in slot <==> exists j :: 0 <= j < i && cs[j].id == id
        invariant forall id :: id in slot ==> slot[id] < i && cs[slot[id]].id == id
      {
        groups := groups + [CourseGroup(cs[i], [])];
        slot := slot[cs[i].id := i];
      }
      for k := 0 to |ps|
        invariant |groups| == |cs|
        invariant forall j :: 0 <= j < |cs| ==> groups[j] == CourseGroup(cs[j], EnrolledIn(ps[..k], cs[j].id))
      {
        assert ps[..k + 1][..k] == ps[..k];
        var p := ps[k];
        if p.selectedCourse.Some? && p.selectedCourse.value in slot {
          var j := slot[p.selectedCourse.value];
          groups := groups[j := groups[j].(enrolledUsers := groups[j].enrolledUsers + [Entry(p)])];
        }
      }
      assert ps[..|ps|] == ps;
    }
  }
}
