/** Clients of the service that run multi-request sequences against `Lms`:
    what each sequence ends in follows from the handlers' contracts. */
module Scenarios {
  import opened Base
  import opened Text
  import opened Courses
  import opened Server

  /** Registering the same normalised address twice: the second attempt is refused. */
  method RegisterTwice(s: Lms, email: string, password: string, otherPassword: string)
    returns (first: Reply<string>, second: Reply<string>)
    requires s.Valid()
    requires Normalize(email) != ""
    modifies s
    ensures s.Valid()
    ensures second == Fail(400, "User already exists")
  {
    ghost var e := Normalize(email);
    ghost var id := s.nextId;
    first := s.Register(email, password);
    if first.Ok? {
      assert id in s.users && s.users[id].email == e;
    }
    assert EmailRegistered(s.users, e);
    second := s.Register(email, otherPassword);
  }

  /** Register, request a code, use it to set a new password: the old password
      no longer logs in and the new one does. */
  method PasswordReset(s: Lms, email: string, oldPassword: string, newPassword: string, now: int)
    returns (withOld: Reply<bool>, withNew: Reply<bool>)
    requires s.Valid()
    requires Normalize(email) != ""
    requires !EmailRegistered(s.users, Normalize(email)) && !IsBanned(s.banned, Normalize(email))
    requires Trim(newPassword) != "" && Trim(oldPassword) != Trim(newPassword)
    modifies s
    ensures s.Valid()
    ensures withOld == Fail(401, "Invalid credentials")
    ensures withNew == Ok(200, true)
  {
    ghost var e := Normalize(email);
    var id := RegisterAndReset(s, email, oldPassword, newPassword, now);
    assert PasswordAccepted(s.users, e, Trim(newPassword));
    assert !PasswordAccepted(s.users, e, Trim(oldPassword)) by {
      forall other | other in s.users && s.users[other].email == e
        ensures !Matches(Trim(oldPassword), s.users[other].password)
      {
        assert other == id;
      }
    }
    var session: Option<SessionUser>;
    withOld, session := s.Login(None, email, oldPassword);
    withNew, session := s.Login(None, email, newPassword);
  }

  /** Registering a fresh, unbanned address; returns the new account's id. */
  method RegisterFresh(s: Lms, email: string, password: string) returns (id: Id)
    requires s.Valid()
    requires Normalize(email) != ""
    requires !EmailRegistered(s.users, Normalize(email)) && !IsBanned(s.banned, Normalize(email))
    modifies s
    ensures s.Valid()
    ensures !IsBanned(s.banned, Normalize(email))
    ensures id in s.users && s.users[id] == User(Normalize(email), Hash(Trim(password)))
  {
    id := s.nextId;
    var registered := s.Register(email, password);
  }

  /** The first three requests of the reset flow; returns the new account's id. */
  method RegisterAndReset(s: Lms, email: string, oldPassword: string, newPassword: string, now: int)
    returns (id: Id)
    requires s.Valid()
    requires Normalize(email) != ""
    requires !EmailRegistered(s.users, Normalize(email)) && !IsBanned(s.banned, Normalize(email))
    requires Trim(newPassword) != ""
    modifies s
    ensures s.Valid()
    ensures !IsBanned(s.banned, Normalize(email))
    ensures id in s.users && s.users[id] == User(Normalize(email), Hash(Trim(newPassword)))
  {
    ghost var e := Normalize(email);
    id := RegisterFresh(s, email, oldPassword);
    assert EmailRegistered(s.users, e);
    var requested := s.RequestOtp(email, true, now);
    assert e in s.otpStore && IsOtpCode(s.otpStore[e].otp) && s.otpStore[e].expiry == now + OtpLifetime;
    var code := s.otpStore[Normalize(email)].otp;  // the code the mail carries
    OtpCodeIsTrimmed(code);
    ghost var before := s.users;
    var reset := s.VerifyOtp(email, code, newPassword, now);
    assert reset.Ok?;
    assert before[id].email == e;
    assert s.users == ResetPassword(before, e, Hash(Trim(newPassword)));
  }

  /** A code that was accepted once is not accepted again. */
  method OtpSingleUse(s: Lms, email: string, otp: string, newPassword: string, now: int)
    returns (first: Reply<string>, second: Reply<string>)
    requires s.Valid()
    modifies s
    ensures s.Valid()
    ensures first.Ok? ==> second == Fail(400, "OTP not sent or expired")
  {
    first := s.VerifyOtp(email, otp, newPassword, now);
    second := s.VerifyOtp(email, otp, newPassword, now);
  }

  /** Banning an account blocks its address at login whatever the password;
      lifting the ban does not bring the account back. */
  method BanThenUnban(s: Lms, id: Id, email: string, password: string, now: int)
    returns (whileBanned: Reply<bool>, afterUnban: Reply<bool>)
    requires s.Valid()
    requires id in s.users && s.users[id].email == Normalize(email)
    modifies s
    ensures s.Valid()
    ensures whileBanned == Fail(401, "This email has been banned.")
    ensures afterUnban == Fail(401, "User not found")
  {
    var banReply := s.BanUser(id, now);
    var session: Option<SessionUser>;
    whileBanned, session := s.Login(None, email, password);
    var row :| row in s.banned && s.banned[row].email == Normalize(email);
    var unbanReply := s.UnbanUser(row);
    assert !IsBanned(s.banned, Normalize(email));
    afterUnban, session := s.Login(None, email, password);
  }
}
