/**
 * The account handlers: registration of students and faculty, login, email verification
 * and its resend, the password-reset pair and the password change.
 *
 * Each handler is a function from the store before the request to the store after it and
 * the response, followed by lemmas about those functions and by a method that performs
 * the same steps on the `Database` object. The clock (`now`, in milliseconds), the random
 * draw behind each one-time code and whether the mail server accepted the message are
 * inputs.
 *
 * Email verification, as written, never files the faculty request its comment announces
 * (`VerifyEmailAsWritten`); `VerifyEmail` is the handler it evidently means, and the rest
 * of the model, `VerifyEmailOn` included, uses it.
 */
module AuthController {
  import opened Wrappers
  import opened Strings
  import opened Seqs
  import opened Http
  import opened Accounts
  import opened VerificationRequests
  import opened Store
  import opened AuthGate
  import opened AuthRoutes

  /** Fifteen minutes. */
  const OtpLifetime: int := 15 * 60 * 1000
  const OtpBase: nat := 100000
  const OtpSpan: nat := 900000

  const RegisteredMessage := "User registered. Please check your email for OTP verification code."
  const MailFailed := "Email could not be sent"
  const BadOtp := "Invalid or expired OTP"

  /**
   * `Math.floor(100000 + Math.random() * 900000)` printed, valid for fifteen minutes;
   * `draw` is `Math.floor(Math.random() * 900000)`.
   */
  function IssueOtp(draw: nat, now: int): (o: Otp)
    requires draw < OtpSpan
    ensures o.expires == now + OtpLifetime
    ensures |o.code| == 6
    ensures forall i :: 0 <= i < |o.code| ==> '0' <= o.code[i] <= '9'
  {
    var n := OtpBase + draw;
    assert Pow10(5) == 100000 && Pow10(6) == 1000000;
    NatToStringLength(n, 6);
    NatToStringDigits(n);
    Otp(NatToString(n), now + OtpLifetime)
  }

  /** The code matches and has not yet expired: the expiry must lie strictly after `now`. */
  predicate OtpMatches(slot: Option<Otp>, code: string, now: int) {
    slot.Some? && slot.value.code == code && slot.value.expires > now
  }

  /** `findOne` for each kind in turn, students first, the way every email-keyed handler looks. */
  function FindAccount(users: seq<User>, email: string): (r: Option<nat>)
    ensures r.Some? ==> r.value < |users| && users[r.value].email == NormalizeEmail(email)
    ensures r.None? <==> forall j :: 0 <= j < |users| ==> users[j].email != NormalizeEmail(email)
  {
    match FindByEmail(users, StudentKind, email)
    case Some(i) => Some(i)
    case None => FindByEmail(users, FacultyKind, email)
  }

  /** The query on email, code and expiry of verify-email, for one kind. */
  function FindByEmailOtp(users: seq<User>, kind: Kind, email: string, code: string, now: int): (r: Option<nat>)
    ensures r.Some? ==> (r.value < |users| && users[r.value].Kind() == kind &&
      users[r.value].email == NormalizeEmail(email) && OtpMatches(users[r.value].emailOtp, code, now))
    ensures r.None? <==> forall j :: 0 <= j < |users| ==>
      !(users[j].Kind() == kind && users[j].email == NormalizeEmail(email) && OtpMatches(users[j].emailOtp, code, now))
  {
    Find(users, (u: User) => u.Kind() == kind && u.email == NormalizeEmail(email) && OtpMatches(u.emailOtp, code, now))
  }

  /** The same query on the password-reset slot. */
  function FindByResetOtp(users: seq<User>, kind: Kind, email: string, code: string, now: int): (r: Option<nat>)
    ensures r.Some? ==> (r.value < |users| && users[r.value].Kind() == kind &&
      users[r.value].email == NormalizeEmail(email) && OtpMatches(users[r.value].resetOtp, code, now))
    ensures r.None? <==> forall j :: 0 <= j < |users| ==>
      !(users[j].Kind() == kind && users[j].email == NormalizeEmail(email) && OtpMatches(users[j].resetOtp, code, now))
  {
    Find(users, (u: User) => u.Kind() == kind && u.email == NormalizeEmail(email) && OtpMatches(u.resetOtp, code, now))
  }

  function FirstOf(a: Option<nat>, b: Option<nat>): Option<nat> {
    if a.Some? then a else b
  }

  /** The student query, then the faculty one: some record of either kind holding the live code. */
  function FindVerification(users: seq<User>, email: string, code: string, now: int): (r: Option<nat>)
    ensures r.Some? ==> (r.value < |users| && users[r.value].email == NormalizeEmail(email) &&
      OtpMatches(users[r.value].emailOtp, code, now))
    ensures r.None? <==> forall j :: 0 <= j < |users| ==>
      !(users[j].email == NormalizeEmail(email) && OtpMatches(users[j].emailOtp, code, now))
  {
    FirstOf(FindByEmailOtp(users, StudentKind, email, code, now), FindByEmailOtp(users, FacultyKind, email, code, now))
  }

  function FindReset(users: seq<User>, email: string, code: string, now: int): (r: Option<nat>)
    ensures r.Some? ==> (r.value < |users| && users[r.value].email == NormalizeEmail(email) &&
      OtpMatches(users[r.value].resetOtp, code, now))
    ensures r.None? <==> forall j :: 0 <= j < |users| ==>
      !(users[j].email == NormalizeEmail(email) && OtpMatches(users[j].resetOtp, code, now))
  {
    FirstOf(FindByResetOtp(users, StudentKind, email, code, now), FindByResetOtp(users, FacultyKind, email, code, now))
  }

  /** Appends a freshly built record; the failed mail leaves it without its code. */
  function AddUser(db: Db, u: User, mailOk: bool): Db {
    db.(users := db.users + [if mailOk then u else u.(emailOtp := None)], nextId := db.nextId + 1)
  }

  /** `registerStudent`. */
  function RegisterStudent(db: Db, f: StudentForm, currentYear: int, now: int, draw: nat, mailOk: bool): Outcome
    requires draw < OtpSpan
  {
    var errors := StudentErrors(f, currentYear);
    if errors != [] then Outcome(db, Invalid(errors))
    else if FindByEmail(db.users, StudentKind, f.email).Some? then Outcome(db, Msg(400, "User already exists"))
    else if !EndsWith(f.email, EmailDomain) then Outcome(db, Msg(400, "Email must be a CUSAT email"))
    else
      var u := NewUser(db.nextId, f.email, f.password, IssueOtp(draw, now),
                       NewStudentProfile(f.firstName, f.lastName, f.branch, f.yearOfAdmission.value));
      if !Saveable(db.users, u) then Outcome(db, ServerError)
      else if mailOk then Outcome(AddUser(db, u, true), Msg(201, RegisteredMessage))
      else Outcome(AddUser(db, u, false), Msg(500, MailFailed))
  }

  /** The note a faculty registration files with its verification request. */
  function RegistrationNote(fullName: string): string {
    "New faculty registration for " + fullName
  }

  /** Files a pending request for `faculty` under the next id. */
  function AddRequest(db: Db, faculty: nat, notes: string, now: int): Db {
    db.(requests := db.requests + [NewRequest(db.nextId, faculty, Some(notes), Some(Pending), now)],
        nextId := db.nextId + 1)
  }

  /** `registerFaculty`: as for students, plus a pending verification request filed after the save. */
  function RegisterFaculty(db: Db, f: FacultyForm, now: int, draw: nat, mailOk: bool): Outcome
    requires draw < OtpSpan
  {
    var errors := FacultyErrors(f);
    if errors != [] then Outcome(db, Invalid(errors))
    else if FindByEmail(db.users, FacultyKind, f.email).Some? then Outcome(db, Msg(400, "User already exists"))
    else if !EndsWith(f.email, EmailDomain) then Outcome(db, Msg(400, "Email must be a CUSAT email"))
    else
      var u := NewUser(db.nextId, f.email, f.password, IssueOtp(draw, now),
                       NewFacultyProfile(f.fullName, f.division, f.post));
      if !Saveable(db.users, u) then Outcome(db, ServerError)
      else
        var d := AddRequest(AddUser(db, u, mailOk), u.id, RegistrationNote(f.fullName), now);
        Outcome(d, if mailOk then Msg(201, RegisteredMessage) else Msg(500, MailFailed))
  }

  datatype LoginResult = LoggedIn(token: TokenUser) | Refused(reply: Reply)

  /** `login`: the token payload on success; the store is not changed. */
  function Login(db: Db, f: LoginForm): LoginResult {
    var errors := LoginErrors(f);
    if errors != [] then Refused(Invalid(errors))
    else
      var s := FindByEmail(db.users, StudentKind, f.email);
      var found := FirstOf(s, FindByEmail(db.users, FacultyKind, f.email));
      var role := if s.Some? then StudentRole else FacultyRole;
      if found.None? then Refused(Msg(400, "Invalid credentials"))
      else
        var u := db.users[found.value];
        if !ComparePassword(u, f.password) then Refused(Msg(400, "Invalid credentials"))
        else if !u.isEmailVerified then Refused(Msg(400, "Please verify your email before logging in"))
        else if role == FacultyRole && !u.IsVerifiedFaculty() then
          Refused(Msg(400, "Your account is pending verification by admin"))
        else LoggedIn(TokenUser(u.id, role, u.isAdmin))
  }

  predicate HasRequestFor(requests: seq<Request>, faculty: nat) {
    exists j :: 0 <= j < |requests| && requests[j].faculty == faculty
  }

  /**
   * The model name `verifyEmail` compares the verified record's model name with before
   * filing a request; no model is registered under it, the faculty discriminator being
   * registered as `KindName(FacultyKind)`.
   */
  const WrittenFacultyName: string := "Faculty"

  /** `verifyEmail` as written: the faculty branch never runs, so no request is ever filed here. */
  function VerifyEmailAsWritten(db: Db, f: OtpForm, now: int): Outcome {
    VerifyEmailComparing(db, f, now, WrittenFacultyName)
  }

  /**
   * `verifyEmail` as evidently intended: consumes the code, marks the email verified, and
   * files a request for a faculty record without one.
   */
  function VerifyEmail(db: Db, f: OtpForm, now: int): Outcome {
    VerifyEmailComparing(db, f, now, KindName(FacultyKind))
  }

  /**
   * `verifyEmail`, with the model name that its faculty branch compares the record's own
   * model name with as a parameter.
   */
  function VerifyEmailComparing(db: Db, f: OtpForm, now: int, facultyName: string): Outcome {
    var errors := OtpErrors(f);
    if errors != [] then Outcome(db, Invalid(errors))
    else if f.email == [] || f.otp == [] then Outcome(db, Msg(400, "Email and OTP are required"))
    else
      var found := FindVerification(db.users, f.email, f.otp, now);
      if found.None? then Outcome(db, Msg(400, BadOtp))
      else
        var i := found.value;
        var u := db.users[i];
        var d := db.(users := db.users[i := u.(isEmailVerified := true, emailOtp := None)]);
        var d' :=
          if KindName(u.Kind()) == facultyName && u.profile.FacultyProfile? && !HasRequestFor(d.requests, u.id) then
            AddRequest(d, u.id, RegistrationNote(u.profile.fullName), now)
          else d;
        Outcome(d', Msg(200, "Email verified successfully. You can now log in."))
  }

  /** `resendVerificationEmail`: a fresh code over the old one, for an account not yet verified. */
  function ResendVerification(db: Db, f: EmailForm, now: int, draw: nat, mailOk: bool): Outcome
    requires draw < OtpSpan
  {
    var errors := EmailErrors(f);
    if errors != [] then Outcome(db, Invalid(errors))
    else
      var found := FindAccount(db.users, f.email);
      if found.None? then Outcome(db, Msg(400, "User not found"))
      else
        var i := found.value;
        if db.users[i].isEmailVerified then Outcome(db, Msg(400, "Email is already verified"))
        else
          var slot := if mailOk then Some(IssueOtp(draw, now)) else None;
          Outcome(db.(users := db.users[i := db.users[i].(emailOtp := slot)]),
                  if mailOk then Msg(200, "New OTP has been sent to your email") else Msg(500, MailFailed))
  }

  /** `forgotPassword`: a fresh reset code for any existing account. */
  function ForgotPassword(db: Db, f: EmailForm, now: int, draw: nat, mailOk: bool): Outcome
    requires draw < OtpSpan
  {
    var errors := EmailErrors(f);
    if errors != [] then Outcome(db, Invalid(errors))
    else
      var found := FindAccount(db.users, f.email);
      if found.None? then Outcome(db, Msg(400, "User with this email does not exist"))
      else
        var i := found.value;
        var slot := if mailOk then Some(IssueOtp(draw, now)) else None;
        Outcome(db.(users := db.users[i := db.users[i].(resetOtp := slot)]),
                if mailOk then Msg(200, "OTP has been sent to your email") else Msg(500, MailFailed))
  }

  /** `verifyOTPAndResetPassword`: consumes the reset code and sets the new password. */
  function ResetPassword(db: Db, f: ResetForm, now: int): Outcome {
    var errors := ResetErrors(f);
    if errors != [] then Outcome(db, Invalid(errors))
    else if f.email == [] || f.otp == [] || f.newPassword == [] then
      Outcome(db, Msg(400, "Email, OTP, and new password are required"))
    else
      var found := FindReset(db.users, f.email, f.otp, now);
      if found.None? then Outcome(db, Msg(400, BadOtp))
      else
        var i := found.value;
        Outcome(db.(users := db.users[i := db.users[i].(password := f.newPassword, resetOtp := None)]),
                Msg(200, "Password reset successfully. You can now log in with your new password."))
  }

  const AccountNotFound: Reply := Msg(404, "User not found")

  /** `POST /change-password`: the gate, the two rules, then the handler. */
  function ChangePassword(db: Db, token: Token, f: ChangeForm): Outcome {
    match Authenticate(db.users, token)
    case Deny(reply) => Outcome(db, reply)
    case Pass(user) =>
      var errors := ChangeErrors(f);
      if errors != [] then Outcome(db, Invalid(errors))
      else
        match FindById(db.users, LookupKind(user.role), user.id)
        case None => Outcome(db, AccountNotFound)
        case Some(i) =>
          if !ComparePassword(db.users[i], f.currentPassword) then
            Outcome(db, Msg(400, "Current password is incorrect"))
          else
            Outcome(db.(users := db.users[i := db.users[i].(password := f.newPassword)]),
                    Msg(200, "Password changed successfully"))
  }

  // ---------------------------------------------------------------------------------------
  // Registration

  /** A student registration that fails a check before the save leaves the store as it was; the checks run in order. */
  lemma RegisterStudentRefusals(db: Db, f: StudentForm, currentYear: int, now: int, draw: nat, mailOk: bool)
    requires draw < OtpSpan
    ensures var o := RegisterStudent(db, f, currentYear, now, draw, mailOk);
      (o.reply.status != 201 && o.reply.message != MailFailed ==> o.db == db) &&
      (StudentErrors(f, currentYear) != [] ==> o.reply == Invalid(StudentErrors(f, currentYear))) &&
      (StudentErrors(f, currentYear) == [] &&
       (exists j :: 0 <= j < |db.users| && db.users[j].Kind() == StudentKind && db.users[j].email == NormalizeEmail(f.email))
       ==> o.reply == Msg(400, "User already exists")) &&
      ((StudentErrors(f, currentYear) == [] && FindByEmail(db.users, StudentKind, f.email).None? &&
        !EndsWith(f.email, EmailDomain)) ==> o.reply == Msg(400, "Email must be a CUSAT email"))
  {
  }

  /**
   * A student registration that gets past the save appends exactly one record with the
   * defaults (email not verified, not an administrator) and, if the mail went out, the code
   * just issued; nothing else changes.
   */
  lemma RegisterStudentCreates(db: Db, f: StudentForm, currentYear: int, now: int, draw: nat, mailOk: bool)
    requires draw < OtpSpan
    ensures var o := RegisterStudent(db, f, currentYear, now, draw, mailOk);
      (o.reply.status == 201 || o.reply.message == MailFailed) ==>
        |o.db.users| == |db.users| + 1 && o.db.users[..|db.users|] == db.users &&
        o.db.requests == db.requests && o.db.notices == db.notices && o.db.events == db.events &&
        o.db.nextId == db.nextId + 1 &&
        var u := o.db.users[|db.users|];
        u.id == db.nextId && u.Kind() == StudentKind && u.email == NormalizeEmail(f.email) &&
        u.password == f.password && !u.isEmailVerified && !u.isAdmin && u.resetOtp == None &&
        u.profile.branch == Some(f.branch) && u.profile.branch.value in Departments.Branches &&
        (o.reply.status == 201 <==> mailOk) &&
        u.emailOtp == (if mailOk then Some(IssueOtp(draw, now)) else None)
  {
    var o := RegisterStudent(db, f, currentYear, now, draw, mailOk);
    if o.reply.status == 201 || o.reply.message == MailFailed {
      assert o.db.users[..|db.users|] == db.users;
    }
  }

  /** A faculty registration that fails a check before the save leaves the store as it was. */
  lemma RegisterFacultyRefusals(db: Db, f: FacultyForm, now: int, draw: nat, mailOk: bool)
    requires draw < OtpSpan
    ensures var o := RegisterFaculty(db, f, now, draw, mailOk);
      (o.reply.status != 201 && o.reply.message != MailFailed ==> o.db == db) &&
      (FacultyErrors(f) != [] ==> o.reply == Invalid(FacultyErrors(f))) &&
      (FacultyErrors(f) == [] &&
       (exists j :: 0 <= j < |db.users| && db.users[j].Kind() == FacultyKind && db.users[j].email == NormalizeEmail(f.email))
       ==> o.reply == Msg(400, "User already exists"))
  {
  }

  /**
   * A faculty registration that gets past the save appends the record with the defaults
   * (not verified, not approved, not an administrator) and then one pending request for
   * it; a failed mail clears the code but keeps both.
   */
  lemma RegisterFacultyCreates(db: Db, f: FacultyForm, now: int, draw: nat, mailOk: bool)
    requires draw < OtpSpan
    ensures var o := RegisterFaculty(db, f, now, draw, mailOk);
      (o.reply.status == 201 || o.reply.message == MailFailed) ==>
        |o.db.users| == |db.users| + 1 && o.db.users[..|db.users|] == db.users &&
        o.db.notices == db.notices && o.db.events == db.events && o.db.nextId == db.nextId + 2 &&
        var u := o.db.users[|db.users|];
        u.id == db.nextId && u.Kind() == FacultyKind && u.email == NormalizeEmail(f.email) &&
        u.password == f.password && !u.isEmailVerified && !u.isAdmin && !u.IsVerifiedFaculty() &&
        (o.reply.status == 201 <==> mailOk) &&
        u.emailOtp == (if mailOk then Some(IssueOtp(draw, now)) else None)
  {
    var errors := FacultyErrors(f);
    if errors == [] && FindByEmail(db.users, FacultyKind, f.email).None? && EndsWith(f.email, EmailDomain) {
      var u := NewUser(db.nextId, f.email, f.password, IssueOtp(draw, now),
                       NewFacultyProfile(f.fullName, f.division, f.post));
      if Saveable(db.users, u) {
        var w := AddUser(db, u, mailOk);
        assert w.users[..|db.users|] == db.users;
        var o := Outcome(AddRequest(w, u.id, RegistrationNote(f.fullName), now),
                         if mailOk then Msg(201, RegisteredMessage) else Msg(500, MailFailed));
        assert RegisterFaculty(db, f, now, draw, mailOk) == o;
        assert o.db.users == w.users;
      }
    }
  }

  /** The faculty record a registration that passes the checks builds, before the save. */
  function FacultyRecord(db: Db, f: FacultyForm, now: int, draw: nat): User
    requires draw < OtpSpan
  {
    NewUser(db.nextId, f.email, f.password, IssueOtp(draw, now), NewFacultyProfile(f.fullName, f.division, f.post))
  }

  /** A faculty registration that gets past the save stores the record and then its request. */
  lemma FacultySaved(db: Db, f: FacultyForm, now: int, draw: nat, mailOk: bool)
    requires draw < OtpSpan
    ensures var o := RegisterFaculty(db, f, now, draw, mailOk);
      (o.reply.status == 201 || o.reply.message == MailFailed) ==>
        o.db == AddRequest(AddUser(db, FacultyRecord(db, f, now, draw), mailOk), db.nextId, RegistrationNote(f.fullName), now)
  {
    var errors := FacultyErrors(f);
    if errors != [] {
      assert RegisterFaculty(db, f, now, draw, mailOk) == Outcome(db, Invalid(errors));
    } else if FindByEmail(db.users, FacultyKind, f.email).Some? {
      assert RegisterFaculty(db, f, now, draw, mailOk) == Outcome(db, Msg(400, "User already exists"));
    } else if !EndsWith(f.email, EmailDomain) {
      assert RegisterFaculty(db, f, now, draw, mailOk) == Outcome(db, Msg(400, "Email must be a CUSAT email"));
    } else if !Saveable(db.users, FacultyRecord(db, f, now, draw)) {
      assert RegisterFaculty(db, f, now, draw, mailOk) == Outcome(db, ServerError);
    }
  }

  /** The request a faculty registration files: pending, no documents, naming the new record, created now. */
  lemma RegisterFacultyFilesRequest(db: Db, f: FacultyForm, now: int, draw: nat, mailOk: bool)
    requires draw < OtpSpan
    ensures var o := RegisterFaculty(db, f, now, draw, mailOk);
      (o.reply.status == 201 || o.reply.message == MailFailed) ==>
        o.db.requests == db.requests + [Request(db.nextId + 1, db.nextId, RegistrationNote(f.fullName), [], Pending, now)]
  {
    FacultySaved(db, f, now, draw, mailOk);
    var w := AddUser(db, FacultyRecord(db, f, now, draw), mailOk);
    assert w.requests == db.requests && w.nextId == db.nextId + 1;
    var q := NewRequest(w.nextId, db.nextId, Some(RegistrationNote(f.fullName)), Some(Pending), now);
    assert q == Request(db.nextId + 1, db.nextId, RegistrationNote(f.fullName), [], Pending, now);
  }

  /**
   * The duplicate check looks only at records of the same kind, while the unique index
   * spans both: registering as a student with a faculty member's email gets past the check
   * and fails at the save with a server error, leaving the store unchanged.
   */
  lemma RegisterStudentCrossKindDuplicate(db: Db, f: StudentForm, currentYear: int, now: int, draw: nat, mailOk: bool)
    requires draw < OtpSpan
    requires StudentErrors(f, currentYear) == [] && EndsWith(f.email, EmailDomain)
    requires FindByEmail(db.users, StudentKind, f.email).None?
    requires exists j :: 0 <= j < |db.users| && db.users[j].Kind() == FacultyKind && db.users[j].email == NormalizeEmail(f.email)
    ensures RegisterStudent(db, f, currentYear, now, draw, mailOk) == Outcome(db, ServerError)
  {
  }

  /** Adding a record the save accepts, under the next id, keeps the store's invariant. */
  lemma {:induction false} AddUserValid(db: Db, u: User, mailOk: bool)
    requires Valid(db) && Saveable(db.users, u) && u.id == db.nextId
    ensures Valid(AddUser(db, u, mailOk))
  {
    var d := AddUser(db, u, mailOk);
    assert forall i :: 0 <= i < |db.users| ==> d.users[i] == db.users[i];
  }

  /** Registration keeps ids fresh and emails unique. */
  lemma RegisterStudentValid(db: Db, f: StudentForm, currentYear: int, now: int, draw: nat, mailOk: bool)
    requires draw < OtpSpan && Valid(db)
    ensures Valid(RegisterStudent(db, f, currentYear, now, draw, mailOk).db)
  {
    var errors := StudentErrors(f, currentYear);
    if errors == [] && FindByEmail(db.users, StudentKind, f.email).None? && EndsWith(f.email, EmailDomain) {
      var u := NewUser(db.nextId, f.email, f.password, IssueOtp(draw, now),
                       NewStudentProfile(f.firstName, f.lastName, f.branch, f.yearOfAdmission.value));
      if Saveable(db.users, u) {
        AddUserValid(db, u, mailOk);
      }
    }
  }

  lemma RegisterFacultyValid(db: Db, f: FacultyForm, now: int, draw: nat, mailOk: bool)
    requires draw < OtpSpan && Valid(db)
    ensures Valid(RegisterFaculty(db, f, now, draw, mailOk).db)
  {
    var errors := FacultyErrors(f);
    if errors == [] && FindByEmail(db.users, FacultyKind, f.email).None? && EndsWith(f.email, EmailDomain) {
      var u := NewUser(db.nextId, f.email, f.password, IssueOtp(draw, now),
                       NewFacultyProfile(f.fullName, f.division, f.post));
      if Saveable(db.users, u) {
        AddUserValid(db, u, mailOk);
        AddRequestValid(AddUser(db, u, mailOk), u.id, RegistrationNote(f.fullName), now);
      }
    }
  }

  /** Filing a request for an issued id keeps the store's invariant. */
  lemma AddRequestValid(db: Db, faculty: nat, notes: string, now: int)
    requires Valid(db) && faculty < db.nextId
    ensures Valid(AddRequest(db, faculty, notes, now))
  {
  }

  // ---------------------------------------------------------------------------------------
  // Email verification

  /** Some record with this email holds this code, unexpired. */
  predicate CodeLive(users: seq<User>, email: string, code: string, now: int) {
    exists j :: 0 <= j < |users| && users[j].email == NormalizeEmail(email) && OtpMatches(users[j].emailOtp, code, now)
  }

  /** Verification succeeds iff the rules pass and a record with the email holds the code with an expiry after `now`. */
  lemma VerifyEmailSucceedsIff(db: Db, f: OtpForm, now: int)
    ensures VerifyEmail(db, f, now).reply.status == 200 <==>
      OtpErrors(f) == [] && f.email != [] && f.otp != [] && CodeLive(db.users, f.email, f.otp, now)
    ensures VerifyEmail(db, f, now).reply.status != 200 ==> VerifyEmail(db, f, now).db == db
  {
  }

  /**
   * On success the one record with that email is marked verified and loses its code;
   * every other record, and the reset slot, are untouched.
   */
  lemma VerifyEmailEffect(db: Db, f: OtpForm, now: int, i: nat)
    requires EmailsUnique(db.users)
    requires i < |db.users| && db.users[i].email == NormalizeEmail(f.email)
    requires VerifyEmail(db, f, now).reply.status == 200
    ensures VerifyEmail(db, f, now).db.users == db.users[i := db.users[i].(isEmailVerified := true, emailOtp := None)]
  {
    var found := FindVerification(db.users, f.email, f.otp, now);
    EmailNamesOne(db.users, found.value, i);
  }

  /** A code cannot be used twice: once verification has succeeded, repeating it fails. */
  lemma VerifyEmailSingleUse(db: Db, f: OtpForm, now: int, later: int)
    requires EmailsUnique(db.users)
    requires VerifyEmail(db, f, now).reply.status == 200
    ensures VerifyEmail(VerifyEmail(db, f, now).db, f, later).reply == Msg(400, BadOtp)
  {
    var found := FindVerification(db.users, f.email, f.otp, now);
    var i := found.value;
    VerifyEmailEffect(db, f, now, i);
    var d := VerifyEmail(db, f, now).db;
    forall j | 0 <= j < |d.users| && d.users[j].email == NormalizeEmail(f.email)
      ensures !OtpMatches(d.users[j].emailOtp, f.otp, later)
    {
      EmailNamesOne(db.users, i, j);
    }
  }

  /**
   * Verification, as written and as intended, keeps the store's invariant; the intended
   * handler files at most one request.
   */
  lemma VerifyEmailValid(db: Db, f: OtpForm, now: int)
    requires Valid(db)
    ensures Valid(VerifyEmail(db, f, now).db) && Valid(VerifyEmailAsWritten(db, f, now).db)
    ensures var d := VerifyEmail(db, f, now).db;
      |d.requests| == |db.requests| || |d.requests| == |db.requests| + 1
  {
    var o := VerifyEmail(db, f, now);
    if o.reply.status == 200 {
      var i := FindVerification(db.users, f.email, f.otp, now).value;
      var u := db.users[i];
      var us := db.users[i := u.(isEmailVerified := true, emailOtp := None)];
      SameKeysValid(db, us);
      var d := db.(users := us);
      if u.Kind() == FacultyKind && !HasRequestFor(d.requests, u.id) {
        AddRequestValid(d, u.id, RegistrationNote(u.profile.fullName), now);
      }
      VerifyEmailAsWrittenFilesNothing(db, f, now);
    }
  }

  /**
   * As written, verification never files a request: it changes the records exactly as the
   * intended handler does, answers the same, and leaves the requests as they were.
   */
  lemma VerifyEmailAsWrittenFilesNothing(db: Db, f: OtpForm, now: int)
    ensures VerifyEmailAsWritten(db, f, now).db.requests == db.requests
    ensures VerifyEmailAsWritten(db, f, now).db.users == VerifyEmail(db, f, now).db.users
    ensures VerifyEmailAsWritten(db, f, now).reply == VerifyEmail(db, f, now).reply
  {
    assert KindName(StudentKind)[0] != WrittenFacultyName[0];
    assert KindName(FacultyKind)[0] != WrittenFacultyName[0];
  }

  /**
   * The discrepancy: verifying a faculty record no request names files one in the intended
   * handler and none as written, so such a record never reaches the admin's list.
   */
  lemma VerifyEmailSkipsRequestAsWritten(db: Db, f: OtpForm, now: int, i: nat)
    requires EmailsUnique(db.users)
    requires i < |db.users| && db.users[i].email == NormalizeEmail(f.email) && db.users[i].Kind() == FacultyKind
    requires !HasRequestFor(db.requests, db.users[i].id)
    requires VerifyEmail(db, f, now).reply.status == 200
    ensures HasRequestFor(VerifyEmail(db, f, now).db.requests, db.users[i].id)
    ensures !HasRequestFor(VerifyEmailAsWritten(db, f, now).db.requests, db.users[i].id)
  {
    var k := FindVerification(db.users, f.email, f.otp, now).value;
    EmailNamesOne(db.users, k, i);
    var d := VerifyEmail(db, f, now).db;
    assert d.requests[|db.requests|].faculty == db.users[i].id;
    VerifyEmailAsWrittenFilesNothing(db, f, now);
  }

  /** The requests naming a given record. */
  function RequestsFor(requests: seq<Request>, faculty: nat): seq<Request> {
    Filter(requests, (q: Request) => q.faculty == faculty)
  }

  /** Verifying a faculty record that already has a request succeeds and files no further request. */
  lemma VerifyWithRequestOnFile(d: Db, n: nat, g: OtpForm, later: int)
    requires EmailsUnique(d.users) && n < |d.users|
    requires d.users[n].email == NormalizeEmail(g.email) && OtpMatches(d.users[n].emailOtp, g.otp, later)
    requires OtpErrors(g) == [] && g.email != [] && g.otp != []
    requires HasRequestFor(d.requests, d.users[n].id)
    ensures VerifyEmail(d, g, later).reply.status == 200
    ensures VerifyEmail(d, g, later).db.requests == d.requests
  {
    VerifyEmailSucceedsIff(d, g, later);
    var i := FindVerification(d.users, g.email, g.otp, later).value;
    EmailNamesOne(d.users, i, n);
  }

  /**
   * Registering as faculty and then verifying the email with the mailed code before it
   * expires leaves exactly one request naming the new record, the one registration filed;
   * neither version of verification adds a second.
   */
  lemma RegisterThenVerifyOneRequest(db: Db, f: FacultyForm, now: int, draw: nat, later: int)
    requires draw < OtpSpan && Valid(db)
    requires RegisterFaculty(db, f, now, draw, true).reply.status == 201
    requires later < now + OtpLifetime
    ensures var d1 := RegisterFaculty(db, f, now, draw, true).db;
      var g := OtpForm(f.email, true, IssueOtp(draw, now).code);
      var o := VerifyEmail(d1, g, later);
      var w := VerifyEmailAsWritten(d1, g, later);
      o.reply.status == 200 && |RequestsFor(o.db.requests, db.nextId)| == 1 &&
      w.reply.status == 200 && |RequestsFor(w.db.requests, db.nextId)| == 1
  {
    RegisteredFacultyOnFile(db, f, now, draw);
    var d1 := RegisterFaculty(db, f, now, draw, true).db;
    var g := OtpForm(f.email, true, IssueOtp(draw, now).code);
    var q := Request(db.nextId + 1, db.nextId, RegistrationNote(f.fullName), [], Pending, now);
    VerifyWithRequestOnFile(d1, |db.users|, g, later);
    VerifyEmailAsWrittenFilesNothing(d1, g, later);
    FilterAppend(db.requests, [q], (r: Request) => r.faculty == db.nextId);
    FilterNone(db.requests, (r: Request) => r.faculty == db.nextId);
  }

  /** What a faculty registration leaves for the verification step: the record with its code, and its request. */
  lemma RegisteredFacultyOnFile(db: Db, f: FacultyForm, now: int, draw: nat)
    requires draw < OtpSpan && Valid(db)
    requires RegisterFaculty(db, f, now, draw, true).reply.status == 201
    ensures var d1 := RegisterFaculty(db, f, now, draw, true).db;
      var n := |db.users|;
      var q := Request(db.nextId + 1, db.nextId, RegistrationNote(f.fullName), [], Pending, now);
      && EmailsUnique(d1.users) && n < |d1.users| && d1.users[n].id == db.nextId
      && d1.users[n].email == NormalizeEmail(f.email) && d1.users[n].emailOtp == Some(IssueOtp(draw, now))
      && d1.requests == db.requests + [q] && HasRequestFor(d1.requests, d1.users[n].id)
      && f.email != []
  {
    RegisterFacultyCreates(db, f, now, draw, true);
    RegisterFacultyFilesRequest(db, f, now, draw, true);
    RegisterFacultyValid(db, f, now, draw, true);
    var d1 := RegisterFaculty(db, f, now, draw, true).db;
    assert d1.requests[|db.requests|].faculty == db.nextId;
    assert f.email != [] by {
      assert EndsWith(f.email, EmailDomain);
    }
  }

  // ---------------------------------------------------------------------------------------
  // Resending the verification code

  /** Resend refuses an unknown email and an account already verified, changing nothing. */
  lemma ResendRefusals(db: Db, f: EmailForm, now: int, draw: nat, mailOk: bool)
    requires draw < OtpSpan && EmailErrors(f) == []
    ensures var o := ResendVerification(db, f, now, draw, mailOk);
      ((forall j :: 0 <= j < |db.users| ==> db.users[j].email != NormalizeEmail(f.email)) ==>
        o == Outcome(db, Msg(400, "User not found"))) &&
      (forall j :: (0 <= j < |db.users| && db.users[j].email == NormalizeEmail(f.email) && db.users[j].isEmailVerified &&
                    EmailsUnique(db.users)) ==> o == Outcome(db, Msg(400, "Email is already verified")))
  {
    forall j | 0 <= j < |db.users| && db.users[j].email == NormalizeEmail(f.email) && db.users[j].isEmailVerified &&
         EmailsUnique(db.users)
      ensures ResendVerification(db, f, now, draw, mailOk) == Outcome(db, Msg(400, "Email is already verified"))
    {
      EmailNamesOne(db.users, j, FindAccount(db.users, f.email).value);
    }
  }

  /**
   * A new code replaces the old one: after a successful resend, verification with the same
   * email succeeds exactly for the new code before its expiry. After a failed mail no code works.
   */
  lemma ResendOverwrites(db: Db, f: EmailForm, now: int, draw: nat, mailOk: bool, g: OtpForm, later: int)
    requires draw < OtpSpan && EmailsUnique(db.users)
    requires g.email == f.email && OtpErrors(g) == [] && g.email != []
    requires ResendVerification(db, f, now, draw, mailOk).reply.status in {200, 500}
    ensures var d := ResendVerification(db, f, now, draw, mailOk).db;
      VerifyEmail(d, g, later).reply.status == 200 <==>
        mailOk && g.otp == IssueOtp(draw, now).code && later < now + OtpLifetime
  {
    var i := FindAccount(db.users, f.email).value;
    var d := ResendVerification(db, f, now, draw, mailOk).db;
    var slot := if mailOk then Some(IssueOtp(draw, now)) else None;
    assert d.users == db.users[i := db.users[i].(emailOtp := slot)];
    VerifyEmailSucceedsIff(d, g, later);
    forall j | 0 <= j < |d.users| && d.users[j].email == NormalizeEmail(g.email)
      ensures j == i
    {
      assert d.users[j].email == db.users[j].email;
      EmailNamesOne(db.users, i, j);
    }
    if mailOk && g.otp == IssueOtp(draw, now).code && later < now + OtpLifetime {
      assert OtpMatches(d.users[i].emailOtp, g.otp, later);
    }
  }

  /** The same records, each with the same password-reset slot. */
  predicate SameResetSlots(a: seq<User>, b: seq<User>) {
    |a| == |b| && forall j :: 0 <= j < |a| ==> a[j].resetOtp == b[j].resetOtp
  }

  /** The same records, each with the same email-verification slot. */
  predicate SameEmailSlots(a: seq<User>, b: seq<User>) {
    |a| == |b| && forall j :: 0 <= j < |a| ==> a[j].emailOtp == b[j].emailOtp
  }

  /** Resending the email code leaves every password-reset slot as it was. */
  lemma ResendKeepsResetSlots(db: Db, f: EmailForm, now: int, draw: nat, mailOk: bool)
    requires draw < OtpSpan
    ensures SameResetSlots(ResendVerification(db, f, now, draw, mailOk).db.users, db.users)
  {
    var found := FindAccount(db.users, f.email);
    if EmailErrors(f) == [] && found.Some? && !db.users[found.value].isEmailVerified {
      var i := found.value;
      var slot := if mailOk then Some(IssueOtp(draw, now)) else None;
      assert ResendVerification(db, f, now, draw, mailOk).db.users == db.users[i := db.users[i].(emailOtp := slot)];
    }
  }

  /** Verifying the email leaves every password-reset slot as it was. */
  lemma VerifyKeepsResetSlots(db: Db, f: OtpForm, now: int)
    ensures SameResetSlots(VerifyEmail(db, f, now).db.users, db.users)
  {
    if VerifyEmail(db, f, now).reply.status == 200 {
      var i := FindVerification(db.users, f.email, f.otp, now).value;
      assert VerifyEmail(db, f, now).db.users == db.users[i := db.users[i].(isEmailVerified := true, emailOtp := None)];
    }
  }

  /** Requesting a reset code leaves every email-verification slot as it was. */
  lemma ForgotKeepsEmailSlots(db: Db, f: EmailForm, now: int, draw: nat, mailOk: bool)
    requires draw < OtpSpan
    ensures SameEmailSlots(ForgotPassword(db, f, now, draw, mailOk).db.users, db.users)
  {
    var found := FindAccount(db.users, f.email);
    if EmailErrors(f) == [] && found.Some? {
      var i := found.value;
      var slot := if mailOk then Some(IssueOtp(draw, now)) else None;
      assert ForgotPassword(db, f, now, draw, mailOk).db.users == db.users[i := db.users[i].(resetOtp := slot)];
    }
  }

  /** Resetting the password leaves every email-verification slot as it was. */
  lemma ResetKeepsEmailSlots(db: Db, f: ResetForm, now: int)
    ensures SameEmailSlots(ResetPassword(db, f, now).db.users, db.users)
  {
    if ResetPassword(db, f, now).reply.status == 200 {
      var i := FindReset(db.users, f.email, f.otp, now).value;
      assert ResetPassword(db, f, now).db.users == db.users[i := db.users[i].(password := f.newPassword, resetOtp := None)];
    }
  }

  // ---------------------------------------------------------------------------------------
  // Password reset

  /** Some record with this email holds this reset code, unexpired. */
  predicate ResetLive(users: seq<User>, email: string, code: string, now: int) {
    exists j :: 0 <= j < |users| && users[j].email == NormalizeEmail(email) && OtpMatches(users[j].resetOtp, code, now)
  }

  /** Forgot-password refuses an unknown email; otherwise the account's reset slot holds the new code, or nothing if the mail failed. */
  lemma ForgotPasswordEffect(db: Db, f: EmailForm, now: int, draw: nat, mailOk: bool)
    requires draw < OtpSpan && EmailErrors(f) == []
    ensures var o := ForgotPassword(db, f, now, draw, mailOk);
      ((forall j :: 0 <= j < |db.users| ==> db.users[j].email != NormalizeEmail(f.email)) ==>
        o == Outcome(db, Msg(400, "User with this email does not exist"))) &&
      (forall j :: 0 <= j < |db.users| && db.users[j].email == NormalizeEmail(f.email) && EmailsUnique(db.users) ==>
        o.db.users == db.users[j := db.users[j].(resetOtp := if mailOk then Some(IssueOtp(draw, now)) else None)] &&
        o.reply.status == (if mailOk then 200 else 500))
  {
    forall j | 0 <= j < |db.users| && db.users[j].email == NormalizeEmail(f.email) && EmailsUnique(db.users)
      ensures ForgotPassword(db, f, now, draw, mailOk).db.users ==
        db.users[j := db.users[j].(resetOtp := if mailOk then Some(IssueOtp(draw, now)) else None)]
    {
      EmailNamesOne(db.users, j, FindAccount(db.users, f.email).value);
    }
  }

  /**
   * Reset succeeds iff the rules pass and a record with the email holds the reset code with
   * an expiry after `now`; then that record alone gets the new password and loses the code.
   */
  lemma ResetPasswordSucceedsIff(db: Db, f: ResetForm, now: int)
    ensures ResetPassword(db, f, now).reply.status == 200 <==>
      ResetErrors(f) == [] && f.email != [] && f.otp != [] && f.newPassword != [] &&
      ResetLive(db.users, f.email, f.otp, now)
    ensures ResetPassword(db, f, now).reply.status != 200 ==> ResetPassword(db, f, now).db == db
    ensures ResetPassword(db, f, now).reply.status == 200 && EmailsUnique(db.users) ==>
      forall i :: 0 <= i < |db.users| && db.users[i].email == NormalizeEmail(f.email) ==>
        ResetPassword(db, f, now).db.users == db.users[i := db.users[i].(password := f.newPassword, resetOtp := None)]
  {
    if ResetPassword(db, f, now).reply.status == 200 && EmailsUnique(db.users) {
      var k := FindReset(db.users, f.email, f.otp, now).value;
      forall i | 0 <= i < |db.users| && db.users[i].email == NormalizeEmail(f.email)
        ensures ResetPassword(db, f, now).db.users == db.users[i := db.users[i].(password := f.newPassword, resetOtp := None)]
      {
        EmailNamesOne(db.users, i, k);
      }
    }
  }

  /** A reset code works once. */
  lemma ResetPasswordSingleUse(db: Db, f: ResetForm, now: int, later: int)
    requires EmailsUnique(db.users) && ResetPassword(db, f, now).reply.status == 200
    ensures ResetPassword(ResetPassword(db, f, now).db, f, later).reply == Msg(400, BadOtp)
  {
    var k := FindReset(db.users, f.email, f.otp, now).value;
    ResetPasswordSucceedsIff(db, f, now);
    var d := ResetPassword(db, f, now).db;
    forall j | 0 <= j < |d.users| && d.users[j].email == NormalizeEmail(f.email)
      ensures !OtpMatches(d.users[j].resetOtp, f.otp, later)
    {
      EmailNamesOne(db.users, k, j);
    }
  }

  /** The code mailed by forgot-password resets the password of that account while it is valid. */
  lemma ForgotThenReset(db: Db, e: EmailForm, now: int, draw: nat, r: ResetForm, later: int)
    requires draw < OtpSpan && EmailsUnique(db.users) && EmailErrors(e) == []
    requires ForgotPassword(db, e, now, draw, true).reply.status == 200
    requires r.email == e.email && r.email != [] && r.otp == IssueOtp(draw, now).code
    requires |r.newPassword| >= MinPasswordLength && e.emailFormat == r.emailFormat
    requires later < now + OtpLifetime
    ensures ResetPassword(ForgotPassword(db, e, now, draw, true).db, r, later).reply.status == 200
  {
    var i := FindAccount(db.users, e.email).value;
    var d := ForgotPassword(db, e, now, draw, true).db;
    assert d.users[i].email == NormalizeEmail(r.email) && OtpMatches(d.users[i].resetOtp, r.otp, later);
    ResetPasswordSucceedsIff(d, r, later);
  }

  // ---------------------------------------------------------------------------------------
  // Password change

  /**
   * After the gate passes, the record it found is the one the handler finds, so the
   * handler's own 404 is unreachable; the password changes iff the current one matches exactly.
   */
  lemma ChangePasswordOutcome(db: Db, token: Token, f: ChangeForm)
    ensures var o := ChangePassword(db, token, f);
      o.reply.status != 404 &&
      (Authenticate(db.users, token).Deny? ==> o == Outcome(db, Authenticate(db.users, token).reply)) &&
      (o.reply.status == 200 <==>
        Authenticate(db.users, token).Pass? && ChangeErrors(f) == [] &&
        var i := FindById(db.users, LookupKind(token.payload.role), token.payload.id);
        db.users[i.value].password == f.currentPassword) &&
      (o.reply.status == 200 ==>
        var i := FindById(db.users, LookupKind(token.payload.role), token.payload.id).value;
        o.db.users == db.users[i := db.users[i].(password := f.newPassword)]) &&
      (o.reply.status != 200 ==> o.db == db)
  {
  }

  // ---------------------------------------------------------------------------------------
  // Login

  /** Login never issues the administrator role; the admin flag is copied from the record. */
  lemma LoginIssuesNoAdminRole(db: Db, f: LoginForm)
    ensures Login(db, f).LoggedIn? ==> Login(db, f).token.role != AdminRole
    ensures Login(db, f).LoggedIn? ==>
      exists j :: 0 <= j < |db.users| && db.users[j].id == Login(db, f).token.id &&
        Login(db, f).token.isAdmin == db.users[j].isAdmin &&
        LookupKind(Login(db, f).token.role) == db.users[j].Kind()
  {
  }

  /**
   * The checks run in order for the one record with the email: an unknown email and a
   * wrong password give the same reply, then an unverified email is refused, then a faculty
   * member awaiting approval.
   */
  lemma LoginChecks(db: Db, f: LoginForm)
    requires EmailsUnique(db.users) && LoginErrors(f) == []
    ensures (forall j :: 0 <= j < |db.users| ==> db.users[j].email != NormalizeEmail(f.email)) ==>
      Login(db, f) == Refused(Msg(400, "Invalid credentials"))
    ensures forall j :: 0 <= j < |db.users| && db.users[j].email == NormalizeEmail(f.email) ==>
      var u := db.users[j];
      Login(db, f) ==
        if u.password != f.password then Refused(Msg(400, "Invalid credentials"))
        else if !u.isEmailVerified then Refused(Msg(400, "Please verify your email before logging in"))
        else if u.Kind() == FacultyKind && !u.IsVerifiedFaculty() then
          Refused(Msg(400, "Your account is pending verification by admin"))
        else LoggedIn(TokenUser(u.id, if u.Kind() == StudentKind then StudentRole else FacultyRole, u.isAdmin))
  {
    forall j | 0 <= j < |db.users| && db.users[j].email == NormalizeEmail(f.email)
      ensures Login(db, f) == (var u := db.users[j];
        if u.password != f.password then Refused(Msg(400, "Invalid credentials"))
        else if !u.isEmailVerified then Refused(Msg(400, "Please verify your email before logging in"))
        else if u.Kind() == FacultyKind && !u.IsVerifiedFaculty() then
          Refused(Msg(400, "Your account is pending verification by admin"))
        else LoggedIn(TokenUser(u.id, if u.Kind() == StudentKind then StudentRole else FacultyRole, u.isAdmin)))
    {
      var s := FindByEmail(db.users, StudentKind, f.email);
      var k := FirstOf(s, FindByEmail(db.users, FacultyKind, f.email)).value;
      EmailNamesOne(db.users, j, k);
    }
  }

  /** A token issued by login passes the gate on the same store, with the same admin flag. */
  lemma LoginTokenPassesGate(db: Db, f: LoginForm)
    requires Valid(db) && Login(db, f).LoggedIn?
    ensures Authenticate(db.users, Decoded(Login(db, f).token)) == Pass(Login(db, f).token)
  {
    var t := Login(db, f).token;
    var s := FindByEmail(db.users, StudentKind, f.email);
    var k := FirstOf(s, FindByEmail(db.users, FacultyKind, f.email)).value;
    assert Admits(db.users[k], t);
    AuthenticateAdmits(db.users, t, db.nextId);
  }

  // ---------------------------------------------------------------------------------------
  // The handlers on the database object: each performs the steps of the source in order
  // (save, then mail, then undo the code when the mail failed) and ends in the state its
  // function above describes.

  /** `save()` of a new record. */
  method AppendUserOn(db: Database, u: User)
    modifies db
    ensures db.State() == AddUser(old(db.State()), u, true)
  {
    db.users := db.users + [u];
    db.nextId := db.nextId + 1;
  }

  /** `save()` of a new verification request. */
  method AppendRequestOn(db: Database, faculty: nat, notes: string, now: int)
    modifies db
    ensures db.State() == AddRequest(old(db.State()), faculty, notes, now)
  {
    db.requests := db.requests + [NewRequest(db.nextId, faculty, Some(notes), Some(Pending), now)];
    db.nextId := db.nextId + 1;
  }

  /** Clearing the verification code of record `i` and saving it again, after a failed mail. */
  method ClearEmailCodeOn(db: Database, i: nat)
    requires i < |db.users|
    modifies db
    ensures db.State() == old(db.State()).(users := old(db.users)[i := old(db.users)[i].(emailOtp := None)])
  {
    db.users := db.users[i := db.users[i].(emailOtp := None)];
  }

  method RegisterStudentOn(db: Database, f: StudentForm, currentYear: int, now: int, draw: nat, mailOk: bool)
      returns (reply: Reply)
    requires draw < OtpSpan
    modifies db
    ensures var o := RegisterStudent(old(db.State()), f, currentYear, now, draw, mailOk);
      db.State() == o.db && reply == o.reply
  {
    var errors := StudentErrors(f, currentYear);
    if errors != [] {
      return Invalid(errors);
    }
    if FindByEmail(db.users, StudentKind, f.email).Some? {
      return Msg(400, "User already exists");
    }
    if !EndsWith(f.email, EmailDomain) {
      return Msg(400, "Email must be a CUSAT email");
    }
    var u := NewUser(db.nextId, f.email, f.password, IssueOtp(draw, now),
                     NewStudentProfile(f.firstName, f.lastName, f.branch, f.yearOfAdmission.value));
    if !Saveable(db.users, u) {
      return ServerError;
    }
    var n := |db.users|;
    UpdateAppended(db.users, u, u.(emailOtp := None));
    AppendUserOn(db, u);
    if !mailOk {
      ClearEmailCodeOn(db, n);
      return Msg(500, MailFailed);
    }
    reply := Msg(201, RegisteredMessage);
  }

  method RegisterFacultyOn(db: Database, f: FacultyForm, now: int, draw: nat, mailOk: bool) returns (reply: Reply)
    requires draw < OtpSpan
    modifies db
    ensures var o := RegisterFaculty(old(db.State()), f, now, draw, mailOk);
      db.State() == o.db && reply == o.reply
  {
    var errors := FacultyErrors(f);
    if errors != [] {
      return Invalid(errors);
    }
    if FindByEmail(db.users, FacultyKind, f.email).Some? {
      return Msg(400, "User already exists");
    }
    if !EndsWith(f.email, EmailDomain) {
      return Msg(400, "Email must be a CUSAT email");
    }
    var u := NewUser(db.nextId, f.email, f.password, IssueOtp(draw, now),
                     NewFacultyProfile(f.fullName, f.division, f.post));
    if !Saveable(db.users, u) {
      return ServerError;
    }
    var n := |db.users|;
    UpdateAppended(db.users, u, u.(emailOtp := None));
    AppendUserOn(db, u);
    AppendRequestOn(db, u.id, RegistrationNote(f.fullName), now);
    if !mailOk {
      ClearEmailCodeOn(db, n);
      return Msg(500, MailFailed);
    }
    reply := Msg(201, RegisteredMessage);
  }

  method LoginOn(db: Database, f: LoginForm) returns (r: LoginResult)
    ensures r == Login(db.State(), f)
    ensures r.LoggedIn? ==> r.token.role != AdminRole
  {
    var errors := LoginErrors(f);
    if errors != [] {
      return Refused(Invalid(errors));
    }
    var found := FindByEmail(db.users, StudentKind, f.email);
    var role := StudentRole;
    if found.None? {
      found := FindByEmail(db.users, FacultyKind, f.email);
      role := FacultyRole;
      if found.None? {
        return Refused(Msg(400, "Invalid credentials"));
      }
    }
    var u := db.users[found.value];
    if !ComparePassword(u, f.password) {
      return Refused(Msg(400, "Invalid credentials"));
    }
    if !u.isEmailVerified {
      return Refused(Msg(400, "Please verify your email before logging in"));
    }
    if role == FacultyRole && !u.IsVerifiedFaculty() {
      return Refused(Msg(400, "Your account is pending verification by admin"));
    }
    r := LoggedIn(TokenUser(u.id, role, u.isAdmin));
  }

  method VerifyEmailOn(db: Database, f: OtpForm, now: int) returns (reply: Reply)
    modifies db
    ensures var o := VerifyEmail(old(db.State()), f, now);
      db.State() == o.db && reply == o.reply
  {
    var errors := OtpErrors(f);
    if errors != [] {
      return Invalid(errors);
    }
    if f.email == [] || f.otp == [] {
      return Msg(400, "Email and OTP are required");
    }
    var found := FindByEmailOtp(db.users, StudentKind, f.email, f.otp, now);
    if found.None? {
      found := FindByEmailOtp(db.users, FacultyKind, f.email, f.otp, now);
      if found.None? {
        return Msg(400, BadOtp);
      }
    }
    var i := found.value;
    var u := db.users[i];
    db.users := db.users[i := u.(isEmailVerified := true, emailOtp := None)];
    if u.Kind() == FacultyKind && !HasRequestFor(db.requests, u.id) {
      AppendRequestOn(db, u.id, RegistrationNote(u.profile.fullName), now);
    }
    reply := Msg(200, "Email verified successfully. You can now log in.");
  }

  method ResendVerificationOn(db: Database, f: EmailForm, now: int, draw: nat, mailOk: bool) returns (reply: Reply)
    requires draw < OtpSpan
    modifies db
    ensures var o := ResendVerification(old(db.State()), f, now, draw, mailOk);
      db.State() == o.db && reply == o.reply
  {
    var errors := EmailErrors(f);
    if errors != [] {
      return Invalid(errors);
    }
    var found := FindAccount(db.users, f.email);
    if found.None? {
      return Msg(400, "User not found");
    }
    var i := found.value;
    if db.users[i].isEmailVerified {
      return Msg(400, "Email is already verified");
    }
    var u := db.users[i].(emailOtp := Some(IssueOtp(draw, now)));
    UpdateTwice(db.users, i, u, u.(emailOtp := None));
    db.users := db.users[i := u];
    if !mailOk {
      u := u.(emailOtp := None);
      db.users := db.users[i := u];
      return Msg(500, MailFailed);
    }
    reply := Msg(200, "New OTP has been sent to your email");
  }

  method ForgotPasswordOn(db: Database, f: EmailForm, now: int, draw: nat, mailOk: bool) returns (reply: Reply)
    requires draw < OtpSpan
    modifies db
    ensures var o := ForgotPassword(old(db.State()), f, now, draw, mailOk);
      db.State() == o.db && reply == o.reply
  {
    var errors := EmailErrors(f);
    if errors != [] {
      return Invalid(errors);
    }
    var found := FindAccount(db.users, f.email);
    if found.None? {
      return Msg(400, "User with this email does not exist");
    }
    var i := found.value;
    var u := db.users[i].(resetOtp := Some(IssueOtp(draw, now)));
    UpdateTwice(db.users, i, u, u.(resetOtp := None));
    db.users := db.users[i := u];
    if !mailOk {
      u := u.(resetOtp := None);
      db.users := db.users[i := u];
      return Msg(500, MailFailed);
    }
    reply := Msg(200, "OTP has been sent to your email");
  }

  method ResetPasswordOn(db: Database, f: ResetForm, now: int) returns (reply: Reply)
    modifies db
    ensures var o := ResetPassword(old(db.State()), f, now);
      db.State() == o.db && reply == o.reply
  {
    var errors := ResetErrors(f);
    if errors != [] {
      return Invalid(errors);
    }
    if f.email == [] || f.otp == [] || f.newPassword == [] {
      return Msg(400, "Email, OTP, and new password are required");
    }
    var found := FindByResetOtp(db.users, StudentKind, f.email, f.otp, now);
    if found.None? {
      found := FindByResetOtp(db.users, FacultyKind, f.email, f.otp, now);
      if found.None? {
        return Msg(400, BadOtp);
      }
    }
    var i := found.value;
    db.users := db.users[i := db.users[i].(password := f.newPassword, resetOtp := None)];
    reply := Msg(200, "Password reset successfully. You can now log in with your new password.");
  }

  method ChangePasswordOn(db: Database, token: Token, f: ChangeForm) returns (reply: Reply)
    modifies db
    ensures var o := ChangePassword(old(db.State()), token, f);
      db.State() == o.db && reply == o.reply
  {
    var gate := Authenticate(db.users, token);
    if gate.Deny? {
      return gate.reply;
    }
    var errors := ChangeErrors(f);
    if errors != [] {
      return Invalid(errors);
    }
    var found := FindById(db.users, LookupKind(gate.user.role), gate.user.id);
    if found.None? {
      return AccountNotFound;
    }
    var i := found.value;
    if !ComparePassword(db.users[i], f.currentPassword) {
      return Msg(400, "Current password is incorrect");
    }
    db.users := db.users[i := db.users[i].(password := f.newPassword)];
    reply := Msg(200, "Password changed successfully");
  }
}
