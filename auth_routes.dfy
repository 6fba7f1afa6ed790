/**
 * The authentication routes: the validator chain of each route, which runs before its
 * controller and turns every failed rule into one message, and the inline `/me` handler.
 */
module AuthRoutes {
  import opened Wrappers
  import opened Http
  import opened Accounts
  import opened Store
  import opened AuthGate

  /**
   * The submitted forms. `emailFormat` is the verdict of the library's `isEmail` check on
   * `email`; `yearOfAdmission` is `Some(n)` when the submitted text is the integer `n`.
   */
  datatype StudentForm = StudentForm(
    email: string, emailFormat: bool, password: string, firstName: string, lastName: string,
    branch: string, yearOfAdmission: Option<int>)

  datatype FacultyForm = FacultyForm(
    email: string, emailFormat: bool, password: string, fullName: string, division: string, post: string)

  datatype LoginForm = LoginForm(email: string, emailFormat: bool, password: string)

  datatype OtpForm = OtpForm(email: string, emailFormat: bool, otp: string)

  datatype EmailForm = EmailForm(email: string, emailFormat: bool)

  datatype ResetForm = ResetForm(email: string, emailFormat: bool, otp: string, newPassword: string)

  datatype ChangeForm = ChangeForm(currentPassword: string, newPassword: string)

  const MinPasswordLength: nat := 6
  const OtpLength: nat := 6
  const FirstAdmissionYear: int := 2000

  /** One validator rule: its message when the rule fails, nothing when it holds. */
  function Rule(ok: bool, message: string): (r: seq<string>)
    ensures r == [] <==> ok
  {
    if ok then [] else [message]
  }

  const EmailMessage := "Please enter a valid email"
  const PasswordMessage := "Password must be at least 6 characters long"
  const OtpMessage := "OTP must be 6 digits"

  /**
   * The student registration rules. `currentYear` is the year when the route table was
   * loaded: the upper bound is computed once, at start-up.
   */
  function StudentErrors(f: StudentForm, currentYear: int): (errors: seq<string>)
    ensures errors == [] <==>
      f.emailFormat && |f.password| >= MinPasswordLength && f.firstName != [] && f.lastName != [] &&
      f.branch != [] && f.yearOfAdmission.Some? &&
      FirstAdmissionYear <= f.yearOfAdmission.value <= currentYear
    ensures |errors| <= 6
  {
    Rule(f.emailFormat, EmailMessage) +
    Rule(|f.password| >= MinPasswordLength, PasswordMessage) +
    Rule(f.firstName != [], "First name is required") +
    Rule(f.lastName != [], "Last name is required") +
    Rule(f.branch != [], "Branch is required") +
    Rule(f.yearOfAdmission.Some? && FirstAdmissionYear <= f.yearOfAdmission.value <= currentYear,
         "Invalid year of admission")
  }

  function FacultyErrors(f: FacultyForm): (errors: seq<string>)
    ensures errors == [] <==>
      f.emailFormat && |f.password| >= MinPasswordLength && f.fullName != [] && f.division != [] && f.post != []
  {
    Rule(f.emailFormat, EmailMessage) +
    Rule(|f.password| >= MinPasswordLength, PasswordMessage) +
    Rule(f.fullName != [], "Full name is required") +
    Rule(f.division != [], "Division is required") +
    Rule(f.post != [], "Post is required")
  }

  function LoginErrors(f: LoginForm): (errors: seq<string>)
    ensures errors == [] <==> f.emailFormat && f.password != []
  {
    Rule(f.emailFormat, EmailMessage) + Rule(f.password != [], "Password is required")
  }

  /** The verify-email rules: the code must be exactly six characters long. */
  function OtpErrors(f: OtpForm): (errors: seq<string>)
    ensures errors == [] <==> f.emailFormat && |f.otp| == OtpLength
  {
    Rule(f.emailFormat, EmailMessage) + Rule(|f.otp| == OtpLength, OtpMessage)
  }

  /** The rule of the resend-verification and forgot-password routes. */
  function EmailErrors(f: EmailForm): (errors: seq<string>)
    ensures errors == [] <==> f.emailFormat
  {
    Rule(f.emailFormat, EmailMessage)
  }

  function ResetErrors(f: ResetForm): (errors: seq<string>)
    ensures errors == [] <==> f.emailFormat && |f.otp| == OtpLength && |f.newPassword| >= MinPasswordLength
  {
    Rule(f.emailFormat, EmailMessage) + Rule(|f.otp| == OtpLength, OtpMessage) +
    Rule(|f.newPassword| >= MinPasswordLength, PasswordMessage)
  }

  function ChangeErrors(f: ChangeForm): (errors: seq<string>)
    ensures errors == [] <==> f.currentPassword != [] && |f.newPassword| >= MinPasswordLength
  {
    Rule(f.currentPassword != [], "Current password is required") +
    Rule(|f.newPassword| >= MinPasswordLength, "New password must be at least 6 characters long")
  }

  /** The body of a `/me` response: the record without its password, the token's role, the admin flag. */
  datatype MeBody = MeBody(account: AccountView, role: Role, isAdmin: bool)

  datatype MeResult = MeResult(reply: Reply, body: Option<MeBody>)

  const UserNotFound: Reply := Msg(404, "User not found")

  /**
   * `GET /me`: the gate, then the same lookup by token role. Since the gate has just found
   * the record, the handler's own 404 cannot be reached.
   */
  function Me(users: seq<User>, token: Token): (r: MeResult)
    ensures Authenticate(users, token).Deny? ==> r == MeResult(Authenticate(users, token).reply, None)
    ensures r.reply.status == 200 || r.reply.status == 401
    ensures r.body.Some? <==> r.reply.status == 200
    ensures r.body.Some? ==>
      var t := token.payload;
      var i := FindById(users, LookupKind(t.role), t.id);
      token.Decoded? && i.Some? && r.body.value == MeBody(View(users[i.value]), t.role, users[i.value].isAdmin)
  {
    match Authenticate(users, token)
    case Deny(reply) => MeResult(reply, None)
    case Pass(user) =>
      match FindById(users, LookupKind(user.role), user.id)
      case None => MeResult(UserNotFound, None)
      case Some(i) => MeResult(Reply(200, "", []), Some(MeBody(View(users[i]), user.role, users[i].isAdmin)))
  }
}
