/**
 * The registration page: the two guards run before the request, the body sent to the
 * registration route for each role, the lists the form offers, and the two steps of
 * the page (registration, then email verification).
 */
module Register {
  import opened Wrappers
  import opened Strings
  import opened Http
  import Departments
  import AuthRoutes

  // ---------------------------------------------------------------------------------------------
  // The lists offered by the form

  const ClientBranches: seq<string> := [
    "Computer Science", "Information Technology", "Electronics & Communication", "Civil",
    "Mechanical", "Electrical", "Chemical", "Aerospace", "Marine", "Architecture",
    "Physics", "Chemistry", "Mathematics", "Statistics"
  ]

  const ClientDivisions: seq<string> := ClientBranches + [
    "Exam Cell", "Administrative Office", "Library", "Hostel Office", "Placement Cell",
    "Research & Development", "International Relations", "Student Affairs"
  ]

  /** The form offers exactly the server's lists, in the same order. */
  lemma ListsMatchServer()
    ensures ClientBranches == Departments.Branches
    ensures ClientDivisions == Departments.Divisions
    ensures |ClientDivisions| == 22 && ClientDivisions[..14] == ClientBranches
  {
  }

  // ---------------------------------------------------------------------------------------------
  // parseInt

  /** The value of one digit character in the given radix, if it is one. */
  function DigitValue(c: char, radix: nat): (d: Option<nat>)
    ensures d.Some? ==> d.value < radix
  {
    var v: int :=
      if '0' <= c <= '9' then c as int - '0' as int
      else if 'a' <= c <= 'z' then c as int - 'a' as int + 10
      else if 'A' <= c <= 'Z' then c as int - 'A' as int + 10
      else radix;
    if 0 <= v < radix then Some(v) else None
  }

  /** The longest prefix made of digits of the radix. */
  function DigitPrefix(s: string, radix: nat): (p: string)
    ensures |p| <= |s| && p == s[..|p|]
    ensures forall i :: 0 <= i < |p| ==> DigitValue(p[i], radix).Some?
    ensures |p| < |s| ==> DigitValue(s[|p|], radix).None?
  {
    if s != [] && DigitValue(s[0], radix).Some? then [s[0]] + DigitPrefix(s[1..], radix) else []
  }

  /** The number a sequence of digits denotes, most significant first. */
  function DigitsValue(p: string, radix: nat): nat
    requires forall i :: 0 <= i < |p| ==> DigitValue(p[i], radix).Some?
  {
    if p == [] then 0
    else DigitsValue(p[..|p| - 1], radix) * radix + DigitValue(p[|p| - 1], radix).value
  }

  /** The text after leading white space, the sign and, as parseInt without a radix reads it, a `0x`. */
  datatype Reading = Reading(negative: bool, radix: nat, body: string)

  function Read(text: string): (r: Reading)
    ensures r.radix == 10 || r.radix == 16
  {
    var t := TrimStart(text);
    var negative := t != [] && t[0] == '-';
    var unsigned := if t != [] && (t[0] == '-' || t[0] == '+') then t[1..] else t;
    if |unsigned| >= 2 && unsigned[0] == '0' && (unsigned[1] == 'x' || unsigned[1] == 'X')
    then Reading(negative, 16, unsigned[2..])
    else Reading(negative, 10, unsigned)
  }

  /**
   * `parseInt(text)`: `None` stands for NaN, which happens exactly when no digit follows the
   * white space, the sign and the prefix; otherwise the digits up to the first other character.
   */
  function ParseInt(text: string): (n: Option<int>)
    ensures n.None? <==> DigitPrefix(Read(text).body, Read(text).radix) == []
    ensures n.Some? && !Read(text).negative ==> n.value >= 0
  {
    var r := Read(text);
    var digits := DigitPrefix(r.body, r.radix);
    if digits == [] then None
    else
      var v: int := DigitsValue(digits, r.radix);
      Some(if r.negative then -v else v)
  }

  lemma DigitOfDigitChar(d: nat)
    requires d < 10
    ensures DigitValue(DigitChar(d), 10) == Some(d)
    ensures !IsSpace(DigitChar(d)) && DigitChar(d) != '-' && DigitChar(d) != '+' && DigitChar(d) != 'x'
  {
  }

  /** The decimal text of a number reads back as that number. */
  lemma {:induction false} ParseIntOfNat(n: nat)
    ensures ParseInt(NatToString(n)) == Some(n)
  {
    var s := NatToString(n);
    DecimalDigits(n);
    DigitOfDigitChar(if n < 10 then n else n / 10 % 10);
    assert TrimStart(s) == s by {
      FirstDigit(n);
    }
    FirstDigit(n);
    if |s| >= 2 {
      SecondNotX(n);
    }
    assert Read(s) == Reading(false, 10, s);
    AllDigits(s, 10);
    DigitsValueOfNat(n);
  }

  /** Every character of a printed number is a decimal digit of value below ten. */
  lemma {:induction false} DecimalDigits(n: nat)
    ensures forall i :: 0 <= i < |NatToString(n)| ==> DigitValue(NatToString(n)[i], 10).Some?
  {
    NatToStringDigits(n);
  }

  lemma FirstDigit(n: nat)
    ensures var s := NatToString(n); !IsSpace(s[0]) && s[0] != '-' && s[0] != '+'
  {
    NatToStringDigits(n);
  }

  lemma SecondNotX(n: nat)
    requires |NatToString(n)| >= 2
    ensures NatToString(n)[1] != 'x' && NatToString(n)[1] != 'X'
  {
    NatToStringDigits(n);
  }

  /** A text made only of digits is its own digit prefix. */
  lemma {:induction false} AllDigits(s: string, radix: nat)
    requires forall i :: 0 <= i < |s| ==> DigitValue(s[i], radix).Some?
    ensures DigitPrefix(s, radix) == s
  {
    if s != [] {
      AllDigits(s[1..], radix);
    }
  }

  lemma {:induction false} DigitsValueOfNat(n: nat)
    ensures forall i :: 0 <= i < |NatToString(n)| ==> DigitValue(NatToString(n)[i], 10).Some?
    ensures DigitsValue(NatToString(n), 10) == n
  {
    DecimalDigits(n);
    var s := NatToString(n);
    if n < 10 {
      DigitOfDigitChar(n);
      assert s[..0] == [];
    } else {
      DigitsValueOfNat(n / 10);
      DigitOfDigitChar(n % 10);
      assert s[..|s| - 1] == NatToString(n / 10);
    }
  }

  /** An empty year of admission is NaN; so is a text starting with anything but a digit. */
  lemma NotANumber(text: string)
    requires text == [] || DigitValue(text[0], 16).None?
    requires text == [] || (!IsSpace(text[0]) && text[0] != '-' && text[0] != '+')
    ensures ParseInt(text).None?
  {
    if text != [] {
      assert TrimStart(text) == text;
    }
  }

  // ---------------------------------------------------------------------------------------------
  // The request

  datatype Form = Form(
    email: string, password: string, confirmPassword: string, role: string,
    firstName: string, lastName: string, branch: string, yearOfAdmission: string,
    fullName: string, division: string, post: string)

  const InitialForm := Form("", "", "", "student", "", "", "", "", "", "", "")

  const MismatchMessage := "Passwords do not match"
  const SuffixMessage := "Email must end with cusat.ac.in"
  const CampusSuffix := "cusat.ac.in"

  /** The two guards, in order: the confirmation first, then the email's ending. */
  function Guard(f: Form): (error: Option<string>)
    ensures f.password != f.confirmPassword ==> error == Some(MismatchMessage)
    ensures f.password == f.confirmPassword && !EndsWith(f.email, CampusSuffix) ==> error == Some(SuffixMessage)
    ensures error.None? <==> f.password == f.confirmPassword && EndsWith(f.email, CampusSuffix)
  {
    if f.password != f.confirmPassword then Some(MismatchMessage)
    else if !EndsWith(f.email, CampusSuffix) then Some(SuffixMessage)
    else None
  }

  /** A JSON number, or `null`, which is how NaN is sent. */
  datatype Number = Num(value: int) | Null

  /** The registration body: the credentials plus the fields of the chosen role. */
  datatype UserData =
    | StudentData(email: string, password: string, firstName: string, lastName: string, branch: string,
                  yearOfAdmission: Number)
    | FacultyData(email: string, password: string, fullName: string, division: string, post: string)

  function Year(text: string): (y: Number)
    ensures y.Num? <==> ParseInt(text).Some?
    ensures y.Num? ==> y.value == ParseInt(text).value
  {
    match ParseInt(text)
    case Some(n) => Num(n)
    case None => Null
  }

  /** Any role but `student` sends the faculty fields. */
  function Payload(f: Form): (d: UserData)
    ensures d.email == f.email && d.password == f.password
    ensures d.StudentData? <==> f.role == "student"
    ensures d.StudentData? ==>
      d == StudentData(f.email, f.password, f.firstName, f.lastName, f.branch, Year(f.yearOfAdmission))
    ensures d.FacultyData? ==> d == FacultyData(f.email, f.password, f.fullName, f.division, f.post)
  {
    if f.role == "student" then StudentData(f.email, f.password, f.firstName, f.lastName, f.branch, Year(f.yearOfAdmission))
    else FacultyData(f.email, f.password, f.fullName, f.division, f.post)
  }

  datatype Post = Post(path: string, body: UserData)

  function Endpoint(role: string): string {
    "/api/auth/register/" + role
  }

  /** What the student route's rules see of a student body (`emailFormat` is the library's verdict). */
  function ServerStudentForm(d: UserData, emailFormat: bool): (g: AuthRoutes.StudentForm)
    requires d.StudentData?
    ensures g.email == d.email && g.password == d.password && g.branch == d.branch
    ensures g.yearOfAdmission.Some? <==> d.yearOfAdmission.Num?
  {
    AuthRoutes.StudentForm(d.email, emailFormat, d.password, d.firstName, d.lastName, d.branch,
                           if d.yearOfAdmission.Num? then Some(d.yearOfAdmission.value) else None)
  }

  /**
   * A year typed in digits reaches the server as that number, and passes its rule when in range;
   * a year left empty reaches it as null, and the route refuses the registration.
   */
  lemma YearReachesServer(f: Form, emailFormat: bool, currentYear: int, year: nat)
    requires f.role == "student"
    ensures f.yearOfAdmission == NatToString(year) ==>
      ServerStudentForm(Payload(f), emailFormat).yearOfAdmission == Some(year)
    ensures f.yearOfAdmission == [] ==>
      AuthRoutes.StudentErrors(ServerStudentForm(Payload(f), emailFormat), currentYear) != []
  {
    ParseIntOfNat(year);
    NotANumber([]);
  }

  /**
   * A student form that passes the page's guards and whose fields meet the route's rules
   * reaches the controller with all six rules met.
   */
  lemma GuardedStudentAccepted(f: Form, currentYear: int, year: nat)
    requires Guard(f).None? && f.role == "student"
    requires |f.password| >= AuthRoutes.MinPasswordLength && f.firstName != [] && f.lastName != [] && f.branch != []
    requires f.yearOfAdmission == NatToString(year) && AuthRoutes.FirstAdmissionYear <= year <= currentYear
    ensures AuthRoutes.StudentErrors(ServerStudentForm(Payload(f), true), currentYear) == []
  {
    ParseIntOfNat(year);
  }

  // ---------------------------------------------------------------------------------------------
  // The page

  datatype Screen = Screen(
    activeStep: nat, form: Form, otp: string, error: string, registrationSuccess: bool,
    navigatedTo: Option<string>)

  const InitialScreen := Screen(0, InitialForm, "", "", false, None)

  /**
   * The text the page shows for a failed call: the `message` of the response body, or the
   * fallback when it has none. With no response at all the context's helper fails on the missing
   * response, and the page shows the engine's message for that.
   */
  const NoResponseMessage := "Cannot read properties of undefined (reading 'data')"

  function CallError(response: Option<Reply>, fallback: string): (text: string)
    requires fallback != ""
    ensures text != ""
    ensures response.Some? && response.value.message != "" ==> text == response.value.message
    ensures response.Some? && response.value.message == "" ==> text == fallback
  {
    match response
    case None => NoResponseMessage
    case Some(r) => if r.message != "" then r.message else fallback
  }

  function Succeeded(response: Option<Reply>): bool {
    response.Some? && response.value.Success()
  }

  datatype Registration = Registration(screen: Screen, posted: Option<Post>)

  /** handleRegister; `response` is the registration route's answer, when it is called. */
  function Submit(s: Screen, response: Option<Reply>): (r: Registration)
    ensures Guard(s.form).Some? ==> r == Registration(s.(error := Guard(s.form).value), None)
    ensures Guard(s.form).None? ==> r.posted == Some(Post(Endpoint(s.form.role), Payload(s.form)))
    ensures Guard(s.form).None? && Succeeded(response) ==>
      r.screen == s.(error := "", registrationSuccess := true, activeStep := 1)
    ensures Guard(s.form).None? && !Succeeded(response) ==>
      r.screen == s.(error := CallError(response, "Failed to register"))
    ensures r.screen.form == s.form && r.screen.otp == s.otp && r.screen.navigatedTo == s.navigatedTo
  {
    match Guard(s.form)
    case Some(m) => Registration(s.(error := m), None)
    case None =>
      var post := Post(Endpoint(s.form.role), Payload(s.form));
      if Succeeded(response) then Registration(s.(error := "", registrationSuccess := true, activeStep := 1), Some(post))
      else Registration(s.(error := CallError(response, "Failed to register")), Some(post))
  }

  /** The step only moves forward, and only after a registration the server accepted. */
  lemma SubmitStep(s: Screen, response: Option<Reply>)
    ensures Submit(s, response).screen.activeStep != s.activeStep ==>
      Submit(s, response).posted.Some? && Succeeded(response) && Submit(s, response).screen.activeStep == 1
    ensures Submit(s, response).posted.None? ==> Submit(s, response).screen.error != ""
  {
  }

  datatype Verification = Verification(screen: Screen, posted: Option<(string, string)>)

  /** handleVerifyOTP: an empty code asks for one; otherwise the email and the code are sent. */
  function VerifyOtp(s: Screen, response: Option<Reply>): (r: Verification)
    ensures s.otp == [] ==> r == Verification(s.(error := "Please enter the OTP"), None)
    ensures s.otp != [] ==> r.posted == Some((s.form.email, s.otp))
    ensures !(s.otp != [] && Succeeded(response)) ==> r.screen.navigatedTo == s.navigatedTo
    ensures s.otp != [] && Succeeded(response) ==> r.screen.navigatedTo == Some("/login")
    ensures r.screen.activeStep == s.activeStep
  {
    if s.otp == [] then Verification(s.(error := "Please enter the OTP"), None)
    else if Succeeded(response) then Verification(s.(error := "", navigatedTo := Some("/login")), Some((s.form.email, s.otp)))
    else Verification(s.(error := CallError(response, "Verification failed. Please try again.")), Some((s.form.email, s.otp)))
  }

  /** handleResendOTP: the outcome is shown in the error line either way. */
  function ResendOtp(s: Screen, response: Option<Reply>): (t: Screen)
    ensures t.error != ""
    ensures Succeeded(response) ==> t.error == "A new OTP has been sent to your email"
    ensures t == s.(error := t.error)
  {
    if Succeeded(response) then s.(error := "A new OTP has been sent to your email")
    else s.(error := CallError(response, "Failed to resend OTP"))
  }

  /** The page component; the `loading` and `resending` flags are not kept. */
  class RegisterPage {
    var activeStep: nat
    var form: Form
    var otp: string
    var error: string
    var registrationSuccess: bool
    var navigatedTo: Option<string>

    function State(): Screen
      reads this
    {
      Screen(activeStep, form, otp, error, registrationSuccess, navigatedTo)
    }

    constructor ()
      ensures State() == InitialScreen
    {
      activeStep, form, otp, error, registrationSuccess, navigatedTo := 0, InitialForm, "", "", false, None;
    }

    /** An input's change: the form with that one field replaced. */
    method Change(next: Form)
      modifies this
      ensures State() == old(State()).(form := next)
    {
      form := next;
    }

    method HandleRegister(response: Option<Reply>) returns (posted: Option<Post>)
      modifies this
      ensures State() == Submit(old(State()), response).screen
      ensures posted == Submit(old(State()), response).posted
    {
      error := "";
      if form.password != form.confirmPassword {
        error := MismatchMessage;
        return None;
      }
      if !EndsWith(form.email, CampusSuffix) {
        error := SuffixMessage;
        return None;
      }
      posted := Some(Post(Endpoint(form.role), Payload(form)));
      if Succeeded(response) {
        registrationSuccess := true;
        activeStep := 1;
      } else {
        error := CallError(response, "Failed to register");
      }
    }

    method HandleVerifyOtp(response: Option<Reply>) returns (posted: Option<(string, string)>)
      modifies this
      ensures State() == VerifyOtp(old(State()), response).screen
      ensures posted == VerifyOtp(old(State()), response).posted
    {
      if otp == [] {
        error := "Please enter the OTP";
        return None;
      }
      error := "";
      posted := Some((form.email, otp));
      if Succeeded(response) {
        navigatedTo := Some("/login");
      } else {
        error := CallError(response, "Verification failed. Please try again.");
      }
    }

    method HandleResendOtp(response: Option<Reply>)
      modifies this
      ensures State() == ResendOtp(old(State()), response)
    {
      error := "";
      if Succeeded(response) {
        error := "A new OTP has been sent to your email";
      } else {
        error := CallError(response, "Failed to resend OTP");
      }
    }
  }
}
