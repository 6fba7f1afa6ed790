/**
 * The user records: one collection holding students and faculty members, told apart by a
 * discriminator, with the shared credential fields (email, password, the two one-time-code
 * slots, the admin flag) and the fields of each kind.
 */
module Accounts {
  import opened Wrappers
  import opened Strings
  import Departments

  const EmailDomain: string := "cusat.ac.in"

  /** The discriminator value of a record. */
  datatype Kind = StudentKind | FacultyKind

  /**
   * The name each discriminator model is registered under; a record's model name is
   * this, and the handlers compare requested roles with it.
   */
  function KindName(k: Kind): string {
    if k == StudentKind then "student" else "faculty"
  }

  const UserModelName: string := "User"

  /** The names a user model is registered under: the base model and its two discriminators. */
  predicate UserModel(name: string) {
    name == UserModelName || name == KindName(StudentKind) || name == KindName(FacultyKind)
  }

  /** A one-time code and the instant (in milliseconds) until which it is accepted. */
  datatype Otp = Otp(code: string, expires: int)

  /**
   * The fields of each kind. Fields a converted record may lack are optional; a record
   * created at registration has all of them.
   */
  datatype Profile =
    | StudentProfile(firstName: string, lastName: string, branch: Option<string>, yearOfAdmission: Option<int>)
    | FacultyProfile(fullName: string, division: Option<string>, post: Option<string>, isVerified: bool)

  datatype User = User(
    id: nat,
    email: string,
    password: string,
    isEmailVerified: bool,
    isAdmin: bool,
    emailOtp: Option<Otp>,
    resetOtp: Option<Otp>,
    profile: Profile)
  {
    function Kind(): Kind {
      if profile.StudentProfile? then StudentKind else FacultyKind
    }

    /** Only faculty members carry the admin-approval flag; it reads as false for students. */
    predicate IsVerifiedFaculty() {
      profile.FacultyProfile? && profile.isVerified
    }
  }

  /** A record as handlers send it out: every field but the password (`select('-password')`). */
  datatype AccountView = AccountView(
    id: nat,
    email: string,
    isEmailVerified: bool,
    isAdmin: bool,
    emailOtp: Option<Otp>,
    resetOtp: Option<Otp>,
    profile: Profile)

  function View(u: User): AccountView {
    AccountView(u.id, u.email, u.isEmailVerified, u.isAdmin, u.emailOtp, u.resetOtp, u.profile)
  }

  /** The `trim` and `lowercase` setters applied to every stored or queried email. */
  function NormalizeEmail(email: string): (r: string)
    ensures |r| <= |email|
    ensures forall i :: 0 <= i < |r| ==> !('A' <= r[i] <= 'Z')
  {
    TrimStartShape(email);
    TrimEndShape(TrimStart(email));
    Lower(Trim(email))
  }

  /** The schema's email validator, applied to the normalised value. */
  predicate EmailAccepted(email: string) {
    EndsWith(NormalizeEmail(email), EmailDomain)
  }

  /** The password check of the schema: exact string equality, no hashing. */
  predicate ComparePassword(u: User, candidate: string) {
    u.password == candidate
  }

  /**
   * The registration controllers test the raw email for the domain suffix; any email
   * that passes that test also passes the schema validator on the normalised value.
   */
  lemma {:induction false} DomainCheckImpliesAccepted(email: string)
    requires EndsWith(email, EmailDomain)
    ensures EmailAccepted(email)
  {
    DomainShape();
    SuffixSurvivesTrim(email, EmailDomain);
    LowerKeepsLowerSuffix(Trim(email), EmailDomain);
  }

  /** The domain suffix starts and ends with a letter and has no upper-case letter. */
  lemma DomainShape()
    ensures EmailDomain != [] && !IsSpace(EmailDomain[0]) && !IsSpace(EmailDomain[|EmailDomain| - 1])
    ensures forall i :: 0 <= i < |EmailDomain| ==> LowerChar(EmailDomain[i]) == EmailDomain[i]
  {
    assert forall i :: 0 <= i < |EmailDomain| ==> 'a' <= EmailDomain[i] <= 'z' || EmailDomain[i] == '.';
  }

  /** Trimming keeps a suffix whose first and last characters are not white space. */
  lemma {:induction false} SuffixSurvivesTrim(s: string, suffix: string)
    requires EndsWith(s, suffix) && suffix != []
    requires !IsSpace(suffix[0]) && !IsSpace(suffix[|suffix| - 1])
    ensures EndsWith(Trim(s), suffix)
  {
    TrimStartKeepsSuffix(s, suffix);
    var t := TrimStart(s);
    assert t[|t| - 1] == suffix[|suffix| - 1];
    assert TrimEnd(t) == t;
  }

  lemma {:induction false} TrimStartKeepsSuffix(s: string, suffix: string)
    requires EndsWith(s, suffix) && suffix != [] && !IsSpace(suffix[0])
    ensures EndsWith(TrimStart(s), suffix)
  {
    if s != [] && IsSpace(s[0]) {
      assert |s| > |suffix|;
      assert s[1..][|s| - 1 - |suffix|..] == s[|s| - |suffix|..];
      TrimStartKeepsSuffix(s[1..], suffix);
    }
  }

  /** Lower-casing keeps a suffix that has no upper-case letter. */
  lemma LowerKeepsLowerSuffix(s: string, suffix: string)
    requires EndsWith(s, suffix)
    requires forall i :: 0 <= i < |suffix| ==> LowerChar(suffix[i]) == suffix[i]
    ensures EndsWith(Lower(s), suffix)
  {
    var l := Lower(s);
    var k := |s| - |suffix|;
    assert forall i :: 0 <= i < |suffix| ==> l[k + i] == LowerChar(s[k + i]) == suffix[i];
    assert l[k..] == suffix;
  }

  /** A record as a registration creates it: defaults applied, names trimmed, email normalised. */
  function NewUser(id: nat, email: string, password: string, otp: Otp, profile: Profile): User {
    User(id, NormalizeEmail(email), password, false, false, Some(otp), None, profile)
  }

  function NewStudentProfile(firstName: string, lastName: string, branch: string, year: int): Profile {
    StudentProfile(Trim(firstName), Trim(lastName), Some(branch), Some(year))
  }

  function NewFacultyProfile(fullName: string, division: string, post: string): Profile {
    FacultyProfile(Trim(fullName), Some(division), Some(post), false)
  }

  /** The schema validators a record must pass to be saved. */
  predicate SchemaValid(u: User) {
    EndsWith(u.email, EmailDomain) && u.email != [] && u.password != [] &&
    match u.profile
      case StudentProfile(first, last, branch, year) =>
        first != [] && last != [] && branch.Some? && branch.value in Departments.Branches && year.Some?
      case FacultyProfile(full, division, post, _) =>
        full != [] && division.Some? && division.value in Departments.Divisions && post.Some? && post.value != []
  }

  /** Every stored record passes the schema. */
  predicate AllSchemaValid(users: seq<User>) {
    forall j :: 0 <= j < |users| ==> SchemaValid(users[j])
  }

}
