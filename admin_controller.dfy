/**
 * The second implementation of the administrator operations, in
 * `server/src/controllers/adminController.js`. No route mounts it; it is modelled beside the
 * mounted routes so the two can be compared. Every handler reads `req.user` as the request
 * gate leaves it and refuses unless its role is exactly 'admin'.
 *
 * Four handlers, as written, cannot do what they evidently mean to:
 *  - a role conversion saves the new record while the old one still holds the email, so
 *    the unique index refuses it (`UpdateUserRoleAsWritten`);
 *  - the listing, approval and rejection populate the request's `faculty` reference,
 *    whose model name no model is registered under, so they fail with 500 once the query
 *    finds a request (`GetVerificationRequestsAsWritten`, `ApproveAsWritten`,
 *    `RejectAsWritten`); with the name corrected, approval and rejection would still read
 *    the faculty id through the populated reference, which is null when the faculty record
 *    is gone, and fail the same way (`ApproveWithRef`, `RejectWithRef`).
 * `GetVerificationRequests`, `UpdateUserRole`, `Approve` and `Reject` are the corrected
 * handlers.
 */
module AdminController {
  import opened Wrappers
  import opened Strings
  import opened Seqs
  import opened Http
  import opened Accounts
  import opened VerificationRequests
  import opened Store
  import opened AuthGate
  import AdminRoutes
  import AuthRoutes
  import AuthController
  import Departments

  const NoUser: Reply := Msg(404, "User not found")
  const NoRequest: Reply := Msg(404, "Verification request not found")

  /** Every handler's first test, on `req.user`. */
  predicate IsAdminCaller(caller: TokenUser) {
    caller.role == AdminRole
  }

  /** `Student.findById(id)`, then `Faculty.findById(id)` when that finds nothing. */
  function Locate(users: seq<User>, id: nat): (r: Option<nat>)
    ensures r.Some? ==> r.value < |users| && users[r.value].id == id
    ensures r.None? <==> forall j :: 0 <= j < |users| ==> users[j].id != id
    ensures r.Some? && users[r.value].Kind() == FacultyKind ==> FindById(users, StudentKind, id).None?
  {
    var s := FindById(users, StudentKind, id);
    if s.Some? then s
    else
      var f := FindById(users, FacultyKind, id);
      assert f.None? ==> forall j :: 0 <= j < |users| ==> users[j].id != id by {
        if f.None? {
          forall j | 0 <= j < |users|
            ensures users[j].id != id
          {
            assert !(users[j].Kind() == StudentKind && users[j].id == id);
            assert !(users[j].Kind() == FacultyKind && users[j].id == id);
          }
        }
      }
      f
  }

  // ---------------------------------------------------------------------------------------
  // Reading handlers

  /** `getAllUsers`. */
  function GetAllUsers(db: Db, caller: TokenUser): Answer<AdminRoutes.UserLists> {
    if !IsAdminCaller(caller) then Fail(NotAuthorized)
    else Ok(AdminRoutes.UserLists(AdminRoutes.Views(AdminRoutes.OfKind(db.users, StudentKind)),
                                  AdminRoutes.Views(AdminRoutes.OfKind(db.users, FacultyKind))))
  }

  datatype FoundUser = FoundUser(user: AccountView, role: string)

  /** `getUserById`: the record and the name of its kind. */
  function GetUserById(db: Db, caller: TokenUser, id: nat): Answer<FoundUser> {
    if !IsAdminCaller(caller) then Fail(NotAuthorized)
    else
      match Locate(db.users, id)
      case None => Fail(NoUser)
      case Some(i) => Ok(FoundUser(View(db.users[i]), KindName(db.users[i].Kind())))
  }

  /** `getVerificationRequests` as evidently intended: every request, whatever its status, newest first. */
  function GetVerificationRequests(db: Db, caller: TokenUser): Answer<seq<Request>> {
    if !IsAdminCaller(caller) then Fail(NotAuthorized)
    else Ok(SortBy(db.requests, AdminRoutes.NewestFirst))
  }

  /**
   * `getVerificationRequests` as written: populating the `faculty` reference throws for
   * its unregistered model name as soon as one request is found, and the catch answers 500.
   */
  function GetVerificationRequestsAsWritten(db: Db, caller: TokenUser): Answer<seq<Request>> {
    if !IsAdminCaller(caller) then Fail(NotAuthorized)
    else if db.requests != [] && !UserModel(FacultyRef) then Fail(ServerError)
    else Ok(SortBy(db.requests, AdminRoutes.NewestFirst))
  }

  // ---------------------------------------------------------------------------------------
  // Role change

  /**
   * The student document built from a faculty record: a new document with its own id,
   * the branch taken from the division, the current year as year of admission. The admin
   * flag is not copied, so it takes its default.
   */
  function ToStudent(u: User, newId: nat, currentYear: int): (r: User)
    requires u.profile.FacultyProfile?
    ensures r.Kind() == StudentKind && r.id == newId && r.email == u.email && r.password == u.password
    ensures r.isEmailVerified == u.isEmailVerified && !r.isAdmin && r.emailOtp == None && r.resetOtp == None
    ensures r.profile.branch == u.profile.division && r.profile.yearOfAdmission == Some(currentYear)
    ensures ' ' !in r.profile.firstName
  {
    var words := Split(u.profile.fullName, ' ');
    TrimWithout(words[0], ' ');
    User(newId, u.email, u.password, u.isEmailVerified, false, None, None,
         StudentProfile(Trim(words[0]), Trim(Join(words[1..], ' ')), u.profile.division, Some(currentYear)))
  }

  /** The faculty document built from a student record: approved at once, with post 'Faculty'. */
  function ToFaculty(u: User, newId: nat): (r: User)
    requires u.profile.StudentProfile?
    ensures r.Kind() == FacultyKind && r.id == newId && r.email == u.email && r.password == u.password
    ensures r.isEmailVerified == u.isEmailVerified && !r.isAdmin && r.emailOtp == None && r.resetOtp == None
    ensures r.IsVerifiedFaculty() && r.profile.division == u.profile.branch && r.profile.post == Some("Faculty")
  {
    User(newId, u.email, u.password, u.isEmailVerified, false, None, None,
         FacultyProfile(Trim(u.profile.firstName + " " + u.profile.lastName), u.profile.branch, Some("Faculty"), true))
  }

  /** The converted document for the record at `i`, for a requested role other than its own. */
  function Converted(db: Db, i: nat, currentYear: int): (r: User)
    requires i < |db.users|
    ensures r.Kind() != db.users[i].Kind() && r.id == db.nextId && r.email == db.users[i].email
  {
    var u := db.users[i];
    if u.Kind() == FacultyKind then ToStudent(u, db.nextId, currentYear) else ToFaculty(u, db.nextId)
  }

  /** When the old record is removed, relative to saving the converted one. */
  datatype SaveOrder = SaveFirst | RemoveFirst

  /**
   * The conversion of the record at `i`. With `SaveFirst`, as written, `newUser.save()` runs
   * while the old record is still stored and `user.remove()` after it; with `RemoveFirst`
   * the old record goes first. A refused save changes nothing.
   */
  function Convert(db: Db, i: nat, currentYear: int, order: SaveOrder): Outcome
    requires i < |db.users|
  {
    var n := Converted(db, i, currentYear);
    var rest := RemoveAt(db.users, i);
    if !Saveable(if order == SaveFirst then db.users else rest, n) then Outcome(db, ServerError)
    else Outcome(db.(users := rest + [n], nextId := db.nextId + 1), Msg(200, "User role updated"))
  }

  /** `updateUserRole`, with the save order of the conversions as a parameter. */
  function UpdateUserRoleIn(db: Db, caller: TokenUser, id: nat, role: string, currentYear: int, order: SaveOrder): Outcome {
    if !IsAdminCaller(caller) then Outcome(db, NotAuthorized)
    else
      match Locate(db.users, id)
      case None => Outcome(db, NoUser)
      case Some(i) =>
        if KindName(db.users[i].Kind()) == role then Outcome(db, Msg(400, "User already has this role"))
        else if role == "student" || role == "faculty" then Convert(db, i, currentYear, order)
        else if role == "admin" then
          Outcome(db.(users := db.users[i := db.users[i].(isAdmin := true)]), Msg(200, "User updated to admin"))
        // `newUser` stays undefined and `newUser.save()` throws.
        else Outcome(db, ServerError)
  }

  /** `updateUserRole` as written. */
  function UpdateUserRoleAsWritten(db: Db, caller: TokenUser, id: nat, role: string, currentYear: int): Outcome {
    UpdateUserRoleIn(db, caller, id, role, currentYear, SaveFirst)
  }

  /** `updateUserRole` with the conversion taking effect. */
  function UpdateUserRole(db: Db, caller: TokenUser, id: nat, role: string, currentYear: int): Outcome {
    UpdateUserRoleIn(db, caller, id, role, currentYear, RemoveFirst)
  }

  // ---------------------------------------------------------------------------------------
  // Deletion and the verification requests

  /** `deleteUser`: the record alone; requests naming it stay. */
  function DeleteUser(db: Db, caller: TokenUser, id: nat): Outcome {
    if !IsAdminCaller(caller) then Outcome(db, NotAuthorized)
    else
      match Locate(db.users, id)
      case None => Outcome(db, NoUser)
      case Some(i) => Outcome(db.(users := RemoveAt(db.users, i)), Msg(200, "User deleted"))
  }

  /**
   * `approveVerificationRequest`, with the model name the request's `faculty` reference
   * gives as a parameter. Populating the found request throws unless a user model is
   * registered under that name; when it is, a missing faculty record populates as null and
   * reading its `_id` throws. The catch answers 500 to either.
   */
  function ApproveWithRef(db: Db, caller: TokenUser, id: nat, ref: string): Outcome {
    if !IsAdminCaller(caller) then Outcome(db, NotAuthorized)
    else
      match FindRequest(db.requests, id)
      case None => Outcome(db, NoRequest)
      case Some(k) =>
        if !UserModel(ref) then Outcome(db, ServerError)
        else
          match FindById(db.users, FacultyKind, db.requests[k].faculty)
          case None => Outcome(db, ServerError)
          case Some(i) => Approved(db, k, i)
  }

  /** `approveVerificationRequest` as written. */
  function ApproveAsWritten(db: Db, caller: TokenUser, id: nat): Outcome {
    ApproveWithRef(db, caller, id, FacultyRef)
  }

  /** `approveVerificationRequest` answering its own 404 for a missing faculty record. */
  function Approve(db: Db, caller: TokenUser, id: nat): Outcome {
    if !IsAdminCaller(caller) then Outcome(db, NotAuthorized)
    else
      match FindRequest(db.requests, id)
      case None => Outcome(db, NoRequest)
      case Some(k) =>
        match FindById(db.users, FacultyKind, db.requests[k].faculty)
        case None => Outcome(db, Msg(404, "Faculty not found"))
        case Some(i) => Approved(db, k, i)
  }

  /** The faculty record at `i` marked approved and the request at `k` removed. */
  function Approved(db: Db, k: nat, i: nat): Outcome
    requires k < |db.requests| && i < |db.users| && db.users[i].profile.FacultyProfile?
  {
    Outcome(db.(users := db.users[i := db.users[i].(profile := db.users[i].profile.(isVerified := true))],
                requests := RemoveAt(db.requests, k)),
            Msg(200, "Faculty verified successfully"))
  }

  /**
   * `rejectVerificationRequest`, with the model name of the `faculty` reference as a
   * parameter and failing as `ApproveWithRef` does; otherwise the faculty record and the
   * request both go.
   */
  function RejectWithRef(db: Db, caller: TokenUser, id: nat, ref: string): Outcome {
    if !IsAdminCaller(caller) then Outcome(db, NotAuthorized)
    else
      match FindRequest(db.requests, id)
      case None => Outcome(db, NoRequest)
      case Some(k) =>
        if !UserModel(ref) then Outcome(db, ServerError)
        else
          match FindById(db.users, FacultyKind, db.requests[k].faculty)
          case None => Outcome(db, ServerError)
          case Some(i) => Outcome(db.(users := RemoveAt(db.users, i), requests := RemoveAt(db.requests, k)), Rejected)
  }

  /** `rejectVerificationRequest` as written. */
  function RejectAsWritten(db: Db, caller: TokenUser, id: nat): Outcome {
    RejectWithRef(db, caller, id, FacultyRef)
  }

  const Rejected: Reply := Msg(200, "Faculty verification rejected")

  /** `rejectVerificationRequest` with the missing faculty record skipped, as its `if (faculty)` means. */
  function Reject(db: Db, caller: TokenUser, id: nat): Outcome {
    if !IsAdminCaller(caller) then Outcome(db, NotAuthorized)
    else
      match FindRequest(db.requests, id)
      case None => Outcome(db, NoRequest)
      case Some(k) =>
        match FindById(db.users, FacultyKind, db.requests[k].faculty)
        case None => Outcome(db.(requests := RemoveAt(db.requests, k)), Rejected)
        case Some(i) => Outcome(db.(users := RemoveAt(db.users, i), requests := RemoveAt(db.requests, k)), Rejected)
  }

  // ---------------------------------------------------------------------------------------
  // Who gets through

  /** A caller whose role is not 'admin' is refused by every handler, and nothing changes. */
  lemma EveryHandlerNeedsAdminRole(db: Db, caller: TokenUser, id: nat, role: string, currentYear: int)
    requires !IsAdminCaller(caller)
    ensures GetAllUsers(db, caller) == Fail(NotAuthorized) && GetUserById(db, caller, id) == Fail(NotAuthorized)
    ensures GetVerificationRequests(db, caller) == Fail(NotAuthorized)
    ensures GetVerificationRequestsAsWritten(db, caller) == Fail(NotAuthorized)
    ensures UpdateUserRole(db, caller, id, role, currentYear) == Outcome(db, NotAuthorized)
    ensures UpdateUserRoleAsWritten(db, caller, id, role, currentYear) == Outcome(db, NotAuthorized)
    ensures DeleteUser(db, caller, id) == Outcome(db, NotAuthorized)
    ensures Approve(db, caller, id) == Outcome(db, NotAuthorized) && ApproveAsWritten(db, caller, id) == Outcome(db, NotAuthorized)
    ensures Reject(db, caller, id) == Outcome(db, NotAuthorized) && RejectAsWritten(db, caller, id) == Outcome(db, NotAuthorized)
  {
  }

  /**
   * Login issues no token with role 'admin' and the gate keeps the token's role, so a
   * caller who logged in is refused by every handler here, administrator or not.
   */
  lemma LoggedInCallersRefused(db: Db, f: AuthRoutes.LoginForm, id: nat, role: string, currentYear: int)
    requires AuthController.Login(db, f).LoggedIn?
    requires Authenticate(db.users, Decoded(AuthController.Login(db, f).token)).Pass?
    ensures var caller := Authenticate(db.users, Decoded(AuthController.Login(db, f).token)).user;
      GetAllUsers(db, caller) == Fail(NotAuthorized) &&
      UpdateUserRole(db, caller, id, role, currentYear) == Outcome(db, NotAuthorized) &&
      DeleteUser(db, caller, id) == Outcome(db, NotAuthorized) &&
      Approve(db, caller, id) == Outcome(db, NotAuthorized) && Reject(db, caller, id) == Outcome(db, NotAuthorized)
  {
    AuthController.LoginIssuesNoAdminRole(db, f);
    var caller := Authenticate(db.users, Decoded(AuthController.Login(db, f).token)).user;
    EveryHandlerNeedsAdminRole(db, caller, id, role, currentYear);
  }

  // ---------------------------------------------------------------------------------------
  // Reading handlers

  /** The record with the id, and the name of its kind; the student record when both kinds hold the id. */
  lemma GetUserByIdResult(db: Db, caller: TokenUser, id: nat)
    requires IsAdminCaller(caller)
    ensures var a := GetUserById(db, caller, id);
      (a == Fail(NoUser) <==> forall j :: 0 <= j < |db.users| ==> db.users[j].id != id) &&
      (a.Ok? ==> a.body.user.id == id && (a.body.role == "student" <==> a.body.user.profile.StudentProfile?) &&
                 exists j :: 0 <= j < |db.users| && View(db.users[j]) == a.body.user) &&
      (FindById(db.users, StudentKind, id).Some? ==> a.Ok? && a.body.role == "student")
  {
    var r := Locate(db.users, id);
    if r.Some? {
      assert View(db.users[r.value]) == GetUserById(db, caller, id).body.user;
    }
  }

  /** Unlike the mounted route, this listing holds every request, of any status, newest first. */
  lemma VerificationRequestsListing(db: Db, caller: TokenUser)
    requires IsAdminCaller(caller)
    ensures var r := GetVerificationRequests(db, caller).body;
      (forall i, j :: 0 <= i < j < |r| ==> r[i].createdAt >= r[j].createdAt) &&
      multiset(r) == multiset(db.requests) &&
      (forall j :: 0 <= j < |db.requests| ==> db.requests[j] in r)
  {
    var r := SortBy(db.requests, AdminRoutes.NewestFirst);
    forall i, j | 0 <= i < j < |r|
      ensures r[i].createdAt >= r[j].createdAt
    {
      assert AdminRoutes.NewestFirst(r[i]) <= AdminRoutes.NewestFirst(r[j]);
    }
    forall j | 0 <= j < |db.requests|
      ensures db.requests[j] in r
    {
      assert db.requests[j] in multiset(db.requests);
    }
  }

  // ---------------------------------------------------------------------------------------
  // Role change

  /** The refusals of `updateUserRole`, in either save order; none of them changes anything. */
  lemma UpdateUserRoleRefusals(db: Db, caller: TokenUser, id: nat, role: string, currentYear: int, order: SaveOrder)
    requires IsAdminCaller(caller)
    ensures var o := UpdateUserRoleIn(db, caller, id, role, currentYear, order);
      ((forall j :: 0 <= j < |db.users| ==> db.users[j].id != id) <==> o == Outcome(db, NoUser)) &&
      (Locate(db.users, id).Some? && KindName(db.users[Locate(db.users, id).value].Kind()) == role ==>
        o == Outcome(db, Msg(400, "User already has this role"))) &&
      (Locate(db.users, id).Some? && role != "student" && role != "faculty" && role != "admin" ==>
        o == Outcome(db, ServerError)) &&
      (o.db != db ==> role == "student" || role == "faculty" || role == "admin")
  {
  }

  /**
   * As written, no conversion is ever stored: the old record is still present with the
   * same email when the converted one is saved, so the unique index refuses the save.
   */
  lemma ConversionAlwaysFailsAsWritten(db: Db, caller: TokenUser, id: nat, role: string, currentYear: int)
    requires role == "student" || role == "faculty"
    ensures UpdateUserRoleAsWritten(db, caller, id, role, currentYear).db == db
    ensures UpdateUserRoleAsWritten(db, caller, id, role, currentYear).reply.status != 200
  {
    if IsAdminCaller(caller) && Locate(db.users, id).Some? {
      var i := Locate(db.users, id).value;
      var n := Converted(db, i, currentYear);
      assert db.users[i].email == n.email;
      assert !Saveable(db.users, n);
    }
  }

  /** Outside the two conversions, the handler as written and the corrected one agree. */
  lemma UpdateUserRoleVersionsAgree(db: Db, caller: TokenUser, id: nat, role: string, currentYear: int)
    requires role != "student" && role != "faculty"
    ensures UpdateUserRoleAsWritten(db, caller, id, role, currentYear) == UpdateUserRole(db, caller, id, role, currentYear)
  {
  }

  /** Under the unique index, a corrected conversion succeeds exactly when the new document passes the schema. */
  lemma ConversionSucceedsIff(db: Db, caller: TokenUser, id: nat, role: string, currentYear: int)
    requires EmailsUnique(db.users) && IsAdminCaller(caller)
    requires Locate(db.users, id).Some? && (role == "student" || role == "faculty")
    requires KindName(db.users[Locate(db.users, id).value].Kind()) != role
    ensures var o := UpdateUserRole(db, caller, id, role, currentYear);
      var n := Converted(db, Locate(db.users, id).value, currentYear);
      (o.reply == Msg(200, "User role updated") <==> SchemaValid(n)) &&
      (!SchemaValid(n) ==> o == Outcome(db, ServerError))
  {
    var i := Locate(db.users, id).value;
    var n := Converted(db, i, currentYear);
    var rest := RemoveAt(db.users, i);
    forall j | 0 <= j < |rest|
      ensures rest[j].email != n.email
    {
      var j' := if j < i then j else j + 1;
      assert rest[j] == db.users[j'] && j' != i;
    }
  }

  /**
   * A stored conversion: the old record leaves, the new document with the next id comes
   * last, the admin flag is lost, and the requests still name the old id, which no record
   * holds any more.
   */
  lemma ConversionEffect(db: Db, caller: TokenUser, id: nat, role: string, currentYear: int)
    requires UserIdsFresh(db.users, db.nextId)
    requires UpdateUserRole(db, caller, id, role, currentYear).reply == Msg(200, "User role updated")
    ensures var o := UpdateUserRole(db, caller, id, role, currentYear);
      var i := Locate(db.users, id).value;
      var n := o.db.users[|o.db.users| - 1];
      Locate(db.users, id).Some? &&
      o.db == db.(users := RemoveAt(db.users, i) + [n], nextId := db.nextId + 1) &&
      n == Converted(db, i, currentYear) && n.id == db.nextId && !n.isAdmin &&
      n.Kind() != db.users[i].Kind() && KindName(n.Kind()) == role &&
      (forall j :: 0 <= j < |o.db.users| ==> o.db.users[j].id != id)
  {
    ConversionReached(db, caller, id, role, currentYear);
    var i := Locate(db.users, id).value;
    var rest := RemoveAt(db.users, i);
    forall j | 0 <= j < |rest|
      ensures rest[j].id != id
    {
      var j' := if j < i then j else j + 1;
      assert rest[j] == db.users[j'] && j' != i;
    }
  }

  /** Only a conversion by an administrator of a located record answers "User role updated". */
  lemma ConversionReached(db: Db, caller: TokenUser, id: nat, role: string, currentYear: int)
    requires UpdateUserRole(db, caller, id, role, currentYear).reply == Msg(200, "User role updated")
    ensures IsAdminCaller(caller) && Locate(db.users, id).Some?
    ensures var i := Locate(db.users, id).value;
      && KindName(db.users[i].Kind()) != role && (role == "student" || role == "faculty")
      && UpdateUserRole(db, caller, id, role, currentYear) == Convert(db, i, currentYear, RemoveFirst)
      && Convert(db, i, currentYear, RemoveFirst).db
         == db.(users := RemoveAt(db.users, i) + [Converted(db, i, currentYear)], nextId := db.nextId + 1)
  {
  }

  /**
   * A student record that passes the schema, with its names trimmed as the schema's setters
   * store them, always converts to a faculty document that passes it too.
   */
  lemma ToFacultySchemaValid(u: User, newId: nat)
    requires u.profile.StudentProfile? && SchemaValid(u)
    requires Trimmed(u.profile.firstName) && Trimmed(u.profile.lastName)
    ensures SchemaValid(ToFaculty(u, newId))
  {
    TrimJoined(u.profile.firstName, u.profile.lastName);
    Departments.ListShapes();
  }

  /**
   * A faculty document converts to a student one that passes the schema only when its
   * division is a department and its full name has more than one word: a member of an
   * administrative unit cannot be converted.
   */
  lemma ToStudentNeedsBranch(u: User, newId: nat, currentYear: int)
    requires u.profile.FacultyProfile? && SchemaValid(ToStudent(u, newId, currentYear))
    ensures u.profile.division.Some? && u.profile.division.value in Departments.Branches
    ensures u.profile.division.value !in Departments.AdminUnits
    ensures ' ' in u.profile.fullName
  {
    if ' ' !in u.profile.fullName {
      SplitWithout(u.profile.fullName, ' ');
    }
  }

  /** A stored conversion keeps ids unique and issued and emails unique; the counter moves past the new id. */
  lemma ConvertValid(db: Db, i: nat, currentYear: int)
    requires Valid(db) && i < |db.users|
    ensures Valid(Convert(db, i, currentYear, RemoveFirst).db)
  {
    var n := Converted(db, i, currentYear);
    var rest := RemoveAt(db.users, i);
    if Saveable(rest, n) {
      AdminRoutes.RemoveUserKeepsIndexes(db.users, i, db.nextId);
      var us := rest + [n];
      assert us[|rest|] == n;
      assert forall j :: 0 <= j < |rest| ==> us[j] == rest[j];
      assert UserIdsFresh(us, db.nextId + 1);
      assert EmailsUnique(us);
    }
  }

  /** The corrected role change keeps the store's invariant. */
  lemma UpdateUserRoleValid(db: Db, caller: TokenUser, id: nat, role: string, currentYear: int)
    requires Valid(db)
    ensures Valid(UpdateUserRole(db, caller, id, role, currentYear).db)
  {
    if IsAdminCaller(caller) && Locate(db.users, id).Some? {
      var i := Locate(db.users, id).value;
      if KindName(db.users[i].Kind()) != role && (role == "student" || role == "faculty") {
        ConvertValid(db, i, currentYear);
      }
    }
  }

  // ---------------------------------------------------------------------------------------
  // Deletion

  /** `deleteUser` removes the record with the id and nothing else: its requests stay. */
  lemma DeleteUserEffect(db: Db, caller: TokenUser, id: nat)
    requires IsAdminCaller(caller)
    ensures var o := DeleteUser(db, caller, id);
      o.db.requests == db.requests && o.db.notices == db.notices && o.db.events == db.events &&
      o.db.nextId == db.nextId &&
      ((forall j :: 0 <= j < |db.users| ==> db.users[j].id != id) <==> o == Outcome(db, NoUser)) &&
      (o.reply != NoUser ==>
        o.db.users == RemoveAt(db.users, Locate(db.users, id).value) && o.reply == Msg(200, "User deleted"))
  {
  }

  /** Both versions of the delete remove the same record; only the mounted one takes the requests with it. */
  lemma DeleteVariantsCompared(db: Db, token: Token, id: nat)
    requires Authorize(db.users, token, AdminRole).Run?
    requires FindById(db.users, StudentKind, id).None? && FindById(db.users, FacultyKind, id).Some?
    ensures var mounted := AdminRoutes.DeleteUser(db, token, id);
      var here := DeleteUser(db, TokenUser(id, AdminRole, true), id);
      mounted.db.users == here.db.users &&
      here.db.requests == db.requests &&
      mounted.db.requests == AdminRoutes.RequestsNotFor(db.requests, id)
  {
  }

  lemma DeleteUserValid(db: Db, caller: TokenUser, id: nat)
    requires Valid(db)
    ensures Valid(DeleteUser(db, caller, id).db)
  {
    if IsAdminCaller(caller) && Locate(db.users, id).Some? {
      AdminRoutes.RemoveUserKeepsIndexes(db.users, Locate(db.users, id).value, db.nextId);
    }
  }

  // ---------------------------------------------------------------------------------------
  // Approval and rejection

  /** Approval answers a 404 for a missing request and for a missing faculty record; otherwise it approves. */
  lemma ApproveEffect(db: Db, caller: TokenUser, id: nat)
    requires IsAdminCaller(caller)
    ensures var o := Approve(db, caller, id);
      ((forall j :: 0 <= j < |db.requests| ==> db.requests[j].id != id) <==> o == Outcome(db, NoRequest)) &&
      (o.reply.status == 404 ==> o.db == db) &&
      (o.reply.status != 404 ==>
        var k := FindRequest(db.requests, id).value;
        var i := FindById(db.users, FacultyKind, db.requests[k].faculty).value;
        o.reply == Msg(200, "Faculty verified successfully") &&
        o.db.users[i].IsVerifiedFaculty() && o.db.users[i].id == db.requests[k].faculty &&
        (forall j :: 0 <= j < |db.users| && j != i ==> o.db.users[j] == db.users[j]) &&
        o.db.requests == RemoveAt(db.requests, k))
  {
  }

  /**
   * As written, every request that is found fails: the listing answers 500 as soon as
   * there is a request, and approval and rejection answer 500 and change nothing, where the
   * corrected handlers answer 200 whenever the faculty record is there. Only the empty
   * listing and the unknown id get their intended answers.
   */
  lemma RequestHandlersFailAsWritten(db: Db, caller: TokenUser, id: nat)
    requires IsAdminCaller(caller)
    ensures db.requests != [] <==> GetVerificationRequestsAsWritten(db, caller) == Fail(ServerError)
    ensures db.requests == [] ==> GetVerificationRequestsAsWritten(db, caller) == GetVerificationRequests(db, caller)
    ensures FindRequest(db.requests, id).Some? ==>
      ApproveAsWritten(db, caller, id) == Outcome(db, ServerError) &&
      RejectAsWritten(db, caller, id) == Outcome(db, ServerError)
    ensures FindRequest(db.requests, id).None? ==>
      ApproveAsWritten(db, caller, id) == Approve(db, caller, id) == Outcome(db, NoRequest) &&
      RejectAsWritten(db, caller, id) == Reject(db, caller, id) == Outcome(db, NoRequest)
    ensures (FindRequest(db.requests, id).Some? &&
             FindById(db.users, FacultyKind, db.requests[FindRequest(db.requests, id).value].faculty).Some?) ==>
      Approve(db, caller, id).reply.status == 200 && Reject(db, caller, id).reply.status == 200
  {
    AdminRoutes.FacultyRefUnregistered();
  }

  /**
   * With the reference naming the registered faculty model and the faculty record there,
   * the handlers agree with the corrected ones.
   */
  lemma ApproveRejectVersionsAgree(db: Db, caller: TokenUser, id: nat)
    requires FindRequest(db.requests, id).Some?
    requires FindById(db.users, FacultyKind, db.requests[FindRequest(db.requests, id).value].faculty).Some?
    ensures ApproveWithRef(db, caller, id, KindName(FacultyKind)) == Approve(db, caller, id)
    ensures RejectWithRef(db, caller, id, KindName(FacultyKind)) == Reject(db, caller, id)
  {
  }

  /**
   * Even with the reference naming the registered faculty model, a request whose faculty
   * record is gone could be neither approved nor rejected: both answer 500 and the request
   * stays. The corrected handlers answer 404, or remove it.
   */
  lemma OrphanedRequestStuckAsWritten(db: Db, caller: TokenUser, k: nat)
    requires IsAdminCaller(caller) && RequestIdsFresh(db.requests, db.nextId)
    requires k < |db.requests| && FindById(db.users, FacultyKind, db.requests[k].faculty).None?
    ensures var id := db.requests[k].id;
      ApproveWithRef(db, caller, id, KindName(FacultyKind)) == Outcome(db, ServerError) &&
      RejectWithRef(db, caller, id, KindName(FacultyKind)) == Outcome(db, ServerError) &&
      Approve(db, caller, id) == Outcome(db, Msg(404, "Faculty not found")) &&
      Reject(db, caller, id) == Outcome(db.(requests := RemoveAt(db.requests, k)), Rejected)
  {
  }

  /**
   * Such requests arise: deleting a faculty member through this controller leaves their
   * request behind, and even with the reference's model name corrected the request is
   * stuck from then on.
   */
  lemma DeletedFacultyLeavesStuckRequest(db: Db, caller: TokenUser, k: nat)
    requires Valid(db) && IsAdminCaller(caller) && k < |db.requests|
    requires FindById(db.users, StudentKind, db.requests[k].faculty).None?
    requires FindById(db.users, FacultyKind, db.requests[k].faculty).Some?
    ensures var d := DeleteUser(db, caller, db.requests[k].faculty).db;
      d.requests == db.requests &&
      ApproveWithRef(d, caller, db.requests[k].id, KindName(FacultyKind)) == Outcome(d, ServerError) &&
      RejectWithRef(d, caller, db.requests[k].id, KindName(FacultyKind)) == Outcome(d, ServerError)
  {
    var faculty := db.requests[k].faculty;
    var d := DeleteUser(db, caller, faculty).db;
    DeleteUserEffect(db, caller, faculty);
    DeleteUserValid(db, caller, faculty);
    var i := Locate(db.users, faculty).value;
    forall j | 0 <= j < |d.users|
      ensures d.users[j].id != faculty
    {
      var j' := if j < i then j else j + 1;
      assert d.users[j] == db.users[j'] && j' != i;
    }
    OrphanedRequestStuckAsWritten(d, caller, k);
  }

  /** Rejection takes the faculty record with it, where the mounted route keeps every record. */
  lemma RejectEffect(db: Db, caller: TokenUser, token: Token, id: nat)
    requires IsAdminCaller(caller) && Authorize(db.users, token, AdminRole).Run?
    requires FindRequest(db.requests, id).Some?
    requires FindById(db.users, FacultyKind, db.requests[FindRequest(db.requests, id).value].faculty).Some?
    ensures var k := FindRequest(db.requests, id).value;
      var i := FindById(db.users, FacultyKind, db.requests[k].faculty).value;
      Reject(db, caller, id) == Outcome(db.(users := RemoveAt(db.users, i), requests := RemoveAt(db.requests, k)), Rejected) &&
      AdminRoutes.Reject(db, token, id).db == db.(requests := RemoveAt(db.requests, k))
  {
  }

  lemma ResolveValid(db: Db, caller: TokenUser, id: nat)
    requires Valid(db)
    ensures Valid(Approve(db, caller, id).db) && Valid(Reject(db, caller, id).db)
  {
    if IsAdminCaller(caller) && FindRequest(db.requests, id).Some? {
      var k := FindRequest(db.requests, id).value;
      AdminRoutes.RemoveAtFresh(db.requests, k, db.nextId);
      var f := FindById(db.users, FacultyKind, db.requests[k].faculty);
      if f.Some? {
        AdminRoutes.RemoveUserKeepsIndexes(db.users, f.value, db.nextId);
        AdminRoutes.MarkApprovedEffect(db.users, db.requests[k].faculty, db.nextId);
        assert Approve(db, caller, id).db.users == AdminRoutes.MarkApproved(db.users, db.requests[k].faculty);
      }
    }
  }

  // ---------------------------------------------------------------------------------------
  // The corrected handlers, run against the database object

  method UpdateUserRoleOn(db: Database, caller: TokenUser, id: nat, role: string, currentYear: int) returns (reply: Reply)
    modifies db
    ensures var o := UpdateUserRole(old(db.State()), caller, id, role, currentYear);
      db.State() == o.db && reply == o.reply
  {
    if !IsAdminCaller(caller) {
      return NotAuthorized;
    }
    var found := FindById(db.users, StudentKind, id);
    var currentRole := "student";
    if found.None? {
      found := FindById(db.users, FacultyKind, id);
      currentRole := "faculty";
      if found.None? {
        return NoUser;
      }
    }
    var i := found.value;
    if currentRole == role {
      return Msg(400, "User already has this role");
    }
    if role == "student" || role == "faculty" {
      reply := ConvertOn(db, i, currentYear);
      return;
    }
    if role == "admin" {
      db.users := db.users[i := db.users[i].(isAdmin := true)];
      return Msg(200, "User updated to admin");
    }
    reply := ServerError;
  }

  /** A conversion: `user.remove()`, then `newUser.save()` under the next id. */
  method ConvertOn(db: Database, i: nat, currentYear: int) returns (reply: Reply)
    requires i < |db.users|
    modifies db
    ensures var o := Convert(old(db.State()), i, currentYear, RemoveFirst);
      db.State() == o.db && reply == o.reply
  {
    var n := Converted(db.State(), i, currentYear);
    var rest := RemoveAt(db.users, i);
    if !Saveable(rest, n) {
      return ServerError;
    }
    db.users, db.nextId := rest + [n], db.nextId + 1;
    reply := Msg(200, "User role updated");
  }

  method DeleteUserOn(db: Database, caller: TokenUser, id: nat) returns (reply: Reply)
    modifies db
    ensures var o := DeleteUser(old(db.State()), caller, id);
      db.State() == o.db && reply == o.reply
  {
    if !IsAdminCaller(caller) {
      return NotAuthorized;
    }
    var found := Locate(db.users, id);
    if found.None? {
      return NoUser;
    }
    db.users := RemoveAt(db.users, found.value);
    reply := Msg(200, "User deleted");
  }

  method ApproveOn(db: Database, caller: TokenUser, id: nat) returns (reply: Reply)
    modifies db
    ensures var o := Approve(old(db.State()), caller, id);
      db.State() == o.db && reply == o.reply
  {
    if !IsAdminCaller(caller) {
      return NotAuthorized;
    }
    var request := FindRequest(db.requests, id);
    if request.None? {
      return NoRequest;
    }
    var k := request.value;
    var faculty := FindById(db.users, FacultyKind, db.requests[k].faculty);
    if faculty.None? {
      return Msg(404, "Faculty not found");
    }
    var i := faculty.value;
    db.users := db.users[i := db.users[i].(profile := db.users[i].profile.(isVerified := true))];
    AdminRoutes.RemoveRequestOn(db, k);
    reply := Msg(200, "Faculty verified successfully");
  }

  method RejectOn(db: Database, caller: TokenUser, id: nat) returns (reply: Reply)
    modifies db
    ensures var o := Reject(old(db.State()), caller, id);
      db.State() == o.db && reply == o.reply
  {
    if !IsAdminCaller(caller) {
      return NotAuthorized;
    }
    var request := FindRequest(db.requests, id);
    if request.None? {
      return NoRequest;
    }
    var k := request.value;
    var faculty := FindById(db.users, FacultyKind, db.requests[k].faculty);
    if faculty.Some? {
      db.users := RemoveAt(db.users, faculty.value);
    }
    AdminRoutes.RemoveRequestOn(db, k);
    reply := Rejected;
  }
}
