/**
 * The administrator routes mounted under `/api/admin`: listing the users and the pending
 * verification requests, approving and rejecting a request, changing a user's role and
 * deleting a user. Every route runs the request gate and then `checkRole('admin')`.
 *
 * The role-change route builds the converted record as a new document, without the fields
 * the other kind requires, and saves it before deleting the old one. As written that save
 * can never succeed (`ChangeRoleAsWritten`); `ChangeRole` is the conversion the route
 * evidently means, and the rest of the model uses it. Likewise the request listing, as
 * written, fails whenever a request is pending (`PendingRequestsAsWritten`), and
 * `PendingRequests` is the listing it means.
 */
module AdminRoutes {
  import opened Wrappers
  import opened Strings
  import opened Seqs
  import opened Http
  import opened Accounts
  import opened VerificationRequests
  import opened Store
  import opened AuthGate

  /** The plain-text 500 of these routes' catch blocks. */
  const RouteError: Reply := Msg(500, "Server Error")
  const RoleRequired := "Role is required"

  /** Records as the routes send them, without passwords. */
  function Views(users: seq<User>): (r: seq<AccountView>)
    ensures |r| == |users| && forall j :: 0 <= j < |users| ==> r[j] == View(users[j])
  {
    if users == [] then [] else [View(users[0])] + Views(users[1..])
  }

  /** `Student.find()` or `Faculty.find()`: the records of one kind, in natural order. */
  function OfKind(users: seq<User>, kind: Kind): seq<User> {
    Filter(users, (u: User) => u.Kind() == kind)
  }

  datatype UserLists = UserLists(students: seq<AccountView>, faculty: seq<AccountView>)

  /** `GET /users`. */
  function ListUsers(db: Db, token: Token): Answer<UserLists> {
    match Authorize(db.users, token, AdminRole)
    case Stop(reply) => Fail(reply)
    case Run(_) => Ok(UserLists(Views(OfKind(db.users, StudentKind)), Views(OfKind(db.users, FacultyKind))))
  }

  function PendingOf(requests: seq<Request>): seq<Request> {
    Filter(requests, (q: Request) => q.status == Pending)
  }

  /** The sort key of `sort({createdAt: -1})`. */
  function NewestFirst(q: Request): int {
    -q.createdAt
  }

  /** `GET /verification-requests` as evidently intended: the pending requests, newest first. */
  function PendingRequests(db: Db, token: Token): Answer<seq<Request>> {
    match Authorize(db.users, token, AdminRole)
    case Stop(reply) => Fail(reply)
    case Run(_) => Ok(SortBy(PendingOf(db.requests), NewestFirst))
  }

  /**
   * `GET /verification-requests` as written: populating `faculty` looks up the model the
   * reference names, and that throws unless a user model is registered under the name, as
   * soon as the query returns a document; the catch answers 500.
   */
  function PendingRequestsAsWritten(db: Db, token: Token): Answer<seq<Request>> {
    match Authorize(db.users, token, AdminRole)
    case Stop(reply) => Fail(reply)
    case Run(_) =>
      var r := SortBy(PendingOf(db.requests), NewestFirst);
      if r != [] && !UserModel(FacultyRef) then Fail(RouteError) else Ok(r)
  }

  /** `Faculty.findByIdAndUpdate(id, {isVerified: true})`: a no-op when no faculty record has the id. */
  function MarkApproved(users: seq<User>, faculty: nat): (r: seq<User>)
    ensures |r| == |users|
  {
    match FindById(users, FacultyKind, faculty)
    case None => users
    case Some(i) => users[i := users[i].(profile := users[i].profile.(isVerified := true))]
  }

  /** `PUT /verification-requests/:id/approve`. */
  function Approve(db: Db, token: Token, id: nat): Outcome {
    match Authorize(db.users, token, AdminRole)
    case Stop(reply) => Outcome(db, reply)
    case Run(_) =>
      match FindRequest(db.requests, id)
      case None => Outcome(db, Msg(404, "Verification request not found"))
      case Some(k) =>
        Outcome(db.(users := MarkApproved(db.users, db.requests[k].faculty), requests := RemoveAt(db.requests, k)),
                Msg(200, "Faculty verification approved successfully"))
  }

  /** `PUT /verification-requests/:id/reject`: only the request goes. */
  function Reject(db: Db, token: Token, id: nat): Outcome {
    match Authorize(db.users, token, AdminRole)
    case Stop(reply) => Outcome(db, reply)
    case Run(_) =>
      match FindRequest(db.requests, id)
      case None => Outcome(db, Msg(404, "Verification request not found"))
      case Some(k) =>
        Outcome(db.(requests := RemoveAt(db.requests, k)), Msg(200, "Faculty verification rejected successfully"))
  }

  /**
   * The student record the route builds from a faculty record: same id and credentials,
   * the first space-separated word as first name and the other words, joined by single
   * spaces, as last name, each trimmed by the schema's setter. The branch and year of
   * admission are not set.
   */
  function StudentFromFaculty(u: User): (r: User)
    requires u.profile.FacultyProfile?
    ensures r.Kind() == StudentKind && r.id == u.id && r.email == u.email && r.password == u.password
    ensures r.isEmailVerified == u.isEmailVerified && r.isAdmin == u.isAdmin
    ensures r.emailOtp == None && r.resetOtp == None
    ensures ' ' !in r.profile.firstName
    ensures r.profile.branch == None && r.profile.yearOfAdmission == None
  {
    var words := Split(u.profile.fullName, ' ');
    TrimWithout(words[0], ' ');
    User(u.id, u.email, u.password, u.isEmailVerified, u.isAdmin, None, None,
         StudentProfile(Trim(words[0]), Trim(Join(words[1..], ' ')), None, None))
  }

  /**
   * The faculty record the route builds from a student record: full name "first last",
   * trimmed by the schema's setter, not approved, no division or post.
   */
  function FacultyFromStudent(u: User): (r: User)
    requires u.profile.StudentProfile?
    ensures r.Kind() == FacultyKind && r.id == u.id && r.email == u.email && r.password == u.password
    ensures r.isEmailVerified == u.isEmailVerified && r.isAdmin == u.isAdmin
    ensures r.emailOtp == None && r.resetOtp == None
    ensures !r.IsVerifiedFaculty() && r.profile.division == None && r.profile.post == None
  {
    User(u.id, u.email, u.password, u.isEmailVerified, u.isAdmin, None, None,
         FacultyProfile(Trim(u.profile.firstName + " " + u.profile.lastName), None, None, false))
  }

  /**
   * The student record the corrected route saves: the one the route builds, with the
   * fields the student schema requires filled as `updateUserRole` fills them, the branch
   * from the division and the current year as year of admission.
   */
  function PlacedStudent(u: User, currentYear: int): (r: User)
    requires u.profile.FacultyProfile?
    ensures r.Kind() == StudentKind && r.id == u.id && r.email == u.email
    ensures r.profile.branch == u.profile.division && r.profile.yearOfAdmission == Some(currentYear)
  {
    var n := StudentFromFaculty(u);
    n.(profile := n.profile.(branch := u.profile.division, yearOfAdmission := Some(currentYear)))
  }

  /**
   * The faculty record the corrected route saves: the one the route builds, with the
   * division taken from the branch and the post 'Faculty', as `updateUserRole` fills them.
   */
  function PlacedFaculty(u: User): (r: User)
    requires u.profile.StudentProfile?
    ensures r.Kind() == FacultyKind && r.id == u.id && r.email == u.email && !r.IsVerifiedFaculty()
    ensures r.profile.division == u.profile.branch && r.profile.post == Some("Faculty")
  {
    var n := FacultyFromStudent(u);
    n.(profile := n.profile.(division := u.profile.branch, post := Some("Faculty")))
  }

  /** The new document saved at the end of the collection and the old one deleted. */
  function Replace(users: seq<User>, i: nat, u: User): (r: seq<User>)
    requires i < |users|
    ensures |r| == |users| && r[|r| - 1] == u
    ensures forall j :: 0 <= j < i ==> r[j] == users[j]
    ensures forall j :: i <= j < |r| - 1 ==> r[j] == users[j + 1]
  {
    RemoveAt(users, i) + [u]
  }

  /**
   * The corrected conversion of the record at `i` into `n`: the old record is deleted
   * first, then `n` is saved, unless the schema or the unique email index refuses it, in
   * which case nothing changes.
   */
  function Converting(db: Db, i: nat, n: User, done: string): Outcome
    requires i < |db.users|
  {
    if !Saveable(RemoveAt(db.users, i), n) then Outcome(db, RouteError)
    else Outcome(db.(users := Replace(db.users, i, n)), Msg(200, done))
  }

  /** `PUT /users/:id/role`, with the conversions taking effect. */
  function ChangeRole(db: Db, token: Token, id: nat, role: string, currentYear: int): Outcome {
    match Authorize(db.users, token, AdminRole)
    case Stop(reply) => Outcome(db, reply)
    case Run(_) =>
      if role == [] then Outcome(db, Invalid([RoleRequired]))
      else
        var s := FindById(db.users, StudentKind, id);
        var f := FindById(db.users, FacultyKind, id);
        if s.None? && f.None? then Outcome(db, Msg(404, "User not found"))
        else if role == "admin" then
          var i := if s.Some? then s.value else f.value;
          Outcome(db.(users := db.users[i := db.users[i].(isAdmin := true)]), Msg(200, "User updated to admin successfully"))
        else if role == "student" && f.Some? then
          Converting(db, f.value, PlacedStudent(db.users[f.value], currentYear), "Faculty converted to student successfully")
        else if role == "faculty" && s.Some? then
          Converting(db, s.value, PlacedFaculty(db.users[s.value]), "Student converted to faculty successfully")
        else Outcome(db, Msg(400, "Invalid role change request"))
  }

  /**
   * The same route as written: the converted record is saved while the old one still holds
   * its email and lacks the fields the other kind requires, so the save is refused.
   */
  function ChangeRoleAsWritten(db: Db, token: Token, id: nat, role: string): Outcome {
    match Authorize(db.users, token, AdminRole)
    case Stop(reply) => Outcome(db, reply)
    case Run(_) =>
      if role == [] then Outcome(db, Invalid([RoleRequired]))
      else
        var s := FindById(db.users, StudentKind, id);
        var f := FindById(db.users, FacultyKind, id);
        if s.None? && f.None? then Outcome(db, Msg(404, "User not found"))
        else if role == "admin" then
          var i := if s.Some? then s.value else f.value;
          Outcome(db.(users := db.users[i := db.users[i].(isAdmin := true)]), Msg(200, "User updated to admin successfully"))
        else if role == "student" && f.Some? then
          var n := StudentFromFaculty(db.users[f.value]);
          if !Saveable(db.users, n) then Outcome(db, RouteError)
          else Outcome(db.(users := Replace(db.users, f.value, n)), Msg(200, "Faculty converted to student successfully"))
        else if role == "faculty" && s.Some? then
          var n := FacultyFromStudent(db.users[s.value]);
          if !Saveable(db.users, n) then Outcome(db, RouteError)
          else Outcome(db.(users := Replace(db.users, s.value, n)), Msg(200, "Student converted to faculty successfully"))
        else Outcome(db, Msg(400, "Invalid role change request"))
  }

  function RequestId(q: Request): int {
    q.id
  }

  /** The requests that do not name `faculty`: `deleteMany({faculty})` leaves these. */
  function RequestsNotFor(requests: seq<Request>, faculty: nat): seq<Request> {
    Filter(requests, NotFor(faculty))
  }

  function NotFor(faculty: nat): Request -> bool {
    (q: Request) => q.faculty != faculty
  }

  /** `DELETE /users/:id`: a student alone, or a faculty record with the requests naming it. */
  function DeleteUser(db: Db, token: Token, id: nat): Outcome {
    match Authorize(db.users, token, AdminRole)
    case Stop(reply) => Outcome(db, reply)
    case Run(_) =>
      var s := FindById(db.users, StudentKind, id);
      var f := FindById(db.users, FacultyKind, id);
      if s.None? && f.None? then Outcome(db, Msg(404, "User not found"))
      else if s.Some? then Outcome(db.(users := RemoveAt(db.users, s.value)), Msg(200, "User deleted successfully"))
      else
        Outcome(db.(users := RemoveAt(db.users, f.value), requests := RequestsNotFor(db.requests, id)),
                Msg(200, "User deleted successfully"))
  }

  // ---------------------------------------------------------------------------------------
  // The guard

  /** A request the gate or `checkRole('admin')` stops gets their reply from every route, and nothing changes. */
  lemma EveryRouteGuarded(db: Db, token: Token, id: nat, role: string, currentYear: int)
    requires Authorize(db.users, token, AdminRole).Stop?
    ensures var reply := Authorize(db.users, token, AdminRole).reply;
      ListUsers(db, token) == Fail(reply) && PendingRequests(db, token) == Fail(reply) &&
      PendingRequestsAsWritten(db, token) == Fail(reply) &&
      Approve(db, token, id) == Outcome(db, reply) && Reject(db, token, id) == Outcome(db, reply) &&
      ChangeRole(db, token, id, role, currentYear) == Outcome(db, reply) &&
      ChangeRoleAsWritten(db, token, id, role) == Outcome(db, reply) && DeleteUser(db, token, id) == Outcome(db, reply)
    ensures var reply := Authorize(db.users, token, AdminRole).reply;
      reply.status == 401 || reply == Msg(403, "Access denied")
  {
  }

  // ---------------------------------------------------------------------------------------
  // Listings

  /** The list of one kind holds a view of every record of that kind and nothing else. */
  lemma ViewsOfKind(users: seq<User>, kind: Kind)
    ensures var v := Views(OfKind(users, kind));
      (forall k :: 0 <= k < |v| ==> (v[k].profile.StudentProfile? <==> kind == StudentKind)) &&
      (forall j :: 0 <= j < |users| && users[j].Kind() == kind ==> View(users[j]) in v)
  {
    var ks := OfKind(users, kind);
    var v := Views(ks);
    forall k | 0 <= k < |v|
      ensures v[k].profile.StudentProfile? <==> kind == StudentKind
    {
      assert v[k] == View(ks[k]) && ks[k].Kind() == kind;
    }
    forall j | 0 <= j < |users| && users[j].Kind() == kind
      ensures View(users[j]) in v
    {
      var k :| 0 <= k < |ks| && ks[k] == users[j];
      assert v[k] == View(users[j]);
    }
  }

  /** The two user lists partition the collection by kind, in natural order. */
  lemma ListUsersPartition(db: Db, token: Token)
    requires ListUsers(db, token).Ok?
    ensures var b := ListUsers(db, token).body;
      |b.students| + |b.faculty| == |db.users| &&
      (forall k :: 0 <= k < |b.students| ==> b.students[k].profile.StudentProfile?) &&
      (forall k :: 0 <= k < |b.faculty| ==> b.faculty[k].profile.FacultyProfile?) &&
      (forall j :: 0 <= j < |db.users| && db.users[j].Kind() == StudentKind ==> View(db.users[j]) in b.students) &&
      (forall j :: 0 <= j < |db.users| && db.users[j].Kind() == FacultyKind ==> View(db.users[j]) in b.faculty)
  {
    FilterComplement(db.users, (u: User) => u.Kind() == StudentKind, (u: User) => u.Kind() == FacultyKind);
    ViewsOfKind(db.users, StudentKind);
    ViewsOfKind(db.users, FacultyKind);
  }

  /** The request listing holds exactly the pending requests, each once, the newest first. */
  lemma PendingRequestsListing(db: Db, token: Token)
    requires PendingRequests(db, token).Ok?
    ensures var r := PendingRequests(db, token).body;
      (forall i, j :: 0 <= i < j < |r| ==> r[i].createdAt >= r[j].createdAt) &&
      (forall k :: 0 <= k < |r| ==> r[k].status == Pending && r[k] in db.requests) &&
      (forall j :: 0 <= j < |db.requests| && db.requests[j].status == Pending ==> db.requests[j] in r) &&
      multiset(r) == multiset(PendingOf(db.requests))
  {
    var p := PendingOf(db.requests);
    var r := SortBy(p, NewestFirst);
    forall i, j | 0 <= i < j < |r|
      ensures r[i].createdAt >= r[j].createdAt
    {
      assert NewestFirst(r[i]) <= NewestFirst(r[j]);
    }
    forall k | 0 <= k < |r|
      ensures r[k] in p
    {
      assert r[k] in multiset(r);
    }
    forall j | 0 <= j < |db.requests| && db.requests[j].status == Pending
      ensures db.requests[j] in r
    {
      assert db.requests[j] in multiset(p);
    }
  }

  /** No user model is registered under the name a request's `faculty` reference gives. */
  lemma FacultyRefUnregistered()
    ensures !UserModel(FacultyRef)
  {
    assert FacultyRef[0] != KindName(FacultyKind)[0] && FacultyRef[0] != KindName(StudentKind)[0];
  }

  /**
   * As written, the listing fails with 500 whenever a request is pending, and answers the
   * empty list, like the intended route, only when none is.
   */
  lemma PendingRequestsFailAsWritten(db: Db, token: Token)
    requires Authorize(db.users, token, AdminRole).Run?
    ensures PendingOf(db.requests) != [] <==> PendingRequestsAsWritten(db, token) == Fail(RouteError)
    ensures PendingOf(db.requests) == [] ==>
      PendingRequestsAsWritten(db, token) == PendingRequests(db, token) == Ok([])
  {
    FacultyRefUnregistered();
  }

  // ---------------------------------------------------------------------------------------
  // Approval and rejection

  /**
   * Approval of a known request removes that request alone and sets the approval flag of
   * the faculty record it names, if there is one; no other record changes.
   */
  lemma ApproveEffect(db: Db, token: Token, id: nat)
    requires Authorize(db.users, token, AdminRole).Run?
    ensures var o := Approve(db, token, id);
      (o.reply.status == 404 <==> forall j :: 0 <= j < |db.requests| ==> db.requests[j].id != id) &&
      (o.reply.status == 404 ==> o.db == db) &&
      (o.reply.status != 404 ==>
        o.reply == Msg(200, "Faculty verification approved successfully") &&
        |o.db.requests| == |db.requests| - 1 && o.db.notices == db.notices && o.db.events == db.events &&
        o.db.nextId == db.nextId &&
        var q := db.requests[FindRequest(db.requests, id).value];
        o.db.users == MarkApproved(db.users, q.faculty))
  {
  }

  /** The faculty record named by an approved request is approved; every other field and record stays. */
  lemma MarkApprovedEffect(users: seq<User>, faculty: nat, nextId: nat)
    ensures var r := MarkApproved(users, faculty);
      |r| == |users| &&
      (forall j :: 0 <= j < |users| && !(users[j].Kind() == FacultyKind && users[j].id == faculty) ==> r[j] == users[j]) &&
      (forall j :: 0 <= j < |users| ==>
        r[j].id == users[j].id && r[j].email == users[j].email && r[j].Kind() == users[j].Kind() &&
        r[j].isEmailVerified == users[j].isEmailVerified && r[j].isAdmin == users[j].isAdmin) &&
      (UserIdsFresh(users, nextId) ==>
        forall j :: 0 <= j < |users| && users[j].Kind() == FacultyKind && users[j].id == faculty ==> r[j].IsVerifiedFaculty())
  {
    match FindById(users, FacultyKind, faculty)
    case None =>
    case Some(i) =>
      if UserIdsFresh(users, nextId) {
        forall j | 0 <= j < |users| && users[j].Kind() == FacultyKind && users[j].id == faculty
          ensures j == i
        {
        }
      }
  }

  /** Rejection removes the request alone and leaves every record as it was. */
  lemma RejectEffect(db: Db, token: Token, id: nat)
    requires Authorize(db.users, token, AdminRole).Run?
    ensures var o := Reject(db, token, id);
      o.db.users == db.users && o.db.notices == db.notices && o.db.events == db.events &&
      (o.reply.status == 404 <==> forall j :: 0 <= j < |db.requests| ==> db.requests[j].id != id) &&
      (o.reply.status == 404 ==> o.db == db) &&
      (o.reply.status != 404 ==> |o.db.requests| == |db.requests| - 1)
  {
  }

  /** With request ids unique, a handled request is gone afterwards and all the others remain, in order. */
  lemma ResolvedRequestGone(db: Db, token: Token, id: nat, approve: bool)
    requires Valid(db) && Authorize(db.users, token, AdminRole).Run?
    requires FindRequest(db.requests, id).Some?
    ensures var o := if approve then Approve(db, token, id) else Reject(db, token, id);
      (forall j :: 0 <= j < |o.db.requests| ==> o.db.requests[j].id != id) &&
      (forall j :: 0 <= j < |db.requests| && db.requests[j].id != id ==> db.requests[j] in o.db.requests)
  {
    var k := FindRequest(db.requests, id).value;
    var r := RemoveAt(db.requests, k);
    forall j | 0 <= j < |r|
      ensures r[j].id != id
    {
      if j >= k {
        assert r[j] == db.requests[j + 1];
      }
    }
    forall j | 0 <= j < |db.requests| && db.requests[j].id != id
      ensures db.requests[j] in r
    {
      if j < k {
        assert r[j] == db.requests[j];
      } else {
        assert j != k;
        assert r[j - 1] == db.requests[j];
      }
    }
  }

  /** Approval and rejection keep the store's invariant. */
  lemma ResolveValid(db: Db, token: Token, id: nat)
    requires Valid(db)
    ensures Valid(Approve(db, token, id).db) && Valid(Reject(db, token, id).db)
  {
    if Authorize(db.users, token, AdminRole).Run? && FindRequest(db.requests, id).Some? {
      var k := FindRequest(db.requests, id).value;
      MarkApprovedEffect(db.users, db.requests[k].faculty, db.nextId);
      RemoveAtFresh(db.requests, k, db.nextId);
    }
  }

  /** Removing one request keeps the request ids unique and issued. */
  lemma RemoveAtFresh(requests: seq<Request>, k: nat, nextId: nat)
    requires k < |requests| && RequestIdsFresh(requests, nextId)
    ensures RequestIdsFresh(RemoveAt(requests, k), nextId)
  {
    var r := RemoveAt(requests, k);
    forall i, j | 0 <= i < j < |r|
      ensures r[i].id != r[j].id
    {
      var i' := if i < k then i else i + 1;
      var j' := if j < k then j else j + 1;
      assert r[i] == requests[i'] && r[j] == requests[j'];
    }
  }

  // ---------------------------------------------------------------------------------------
  // Role changes

  /** The role change as written never converts: each conversion answers 500 and changes nothing. */
  lemma ConversionAlwaysFailsAsWritten(db: Db, token: Token, id: nat, role: string)
    requires Authorize(db.users, token, AdminRole).Run?
    requires (role == "student" && FindById(db.users, FacultyKind, id).Some?) ||
             (role == "faculty" && FindById(db.users, StudentKind, id).Some?)
    ensures ChangeRoleAsWritten(db, token, id, role) == Outcome(db, RouteError)
  {
    var s := FindById(db.users, StudentKind, id);
    var f := FindById(db.users, FacultyKind, id);
    if role == "student" {
      var n := StudentFromFaculty(db.users[f.value]);
      assert db.users[f.value].email == n.email;
    } else {
      var n := FacultyFromStudent(db.users[s.value]);
      assert db.users[s.value].email == n.email;
    }
  }

  /** Both versions agree on everything but the two conversions. */
  lemma ChangeRoleVersionsAgree(db: Db, token: Token, id: nat, role: string, currentYear: int)
    requires !(role == "student" && FindById(db.users, FacultyKind, id).Some?)
    requires !(role == "faculty" && FindById(db.users, StudentKind, id).Some?)
    ensures ChangeRoleAsWritten(db, token, id, role) == ChangeRole(db, token, id, role, currentYear)
  {
  }

  /**
   * Promotion sets the admin flag of the record with the id, the student one when both
   * kinds have it, and changes nothing else; it is reported as done.
   */
  lemma PromoteEffect(db: Db, token: Token, id: nat, currentYear: int)
    requires Authorize(db.users, token, AdminRole).Run?
    requires FindById(db.users, StudentKind, id).Some? || FindById(db.users, FacultyKind, id).Some?
    ensures var o := ChangeRole(db, token, id, "admin", currentYear);
      var s := FindById(db.users, StudentKind, id);
      var i := if s.Some? then s.value else FindById(db.users, FacultyKind, id).value;
      o.reply == Msg(200, "User updated to admin successfully") &&
      o.db == db.(users := db.users[i := db.users[i].(isAdmin := true)]) && o.db.users[i].isAdmin &&
      o.db.users[i].id == id
  {
  }

  /** An unknown id gives 404; a role other than the three known ones, or the kind the record already has, gives 400. */
  lemma ChangeRoleRefusals(db: Db, token: Token, id: nat, role: string, currentYear: int)
    requires Authorize(db.users, token, AdminRole).Run? && role != []
    ensures var o := ChangeRole(db, token, id, role, currentYear);
      ((forall j :: 0 <= j < |db.users| ==> db.users[j].id != id) ==> o == Outcome(db, Msg(404, "User not found"))) &&
      (((exists j :: 0 <= j < |db.users| && db.users[j].id == id) &&
        role != "admin" && role != "student" && role != "faculty") ==> o == Outcome(db, Msg(400, "Invalid role change request"))) &&
      ((role == "faculty" && FindById(db.users, StudentKind, id).None? && FindById(db.users, FacultyKind, id).Some?) ==>
        o == Outcome(db, Msg(400, "Invalid role change request")))
  {
    if exists j :: 0 <= j < |db.users| && db.users[j].id == id {
      var j :| 0 <= j < |db.users| && db.users[j].id == id;
      if db.users[j].Kind() == StudentKind {
        assert FindById(db.users, StudentKind, id).Some?;
      } else {
        assert FindById(db.users, FacultyKind, id).Some?;
      }
    }
  }

  /** The record the corrected route saves for a conversion of the record at `i` to `role`. */
  function Placed(db: Db, i: nat, role: string, currentYear: int): User
    requires i < |db.users|
    requires role == "student" ==> db.users[i].profile.FacultyProfile?
    requires role != "student" ==> db.users[i].profile.StudentProfile?
  {
    if role == "student" then PlacedStudent(db.users[i], currentYear) else PlacedFaculty(db.users[i])
  }

  /** The record a conversion to `role` starts from: the faculty one for "student", else the student one. */
  function Converted(db: Db, id: nat, role: string): Option<nat> {
    if role == "student" then FindById(db.users, FacultyKind, id) else FindById(db.users, StudentKind, id)
  }

  /**
   * Under the unique email index a conversion succeeds exactly when the record to be saved
   * passes the schema; a refused one answers 500 and changes nothing.
   */
  lemma ConversionSucceedsIff(db: Db, token: Token, id: nat, role: string, currentYear: int)
    requires Authorize(db.users, token, AdminRole).Run? && EmailsUnique(db.users)
    requires (role == "student" && FindById(db.users, FacultyKind, id).Some?) ||
             (role == "faculty" && FindById(db.users, StudentKind, id).Some? && FindById(db.users, FacultyKind, id).None?)
    ensures var o := ChangeRole(db, token, id, role, currentYear);
      var n := Placed(db, Converted(db, id, role).value, role, currentYear);
      (o.reply.status == 200 <==> SchemaValid(n)) && (!SchemaValid(n) ==> o == Outcome(db, RouteError))
  {
    var i := Converted(db, id, role).value;
    var n := Placed(db, i, role, currentYear);
    RemovedEmailFree(db.users, i, n);
  }

  /** With emails unique, the email of the record at `i` is held by no other record. */
  lemma RemovedEmailFree(users: seq<User>, i: nat, n: User)
    requires EmailsUnique(users) && i < |users| && n.email == users[i].email
    ensures forall j :: 0 <= j < |RemoveAt(users, i)| ==> RemoveAt(users, i)[j].email != n.email
  {
    var rest := RemoveAt(users, i);
    forall j | 0 <= j < |rest|
      ensures rest[j].email != n.email
    {
      var j' := if j < i then j else j + 1;
      assert rest[j] == users[j'] && j' != i;
    }
  }

  /**
   * A stored conversion replaces the record by one of the other kind under the same id and
   * email, which passes the schema, and leaves the requests as they were.
   */
  lemma ConversionEffect(db: Db, token: Token, id: nat, role: string, currentYear: int)
    requires Authorize(db.users, token, AdminRole).Run?
    requires (role == "student" && FindById(db.users, FacultyKind, id).Some?) ||
             (role == "faculty" && FindById(db.users, StudentKind, id).Some? && FindById(db.users, FacultyKind, id).None?)
    requires ChangeRole(db, token, id, role, currentYear).reply.status == 200
    ensures var i := Converted(db, id, role).value;
      var u := Placed(db, i, role, currentYear);
      ChangeRole(db, token, id, role, currentYear).db == db.(users := Replace(db.users, i, u)) &&
      u.id == id && u.email == db.users[i].email && SchemaValid(u) &&
      u.Kind() == (if role == "student" then StudentKind else FacultyKind)
  {
    var i := Converted(db, id, role).value;
    if role == "student" {
      assert ChangeRole(db, token, id, role, currentYear) ==
        Converting(db, i, PlacedStudent(db.users[i], currentYear), "Faculty converted to student successfully");
    } else {
      assert ChangeRole(db, token, id, role, currentYear) ==
        Converting(db, i, PlacedFaculty(db.users[i]), "Student converted to faculty successfully");
    }
  }

  /** The ids and emails in a collection in which record `i` was replaced by one with the same id and email. */
  lemma ReplaceKeepsIndexes(users: seq<User>, i: nat, u: User, nextId: nat)
    requires i < |users| && u.id == users[i].id && u.email == users[i].email
    requires UserIdsFresh(users, nextId) && EmailsUnique(users)
    ensures UserIdsFresh(Replace(users, i, u), nextId) && EmailsUnique(Replace(users, i, u))
  {
    var r := Replace(users, i, u);
    var n := |r|;
    // Position j of the result came from position Src(j) of the original.
    assert forall j :: 0 <= j < n ==> r[j].id == users[if j == n - 1 then i else if j < i then j else j + 1].id;
    assert forall j :: 0 <= j < n ==> r[j].email == users[if j == n - 1 then i else if j < i then j else j + 1].email;
    forall a, b | 0 <= a < b < n
      ensures r[a].id != r[b].id && r[a].email != r[b].email
    {
      var a' := if a == n - 1 then i else if a < i then a else a + 1;
      var b' := if b == n - 1 then i else if b < i then b else b + 1;
      assert a' != b';
      if a' < b' {
        assert users[a'].id != users[b'].id && users[a'].email != users[b'].email;
      } else {
        assert users[b'].id != users[a'].id && users[b'].email != users[a'].email;
      }
    }
  }

  /** Replacing a record by one that passes the schema keeps every record passing it. */
  lemma ReplaceKeepsSchema(users: seq<User>, i: nat, u: User)
    requires i < |users| && AllSchemaValid(users) && SchemaValid(u)
    ensures AllSchemaValid(Replace(users, i, u))
  {
    var r := Replace(users, i, u);
    forall j | 0 <= j < |r|
      ensures SchemaValid(r[j])
    {
      if j < i {
        assert r[j] == users[j];
      } else if j < |r| - 1 {
        assert r[j] == users[j + 1];
      }
    }
  }

  /** Role changes keep the store's invariant, and a store whose records all pass the schema keeps passing it. */
  lemma ChangeRoleValid(db: Db, token: Token, id: nat, role: string, currentYear: int)
    requires Valid(db)
    ensures Valid(ChangeRole(db, token, id, role, currentYear).db)
    ensures AllSchemaValid(db.users) ==> AllSchemaValid(ChangeRole(db, token, id, role, currentYear).db.users)
  {
    if Authorize(db.users, token, AdminRole).Run? && role != [] {
      var s := FindById(db.users, StudentKind, id);
      var f := FindById(db.users, FacultyKind, id);
      if s.None? && f.None? {
      } else if role == "admin" {
        var i := if s.Some? then s.value else f.value;
        PromoteValid(db, i);
      } else if role == "student" && f.Some? {
        var n := PlacedStudent(db.users[f.value], currentYear);
        var done := "Faculty converted to student successfully";
        assert ChangeRole(db, token, id, role, currentYear) == Converting(db, f.value, n, done);
        ConvertingValid(db, f.value, n, done);
      } else if role == "faculty" && s.Some? {
        var n := PlacedFaculty(db.users[s.value]);
        var done := "Student converted to faculty successfully";
        assert ChangeRole(db, token, id, role, currentYear) == Converting(db, s.value, n, done);
        ConvertingValid(db, s.value, n, done);
      }
    }
  }

  /** A corrected conversion keeps the store's invariant and the schema of every record. */
  lemma ConvertingValid(db: Db, i: nat, n: User, done: string)
    requires Valid(db) && i < |db.users| && n.id == db.users[i].id && n.email == db.users[i].email
    ensures Valid(Converting(db, i, n, done).db)
    ensures AllSchemaValid(db.users) ==> AllSchemaValid(Converting(db, i, n, done).db.users)
  {
    if Saveable(RemoveAt(db.users, i), n) {
      ReplaceKeepsIndexes(db.users, i, n, db.nextId);
      if AllSchemaValid(db.users) {
        ReplaceKeepsSchema(db.users, i, n);
      }
    }
  }

  /** Raising the admin flag of one record keeps the store's invariant and the schema of every record. */
  lemma PromoteValid(db: Db, i: nat)
    requires Valid(db) && i < |db.users|
    ensures Valid(db.(users := db.users[i := db.users[i].(isAdmin := true)]))
    ensures AllSchemaValid(db.users) ==> AllSchemaValid(db.users[i := db.users[i].(isAdmin := true)])
  {
    var us := db.users[i := db.users[i].(isAdmin := true)];
    SameKeysValid(db, us);
    assert forall j :: 0 <= j < |us| ==> SchemaValid(db.users[j]) == SchemaValid(us[j]);
  }

  /**
   * A faculty member whose full name is two trimmed names joined by a space, the first
   * without one, converts to a student and back to the same full name and division.
   */
  lemma FacultyRoundTrip(u: User, first: string, last: string, currentYear: int)
    requires u.profile.FacultyProfile? && u.profile.fullName == first + " " + last
    requires first != [] && last != [] && Trimmed(first) && Trimmed(last) && ' ' !in first
    ensures var back := PlacedFaculty(PlacedStudent(u, currentYear));
      back.profile.fullName == u.profile.fullName && back.profile.division == u.profile.division
  {
    SplitJoined(first, last);
  }

  /**
   * A student with trimmed non-empty names, the first without a space, converts to faculty
   * and back to the same names and branch.
   */
  lemma StudentRoundTrip(u: User, currentYear: int)
    requires u.profile.StudentProfile? && u.profile.firstName != [] && u.profile.lastName != []
    requires Trimmed(u.profile.firstName) && Trimmed(u.profile.lastName) && ' ' !in u.profile.firstName
    ensures var back := PlacedStudent(PlacedFaculty(u), currentYear);
      back.profile.firstName == u.profile.firstName && back.profile.lastName == u.profile.lastName &&
      back.profile.branch == u.profile.branch
  {
    SplitJoined(u.profile.firstName, u.profile.lastName);
  }

  /**
   * A faculty member with a one-word full name cannot become a student: the last name
   * would be empty, which the schema refuses.
   */
  lemma OneWordNameNotConverted(db: Db, token: Token, id: nat, currentYear: int)
    requires Authorize(db.users, token, AdminRole).Run?
    requires FindById(db.users, FacultyKind, id).Some?
    requires ' ' !in db.users[FindById(db.users, FacultyKind, id).value].profile.fullName
    ensures ChangeRole(db, token, id, "student", currentYear) == Outcome(db, RouteError)
  {
    var u := db.users[FindById(db.users, FacultyKind, id).value];
    SplitWithout(u.profile.fullName, ' ');
    assert PlacedStudent(u, currentYear).profile.lastName == [];
  }

  /**
   * A student record that passes the schema, with trimmed names as the schema's setters
   * store them, is converted to faculty: the schema and the unique index accept the save.
   */
  lemma StudentConversionAccepted(db: Db, token: Token, id: nat, currentYear: int)
    requires Authorize(db.users, token, AdminRole).Run? && EmailsUnique(db.users)
    requires FindById(db.users, StudentKind, id).Some?
    requires var u := db.users[FindById(db.users, StudentKind, id).value];
      SchemaValid(u) && Trimmed(u.profile.firstName) && Trimmed(u.profile.lastName)
    ensures ChangeRole(db, token, id, "faculty", currentYear).reply == Msg(200, "Student converted to faculty successfully")
  {
    var i := FindById(db.users, StudentKind, id).value;
    var u := db.users[i];
    TrimJoined(u.profile.firstName, u.profile.lastName);
    Departments.ListShapes();
    RemovedEmailFree(db.users, i, PlacedFaculty(u));
    assert SchemaValid(PlacedFaculty(u));
  }

  // ---------------------------------------------------------------------------------------
  // Deletion

  /**
   * Deleting a student removes that record only; deleting a faculty member also removes
   * every request naming it and keeps all others. An unknown id gives 404.
   */
  lemma DeleteUserEffect(db: Db, token: Token, id: nat)
    requires Authorize(db.users, token, AdminRole).Run?
    ensures var o := DeleteUser(db, token, id);
      var s := FindById(db.users, StudentKind, id);
      var f := FindById(db.users, FacultyKind, id);
      (s.None? && f.None? <==> o.reply.status == 404) &&
      (o.reply.status == 404 ==> o.db == db) &&
      (s.Some? ==> o.db == db.(users := RemoveAt(db.users, s.value))) &&
      (s.None? && f.Some? ==>
        o.db.users == RemoveAt(db.users, f.value) && o.db.notices == db.notices && o.db.events == db.events &&
        (forall j :: 0 <= j < |o.db.requests| ==> o.db.requests[j].faculty != id) &&
        (forall j :: 0 <= j < |db.requests| && db.requests[j].faculty != id ==> db.requests[j] in o.db.requests))
  {
  }

  /** Under unique ids, no record with the id is left after a successful delete. */
  lemma DeleteUserRemovesId(db: Db, token: Token, id: nat)
    requires Valid(db) && DeleteUser(db, token, id).reply.status == 200
    ensures var o := DeleteUser(db, token, id);
      |o.db.users| == |db.users| - 1 && forall j :: 0 <= j < |o.db.users| ==> o.db.users[j].id != id
  {
    var s := FindById(db.users, StudentKind, id);
    var f := FindById(db.users, FacultyKind, id);
    var i := if s.Some? then s.value else f.value;
    var r := RemoveAt(db.users, i);
    assert DeleteUser(db, token, id).db.users == r;
    forall j | 0 <= j < |r|
      ensures r[j].id != id
    {
      var j' := if j < i then j else j + 1;
      assert r[j] == db.users[j'] && j' != i;
    }
  }

  /** Removing one record keeps ids unique and issued, and emails unique. */
  lemma RemoveUserKeepsIndexes(users: seq<User>, i: nat, nextId: nat)
    requires i < |users| && UserIdsFresh(users, nextId) && EmailsUnique(users)
    ensures UserIdsFresh(RemoveAt(users, i), nextId) && EmailsUnique(RemoveAt(users, i))
  {
    var r := RemoveAt(users, i);
    forall a, b | 0 <= a < b < |r|
      ensures r[a].id != r[b].id && r[a].email != r[b].email
    {
      var a' := if a < i then a else a + 1;
      var b' := if b < i then b else b + 1;
      assert r[a] == users[a'] && r[b] == users[b'] && a' < b';
    }
  }

  /** Deletion keeps the store's invariant. */
  lemma DeleteUserValid(db: Db, token: Token, id: nat)
    requires Valid(db)
    ensures Valid(DeleteUser(db, token, id).db)
  {
    var o := DeleteUser(db, token, id);
    if o.reply.status == 200 {
      var s := FindById(db.users, StudentKind, id);
      var f := FindById(db.users, FacultyKind, id);
      RemoveUserKeepsIndexes(db.users, if s.Some? then s.value else f.value, db.nextId);
      if s.None? {
        assert DistinctKeys(db.requests, RequestId);
        FilterKeepsDistinct(db.requests, NotFor(id), RequestId);
        assert DistinctKeys(o.db.requests, RequestId);
      }
    }
  }

  // ---------------------------------------------------------------------------------------
  // The handlers, run against the database object

  /** `VerificationRequest.findByIdAndDelete`: the request at `k` leaves the collection. */
  method RemoveRequestOn(db: Database, k: nat)
    requires k < |db.requests|
    modifies db
    ensures db.State() == old(db.State()).(requests := RemoveAt(old(db.requests), k))
  {
    db.requests := db.requests[..k] + db.requests[k + 1..];
  }

  /** One more request examined: it stays exactly when it names another record. */
  lemma RequestsNotForStep(rs: seq<Request>, q: Request, faculty: nat)
    ensures RequestsNotFor(rs + [q], faculty) ==
      RequestsNotFor(rs, faculty) + (if q.faculty != faculty then [q] else [])
  {
    FilterAppend(rs, [q], NotFor(faculty));
    assert Filter([q], NotFor(faculty)) == if q.faculty != faculty then [q] else [];
  }

  /** The scan of `deleteMany({faculty})`: the requests it leaves, in their order. */
  method KeepNotFor(rs: seq<Request>, faculty: nat) returns (kept: seq<Request>)
    ensures kept == RequestsNotFor(rs, faculty)
  {
    kept := [];
    var k := 0;
    while k < |rs|
      invariant k <= |rs|
      invariant kept == RequestsNotFor(rs[..k], faculty)
    {
      assert rs[..k + 1] == rs[..k] + [rs[k]];
      RequestsNotForStep(rs[..k], rs[k], faculty);
      if rs[k].faculty != faculty {
        kept := kept + [rs[k]];
      }
      k := k + 1;
    }
    assert rs[..k] == rs;
  }

  /** `VerificationRequest.deleteMany({faculty})`. */
  method DeleteRequestsForOn(db: Database, faculty: nat)
    modifies db
    ensures db.State() == old(db.State()).(requests := RequestsNotFor(old(db.requests), faculty))
  {
    db.requests := KeepNotFor(db.requests, faculty);
  }

  method ApproveOn(db: Database, token: Token, id: nat) returns (reply: Reply)
    modifies db
    ensures var o := Approve(old(db.State()), token, id);
      db.State() == o.db && reply == o.reply
  {
    var access := Authorize(db.users, token, AdminRole);
    if access.Stop? {
      return access.reply;
    }
    var found := FindRequest(db.requests, id);
    if found.None? {
      return Msg(404, "Verification request not found");
    }
    var k := found.value;
    var f := FindById(db.users, FacultyKind, db.requests[k].faculty);
    if f.Some? {
      var i := f.value;
      db.users := db.users[i := db.users[i].(profile := db.users[i].profile.(isVerified := true))];
    }
    RemoveRequestOn(db, k);
    reply := Msg(200, "Faculty verification approved successfully");
  }

  method RejectOn(db: Database, token: Token, id: nat) returns (reply: Reply)
    modifies db
    ensures var o := Reject(old(db.State()), token, id);
      db.State() == o.db && reply == o.reply
  {
    var access := Authorize(db.users, token, AdminRole);
    if access.Stop? {
      return access.reply;
    }
    var found := FindRequest(db.requests, id);
    if found.None? {
      return Msg(404, "Verification request not found");
    }
    RemoveRequestOn(db, found.value);
    reply := Msg(200, "Faculty verification rejected successfully");
  }

  /** `newRecord.save()` followed by `findByIdAndDelete` of the old record at `i`. */
  method ReplaceOn(db: Database, i: nat, u: User)
    requires i < |db.users|
    modifies db
    ensures db.State() == old(db.State()).(users := Replace(old(db.users), i, u))
  {
    db.users := db.users + [u];
    db.users := db.users[..i] + db.users[i + 1..];
    assert db.users == Replace(old(db.users), i, u);
  }

  /** The corrected conversion of the record at `i` into `n`, on the store. */
  method ConvertOn(db: Database, i: nat, n: User, done: string) returns (reply: Reply)
    requires i < |db.users|
    modifies db
    ensures var o := Converting(old(db.State()), i, n, done);
      db.State() == o.db && reply == o.reply
  {
    if !Saveable(RemoveAt(db.users, i), n) {
      return RouteError;
    }
    ReplaceOn(db, i, n);
    return Msg(200, done);
  }

  method ChangeRoleOn(db: Database, token: Token, id: nat, role: string, currentYear: int) returns (reply: Reply)
    modifies db
    ensures var o := ChangeRole(old(db.State()), token, id, role, currentYear);
      db.State() == o.db && reply == o.reply
  {
    var access := Authorize(db.users, token, AdminRole);
    if access.Stop? {
      return access.reply;
    }
    if role == [] {
      return Invalid([RoleRequired]);
    }
    var s := FindById(db.users, StudentKind, id);
    var f := FindById(db.users, FacultyKind, id);
    if s.None? && f.None? {
      return Msg(404, "User not found");
    }
    if role == "admin" {
      var i := if s.Some? then s.value else f.value;
      db.users := db.users[i := db.users[i].(isAdmin := true)];
      return Msg(200, "User updated to admin successfully");
    }
    if role == "student" && f.Some? {
      reply := ConvertOn(db, f.value, PlacedStudent(db.users[f.value], currentYear), "Faculty converted to student successfully");
      return;
    }
    if role == "faculty" && s.Some? {
      reply := ConvertOn(db, s.value, PlacedFaculty(db.users[s.value]), "Student converted to faculty successfully");
      return;
    }
    reply := Msg(400, "Invalid role change request");
  }

  method DeleteUserOn(db: Database, token: Token, id: nat) returns (reply: Reply)
    modifies db
    ensures var o := DeleteUser(old(db.State()), token, id);
      db.State() == o.db && reply == o.reply
  {
    var access := Authorize(db.users, token, AdminRole);
    if access.Stop? {
      return access.reply;
    }
    var s := FindById(db.users, StudentKind, id);
    var f := FindById(db.users, FacultyKind, id);
    if s.None? && f.None? {
      return Msg(404, "User not found");
    }
    if s.Some? {
      db.users := RemoveAt(db.users, s.value);
    } else {
      db.users := RemoveAt(db.users, f.value);
      DeleteRequestsForOn(db, id);
    }
    reply := Msg(200, "User deleted successfully");
  }
}
