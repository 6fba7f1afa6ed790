/**
 * The admin dashboard's local state: the user, request, notice and event lists it shows, the
 * search filters over them, and the local updates it makes after a successful server call.
 * Whether a request to the server succeeded comes in as a parameter (`succeeded`); what a
 * refresh returned comes in as a value.
 */
module AdminDashboard {
  import opened Wrappers
  import opened Strings
  import opened Seqs

  /** A row as the browser holds it: the object's id, its text fields and its isAdmin flag. */
  datatype Row = Row(id: nat, fields: map<string, string>, isAdmin: bool)

  /** The `users` state: the students list and the faculty list. */
  datatype Users = Users(students: seq<Row>, faculty: seq<Row>)

  /** The item the delete dialog is about: an id and a kind ('notice' or 'event'), or nothing. */
  datatype PendingDelete = PendingDelete(id: Option<nat>, kind: Option<string>)

  const NoItem := PendingDelete(None, None)

  /** The fields each search looks at, in the order the source tests them. */
  const StudentKeys: seq<string> := ["firstName", "lastName", "email", "branch"]
  const FacultyKeys: seq<string> := ["fullName", "email", "division", "post"]
  const NoticeKeys: seq<string> := ["title", "content", "department"]
  const EventKeys: seq<string> := ["title", "description", "location", "department"]

  const RoleUpdateFailed := "Failed to update user role. Please try again."
  const UserDeleteFailed := "Failed to delete user. Please try again."
  const DeleteFailed := "Failed to delete. Please try again."

  // ---------------------------------------------------------------------------------------------
  // Search

  /** Field `key` of `r` is present and contains `term`, ignoring case. */
  predicate FieldHolds(r: Row, key: string, term: string) {
    key in r.fields && Contains(Lower(r.fields[key]), Lower(term))
  }

  /** Some listed field of `r` contains the term; a row lacking a field does not match on it. */
  function MatchesAny(r: Row, keys: seq<string>, term: string): (b: bool)
    ensures b <==> exists k :: 0 <= k < |keys| && FieldHolds(r, keys[k], term)
  {
    if keys == [] then false
    else
      var rest := MatchesAny(r, keys[1..], term);
      assert forall k :: 1 <= k < |keys| ==> keys[k] == keys[1..][k - 1];
      FieldHolds(r, keys[0], term) || rest
  }

  function Matcher(keys: seq<string>, term: string): Row -> bool {
    (r: Row) => MatchesAny(r, keys, term)
  }

  /**
   * A search as the dashboard means it: an empty term shows the whole list; any other term shows,
   * in their original order, the rows one of whose listed fields contains it.
   */
  function Search(rows: seq<Row>, keys: seq<string>, term: string): (r: seq<Row>)
    ensures term == "" ==> r == rows
    ensures term != "" ==> IsSubsequence(r, rows)
    ensures term != "" ==> forall j :: 0 <= j < |r| ==> MatchesAny(r[j], keys, term)
    ensures forall j :: 0 <= j < |rows| && MatchesAny(rows[j], keys, term) ==> rows[j] in r
  {
    if term == "" then rows else Filter(rows, Matcher(keys, term))
  }

  /**
   * One row's test as the source writes it: `||` from left to right, where a missing field is
   * read as `undefined` and calling `toLowerCase` on it throws (`None`).
   */
  function MatchesAnyAsWritten(r: Row, keys: seq<string>, term: string): Option<bool> {
    if keys == [] then Some(false)
    else if keys[0] !in r.fields then None
    else if Contains(Lower(r.fields[keys[0]]), Lower(term)) then Some(true)
    else MatchesAnyAsWritten(r, keys[1..], term)
  }

  /** `rows.filter(...)` with that test: it throws as soon as one row's test throws. */
  function FilterAsWritten(rows: seq<Row>, keys: seq<string>, term: string): Option<seq<Row>> {
    if rows == [] then Some([])
    else
      match MatchesAnyAsWritten(rows[0], keys, term)
      case None => None
      case Some(b) =>
        match FilterAsWritten(rows[1..], keys, term)
        case None => None
        case Some(rest) => Some(if b then [rows[0]] + rest else rest)
  }

  /** filterStudents, filterFaculty, filterNotices and filterEvents as written. */
  function SearchAsWritten(rows: seq<Row>, keys: seq<string>, term: string): Option<seq<Row>> {
    if term == "" then Some(rows) else FilterAsWritten(rows, keys, term)
  }

  predicate HasKeys(r: Row, keys: seq<string>) {
    forall k :: 0 <= k < |keys| ==> keys[k] in r.fields
  }

  /** On a row that has every listed field, the test as written does not throw and agrees. */
  lemma {:induction false} MatchesAgree(r: Row, keys: seq<string>, term: string)
    requires HasKeys(r, keys)
    ensures MatchesAnyAsWritten(r, keys, term) == Some(MatchesAny(r, keys, term))
  {
    if keys != [] {
      assert forall k :: 0 <= k < |keys[1..]| ==> keys[1..][k] == keys[k + 1];
      MatchesAgree(r, keys[1..], term);
    }
  }

  /** On lists whose rows have every listed field, the search as written is the intended one. */
  lemma {:induction false} SearchAgrees(rows: seq<Row>, keys: seq<string>, term: string)
    requires forall j :: 0 <= j < |rows| ==> HasKeys(rows[j], keys)
    ensures SearchAsWritten(rows, keys, term) == Some(Search(rows, keys, term))
  {
    if term != "" {
      FilterAgreesFrom(rows, keys, term);
    }
  }

  lemma {:induction false} FilterAgreesFrom(rows: seq<Row>, keys: seq<string>, term: string)
    requires forall j :: 0 <= j < |rows| ==> HasKeys(rows[j], keys)
    ensures FilterAsWritten(rows, keys, term) == Some(Filter(rows, Matcher(keys, term)))
  {
    if rows != [] {
      MatchesAgree(rows[0], keys, term);
      assert forall j :: 0 <= j < |rows[1..]| ==> rows[1..][j] == rows[j + 1];
      FilterAgreesFrom(rows[1..], keys, term);
    }
  }

  // ---------------------------------------------------------------------------------------------
  // Local list updates

  /** The role a row carries (`undefined` reads as the empty string, which equals no role). */
  function RoleOf(r: Row): string {
    if "role" in r.fields then r.fields["role"] else ""
  }

  /** `{ ...r, role }`. */
  function WithRole(r: Row, role: string): (w: Row)
    ensures w.id == r.id && w.isAdmin == r.isAdmin && RoleOf(w) == role
    ensures forall k :: k in r.fields && k != "role" ==> k in w.fields && w.fields[k] == r.fields[k]
  {
    r.(fields := r.fields["role" := role])
  }

  function NotId(id: nat): Row -> bool {
    (r: Row) => r.id != id
  }

  function HasId(id: nat): Row -> bool {
    (r: Row) => r.id == id
  }

  /** `rows.filter(r => r._id !== id)`. */
  function Without(rows: seq<Row>, id: nat): (r: seq<Row>)
    ensures forall x :: x in r <==> x in rows && x.id != id
    ensures IsSubsequence(r, rows)
  {
    Filter(rows, NotId(id))
  }

  /** `rows[rows.findIndex(r => r._id === id)].isAdmin = true`, when some row has that id. */
  function SetAdmin(rows: seq<Row>, id: nat): (r: seq<Row>)
    ensures |r| == |rows|
    ensures forall j :: 0 <= j < |rows| ==> r[j].id == rows[j].id && r[j].fields == rows[j].fields
    ensures match Find(rows, HasId(id))
      case None => r == rows
      case Some(i) => r[i].isAdmin && forall j :: 0 <= j < |rows| && j != i ==> r[j] == rows[j]
  {
    match Find(rows, HasId(id))
    case None => rows
    case Some(i) => rows[i := rows[i].(isAdmin := true)]
  }

  /** What a successful role update does to the two lists. */
  function RoleUpdated(users: Users, selected: Row, newRole: string): Users {
    if RoleOf(selected) == "student" && newRole == "faculty" then
      Users(Without(users.students, selected.id), users.faculty + [WithRole(selected, "faculty")])
    else if RoleOf(selected) == "faculty" && newRole == "student" then
      Users(users.students + [WithRole(selected, "student")], Without(users.faculty, selected.id))
    else if newRole == "admin" then
      if RoleOf(selected) == "student" then users.(students := SetAdmin(users.students, selected.id))
      else users.(faculty := SetAdmin(users.faculty, selected.id))
    else users
  }

  /** A student moved to faculty leaves the students list and is appended to faculty as 'faculty'. */
  lemma MoveToFaculty(users: Users, selected: Row)
    requires RoleOf(selected) == "student"
    ensures var u := RoleUpdated(users, selected, "faculty");
      (forall x :: x in u.students <==> x in users.students && x.id != selected.id)
      && |u.faculty| == |users.faculty| + 1
      && u.faculty[..|users.faculty|] == users.faculty
      && u.faculty[|users.faculty|].id == selected.id && RoleOf(u.faculty[|users.faculty|]) == "faculty"
  {
    var u := RoleUpdated(users, selected, "faculty");
    assert u.faculty == users.faculty + [WithRole(selected, "faculty")];
  }

  /** A faculty member moved to students leaves the faculty list and is appended to students. */
  lemma MoveToStudent(users: Users, selected: Row)
    requires RoleOf(selected) == "faculty"
    ensures var u := RoleUpdated(users, selected, "student");
      (forall x :: x in u.faculty <==> x in users.faculty && x.id != selected.id)
      && |u.students| == |users.students| + 1
      && u.students[..|users.students|] == users.students
      && u.students[|users.students|].id == selected.id && RoleOf(u.students[|users.students|]) == "student"
  {
    var u := RoleUpdated(users, selected, "student");
    assert u.students == users.students + [WithRole(selected, "student")];
  }

  /**
   * Promotion to admin flags the row of the selected user's own list and nothing else: both
   * lengths stay the same and the other list is untouched.
   */
  lemma PromoteInPlace(users: Users, selected: Row)
    ensures var u := RoleUpdated(users, selected, "admin");
      |u.students| == |users.students| && |u.faculty| == |users.faculty|
      && (RoleOf(selected) == "student" ==> u.faculty == users.faculty)
      && (RoleOf(selected) != "student" ==> u.students == users.students)
      && (forall j :: 0 <= j < |users.students| ==> u.students[j].id == users.students[j].id)
      && (forall j :: 0 <= j < |users.faculty| ==> u.faculty[j].id == users.faculty[j].id)
  {
  }

  /** Any other combination (a role kept, or an unknown new role) leaves both lists as they were. */
  lemma OtherRoleChangesKeepLists(users: Users, selected: Row, newRole: string)
    requires newRole != "admin"
    requires !(RoleOf(selected) == "student" && newRole == "faculty")
    requires !(RoleOf(selected) == "faculty" && newRole == "student")
    ensures RoleUpdated(users, selected, newRole) == users
  {
  }

  /** What a successful user deletion does to the two lists. */
  function UserDeleted(users: Users, userId: nat, role: string): (u: Users)
    ensures role == "student" ==>
      u.faculty == users.faculty && forall x :: x in u.students <==> x in users.students && x.id != userId
    ensures role != "student" ==>
      u.students == users.students && forall x :: x in u.faculty <==> x in users.faculty && x.id != userId
  {
    if role == "student" then users.(students := Without(users.students, userId))
    else users.(faculty := Without(users.faculty, userId))
  }

  /**
   * Finding: a student moved to faculty by the local update keeps only the student fields, so
   * the faculty search then reads its missing `fullName` and throws, while the intended search
   * still finds it by email.
   */
  lemma MovedStudentBreaksFacultySearch()
    ensures var u := RoleUpdated(Users([Asha], []), Asha, "faculty");
      SearchAsWritten(u.faculty, FacultyKeys, "a") == None
      && Search(u.faculty, FacultyKeys, "a") == u.faculty
  {
    var m := WithRole(Asha, "faculty");
    assert Without([Asha], Asha.id) == [];
    assert RoleUpdated(Users([Asha], []), Asha, "faculty").faculty == [m];
    assert "fullName" !in m.fields;
    assert MatchesAnyAsWritten(m, FacultyKeys, "a") == None;
    EmailMatches(m);
    assert Filter([m], Matcher(FacultyKeys, "a")) == [m];
  }

  /** A student row as the admin users list returns it, picked from the students tab. */
  const Asha := Row(1, map["firstName" := "Asha", "email" := "asha@cusat.ac.in", "role" := "student"], false)

  lemma EmailMatches(m: Row)
    requires "email" in m.fields && m.fields["email"] == Asha.fields["email"]
    ensures MatchesAny(m, FacultyKeys, "a")
  {
    var e := m.fields["email"];
    assert Lower("a") == "a";
    assert Lower(e)[0] == 'a';
    assert StartsWith(Lower(e), "a");
    assert FieldHolds(m, FacultyKeys[1], "a");
  }

  // ---------------------------------------------------------------------------------------------
  // The dashboard component

  /** Everything the dashboard keeps in its state (the transient loading flags aside). */
  datatype Screen = Screen(
    activeTab: nat, users: Users, requests: seq<Row>, notices: seq<Row>, events: seq<Row>,
    error: string, searchTerm: string, page: nat,
    dialogOpen: bool, selectedUser: Option<Row>, newRole: string,
    deleteDialogOpen: bool, itemToDelete: PendingDelete, deleteError: string)

  /** The list the active tab shows, through its search. */
  function Shown(s: Screen): (r: seq<Row>)
    ensures s.searchTerm == "" && s.activeTab == 0 ==> r == s.users.students
  {
    match s.activeTab
    case 0 => Search(s.users.students, StudentKeys, s.searchTerm)
    case 1 => Search(s.users.faculty, FacultyKeys, s.searchTerm)
    case 3 => Search(s.notices, NoticeKeys, s.searchTerm)
    case 4 => Search(s.events, EventKeys, s.searchTerm)
    case _ => s.requests
  }

  /** The endpoint handleDeleteConfirm calls: notices for 'notice', events for anything else. */
  function DeleteEndpoint(kind: string, id: nat): (path: string)
    ensures kind == "notice" ==> StartsWith(path, "/api/notices/")
    ensures kind != "notice" ==> StartsWith(path, "/api/events/")
  {
    (if kind == "notice" then "/api/notices/" else "/api/events/") + NatToString(id)
  }

  class Dashboard {
    var activeTab: nat
    var users: Users
    var requests: seq<Row>
    var notices: seq<Row>
    var events: seq<Row>
    var error: string
    var searchTerm: string
    var page: nat
    var dialogOpen: bool
    var selectedUser: Option<Row>
    var newRole: string
    var deleteDialogOpen: bool
    var itemToDelete: PendingDelete
    var deleteError: string

    function State(): Screen
      reads this
    {
      Screen(activeTab, users, requests, notices, events, error, searchTerm, page,
             dialogOpen, selectedUser, newRole, deleteDialogOpen, itemToDelete, deleteError)
    }

    /** The initial state: first tab, empty lists, no dialog, page 1. */
    constructor ()
      ensures State() == Screen(0, Users([], []), [], [], [], "", "", 1,
                                false, None, "", false, NoItem, "")
    {
      activeTab, users, requests, notices, events := 0, Users([], []), [], [], [];
      error, searchTerm, page := "", "", 1;
      dialogOpen, selectedUser, newRole := false, None, "";
      deleteDialogOpen, itemToDelete, deleteError := false, NoItem, "";
    }

    /** handleTabChange: a new tab starts with no search term, on page 1. */
    method TabChange(newValue: nat)
      modifies this
      ensures State() == old(State()).(activeTab := newValue, searchTerm := "", page := 1)
    {
      activeTab := newValue;
      searchTerm := "";
      page := 1;
    }

    /** openRoleDialog: the selected user carries the role of the list it was picked from. */
    method OpenRoleDialog(user: Row, currentRole: string)
      modifies this
      ensures State() == old(State()).(selectedUser := Some(WithRole(user, currentRole)),
                                       newRole := currentRole, dialogOpen := true)
    {
      selectedUser := Some(WithRole(user, currentRole));
      newRole := currentRole;
      dialogOpen := true;
    }

    /**
     * handleUpdateRole: nothing without a selected user and a role; otherwise, once the server
     * has accepted the change, the lists are updated locally and the dialog closes.
     */
    method UpdateRole(succeeded: bool)
      modifies this
      ensures var s := old(State());
        if s.selectedUser.None? || s.newRole == "" then State() == s
        else if succeeded then
          State() == s.(users := RoleUpdated(s.users, s.selectedUser.value, s.newRole), dialogOpen := false)
        else State() == s.(error := RoleUpdateFailed)
    {
      if selectedUser.None? || newRole == "" {
        return;
      }
      if !succeeded {
        error := RoleUpdateFailed;
        return;
      }
      var sel := selectedUser.value;
      if RoleOf(sel) == "student" && newRole == "faculty" {
        users := Users(Without(users.students, sel.id), users.faculty + [WithRole(sel, "faculty")]);
      } else if RoleOf(sel) == "faculty" && newRole == "student" {
        users := Users(users.students + [WithRole(sel, "student")], Without(users.faculty, sel.id));
      } else if newRole == "admin" {
        if RoleOf(sel) == "student" {
          var index := Find(users.students, HasId(sel.id));
          if index.Some? {
            users := users.(students := users.students[index.value := users.students[index.value].(isAdmin := true)]);
          }
        } else {
          var index := Find(users.faculty, HasId(sel.id));
          if index.Some? {
            users := users.(faculty := users.faculty[index.value := users.faculty[index.value].(isAdmin := true)]);
          }
        }
      }
      dialogOpen := false;
    }

    /** handleDeleteUser: only after confirmation, and only once the server has deleted the user. */
    method DeleteUser(userId: nat, role: string, confirmed: bool, succeeded: bool)
      modifies this
      ensures var s := old(State());
        if !confirmed then State() == s
        else if succeeded then State() == s.(users := UserDeleted(s.users, userId, role))
        else State() == s.(error := UserDeleteFailed)
    {
      if !confirmed {
        return;
      }
      if succeeded {
        if role == "student" {
          users := users.(students := Without(users.students, userId));
        } else {
          users := users.(faculty := Without(users.faculty, userId));
        }
      } else {
        error := UserDeleteFailed;
      }
    }

    /**
     * handleVerificationAction: an accepted action removes that request; an approval then reloads
     * the user lists (`refreshed`, or `None` when that reload fails, which reports the action as
     * failed although the request is already gone from the list).
     */
    method VerificationAction(requestId: nat, action: string, succeeded: bool, refreshed: Option<Users>)
      modifies this
      ensures var s := old(State());
        var failed := "Failed to " + action + " verification request. Please try again.";
        if !succeeded then State() == s.(error := failed)
        else if action != "approve" then State() == s.(requests := Without(s.requests, requestId))
        else if refreshed.Some? then
          State() == s.(requests := Without(s.requests, requestId), users := refreshed.value)
        else State() == s.(requests := Without(s.requests, requestId), error := failed)
    {
      var failed := "Failed to " + action + " verification request. Please try again.";
      if !succeeded {
        error := failed;
        return;
      }
      requests := Without(requests, requestId);
      if action == "approve" {
        if refreshed.Some? {
          users := refreshed.value;
        } else {
          error := failed;
        }
      }
    }

    /** handleDeleteClick: remember the item and open the dialog. */
    method DeleteClick(id: nat, kind: string)
      modifies this
      ensures State() == old(State()).(itemToDelete := PendingDelete(Some(id), Some(kind)),
                                       deleteDialogOpen := true)
    {
      itemToDelete := PendingDelete(Some(id), Some(kind));
      deleteDialogOpen := true;
    }

    /** handleDeleteCancel: close the dialog and forget the item and any error. */
    method DeleteCancel()
      modifies this
      ensures State() == old(State()).(deleteDialogOpen := false, itemToDelete := NoItem, deleteError := "")
    {
      deleteDialogOpen := false;
      itemToDelete := NoItem;
      deleteError := "";
    }

    /**
     * handleDeleteConfirm: nothing without an id and a kind; a deleted notice or event leaves its
     * list and the dialog closes; a failure keeps the dialog open with an error.
     */
    method DeleteConfirm(succeeded: bool)
      modifies this
      ensures var s := old(State());
        var item := s.itemToDelete;
        if item.id.None? || item.kind.None? || item.kind.value == "" then State() == s
        else if succeeded then
          State() == s.(notices := if item.kind.value == "notice" then Without(s.notices, item.id.value) else s.notices,
                        events := if item.kind.value == "notice" then s.events else Without(s.events, item.id.value),
                        deleteDialogOpen := false, itemToDelete := NoItem, deleteError := "")
        else State() == s.(deleteError := DeleteFailed)
    {
      if itemToDelete.id.None? || itemToDelete.kind.None? || itemToDelete.kind.value == "" {
        return;
      }
      deleteError := "";
      if !succeeded {
        deleteError := DeleteFailed;
        return;
      }
      if itemToDelete.kind.value == "notice" {
        notices := Without(notices, itemToDelete.id.value);
      } else {
        events := Without(events, itemToDelete.id.value);
      }
      deleteDialogOpen := false;
      itemToDelete := NoItem;
    }
  }

  /** After a tab change the tab's whole list is shown again. */
  lemma TabChangeShowsAll(s: Screen, newValue: nat)
    ensures var t := s.(activeTab := newValue, searchTerm := "", page := 1);
      Shown(t) == match newValue
        case 0 => s.users.students
        case 1 => s.users.faculty
        case 3 => s.notices
        case 4 => s.events
        case _ => s.requests
  {
  }
}
