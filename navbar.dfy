/**
 * The navigation bar: the avatar's initial, the target of the Dashboard entry and the entries
 * offered to a visitor.
 */
module Navbar {
  import opened Wrappers
  import opened Strings
  import opened Session
  import opened AuthGate
  import opened Accounts
  import opened AuthRoutes

  const AdminDashboardPath := "/admin/dashboard"
  const FacultyDashboardPath := "/faculty/dashboard"
  const NoticesPath := "/notices"
  const EventsPath := "/events"

  /** getDashboardLink: the admin flag decides first, whatever the role; then the faculty role. */
  function DashboardLink(user: Option<ClientUser>): (path: string)
    ensures user.Some? && user.value.isAdmin ==> path == AdminDashboardPath
    ensures user.Some? && !user.value.isAdmin && user.value.role == "faculty" ==> path == FacultyDashboardPath
    ensures path == NoticesPath <==> user.None? || (!user.value.isAdmin && user.value.role != "faculty")
  {
    if user.Some? && user.value.isAdmin then AdminDashboardPath
    else if user.Some? && user.value.role == "faculty" then FacultyDashboardPath
    else NoticesPath
  }

  /** The text the initial is taken from: the faculty name, the student first name, else the email. */
  function InitialSource(u: ClientUser): string {
    if u.role == "faculty" && u.fullName.Some? && u.fullName.value != [] then u.fullName.value
    else if u.role == "student" && u.firstName.Some? && u.firstName.value != [] then u.firstName.value
    else u.email
  }

  /** getUserInitial: the upper-cased first character of the chosen name, `U` without a user. */
  function UserInitial(user: Option<ClientUser>): (initial: string)
    ensures user.None? ==> initial == "U"
    ensures user.Some? ==> initial == Upper(FirstChar(InitialSource(user.value)))
    ensures |initial| <= 1
  {
    if user.None? then "U" else Upper(FirstChar(InitialSource(user.value)))
  }

  /** The initial never holds a lower-case ASCII letter, and is empty only for an empty email. */
  lemma InitialShape(user: Option<ClientUser>)
    ensures forall i :: 0 <= i < |UserInitial(user)| ==> !('a' <= UserInitial(user)[i] <= 'z')
    ensures UserInitial(user) == [] <==> user.Some? && InitialSource(user.value) == []
    ensures user.Some? && InitialSource(user.value) == [] ==> user.value.email == []
  {
  }

  /**
   * Which name the initial comes from: a faculty member's full name, a student's first name,
   * and the email when that name is missing or empty, or for any other role.
   */
  lemma InitialCases(u: ClientUser)
    ensures u.role == "faculty" && u.fullName.Some? && u.fullName.value != [] ==>
      UserInitial(Some(u)) == [UpperChar(u.fullName.value[0])]
    ensures u.role == "student" && u.firstName.Some? && u.firstName.value != [] ==>
      UserInitial(Some(u)) == [UpperChar(u.firstName.value[0])]
    ensures u.role != "faculty" && u.role != "student" ==> UserInitial(Some(u)) == Upper(FirstChar(u.email))
  {
  }

  /** A session user as the profile endpoint describes it: a faculty member has a full name. */
  lemma ReceivedFacultyInitial(b: MeBody)
    requires b.role == FacultyRole && !b.isAdmin
    requires b.account.profile.FacultyProfile? && b.account.profile.fullName != []
    ensures UserInitial(Some(Received(b))) == [UpperChar(b.account.profile.fullName[0])]
    ensures DashboardLink(Some(Received(b))) == FacultyDashboardPath
  {
  }

  datatype Entry = Entry(text: string, path: string)

  /** The menu and the desktop bar: notices and events always, the dashboard when signed in. */
  function MenuEntries(isAuthenticated: bool, user: Option<ClientUser>): (entries: seq<Entry>)
    ensures |entries| == if isAuthenticated then 3 else 2
    ensures entries[0] == Entry("Notices", NoticesPath) && entries[1] == Entry("Events", EventsPath)
    ensures forall i :: 0 <= i < |entries| && entries[i].text == "Dashboard" ==> isAuthenticated && i == 2
    ensures isAuthenticated ==> entries[2] == Entry("Dashboard", DashboardLink(user))
  {
    var common := [Entry("Notices", NoticesPath), Entry("Events", EventsPath)];
    if isAuthenticated then common + [Entry("Dashboard", DashboardLink(user))] else common
  }

  /** In a coherent session a visitor who is not signed in sees no dashboard entry. */
  lemma SignedOutHasNoDashboard(s: SessionState)
    requires Coherent(s) && s.user.None?
    ensures |MenuEntries(s.isAuthenticated, s.user)| == 2
  {
  }
}
