/**
 * The browser's session: the signed-in user as the profile endpoint describes it, and the
 * provider that keeps the token in storage and in the default request header.
 */
module Session {
  import opened Wrappers
  import opened Accounts
  import opened AuthGate
  import opened AuthRoutes

  /**
   * The signed-in user as the client holds it: the profile body (which carries `_id` but,
   * being a plain object copy of the record, no `id`), the role and the admin flag.
   */
  datatype ClientUser = ClientUser(
    id: Option<nat>,
    docId: nat,
    role: string,
    isAdmin: bool,
    email: string,
    fullName: Option<string>,
    firstName: Option<string>)

  function RoleName(r: Role): (name: string)
    ensures name == "admin" <==> r == AdminRole
    ensures name == "faculty" <==> r == FacultyRole
    ensures name == "student" <==> r == StudentRole
  {
    match r
    case StudentRole => "student"
    case FacultyRole => "faculty"
    case AdminRole => "admin"
  }

  /** The client's user from a profile body: the record's fields plus the role and the flag. */
  function Received(b: MeBody): (u: ClientUser)
    ensures u.id.None? && u.docId == b.account.id && u.role == RoleName(b.role) && u.isAdmin == b.isAdmin
    ensures u.firstName.Some? <==> b.account.profile.StudentProfile?
    ensures u.fullName.Some? <==> b.account.profile.FacultyProfile?
  {
    var p := b.account.profile;
    ClientUser(None, b.account.id, RoleName(b.role), b.isAdmin, b.account.email,
               if p.FacultyProfile? then Some(p.fullName) else None,
               if p.StudentProfile? then Some(p.firstName) else None)
  }

  /** A session whose token the gate admits describes the token's own record. */
  lemma ReceivedDescribesToken(users: seq<User>, token: Token)
    requires Me(users, token).body.Some?
    ensures var u := Received(Me(users, token).body.value);
      token.Decoded? && u.docId == token.payload.id && u.role == RoleName(token.payload.role)
      && u.id.None?
  {
  }

  // ---------------------------------------------------------------------------------------------
  // The provider

  /** The provider's state: user, flags, token, the stored token and the default header. */
  datatype SessionState = SessionState(
    user: Option<ClientUser>,
    isAuthenticated: bool,
    loading: bool,
    token: Option<string>,
    storage: Option<string>,
    header: Option<string>)

  /** `localStorage.getItem('token') || null`: an empty stored text counts as none. */
  function TokenOf(stored: Option<string>): (t: Option<string>)
    ensures t.Some? <==> stored.Some? && stored.value != ""
    ensures t.Some? ==> t == stored
  {
    if stored.Some? && stored.value != "" then stored else None
  }

  function Initial(stored: Option<string>): SessionState {
    SessionState(None, false, true, TokenOf(stored), stored, None)
  }

  /**
   * The token effect and checkAuth: with no token only loading ends; otherwise the header is
   * set and the profile fetched (`me`, `None` when that fails, which clears the session).
   */
  function CheckAuth(s: SessionState, me: Option<ClientUser>): SessionState {
    if s.token.None? then s.(loading := false)
    else if me.Some? then s.(header := s.token, user := me, isAuthenticated := true, loading := false)
    else s.(storage := None, header := None, token := None, user := None, isAuthenticated := false, loading := false)
  }

  /**
   * login: the token issued (`None` when the login request fails) is stored and set as the
   * header before the profile is fetched; a failed profile fetch leaves the token in place.
   */
  function Login(s: SessionState, issued: Option<string>, me: Option<ClientUser>): SessionState {
    if issued.None? then s
    else
      var t := s.(storage := issued, header := issued, token := issued);
      if me.Some? then t.(user := me, isAuthenticated := true) else t
  }

  function Logout(s: SessionState): SessionState {
    s.(storage := None, header := None, token := None, user := None, isAuthenticated := false)
  }

  /** Only a placeholder is rendered while loading. */
  function RendersChildren(s: SessionState): bool {
    !s.loading
  }

  /**
   * The provider's invariant: a session is authenticated exactly when it has a user, and an
   * authenticated session sends its own token, which is also the stored one.
   */
  predicate Coherent(s: SessionState) {
    && (s.isAuthenticated <==> s.user.Some?)
    && (s.token.Some? ==> s.storage == s.token)
    && (s.isAuthenticated ==> s.token.Some? && s.header == s.token)
  }

  lemma InitialCoherent(stored: Option<string>)
    ensures Coherent(Initial(stored)) && !RendersChildren(Initial(stored))
  {
  }

  lemma StepsKeepCoherent(s: SessionState, issued: Option<string>, me: Option<ClientUser>)
    requires Coherent(s)
    ensures Coherent(CheckAuth(s, me)) && Coherent(Login(s, issued, me)) && Coherent(Logout(s))
  {
  }

  /** checkAuth always ends loading; without a token it changes nothing else. */
  lemma CheckAuthEndsLoading(s: SessionState, me: Option<ClientUser>)
    ensures !CheckAuth(s, me).loading && RendersChildren(CheckAuth(s, me))
    ensures s.token.None? ==> CheckAuth(s, me) == s.(loading := false)
    ensures s.token.Some? && me.None? ==>
      CheckAuth(s, me).storage.None? && CheckAuth(s, me).header.None? && !CheckAuth(s, me).isAuthenticated
  {
  }

  /** After a successful login the session holds the new token everywhere and the fetched user. */
  lemma LoginStoresToken(s: SessionState, token: string, me: ClientUser)
    ensures var t := Login(s, Some(token), Some(me));
      t.storage == Some(token) && t.header == Some(token) && t.token == Some(token)
      && t.user == Some(me) && t.isAuthenticated
  {
  }

  /** After logout nothing of the session is left, whatever came before. */
  lemma LogoutForgets(s: SessionState, issued: Option<string>, me: Option<ClientUser>)
    ensures var t := Logout(Login(s, issued, me));
      t.storage.None? && t.header.None? && t.token.None? && t.user.None? && !t.isAuthenticated
    ensures Logout(Logout(s)) == Logout(s)
  {
  }

  /** The provider component, with the browser's storage and default header as fields. */
  class Provider {
    var user: Option<ClientUser>
    var isAuthenticated: bool
    var loading: bool
    var token: Option<string>
    var storage: Option<string>
    var header: Option<string>

    function State(): SessionState
      reads this
    {
      SessionState(user, isAuthenticated, loading, token, storage, header)
    }

    constructor (stored: Option<string>)
      ensures State() == Initial(stored)
    {
      user, isAuthenticated, loading := None, false, true;
      token, storage, header := TokenOf(stored), stored, None;
    }

    method RunCheckAuth(me: Option<ClientUser>)
      modifies this
      ensures State() == CheckAuth(old(State()), me)
    {
      if token.None? {
        loading := false;
        return;
      }
      header := token;
      if me.Some? {
        user := me;
        isAuthenticated := true;
      } else {
        storage, header, token := None, None, None;
        user, isAuthenticated := None, false;
      }
      loading := false;
    }

    method RunLogin(issued: Option<string>, me: Option<ClientUser>) returns (ok: bool)
      modifies this
      ensures State() == Login(old(State()), issued, me)
      ensures ok <==> issued.Some? && me.Some?
    {
      if issued.None? {
        return false;
      }
      storage, header, token := issued, issued, issued;
      if me.None? {
        return false;
      }
      user := me;
      isAuthenticated := true;
      ok := true;
    }

    method RunLogout()
      modifies this
      ensures State() == Logout(old(State()))
    {
      storage, header, token := None, None, None;
      user, isAuthenticated := None, false;
    }
  }
}
