/**
 * The request gate in front of every authenticated route, and the role predicate built on it.
 * The gate trusts the token only for the id and role; it re-reads the live record on every
 * request and takes the admin flag from that record.
 */
module AuthGate {
  import opened Wrappers
  import opened Http
  import opened Accounts
  import opened Store

  /** The role carried by a token. Login issues only the first two; see `LoginIssuesNoAdminRole`. */
  datatype Role = StudentRole | FacultyRole | AdminRole

  /** The `user` part of a token payload, and `req.user` once the gate has run. */
  datatype TokenUser = TokenUser(id: nat, role: Role, isAdmin: bool)

  /** The `x-auth-token` header as signature verification leaves it. */
  datatype Token = NoToken | BadToken | Decoded(payload: TokenUser)

  datatype Gate = Pass(user: TokenUser) | Deny(reply: Reply)

  /** The collection a token role is looked up in: students for 'student', faculty for anything else. */
  function LookupKind(role: Role): (k: Kind)
    ensures k == StudentKind <==> role == StudentRole
  {
    if role == StudentRole then StudentKind else FacultyKind
  }

  /** The `auth` middleware. */
  function Authenticate(users: seq<User>, token: Token): (g: Gate)
    ensures token.NoToken? ==> g == Deny(Msg(401, "No token, authorization denied"))
    ensures token.BadToken? ==> g == Deny(Msg(401, "Token is not valid"))
    ensures g.Deny? ==> g.reply.status == 401
    ensures g.Pass? ==> token.Decoded? && g.user.id == token.payload.id && g.user.role == token.payload.role
    ensures g.Pass? ==>
      var i := FindById(users, LookupKind(token.payload.role), token.payload.id);
      i.Some? && users[i.value].isEmailVerified && g.user.isAdmin == users[i.value].isAdmin &&
      (token.payload.role == FacultyRole ==> users[i.value].IsVerifiedFaculty())
  {
    match token
    case NoToken => Deny(Msg(401, "No token, authorization denied"))
    case BadToken => Deny(Msg(401, "Token is not valid"))
    case Decoded(t) =>
      match FindById(users, LookupKind(t.role), t.id)
      case None => Deny(Msg(401, "User not found"))
      case Some(i) =>
        var u := users[i];
        if !u.isEmailVerified then Deny(Msg(401, "Please verify your email first"))
        else if t.role == FacultyRole && !u.IsVerifiedFaculty() then
          Deny(Msg(401, "Your faculty account is pending verification"))
        else Pass(t.(isAdmin := u.isAdmin))
  }

  /** A record the gate admits for a token: right kind and id, email verified, approved if faculty. */
  predicate Admits(u: User, t: TokenUser) {
    u.Kind() == LookupKind(t.role) && u.id == t.id && u.isEmailVerified &&
    (t.role == FacultyRole ==> u.IsVerifiedFaculty())
  }

  /**
   * With ids unique, a decoded token passes exactly when some record admits it, and the
   * refreshed admin flag is that record's.
   */
  lemma {:induction false} AuthenticateAdmits(users: seq<User>, t: TokenUser, nextId: nat)
    requires UserIdsFresh(users, nextId)
    ensures Authenticate(users, Decoded(t)).Pass? <==> exists j :: 0 <= j < |users| && Admits(users[j], t)
    ensures forall j :: 0 <= j < |users| && Admits(users[j], t) ==>
      Authenticate(users, Decoded(t)) == Pass(t.(isAdmin := users[j].isAdmin))
  {
    var i := FindById(users, LookupKind(t.role), t.id);
    if i.Some? {
      assert forall j :: 0 <= j < |users| && users[j].id == t.id ==> j == i.value;
    }
  }

  /** The admin flag written in a token never matters: the gate replaces it. */
  lemma TokenAdminFlagIgnored(users: seq<User>, t: TokenUser, claimed: bool)
    ensures Authenticate(users, Decoded(t.(isAdmin := claimed))) == Authenticate(users, Decoded(t))
  {
  }

  /**
   * A token whose role is 'admin' is looked up among faculty and skips the approval check:
   * an email-verified faculty member still awaiting approval passes with such a token.
   */
  lemma AdminRoleSkipsApproval(users: seq<User>, t: TokenUser)
    requires t.role == AdminRole
    requires var i := FindById(users, FacultyKind, t.id); i.Some? && users[i.value].isEmailVerified
    ensures Authenticate(users, Decoded(t)).Pass?
  {
  }

  /** `checkRole(role)`: allowed when the role matches or the user is an administrator. */
  predicate RoleAllowed(user: TokenUser, role: Role) {
    user.role == role || user.isAdmin
  }

  /** The gate followed by `checkRole(role)`: `Run` lets the route handler run, `Stop` answers instead. */
  function Authorize(users: seq<User>, token: Token, role: Role): (r: Access)
    ensures r.Run? <==> Authenticate(users, token).Pass? && RoleAllowed(Authenticate(users, token).user, role)
    ensures r.Stop? && Authenticate(users, token).Pass? ==> r.reply == Msg(403, "Access denied")
    ensures r.Stop? && Authenticate(users, token).Deny? ==> r.reply == Authenticate(users, token).reply
  {
    match Authenticate(users, token)
    case Deny(reply) => Stop(reply)
    case Pass(user) => if RoleAllowed(user, role) then Run(user) else Stop(Msg(403, "Access denied"))
  }

  /**
   * For a token with a role login issues, `checkRole('admin')` lets the request through
   * exactly when some live record admits the token and that record has the admin flag.
   */
  lemma AdminCheckUsesLiveFlag(users: seq<User>, t: TokenUser, nextId: nat)
    requires UserIdsFresh(users, nextId) && t.role != AdminRole
    ensures Authorize(users, Decoded(t), AdminRole).Run? <==>
      exists j :: 0 <= j < |users| && Admits(users[j], t) && users[j].isAdmin
  {
    AuthenticateAdmits(users, t, nextId);
  }

  datatype Access = Run(user: TokenUser) | Stop(reply: Reply)
}
