/**
 * The document store: the users, verification-request, notice and event collections, each
 * kept in natural (insertion) order, and the counter that hands out fresh document ids.
 */
module Store {
  import opened Wrappers
  import opened Seqs
  import opened Accounts
  import opened VerificationRequests
  import opened Content
  import opened Http

  datatype Db = Db(
    users: seq<User>,
    requests: seq<Request>,
    notices: seq<Notice>,
    events: seq<Event>,
    nextId: nat)

  const Empty: Db := Db([], [], [], [], 0)

  /** What a handler leaves behind: the store after the request and the response. */
  datatype Outcome = Outcome(db: Db, reply: Reply)

  /** Whether `save()` of a new record succeeds: the schema validators and the unique email index. */
  predicate Saveable(users: seq<User>, u: User) {
    SchemaValid(u) && forall j :: 0 <= j < |users| ==> users[j].email != u.email
  }

  /** `Student.findOne({email})` or `Faculty.findOne({email})`: the query value is normalised like the stored one. */
  function FindByEmail(users: seq<User>, kind: Kind, email: string): (r: Option<nat>)
    ensures r.Some? ==> r.value < |users| && users[r.value].Kind() == kind
    ensures r.Some? ==> users[r.value].email == NormalizeEmail(email)
    ensures r.None? <==> forall j :: 0 <= j < |users| ==>
      !(users[j].Kind() == kind && users[j].email == NormalizeEmail(email))
  {
    Find(users, (u: User) => u.Kind() == kind && u.email == NormalizeEmail(email))
  }

  /** `Student.findById(id)` or `Faculty.findById(id)`: a lookup restricted to one kind. */
  function FindById(users: seq<User>, kind: Kind, id: nat): (r: Option<nat>)
    ensures r.Some? ==> r.value < |users| && users[r.value].Kind() == kind && users[r.value].id == id
    ensures r.None? <==> forall j :: 0 <= j < |users| ==> !(users[j].Kind() == kind && users[j].id == id)
  {
    Find(users, (u: User) => u.Kind() == kind && u.id == id)
  }

  function FindRequest(requests: seq<Request>, id: nat): (r: Option<nat>)
    ensures r.Some? ==> r.value < |requests| && requests[r.value].id == id
    ensures r.None? <==> forall j :: 0 <= j < |requests| ==> requests[j].id != id
  {
    Find(requests, (q: Request) => q.id == id)
  }

  function FindNotice(notices: seq<Notice>, id: nat): (r: Option<nat>)
    ensures r.Some? ==> r.value < |notices| && notices[r.value].id == id
    ensures r.None? <==> forall j :: 0 <= j < |notices| ==> notices[j].id != id
  {
    Find(notices, (n: Notice) => n.id == id)
  }

  function FindEvent(events: seq<Event>, id: nat): (r: Option<nat>)
    ensures r.Some? ==> r.value < |events| && events[r.value].id == id
    ensures r.None? <==> forall j :: 0 <= j < |events| ==> events[j].id != id
  {
    Find(events, (e: Event) => e.id == id)
  }

  /** No two records share an id, and every id was handed out by the counter. */
  predicate UserIdsFresh(users: seq<User>, nextId: nat) {
    (forall i, j :: 0 <= i < j < |users| ==> users[i].id != users[j].id) &&
    (forall i :: 0 <= i < |users| ==> users[i].id < nextId)
  }

  /** The unique index on `email`, over the whole collection of both kinds. */
  predicate EmailsUnique(users: seq<User>) {
    forall i, j :: 0 <= i < j < |users| ==> users[i].email != users[j].email
  }

  /** Request ids are unique and issued; every request names a record id that was issued. */
  predicate RequestIdsFresh(requests: seq<Request>, nextId: nat) {
    (forall i, j :: 0 <= i < j < |requests| ==> requests[i].id != requests[j].id) &&
    (forall i :: 0 <= i < |requests| ==> requests[i].id < nextId && requests[i].faculty < nextId)
  }

  predicate NoticeIdsFresh(notices: seq<Notice>, nextId: nat) {
    (forall i, j :: 0 <= i < j < |notices| ==> notices[i].id != notices[j].id) &&
    (forall i :: 0 <= i < |notices| ==> notices[i].id < nextId)
  }

  predicate EventIdsFresh(events: seq<Event>, nextId: nat) {
    (forall i, j :: 0 <= i < j < |events| ==> events[i].id != events[j].id) &&
    (forall i :: 0 <= i < |events| ==> events[i].id < nextId)
  }

  /** What the database's indexes and id allocation guarantee of every state. */
  predicate Valid(db: Db) {
    UserIdsFresh(db.users, db.nextId) && EmailsUnique(db.users) &&
    RequestIdsFresh(db.requests, db.nextId) && NoticeIdsFresh(db.notices, db.nextId) &&
    EventIdsFresh(db.events, db.nextId)
  }

  /** Rewriting records in place while keeping every id and email keeps the invariant. */
  lemma SameKeysValid(db: Db, users: seq<User>)
    requires Valid(db) && |users| == |db.users|
    requires forall j :: 0 <= j < |users| ==> users[j].id == db.users[j].id && users[j].email == db.users[j].email
    ensures Valid(db.(users := users))
  {
  }

  /** Under the unique index, an email names at most one record. */
  lemma EmailNamesOne(users: seq<User>, i: nat, j: nat)
    requires EmailsUnique(users) && i < |users| && j < |users| && users[i].email == users[j].email
    ensures i == j
  {
  }

  /** The database as a mutable object; each handler updates its collections in place. */
  class Database {
    var users: seq<User>
    var requests: seq<Request>
    var notices: seq<Notice>
    var events: seq<Event>
    var nextId: nat

    function State(): Db
      reads this
    {
      Db(users, requests, notices, events, nextId)
    }

    constructor ()
      ensures State() == Empty
    {
      users, requests, notices, events, nextId := [], [], [], [], 0;
    }
  }
}
