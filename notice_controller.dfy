/**
 * The notice handlers: the paginated listing, the lookup by id, and creation, update and
 * deletion by the author (or by a caller whose token carries the admin role). The caller
 * is the token payload the `auth` middleware has already checked; the validator messages
 * come from the route's chain; the uploads directory already holds the files the upload
 * middleware stored for this request.
 */
module NoticeController {
  import opened Wrappers
  import opened Strings
  import opened Seqs
  import opened Http
  import opened Content
  import opened Store
  import opened AuthGate
  import opened Paging
  import opened Attachments
  import opened FileUtils
  import opened ContentRoutes
  import ServerConfig
  import Departments
  import AuthRoutes
  import AuthController

  const NoticeMissing: Reply := Msg(404, "Notice not found")
  const NoticeRemoved: Reply := Msg(200, "Notice removed")

  /** The query string of the listing; an absent or empty `type` filters nothing. */
  datatype NoticeQuery = NoticeQuery(noticeType: string, page: Option<nat>, limit: Option<nat>)

  /** `role !== 'faculty' && role !== 'admin'` refuses the caller. */
  predicate CanPost(caller: TokenUser) {
    caller.role == FacultyRole || caller.role == AdminRole
  }

  /** `author.toString() !== req.user.id && role !== 'admin'` refuses the caller. */
  predicate MayChange(caller: TokenUser, author: nat) {
    author == caller.id || caller.role == AdminRole
  }

  function OfNoticeType(t: string): Notice -> bool {
    (n: Notice) => n.noticeType == t
  }

  /** The notices the query's `type` filter lets through, in store order. */
  function NoticesOfType(notices: seq<Notice>, t: string): seq<Notice> {
    if t == [] then notices else Filter(notices, OfNoticeType(t))
  }

  /** `sort({ createdAt: -1 })` as an ascending sort on the negated instant. */
  function NewestKey(n: Notice): int {
    -n.createdAt
  }

  // ---------------------------------------------------------------------------------------
  // Reading
  // ---------------------------------------------------------------------------------------

  /** `getAllNotices`. */
  function ListNotices(db: Db, q: NoticeQuery): Answer<Page<Notice>> {
    Paginate(SortBy(NoticesOfType(db.notices, q.noticeType), NewestKey), q.page, q.limit)
  }

  /**
   * A page holds stored notices of the requested type, newest first, and the page count
   * is taken over every notice of that type.
   */
  lemma ListNoticesListing(db: Db, q: NoticeQuery)
    ensures var a := ListNotices(db, q);
      var matching := NoticesOfType(db.notices, q.noticeType);
      (a.Fail? <==> q.page == Some(0)) &&
      (a.Ok? ==>
        (forall k :: 0 <= k < |a.body.items| ==>
          a.body.items[k] in db.notices && (q.noticeType != [] ==> a.body.items[k].noticeType == q.noticeType)) &&
        (forall i, j :: 0 <= i < j < |a.body.items| ==> a.body.items[i].createdAt >= a.body.items[j].createdAt) &&
        (q.limit.GetOr(DefaultLimit) > 0 ==> a.body.totalPages == Some(CeilDiv(|matching|, q.limit.GetOr(DefaultLimit)))))
  {
    var t := q.noticeType;
    var sorted := SortBy(NoticesOfType(db.notices, t), NewestKey);
    SortedMatches(db.notices, t, sorted);
    var P := (n: Notice) => n in db.notices && (t != [] ==> n.noticeType == t);
    PageKeeps(sorted, q.page, q.limit, P, NewestKey);
    var a := Paginate(sorted, q.page, q.limit);
    if a.Ok? {
      forall i, j | 0 <= i < j < |a.body.items|
        ensures a.body.items[i].createdAt >= a.body.items[j].createdAt
      {
        assert NewestKey(a.body.items[i]) <= NewestKey(a.body.items[j]);
      }
    }
  }

  /** The sorted matches are stored notices of the type, newest first. */
  lemma SortedMatches(notices: seq<Notice>, t: string, sorted: seq<Notice>)
    requires sorted == SortBy(NoticesOfType(notices, t), NewestKey)
    ensures forall k :: 0 <= k < |sorted| ==> sorted[k] in notices && (t != [] ==> sorted[k].noticeType == t)
    ensures forall i, j :: 0 <= i < j < |sorted| ==> sorted[i].createdAt >= sorted[j].createdAt
  {
    var matching := NoticesOfType(notices, t);
    forall k | 0 <= k < |sorted|
      ensures sorted[k] in notices && (t != [] ==> sorted[k].noticeType == t)
    {
      assert sorted[k] in multiset(matching);
      var j :| 0 <= j < |matching| && matching[j] == sorted[k];
      if t != [] {
        assert OfNoticeType(t)(matching[j]);
      }
    }
    forall i, j | 0 <= i < j < |sorted|
      ensures sorted[i].createdAt >= sorted[j].createdAt
    {
      assert NewestKey(sorted[i]) <= NewestKey(sorted[j]);
    }
  }

  /** `getNoticeById`: the stored notice, or 404 "Notice not found". */
  function GetNotice(db: Db, id: nat): (a: Answer<Notice>)
    ensures a.Ok? <==> exists j :: 0 <= j < |db.notices| && db.notices[j].id == id
    ensures a.Ok? ==> a.body in db.notices && a.body.id == id
    ensures a.Fail? ==> a.reply == NoticeMissing
  {
    match FindNotice(db.notices, id)
    case None => Fail(NoticeMissing)
    case Some(k) => Ok(db.notices[k])
  }

  // ---------------------------------------------------------------------------------------
  // Creation
  // ---------------------------------------------------------------------------------------

  /** The notice `createNotice` saves, its attachments numbered after its own id. */
  function Drafted(db: Db, caller: TokenUser, f: NoticeForm, files: seq<UploadedFile>, baseUrl: string, now: int): Notice {
    NewNotice(db.nextId, f.title, f.content, f.noticeType, f.department, caller.id,
              Uploaded(files, db.nextId + 1, baseUrl), now)
  }

  /** `createNotice`: validation, the role check, then `save()` under the schema. */
  function CreateNotice(db: Db, caller: TokenUser, f: NoticeForm, files: seq<UploadedFile>, baseUrl: string, now: int): Outcome {
    var errors := NoticeErrors(f);
    if errors != [] then Outcome(db, Invalid(errors))
    else if !CanPost(caller) then Outcome(db, NotAuthorized)
    else
      var n := Drafted(db, caller, f, files, baseUrl, now);
      if !NoticeSchemaValid(n) then Outcome(db, ServerError)
      else Outcome(db.(notices := db.notices + [n], nextId := db.nextId + 1 + |files|), Created)
  }

  /**
   * Creation succeeds exactly for a form that passes the validators, from a faculty or
   * admin caller, whose title is not all white space and whose department is one the
   * schema lists; validation is checked before the role; a refusal changes nothing.
   */
  lemma CreateNoticeOutcomes(db: Db, caller: TokenUser, f: NoticeForm, files: seq<UploadedFile>, baseUrl: string, now: int)
    ensures var o := CreateNotice(db, caller, f, files, baseUrl, now);
      (o.reply == Created <==>
        NoticeErrors(f) == [] && CanPost(caller) && Trim(f.title) != [] && f.department in Departments.ContentDepartments) &&
      (o.reply.status == 400 <==> NoticeErrors(f) != []) &&
      (o.reply == NotAuthorized <==> NoticeErrors(f) == [] && !CanPost(caller)) &&
      (o.reply != Created ==> o.db == db)
  {
  }

  /**
   * A created notice is appended under the next id, carries the caller as author, the
   * form's fields with the title trimmed, one attachment per upload in upload order
   * holding its original name and its public URL, and the save instant twice.
   */
  lemma CreateNoticeEffect(db: Db, caller: TokenUser, f: NoticeForm, files: seq<UploadedFile>, baseUrl: string, now: int)
    ensures var o := CreateNotice(db, caller, f, files, baseUrl, now);
      o.reply == Created ==>
        |o.db.notices| == |db.notices| + 1 && o.db.notices[..|db.notices|] == db.notices &&
        var n := o.db.notices[|db.notices|];
        n.id == db.nextId && n.author == caller.id && n.title == Trim(f.title) && n.content == f.content &&
        Some(n.noticeType) == f.noticeType && n.department == f.department &&
        n.createdAt == now && n.updatedAt == now && |n.attachments| == |files| &&
        (forall k :: 0 <= k < |files| ==>
          n.attachments[k].filename == files[k].originalname &&
          n.attachments[k].url == ServerConfig.GetFullUrl(baseUrl, "uploads/" + files[k].filename)) &&
        o.db.users == db.users && o.db.requests == db.requests && o.db.events == db.events &&
        o.db.nextId > db.nextId + |files|
  {
    var o := CreateNotice(db, caller, f, files, baseUrl, now);
    if o.reply == Created {
      assert o.db.notices == db.notices + [Drafted(db, caller, f, files, baseUrl, now)];
    }
  }

  /** A student can never publish a notice. */
  lemma StudentsCannotPost(db: Db, caller: TokenUser, f: NoticeForm, files: seq<UploadedFile>, baseUrl: string, now: int)
    requires caller.role == StudentRole
    ensures !CreateNotice(db, caller, f, files, baseUrl, now).reply.Success()
    ensures CreateNotice(db, caller, f, files, baseUrl, now).db == db
  {
  }

  /**
   * A title of blanks passes `notEmpty()`, which does not trim, but the schema trims it to
   * nothing and `save()` fails: the caller sees a 500 where a 400 belongs.
   */
  lemma BlankTitleIsAServerError(db: Db, caller: TokenUser, files: seq<UploadedFile>, baseUrl: string, now: int)
    requires CanPost(caller)
    ensures var f := NoticeForm("   ", "Exam postponed", Some("general"), "Computer Science");
      NoticeErrors(f) == [] && CreateNotice(db, caller, f, files, baseUrl, now).reply == ServerError
  {
    var f := NoticeForm("   ", "Exam postponed", Some("general"), "Computer Science");
    assert Trim(f.title) == [];
    assert NoticeErrors(f) == [];
  }

  /** The new record is given fresh ids, so the store invariant survives creation. */
  lemma CreateNoticeValid(db: Db, caller: TokenUser, f: NoticeForm, files: seq<UploadedFile>, baseUrl: string, now: int)
    requires Valid(db)
    ensures Valid(CreateNotice(db, caller, f, files, baseUrl, now).db)
  {
  }

  /** The `createNotice` handler over the mutable store, with the attachment loop. */
  method CreateNoticeOn(db: Database, caller: TokenUser, f: NoticeForm, files: seq<UploadedFile>, baseUrl: string, now: int)
    returns (reply: Reply)
    modifies db
    ensures var o := CreateNotice(old(db.State()), caller, f, files, baseUrl, now);
      db.State() == o.db && reply == o.reply
  {
    ghost var before := db.State();
    var errors := NoticeErrors(f);
    if errors != [] || !CanPost(caller) {
      return if errors != [] then Invalid(errors) else NotAuthorized;
    }
    var attachments := BuildAttachments(files, db.nextId + 1, baseUrl);
    var n := NewNotice(db.nextId, f.title, f.content, f.noticeType, f.department, caller.id, attachments, now);
    assert n == Drafted(before, caller, f, files, baseUrl, now);
    if !NoticeSchemaValid(n) {
      return ServerError;
    }
    AppendNoticeOn(db, n, 1 + |files|);
    reply := Created;
  }

  /** `save()` of a new notice that took `used` ids. */
  method AppendNoticeOn(db: Database, n: Notice, used: nat)
    modifies db
    ensures db.State() == old(db.State()).(notices := old(db.notices) + [n], nextId := old(db.nextId) + used)
  {
    db.notices := db.notices + [n];
    db.nextId := db.nextId + used;
  }

  // ---------------------------------------------------------------------------------------
  // Update
  // ---------------------------------------------------------------------------------------

  /** The attachment list after an update: untouched without uploads, else reconciled. */
  function UpdatedAttachments(stored: seq<Attachment>, files: seq<UploadedFile>, keep: KeepParam, firstId: nat, baseUrl: string): seq<Attachment> {
    if files == [] then stored else Reconciled(stored, KeepList(keep), Uploaded(files, firstId, baseUrl))
  }

  /** The uploads directory after an update: only an update with uploads deletes the dropped files. */
  function UpdatedUploads(uploads: set<string>, stored: seq<Attachment>, files: seq<UploadedFile>, keep: KeepParam, failing: set<string>): set<string> {
    if files == [] then uploads else AfterDelete(uploads, Some(Dropped(stored, KeepList(keep))), failing)
  }

  /** The notice as `updateNotice` saves it: the four fields set, the hook's `updatedAt`. */
  function Revised(n: Notice, f: NoticeForm, attachments: seq<Attachment>, now: int): Notice {
    n.(title := Trim(f.title), content := f.content, noticeType := f.noticeType.GetOr(DefaultNoticeType),
       department := f.department, attachments := attachments, updatedAt := now)
  }

  /**
   * `updateNotice`: validation, the role check, the lookup, the ownership check, the file
   * reconciliation (whose deletions happen before the save and are not undone when it
   * fails), then `save()` under the schema.
   */
  function UpdateNotice(db: Db, uploads: set<string>, caller: TokenUser, id: nat, f: NoticeForm,
                        files: seq<UploadedFile>, keep: KeepParam, baseUrl: string, now: int, failing: set<string>): Effect {
    var errors := NoticeErrors(f);
    if errors != [] then Effect(db, uploads, Invalid(errors))
    else if !CanPost(caller) then Effect(db, uploads, NotAuthorized)
    else match FindNotice(db.notices, id)
      case None => Effect(db, uploads, NoticeMissing)
      case Some(k) =>
        var n := db.notices[k];
        if !MayChange(caller, n.author) then Effect(db, uploads, NotAuthorized)
        else Revise(db, uploads, k, f, files, keep, baseUrl, now, failing)
  }

  /** The authorised part of `updateNotice` on the notice at index `k`. */
  function Revise(db: Db, uploads: set<string>, k: nat, f: NoticeForm, files: seq<UploadedFile>, keep: KeepParam,
                  baseUrl: string, now: int, failing: set<string>): Effect
    requires k < |db.notices|
  {
    var n := db.notices[k];
    var after := UpdatedUploads(uploads, n.attachments, files, keep, failing);
    var n' := Revised(n, f, UpdatedAttachments(n.attachments, files, keep, db.nextId, baseUrl), now);
    if !NoticeSchemaValid(n') then Effect(db, after, ServerError)
    else Effect(db.(notices := db.notices[k := n'], nextId := db.nextId + |files|), after, Sent)
  }

  /**
   * The checks come in the order validation, role, existence, ownership; each refusal
   * leaves the store and the uploads directory as they were.
   */
  lemma UpdateNoticeRefusals(db: Db, uploads: set<string>, caller: TokenUser, id: nat, f: NoticeForm,
                             files: seq<UploadedFile>, keep: KeepParam, baseUrl: string, now: int, failing: set<string>)
    ensures var e := UpdateNotice(db, uploads, caller, id, f, files, keep, baseUrl, now, failing);
      var found := FindNotice(db.notices, id);
      (e.reply.status == 400 <==> NoticeErrors(f) != []) &&
      (NoticeErrors(f) == [] && !CanPost(caller) ==> e.reply == NotAuthorized) &&
      (e.reply == NoticeMissing <==> NoticeErrors(f) == [] && CanPost(caller) && found.None?) &&
      (NoticeErrors(f) == [] && CanPost(caller) && found.Some? && !MayChange(caller, db.notices[found.value].author) ==>
        e.reply == NotAuthorized) &&
      (e.reply.status in {400, 403, 404} ==> e.db == db && e.uploads == uploads) &&
      (e.reply == Sent <==>
        (NoticeErrors(f) == [] && CanPost(caller) && found.Some? &&
         MayChange(caller, db.notices[found.value].author) && Trim(f.title) != [] &&
         f.department in Departments.ContentDepartments))
  {
  }

  /**
   * A saved update keeps the notice's id, author and creation instant and its place in
   * the store, sets the form's fields and the new `updatedAt`, and touches no other record.
   */
  lemma UpdateNoticeEffect(db: Db, uploads: set<string>, caller: TokenUser, id: nat, f: NoticeForm,
                           files: seq<UploadedFile>, keep: KeepParam, baseUrl: string, now: int, failing: set<string>)
    ensures var e := UpdateNotice(db, uploads, caller, id, f, files, keep, baseUrl, now, failing);
      e.reply == Sent ==>
        FindNotice(db.notices, id).Some? &&
        var k := FindNotice(db.notices, id).value;
        var n := e.db.notices[k];
        |e.db.notices| == |db.notices| &&
        (forall j :: 0 <= j < |db.notices| && j != k ==> e.db.notices[j] == db.notices[j]) &&
        n.id == id && n.author == db.notices[k].author && n.createdAt == db.notices[k].createdAt &&
        n.updatedAt == now && n.title == Trim(f.title) && n.content == f.content &&
        Some(n.noticeType) == f.noticeType && n.department == f.department &&
        e.db.users == db.users && e.db.requests == db.requests && e.db.events == db.events
  {
    var e := UpdateNotice(db, uploads, caller, id, f, files, keep, baseUrl, now, failing);
    if e.reply == Sent {
      var k := FindNotice(db.notices, id).value;
      var n := db.notices[k];
      var n' := Revised(n, f, UpdatedAttachments(n.attachments, files, keep, db.nextId, baseUrl), now);
      assert e.db.notices == db.notices[k := n'];
    }
  }

  /**
   * An update with uploads keeps the stored attachments whose ids the client listed, in
   * their order, followed by the new ones, and hands every other stored attachment to
   * `deleteFiles`; the deletions stand even when the save then fails.
   */
  lemma UpdateReconciles(db: Db, uploads: set<string>, caller: TokenUser, k: nat, f: NoticeForm,
                         files: seq<UploadedFile>, keep: KeepParam, baseUrl: string, now: int, failing: set<string>)
    requires Valid(db) && k < |db.notices| && files != []
    requires NoticeErrors(f) == [] && CanPost(caller) && MayChange(caller, db.notices[k].author)
    ensures var e := UpdateNotice(db, uploads, caller, db.notices[k].id, f, files, keep, baseUrl, now, failing);
      var stored := db.notices[k].attachments;
      var keepIds := KeepList(keep);
      e.uploads == AfterDelete(uploads, Some(Dropped(stored, keepIds)), failing) &&
      (forall j :: 0 <= j < |stored| && stored[j].id !in keepIds ==> stored[j] in Dropped(stored, keepIds)) &&
      (e.reply == Sent ==>
        e.db.notices[k].attachments == Kept(stored, keepIds) + Uploaded(files, db.nextId, baseUrl) &&
        (forall j :: 0 <= j < |stored| && stored[j].id in keepIds ==> stored[j] in e.db.notices[k].attachments))
  {
    NoticeIdsUnique(db, db.notices[k].id, k);
    KeptDroppedPartition(db.notices[k].attachments, KeepList(keep));
    var e := UpdateNotice(db, uploads, caller, db.notices[k].id, f, files, keep, baseUrl, now, failing);
    assert e == Revise(db, uploads, k, f, files, keep, baseUrl, now, failing);
  }

  /** When ids are unique, the lookup finds the one notice having that id. */
  lemma NoticeIdsUnique(db: Db, id: nat, k: nat)
    requires k < |db.notices| && db.notices[k].id == id
    ensures FindNotice(db.notices, id).Some?
    ensures (forall i, j :: 0 <= i < j < |db.notices| ==> db.notices[i].id != db.notices[j].id) ==>
      FindNotice(db.notices, id) == Some(k)
  {
  }

  /** Without uploads, `keepAttachments` is ignored: the list and the directory stay as they are. */
  lemma UpdateWithoutFiles(db: Db, uploads: set<string>, caller: TokenUser, id: nat, f: NoticeForm,
                           keep: KeepParam, baseUrl: string, now: int, failing: set<string>)
    ensures var e := UpdateNotice(db, uploads, caller, id, f, [], keep, baseUrl, now, failing);
      e.uploads == uploads &&
      (e.reply == Sent ==>
        FindNotice(db.notices, id).Some? &&
        var k := FindNotice(db.notices, id).value;
        e.db.notices[k].attachments == db.notices[k].attachments && e.db.nextId == db.nextId)
  {
    var found := FindNotice(db.notices, id);
    if found.Some? {
      var k := found.value;
      assert UpdatedAttachments(db.notices[k].attachments, [], keep, db.nextId, baseUrl) == db.notices[k].attachments;
      assert UpdatedUploads(uploads, db.notices[k].attachments, [], keep, failing) == uploads;
    }
  }

  /** Uploads sent without any `keepAttachments` replace the whole list and drop every old file. */
  lemma UploadsWithoutKeepReplaceAll(stored: seq<Attachment>, files: seq<UploadedFile>, firstId: nat, baseUrl: string,
                                     uploads: set<string>, failing: set<string>)
    requires files != []
    ensures UpdatedAttachments(stored, files, KeepNone, firstId, baseUrl) == Uploaded(files, firstId, baseUrl)
    ensures UpdatedUploads(uploads, stored, files, KeepNone, failing) == AfterDelete(uploads, Some(stored), failing)
  {
    KeepNothing(stored);
  }

  /**
   * Ownership is the only way in for a caller whose token does not say admin, and a login
   * token never does: changing or deleting another author's notice needs a token that login
   * does not issue.
   */
  lemma OthersNoticesNeedAdminToken(db: Db, uploads: set<string>, caller: TokenUser, id: nat, f: NoticeForm,
                                    files: seq<UploadedFile>, keep: KeepParam, baseUrl: string, now: int, failing: set<string>)
    requires caller.role != AdminRole
    ensures forall k :: 0 <= k < |db.notices| && FindNotice(db.notices, id) == Some(k) && db.notices[k].author != caller.id ==>
      UpdateNotice(db, uploads, caller, id, f, files, keep, baseUrl, now, failing).reply.status != 200 &&
      DeleteNotice(db, uploads, caller, id, failing).reply.status != 200
  {
  }

  /** Login tokens, whichever account they come from, fall under the ownership rule. */
  lemma LoginTokensOwnOnly(db: Db, login: AuthRoutes.LoginForm, id: nat, failing: set<string>, uploads: set<string>)
    requires AuthController.Login(db, login).LoggedIn?
    ensures var caller := AuthController.Login(db, login).token;
      DeleteNotice(db, uploads, caller, id, failing).reply == NoticeRemoved ==>
        db.notices[FindNotice(db.notices, id).value].author == caller.id
  {
    AuthController.LoginIssuesNoAdminRole(db, login);
  }

  /** A notice keeps its id across an update, so the store invariant survives it. */
  lemma UpdateNoticeValid(db: Db, uploads: set<string>, caller: TokenUser, id: nat, f: NoticeForm,
                          files: seq<UploadedFile>, keep: KeepParam, baseUrl: string, now: int, failing: set<string>)
    requires Valid(db)
    ensures Valid(UpdateNotice(db, uploads, caller, id, f, files, keep, baseUrl, now, failing).db)
  {
    var e := UpdateNotice(db, uploads, caller, id, f, files, keep, baseUrl, now, failing);
    if e.reply == Sent {
      var k := FindNotice(db.notices, id).value;
      RevisedKeepsIds(db.notices, k, e.db.notices[k], db.nextId, e.db.nextId);
    }
  }

  /** Replacing one notice by one with the same id keeps the ids distinct and below the counter. */
  lemma RevisedKeepsIds(notices: seq<Notice>, k: nat, n: Notice, nextId: nat, nextId': nat)
    requires k < |notices| && n.id == notices[k].id && nextId <= nextId'
    requires NoticeIdsFresh(notices, nextId)
    ensures NoticeIdsFresh(notices[k := n], nextId')
  {
    var r := notices[k := n];
    forall i, j | 0 <= i < j < |r|
      ensures r[i].id != r[j].id
    {
      assert r[i].id == notices[i].id && r[j].id == notices[j].id;
    }
  }

  /** The `updateNotice` handler over the mutable store and uploads directory. */
  method UpdateNoticeOn(db: Database, store: Uploads, caller: TokenUser, id: nat, f: NoticeForm,
                        files: seq<UploadedFile>, keep: KeepParam, baseUrl: string, now: int, failing: set<string>)
    returns (reply: Reply)
    modifies db, store
    ensures var e := UpdateNotice(old(db.State()), old(store.stored), caller, id, f, files, keep, baseUrl, now, failing);
      db.State() == e.db && store.stored == e.uploads && reply == e.reply
  {
    var errors := NoticeErrors(f);
    if errors != [] {
      return Invalid(errors);
    }
    if !CanPost(caller) {
      return NotAuthorized;
    }
    var found := FindNotice(db.notices, id);
    if found.None? {
      return NoticeMissing;
    }
    var k := found.value;
    var n := db.notices[k];
    if !MayChange(caller, n.author) {
      return NotAuthorized;
    }
    reply := ReviseOn(db, store, k, f, files, keep, baseUrl, now, failing);
  }

  /** The file reconciliation and the save of `updateNotice`, past its checks. */
  method ReviseOn(db: Database, store: Uploads, k: nat, f: NoticeForm, files: seq<UploadedFile>, keep: KeepParam,
                  baseUrl: string, now: int, failing: set<string>)
    returns (reply: Reply)
    requires k < |db.notices|
    modifies db, store
    ensures var e := Revise(old(db.State()), old(store.stored), k, f, files, keep, baseUrl, now, failing);
      db.State() == e.db && store.stored == e.uploads && reply == e.reply
  {
    var n := db.notices[k];
    var attachments := ReconcileOn(store, n.attachments, files, keep, db.nextId, baseUrl, failing);
    var n' := Revised(n, f, attachments, now);
    if !NoticeSchemaValid(n') {
      return ServerError;
    }
    ReplaceNoticeOn(db, k, n', |files|);
    reply := Sent;
  }

  /** The file part of `updateNotice`: the new list, and the deletions it performs. */
  method ReconcileOn(store: Uploads, stored: seq<Attachment>, files: seq<UploadedFile>, keep: KeepParam,
                     firstId: nat, baseUrl: string, failing: set<string>)
    returns (attachments: seq<Attachment>)
    modifies store
    ensures attachments == UpdatedAttachments(stored, files, keep, firstId, baseUrl)
    ensures store.stored == UpdatedUploads(old(store.stored), stored, files, keep, failing)
  {
    attachments := stored;
    if |files| > 0 {
      var added := BuildAttachments(files, firstId, baseUrl);
      var keepIds := KeepList(keep);
      store.DeleteFiles(Some(Dropped(stored, keepIds)), failing);
      attachments := Reconciled(stored, keepIds, added);
    }
  }

  /** `save()` of a changed notice that took `used` new ids. */
  method ReplaceNoticeOn(db: Database, k: nat, n: Notice, used: nat)
    requires k < |db.notices|
    modifies db
    ensures db.State() == old(db.State()).(notices := old(db.notices)[k := n], nextId := old(db.nextId) + used)
  {
    db.notices := db.notices[k := n];
    db.nextId := db.nextId + used;
  }

  // ---------------------------------------------------------------------------------------
  // Deletion
  // ---------------------------------------------------------------------------------------

  /**
   * `deleteNotice`: the lookup, the ownership check (no role check: only the token's id
   * and admin role matter), the attachments' files, then the record.
   */
  function DeleteNotice(db: Db, uploads: set<string>, caller: TokenUser, id: nat, failing: set<string>): Effect {
    match FindNotice(db.notices, id)
    case None => Effect(db, uploads, NoticeMissing)
    case Some(k) =>
      var n := db.notices[k];
      if !MayChange(caller, n.author) then Effect(db, uploads, NotAuthorized)
      else Effect(db.(notices := RemoveAt(db.notices, k)), AfterDelete(uploads, Some(n.attachments), failing), NoticeRemoved)
  }

  /**
   * A deletion by the author or an admin token removes the one notice and every file
   * its attachments name (but those whose removal fails), and nothing else; a refusal
   * changes nothing.
   */
  lemma DeleteNoticeEffect(db: Db, uploads: set<string>, caller: TokenUser, id: nat, failing: set<string>)
    requires Valid(db)
    ensures var e := DeleteNotice(db, uploads, caller, id, failing);
      (e.reply == NoticeRemoved <==>
        exists k :: 0 <= k < |db.notices| && db.notices[k].id == id && MayChange(caller, db.notices[k].author)) &&
      (e.reply != NoticeRemoved ==> e.db == db && e.uploads == uploads) &&
      (e.reply == NoticeRemoved ==>
        var k := FindNotice(db.notices, id).value;
        e.db.notices == RemoveAt(db.notices, k) &&
        (forall j :: 0 <= j < |e.db.notices| ==> e.db.notices[j].id != id) &&
        e.uploads == uploads - (Names(db.notices[k].attachments) - failing) &&
        e.db.users == db.users && e.db.requests == db.requests && e.db.events == db.events)
  {
    var e := DeleteNotice(db, uploads, caller, id, failing);
    var found := FindNotice(db.notices, id);
    if found.Some? {
      var k := found.value;
      if e.reply == NoticeRemoved {
        var r := RemoveAt(db.notices, k);
        forall j | 0 <= j < |r|
          ensures r[j].id != id
        {
          var j' := if j < k then j else j + 1;
          assert r[j] == db.notices[j'];
        }
      }
    }
  }

  /** Removing a record keeps the store invariant. */
  lemma DeleteNoticeValid(db: Db, uploads: set<string>, caller: TokenUser, id: nat, failing: set<string>)
    requires Valid(db)
    ensures Valid(DeleteNotice(db, uploads, caller, id, failing).db)
  {
    var found := FindNotice(db.notices, id);
    if found.Some? {
      RemovedKeepsIds(db.notices, found.value, db.nextId);
    }
  }

  lemma RemovedKeepsIds(notices: seq<Notice>, k: nat, nextId: nat)
    requires k < |notices| && NoticeIdsFresh(notices, nextId)
    ensures NoticeIdsFresh(RemoveAt(notices, k), nextId)
  {
    var r := RemoveAt(notices, k);
    forall i, j | 0 <= i < j < |r|
      ensures r[i].id != r[j].id
    {
      var i' := if i < k then i else i + 1;
      var j' := if j < k then j else j + 1;
      assert r[i] == notices[i'] && r[j] == notices[j'];
    }
  }

  /** The `deleteNotice` handler over the mutable store and uploads directory. */
  method DeleteNoticeOn(db: Database, store: Uploads, caller: TokenUser, id: nat, failing: set<string>)
    returns (reply: Reply)
    modifies db, store
    ensures var e := DeleteNotice(old(db.State()), old(store.stored), caller, id, failing);
      db.State() == e.db && store.stored == e.uploads && reply == e.reply
  {
    var found := FindNotice(db.notices, id);
    if found.None? {
      return NoticeMissing;
    }
    var k := found.value;
    var n := db.notices[k];
    if !MayChange(caller, n.author) {
      return NotAuthorized;
    }
    store.DeleteFiles(Some(n.attachments), failing);
    db.notices := db.notices[..k] + db.notices[k + 1..];
    reply := NoticeRemoved;
  }
}
