/**
 * The event handlers: the paginated listing with its type and date-range filters, the
 * lookup by id, and creation, update and deletion by the organizer (or by a caller whose
 * token carries the admin role). As for notices, the caller is the checked token payload
 * and the uploads directory already holds this request's uploaded files.
 */
module EventController {
  import opened Wrappers
  import opened Strings
  import opened Seqs
  import opened Http
  import opened Content
  import opened Store
  import opened AuthGate
  import opened Paging
  import opened Attachments
  import opened FileUtils
  import opened ContentRoutes
  import opened NoticeController
  import ServerConfig
  import Departments

  const EventMissing: Reply := Msg(404, "Event not found")
  const EventRemoved: Reply := Msg(200, "Event removed")

  /**
   * The query string of the listing: an empty `type` filters nothing, and the date range
   * applies only when both bounds are given (as instants).
   */
  datatype EventQuery = EventQuery(eventType: string, startDate: Option<int>, endDate: Option<int>,
                                   page: Option<nat>, limit: Option<nat>)

  /** Whether an event satisfies the listing's query object. */
  predicate EventMatches(q: EventQuery, e: Event) {
    (q.eventType == [] || e.eventType == q.eventType) &&
    (q.startDate.None? || q.endDate.None? || q.startDate.value <= e.date <= q.endDate.value)
  }

  function MatchesQuery(q: EventQuery): Event -> bool {
    (e: Event) => EventMatches(q, e)
  }

  /** `sort({ date: 1 })`. */
  function DateKey(e: Event): int {
    e.date
  }

  // ---------------------------------------------------------------------------------------
  // Reading
  // ---------------------------------------------------------------------------------------

  /** `getAllEvents`. */
  function ListEvents(db: Db, q: EventQuery): Answer<Page<Event>> {
    Paginate(SortBy(Filter(db.events, MatchesQuery(q)), DateKey), q.page, q.limit)
  }

  /** The sorted matches are stored events meeting the query, earliest first. */
  lemma SortedEvents(events: seq<Event>, q: EventQuery, sorted: seq<Event>)
    requires sorted == SortBy(Filter(events, MatchesQuery(q)), DateKey)
    ensures forall k :: 0 <= k < |sorted| ==> sorted[k] in events && EventMatches(q, sorted[k])
    ensures SortedBy(sorted, DateKey)
  {
    var matching := Filter(events, MatchesQuery(q));
    forall k | 0 <= k < |sorted|
      ensures sorted[k] in events && EventMatches(q, sorted[k])
    {
      assert sorted[k] in multiset(matching);
      var j :| 0 <= j < |matching| && matching[j] == sorted[k];
      assert MatchesQuery(q)(matching[j]);
    }
  }

  /**
   * A page holds stored events that meet the type filter and, when both bounds are given,
   * fall within the inclusive date range, earliest first; the page count is taken over
   * every matching event.
   */
  lemma ListEventsListing(db: Db, q: EventQuery)
    ensures var a := ListEvents(db, q);
      (a.Fail? <==> q.page == Some(0)) &&
      (a.Ok? ==>
        (forall k :: 0 <= k < |a.body.items| ==>
          a.body.items[k] in db.events &&
          (q.eventType != [] ==> a.body.items[k].eventType == q.eventType) &&
          (q.startDate.Some? && q.endDate.Some? ==> q.startDate.value <= a.body.items[k].date <= q.endDate.value)) &&
        (forall i, j :: 0 <= i < j < |a.body.items| ==> a.body.items[i].date <= a.body.items[j].date) &&
        (q.limit.GetOr(DefaultLimit) > 0 ==>
          a.body.totalPages == Some(CeilDiv(|Filter(db.events, MatchesQuery(q))|, q.limit.GetOr(DefaultLimit)))))
  {
    var sorted := SortBy(Filter(db.events, MatchesQuery(q)), DateKey);
    SortedEvents(db.events, q, sorted);
    var P := (e: Event) => e in db.events && EventMatches(q, e);
    PageKeeps(sorted, q.page, q.limit, P, DateKey);
  }

  /** Every stored event meeting the query is counted, whichever page shows it. */
  lemma ListEventsComplete(db: Db, q: EventQuery, j: nat)
    requires j < |db.events| && EventMatches(q, db.events[j])
    ensures db.events[j] in SortBy(Filter(db.events, MatchesQuery(q)), DateKey)
  {
    var matching := Filter(db.events, MatchesQuery(q));
    assert MatchesQuery(q)(db.events[j]);
    assert db.events[j] in multiset(matching);
  }

  /** A single date bound is ignored: the listing is the one without any bound. */
  lemma OneBoundIgnored(db: Db, q: EventQuery)
    requires q.startDate.None? || q.endDate.None?
    ensures ListEvents(db, q) == ListEvents(db, q.(startDate := None, endDate := None))
  {
    var q' := q.(startDate := None, endDate := None);
    FilterAgrees(db.events, MatchesQuery(q), MatchesQuery(q'));
  }

  /** `getEventById`: the stored event, or 404 "Event not found". */
  function GetEvent(db: Db, id: nat): (a: Answer<Event>)
    ensures a.Ok? <==> exists j :: 0 <= j < |db.events| && db.events[j].id == id
    ensures a.Ok? ==> a.body in db.events && a.body.id == id
    ensures a.Fail? ==> a.reply == EventMissing
  {
    match FindEvent(db.events, id)
    case None => Fail(EventMissing)
    case Some(k) => Ok(db.events[k])
  }

  // ---------------------------------------------------------------------------------------
  // Creation
  // ---------------------------------------------------------------------------------------

  /** The event `createEvent` saves, its attachments numbered after its own id. */
  function Planned(db: Db, caller: TokenUser, f: EventForm, files: seq<UploadedFile>, baseUrl: string, now: int): Event
    requires f.date.Some?
  {
    NewEvent(db.nextId, f.title, f.description, f.date.value, f.startTime, f.endTime, f.location, caller.id,
             f.department, f.eventType, Uploaded(files, db.nextId + 1, baseUrl), now)
  }

  /** `createEvent`: validation, the role check, then `save()` under the schema. */
  function CreateEvent(db: Db, caller: TokenUser, f: EventForm, files: seq<UploadedFile>, baseUrl: string, now: int): Outcome {
    var errors := EventErrors(f);
    if errors != [] then Outcome(db, Invalid(errors))
    else if !CanPost(caller) then Outcome(db, NotAuthorized)
    else
      var e := Planned(db, caller, f, files, baseUrl, now);
      if !EventSchemaValid(e) then Outcome(db, ServerError)
      else Outcome(db.(events := db.events + [e], nextId := db.nextId + 1 + |files|), Created)
  }

  /**
   * Creation succeeds exactly for a form that passes the validators, from a faculty or
   * admin caller, whose title is not all white space and whose department the schema
   * lists; validation comes before the role; a refusal changes nothing.
   */
  lemma CreateEventOutcomes(db: Db, caller: TokenUser, f: EventForm, files: seq<UploadedFile>, baseUrl: string, now: int)
    ensures var o := CreateEvent(db, caller, f, files, baseUrl, now);
      (o.reply == Created <==>
        (EventErrors(f) == [] && CanPost(caller) && Trim(f.title) != [] &&
         f.department in Departments.ContentDepartments)) &&
      (o.reply.status == 400 <==> EventErrors(f) != []) &&
      (o.reply == NotAuthorized <==> EventErrors(f) == [] && !CanPost(caller)) &&
      (o.reply != Created ==> o.db == db)
  {
    if EventErrors(f) == [] {
      assert IsClockTime(f.startTime) && IsClockTime(f.endTime);
      ClockTimeNotEmpty(f.startTime);
      ClockTimeNotEmpty(f.endTime);
    }
  }

  /** A time the validator accepts is never empty, so the schema's `required` holds. */
  lemma ClockTimeNotEmpty(s: string)
    requires IsClockTime(s)
    ensures s != []
  {
  }

  /**
   * A created event is appended under the next id, with the caller as organizer, the
   * form's fields (the title trimmed), one attachment per upload in upload order, and
   * the save instant twice.
   */
  lemma CreateEventEffect(db: Db, caller: TokenUser, f: EventForm, files: seq<UploadedFile>, baseUrl: string, now: int)
    ensures var o := CreateEvent(db, caller, f, files, baseUrl, now);
      o.reply == Created ==>
        |o.db.events| == |db.events| + 1 && o.db.events[..|db.events|] == db.events &&
        var e := o.db.events[|db.events|];
        e.id == db.nextId && e.organizer == caller.id && e.title == Trim(f.title) &&
        e.description == f.description && Some(e.date) == f.date && e.startTime == f.startTime &&
        e.endTime == f.endTime && e.location == f.location && e.department == f.department &&
        Some(e.eventType) == f.eventType && e.createdAt == now && e.updatedAt == now &&
        |e.attachments| == |files| &&
        (forall k :: 0 <= k < |files| ==>
          e.attachments[k].filename == files[k].originalname &&
          e.attachments[k].url == ServerConfig.GetFullUrl(baseUrl, "uploads/" + files[k].filename)) &&
        o.db.users == db.users && o.db.requests == db.requests && o.db.notices == db.notices
  {
    var o := CreateEvent(db, caller, f, files, baseUrl, now);
    if o.reply == Created {
      assert o.db.events == db.events + [Planned(db, caller, f, files, baseUrl, now)];
    }
  }

  lemma CreateEventValid(db: Db, caller: TokenUser, f: EventForm, files: seq<UploadedFile>, baseUrl: string, now: int)
    requires Valid(db)
    ensures Valid(CreateEvent(db, caller, f, files, baseUrl, now).db)
  {
  }

  /** The `createEvent` handler over the mutable store, with the attachment loop. */
  method CreateEventOn(db: Database, caller: TokenUser, f: EventForm, files: seq<UploadedFile>, baseUrl: string, now: int)
    returns (reply: Reply)
    modifies db
    ensures var o := CreateEvent(old(db.State()), caller, f, files, baseUrl, now);
      db.State() == o.db && reply == o.reply
  {
    ghost var before := db.State();
    var errors := EventErrors(f);
    if errors != [] || !CanPost(caller) {
      return if errors != [] then Invalid(errors) else NotAuthorized;
    }
    var attachments := BuildAttachments(files, db.nextId + 1, baseUrl);
    var e := NewEvent(db.nextId, f.title, f.description, f.date.value, f.startTime, f.endTime, f.location, caller.id,
                      f.department, f.eventType, attachments, now);
    assert e == Planned(before, caller, f, files, baseUrl, now);
    if !EventSchemaValid(e) {
      return ServerError;
    }
    AppendEventOn(db, e, 1 + |files|);
    reply := Created;
  }

  /** `save()` of a new event that took `used` ids. */
  method AppendEventOn(db: Database, e: Event, used: nat)
    modifies db
    ensures db.State() == old(db.State()).(events := old(db.events) + [e], nextId := old(db.nextId) + used)
  {
    db.events := db.events + [e];
    db.nextId := db.nextId + used;
  }

  // ---------------------------------------------------------------------------------------
  // Update
  // ---------------------------------------------------------------------------------------

  /** The event as `updateEvent` saves it: all eight fields overwritten, the hook's `updatedAt`. */
  function Rescheduled(e: Event, f: EventForm, attachments: seq<Attachment>, now: int): Event
    requires f.date.Some?
  {
    e.(title := Trim(f.title), description := f.description, date := f.date.value, startTime := f.startTime,
       endTime := f.endTime, location := f.location, eventType := f.eventType.GetOr(DefaultEventType),
       department := f.department, attachments := attachments, updatedAt := now)
  }

  /** `updateEvent`: validation, role, lookup, ownership, then the shared reconciliation and the save. */
  function UpdateEvent(db: Db, uploads: set<string>, caller: TokenUser, id: nat, f: EventForm,
                       files: seq<UploadedFile>, keep: KeepParam, baseUrl: string, now: int, failing: set<string>): Effect {
    var errors := EventErrors(f);
    if errors != [] then Effect(db, uploads, Invalid(errors))
    else if !CanPost(caller) then Effect(db, uploads, NotAuthorized)
    else match FindEvent(db.events, id)
      case None => Effect(db, uploads, EventMissing)
      case Some(k) =>
        if !MayChange(caller, db.events[k].organizer) then Effect(db, uploads, NotAuthorized)
        else Reschedule(db, uploads, k, f, files, keep, baseUrl, now, failing)
  }

  /** The authorised part of `updateEvent` on the event at index `k`. */
  function Reschedule(db: Db, uploads: set<string>, k: nat, f: EventForm, files: seq<UploadedFile>, keep: KeepParam,
                      baseUrl: string, now: int, failing: set<string>): Effect
    requires k < |db.events| && f.date.Some?
  {
    var e := db.events[k];
    var after := UpdatedUploads(uploads, e.attachments, files, keep, failing);
    var e' := Rescheduled(e, f, UpdatedAttachments(e.attachments, files, keep, db.nextId, baseUrl), now);
    if !EventSchemaValid(e') then Effect(db, after, ServerError)
    else Effect(db.(events := db.events[k := e'], nextId := db.nextId + |files|), after, Sent)
  }

  /** The checks come in the order validation, role, existence, ownership; a refusal changes nothing. */
  lemma UpdateEventRefusals(db: Db, uploads: set<string>, caller: TokenUser, id: nat, f: EventForm,
                            files: seq<UploadedFile>, keep: KeepParam, baseUrl: string, now: int, failing: set<string>)
    ensures var e := UpdateEvent(db, uploads, caller, id, f, files, keep, baseUrl, now, failing);
      var found := FindEvent(db.events, id);
      (e.reply.status == 400 <==> EventErrors(f) != []) &&
      (EventErrors(f) == [] && !CanPost(caller) ==> e.reply == NotAuthorized) &&
      (e.reply == EventMissing <==> EventErrors(f) == [] && CanPost(caller) && found.None?) &&
      (EventErrors(f) == [] && CanPost(caller) && found.Some? && !MayChange(caller, db.events[found.value].organizer) ==>
        e.reply == NotAuthorized) &&
      (e.reply.status in {400, 403, 404} ==> e.db == db && e.uploads == uploads)
  {
  }

  /**
   * A saved update keeps the event's id, organizer and creation instant and its place,
   * overwrites all eight form fields, sets `updatedAt`, and touches no other record.
   */
  lemma UpdateEventEffect(db: Db, uploads: set<string>, caller: TokenUser, id: nat, f: EventForm,
                          files: seq<UploadedFile>, keep: KeepParam, baseUrl: string, now: int, failing: set<string>)
    ensures var e := UpdateEvent(db, uploads, caller, id, f, files, keep, baseUrl, now, failing);
      e.reply == Sent ==>
        FindEvent(db.events, id).Some? &&
        var k := FindEvent(db.events, id).value;
        var n := e.db.events[k];
        |e.db.events| == |db.events| &&
        (forall j :: 0 <= j < |db.events| && j != k ==> e.db.events[j] == db.events[j]) &&
        n.id == id && n.organizer == db.events[k].organizer && n.createdAt == db.events[k].createdAt &&
        n.updatedAt == now && n.title == Trim(f.title) && n.description == f.description &&
        Some(n.date) == f.date && n.startTime == f.startTime && n.endTime == f.endTime &&
        n.location == f.location && Some(n.eventType) == f.eventType && n.department == f.department &&
        e.db.users == db.users && e.db.requests == db.requests && e.db.notices == db.notices
  {
    var e := UpdateEvent(db, uploads, caller, id, f, files, keep, baseUrl, now, failing);
    if e.reply == Sent {
      var k := FindEvent(db.events, id).value;
      var ev := db.events[k];
      var e' := Rescheduled(ev, f, UpdatedAttachments(ev.attachments, files, keep, db.nextId, baseUrl), now);
      assert e.db.events == db.events[k := e'];
    }
  }

  /**
   * An update with uploads keeps the listed stored attachments followed by the new ones
   * and hands the others to `deleteFiles`, whether or not the save then succeeds;
   * without uploads, the list and the directory stay as they are.
   */
  lemma UpdateEventAttachments(db: Db, uploads: set<string>, caller: TokenUser, k: nat, f: EventForm,
                               files: seq<UploadedFile>, keep: KeepParam, baseUrl: string, now: int, failing: set<string>)
    requires Valid(db) && k < |db.events|
    requires EventErrors(f) == [] && CanPost(caller) && MayChange(caller, db.events[k].organizer)
    ensures var e := UpdateEvent(db, uploads, caller, db.events[k].id, f, files, keep, baseUrl, now, failing);
      var stored := db.events[k].attachments;
      var keepIds := KeepList(keep);
      |e.db.events| == |db.events| &&
      (files != [] ==> e.uploads == AfterDelete(uploads, Some(Dropped(stored, keepIds)), failing)) &&
      (files == [] ==> e.uploads == uploads) &&
      (e.reply == Sent ==>
        e.db.events[k].attachments ==
          (if files == [] then stored else Kept(stored, keepIds) + Uploaded(files, db.nextId, baseUrl)))
  {
    EventIdsUnique(db, db.events[k].id, k);
    var e := UpdateEvent(db, uploads, caller, db.events[k].id, f, files, keep, baseUrl, now, failing);
    assert e == Reschedule(db, uploads, k, f, files, keep, baseUrl, now, failing);
  }

  lemma EventIdsUnique(db: Db, id: nat, k: nat)
    requires k < |db.events| && db.events[k].id == id
    ensures FindEvent(db.events, id).Some?
    ensures (forall i, j :: 0 <= i < j < |db.events| ==> db.events[i].id != db.events[j].id) ==>
      FindEvent(db.events, id) == Some(k)
  {
  }

  lemma UpdateEventValid(db: Db, uploads: set<string>, caller: TokenUser, id: nat, f: EventForm,
                         files: seq<UploadedFile>, keep: KeepParam, baseUrl: string, now: int, failing: set<string>)
    requires Valid(db)
    ensures Valid(UpdateEvent(db, uploads, caller, id, f, files, keep, baseUrl, now, failing).db)
  {
    var e := UpdateEvent(db, uploads, caller, id, f, files, keep, baseUrl, now, failing);
    if e.reply == Sent {
      var k := FindEvent(db.events, id).value;
      RescheduledKeepsIds(db.events, k, e.db.events[k], db.nextId, e.db.nextId);
    }
  }

  lemma RescheduledKeepsIds(events: seq<Event>, k: nat, e: Event, nextId: nat, nextId': nat)
    requires k < |events| && e.id == events[k].id && nextId <= nextId'
    requires EventIdsFresh(events, nextId)
    ensures EventIdsFresh(events[k := e], nextId')
  {
    var r := events[k := e];
    forall i, j | 0 <= i < j < |r|
      ensures r[i].id != r[j].id
    {
      assert r[i].id == events[i].id && r[j].id == events[j].id;
    }
  }

  /** The `updateEvent` handler over the mutable store and uploads directory. */
  method UpdateEventOn(db: Database, store: Uploads, caller: TokenUser, id: nat, f: EventForm,
                       files: seq<UploadedFile>, keep: KeepParam, baseUrl: string, now: int, failing: set<string>)
    returns (reply: Reply)
    modifies db, store
    ensures var e := UpdateEvent(old(db.State()), old(store.stored), caller, id, f, files, keep, baseUrl, now, failing);
      db.State() == e.db && store.stored == e.uploads && reply == e.reply
  {
    var errors := EventErrors(f);
    if errors != [] {
      return Invalid(errors);
    }
    if !CanPost(caller) {
      return NotAuthorized;
    }
    var found := FindEvent(db.events, id);
    if found.None? {
      return EventMissing;
    }
    var k := found.value;
    if !MayChange(caller, db.events[k].organizer) {
      return NotAuthorized;
    }
    reply := RescheduleOn(db, store, k, f, files, keep, baseUrl, now, failing);
  }

  method RescheduleOn(db: Database, store: Uploads, k: nat, f: EventForm, files: seq<UploadedFile>, keep: KeepParam,
                      baseUrl: string, now: int, failing: set<string>)
    returns (reply: Reply)
    requires k < |db.events| && f.date.Some?
    modifies db, store
    ensures var e := Reschedule(old(db.State()), old(store.stored), k, f, files, keep, baseUrl, now, failing);
      db.State() == e.db && store.stored == e.uploads && reply == e.reply
  {
    var ev := db.events[k];
    var attachments := ReconcileOn(store, ev.attachments, files, keep, db.nextId, baseUrl, failing);
    var e' := Rescheduled(ev, f, attachments, now);
    if !EventSchemaValid(e') {
      return ServerError;
    }
    ReplaceEventOn(db, k, e', |files|);
    reply := Sent;
  }

  method ReplaceEventOn(db: Database, k: nat, e: Event, used: nat)
    requires k < |db.events|
    modifies db
    ensures db.State() == old(db.State()).(events := old(db.events)[k := e], nextId := old(db.nextId) + used)
  {
    db.events := db.events[k := e];
    db.nextId := db.nextId + used;
  }

  // ---------------------------------------------------------------------------------------
  // Deletion
  // ---------------------------------------------------------------------------------------

  /** `deleteEvent`: the lookup, the ownership check, the attachments' files, then the record. */
  function DeleteEvent(db: Db, uploads: set<string>, caller: TokenUser, id: nat, failing: set<string>): Effect {
    match FindEvent(db.events, id)
    case None => Effect(db, uploads, EventMissing)
    case Some(k) =>
      var e := db.events[k];
      if !MayChange(caller, e.organizer) then Effect(db, uploads, NotAuthorized)
      else Effect(db.(events := RemoveAt(db.events, k)), AfterDelete(uploads, Some(e.attachments), failing), EventRemoved)
  }

  /**
   * A deletion by the organizer or an admin token removes the one event and the files its
   * attachments name (but those whose removal fails), and nothing else; a refusal
   * changes nothing.
   */
  lemma DeleteEventEffect(db: Db, uploads: set<string>, caller: TokenUser, id: nat, failing: set<string>)
    requires Valid(db)
    ensures var e := DeleteEvent(db, uploads, caller, id, failing);
      (e.reply == EventRemoved <==>
        exists k :: 0 <= k < |db.events| && db.events[k].id == id && MayChange(caller, db.events[k].organizer)) &&
      (e.reply != EventRemoved ==> e.db == db && e.uploads == uploads) &&
      (e.reply == EventRemoved ==>
        var k := FindEvent(db.events, id).value;
        e.db.events == RemoveAt(db.events, k) &&
        (forall j :: 0 <= j < |e.db.events| ==> e.db.events[j].id != id) &&
        e.uploads == uploads - (Names(db.events[k].attachments) - failing) &&
        e.db.users == db.users && e.db.requests == db.requests && e.db.notices == db.notices)
  {
    var e := DeleteEvent(db, uploads, caller, id, failing);
    var found := FindEvent(db.events, id);
    if found.Some? && e.reply == EventRemoved {
      var k := found.value;
      var r := RemoveAt(db.events, k);
      forall j | 0 <= j < |r|
        ensures r[j].id != id
      {
        var j' := if j < k then j else j + 1;
        assert r[j] == db.events[j'];
      }
    }
  }

  lemma DeleteEventValid(db: Db, uploads: set<string>, caller: TokenUser, id: nat, failing: set<string>)
    requires Valid(db)
    ensures Valid(DeleteEvent(db, uploads, caller, id, failing).db)
  {
    var found := FindEvent(db.events, id);
    if found.Some? {
      var k := found.value;
      var r := RemoveAt(db.events, k);
      forall i, j | 0 <= i < j < |r|
        ensures r[i].id != r[j].id
      {
        var i' := if i < k then i else i + 1;
        var j' := if j < k then j else j + 1;
        assert r[i] == db.events[i'] && r[j] == db.events[j'];
      }
    }
  }

  /** A caller whose token does not say admin can change or delete only the events it organizes. */
  lemma OthersEventsNeedAdminToken(db: Db, uploads: set<string>, caller: TokenUser, id: nat, f: EventForm,
                                   files: seq<UploadedFile>, keep: KeepParam, baseUrl: string, now: int, failing: set<string>)
    requires caller.role != AdminRole
    ensures forall k :: 0 <= k < |db.events| && FindEvent(db.events, id) == Some(k) && db.events[k].organizer != caller.id ==>
      UpdateEvent(db, uploads, caller, id, f, files, keep, baseUrl, now, failing).reply.status != 200 &&
      DeleteEvent(db, uploads, caller, id, failing).reply.status != 200
  {
  }

  /** The `deleteEvent` handler over the mutable store and uploads directory. */
  method DeleteEventOn(db: Database, store: Uploads, caller: TokenUser, id: nat, failing: set<string>)
    returns (reply: Reply)
    modifies db, store
    ensures var e := DeleteEvent(old(db.State()), old(store.stored), caller, id, failing);
      db.State() == e.db && store.stored == e.uploads && reply == e.reply
  {
    var found := FindEvent(db.events, id);
    if found.None? {
      return EventMissing;
    }
    var k := found.value;
    var e := db.events[k];
    if !MayChange(caller, e.organizer) {
      return NotAuthorized;
    }
    store.DeleteFiles(Some(e.attachments), failing);
    db.events := db.events[..k] + db.events[k + 1..];
    reply := EventRemoved;
  }
}
