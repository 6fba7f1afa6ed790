/**
 * Notice and event records: their fields, the enumerations the schemas accept, the
 * defaults, and the hook that refreshes `updatedAt` on every save.
 */
module Content {
  import opened Wrappers
  import opened Strings
  import Departments

  /** A stored upload: the original file name and the public URL of the stored copy. */
  datatype Attachment = Attachment(id: nat, filename: string, url: string)

  const NoticeTypes: seq<string> := ["general", "academic", "event"]
  const DefaultNoticeType: string := "general"

  const EventTypes: seq<string> := ["academic", "cultural", "sports", "other"]
  const DefaultEventType: string := "academic"

  datatype Notice = Notice(
    id: nat,
    title: string,
    content: string,
    noticeType: string,
    department: string,
    author: nat,
    attachments: seq<Attachment>,
    createdAt: int,
    updatedAt: int)

  /** `date` is an instant in milliseconds; times of day are kept as the submitted text. */
  datatype Event = Event(
    id: nat,
    title: string,
    description: string,
    date: int,
    startTime: string,
    endTime: string,
    location: string,
    organizer: nat,
    department: string,
    eventType: string,
    attachments: seq<Attachment>,
    createdAt: int,
    updatedAt: int)

  /** The schema validators of a notice: required fields present, enumerations respected. */
  predicate NoticeSchemaValid(n: Notice) {
    n.title != [] && n.content != [] && n.noticeType in NoticeTypes &&
    n.department in Departments.ContentDepartments
  }

  predicate EventSchemaValid(e: Event) {
    e.title != [] && e.description != [] && e.startTime != [] && e.endTime != [] &&
    e.location != [] && e.department in Departments.ContentDepartments && e.eventType in EventTypes
  }

  /**
   * A notice as first saved: the title trimmed by its setter, a missing type replaced by the
   * default, both timestamps set to the save instant. It passes the schema exactly when the
   * trimmed title and the content are non-empty, a given type is one of the three and the
   * department one of the list: a missing type never causes a refusal.
   */
  function NewNotice(id: nat, title: string, content: string, noticeType: Option<string>, department: string,
                     author: nat, attachments: seq<Attachment>, now: int): (n: Notice)
    ensures n.noticeType == (if noticeType.Some? then noticeType.value else DefaultNoticeType)
    ensures n.title == Trim(title) && n.createdAt == now && n.updatedAt == now
    ensures NoticeSchemaValid(n) <==>
      Trim(title) != [] && content != [] && (noticeType.None? || noticeType.value in NoticeTypes) &&
      department in Departments.ContentDepartments
  {
    Notice(id, Trim(title), content, noticeType.GetOr(DefaultNoticeType), department, author, attachments, now, now)
  }

  /**
   * An event as first saved, like a notice. It passes the schema exactly when the trimmed
   * title and the required texts are non-empty, the department is one of the list and a
   * given type is one of the four.
   */
  function NewEvent(id: nat, title: string, description: string, date: int, startTime: string, endTime: string,
                    location: string, organizer: nat, department: string, eventType: Option<string>,
                    attachments: seq<Attachment>, now: int): (e: Event)
    ensures e.eventType == (if eventType.Some? then eventType.value else DefaultEventType)
    ensures e.title == Trim(title) && e.createdAt == now && e.updatedAt == now
    ensures EventSchemaValid(e) <==>
      Trim(title) != [] && description != [] && startTime != [] && endTime != [] && location != [] &&
      department in Departments.ContentDepartments && (eventType.None? || eventType.value in EventTypes)
  {
    Event(id, Trim(title), description, date, startTime, endTime, location, organizer, department,
          eventType.GetOr(DefaultEventType), attachments, now, now)
  }
}
