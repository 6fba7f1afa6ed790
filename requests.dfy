/** Faculty verification requests: the queue an administrator works through to approve faculty. */
module VerificationRequests {
  import opened Wrappers

  datatype Status = Pending | Approved | Rejected

  /** The model name the schema gives as the target of a request's `faculty` reference. */
  const FacultyRef: string := "Faculty"

  /** `faculty` is the id of the faculty record the request is about (a required reference). */
  datatype Request = Request(
    id: nat,
    faculty: nat,
    notes: string,
    documents: seq<string>,
    status: Status,
    createdAt: int)

  /**
   * A request as saved with the schema defaults: notes default to the empty string, no
   * documents, status pending, created now.
   */
  function NewRequest(id: nat, faculty: nat, notes: Option<string>, status: Option<Status>, now: int): (r: Request)
    ensures r.id == id && r.faculty == faculty && r.documents == [] && r.createdAt == now
    ensures r.notes == (if notes.Some? then notes.value else "")
    ensures r.status == (if status.Some? then status.value else Pending)
  {
    Request(id, faculty, notes.GetOr(""), [], status.GetOr(Pending), now)
  }
}
