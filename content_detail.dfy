/**
 * The notice and event detail pages: who is offered the edit and delete buttons, the icon
 * shown for each attachment, and where a delete leads. Both pages share this logic, the notice
 * page comparing with the notice's author and the event page with the event's organizer.
 */
module ContentDetail {
  import opened Wrappers
  import opened Strings
  import opened AuthGate
  import opened Accounts
  import opened AuthRoutes
  import opened Session
  import NoticeController

  /**
   * The owner shown with a loaded item: `None` for an item not loaded yet, `Some(None)` for a
   * loaded item whose author or organizer is missing, `Some(Some(id))` otherwise.
   */
  type Owner = Option<Option<nat>>

  /** canEditOrDelete as written: the owner's `_id` is compared with the user's `id`. */
  function CanEditOrDeleteAsWritten(user: Option<ClientUser>, item: Owner): bool {
    if user.None? || item.None? then false
    else if user.value.role == "admin" then true
    else user.value.role == "faculty" && item.value.Some? && user.value.id == Some(item.value.value)
  }

  /** canEditOrDelete as intended: the owner's `_id` is compared with the user's own `_id`. */
  function CanEditOrDelete(user: Option<ClientUser>, item: Owner): (b: bool)
    ensures user.None? || item.None? ==> !b
    ensures user.Some? && item.Some? && user.value.role == "admin" ==> b
    ensures b <==> (
      && user.Some? && item.Some?
      && (user.value.role == "admin" || (user.value.role == "faculty" && item.value == Some(user.value.docId))))
  {
    if user.None? || item.None? then false
    else if user.value.role == "admin" then true
    else user.value.role == "faculty" && item.value == Some(user.value.docId)
  }

  /**
   * Finding: a faculty member signed in through the profile endpoint is never offered the
   * buttons on their own notice or event, since the profile body has no `id`; the intended
   * check offers them, as the server would accept the change.
   */
  lemma OwnerRefusedAsWritten(b: MeBody)
    requires b.role == FacultyRole
    ensures var u := Received(b);
      !CanEditOrDeleteAsWritten(Some(u), Some(Some(b.account.id)))
      && CanEditOrDelete(Some(u), Some(Some(b.account.id)))
      && NoticeController.MayChange(TokenUser(b.account.id, b.role, b.isAdmin), b.account.id)
  {
  }

  /**
   * For a faculty member signed in with a token, the intended check offers the buttons exactly
   * on the items the update and delete handlers would let that caller change.
   */
  lemma AgreesWithServer(users: seq<User>, token: Token, owner: nat)
    requires Me(users, token).body.Some?
    requires token.Decoded? && token.payload.role == FacultyRole
    ensures CanEditOrDelete(Some(Received(Me(users, token).body.value)), Some(Some(owner)))
      <==> NoticeController.MayChange(token.payload, owner)
  {
    ReceivedDescribesToken(users, token);
  }

  /** A student is never offered the buttons, whatever they own. */
  lemma StudentsNeverOffered(u: ClientUser, item: Owner)
    requires u.role == "student"
    ensures !CanEditOrDelete(Some(u), item) && !CanEditOrDeleteAsWritten(Some(u), item)
  {
  }

  // ---------------------------------------------------------------------------------------------
  // Icons

  datatype Icon = ImageIcon | PdfIcon | DocumentIcon | GenericFileIcon

  const ImageExtensions: seq<string> := ["jpg", "jpeg", "png", "gif", "bmp", "svg"]
  const DocumentExtensions: seq<string> := ["doc", "docx", "txt", "rtf"]

  /** `filename.split('.').pop().toLowerCase()`. */
  function Extension(filename: string): (ext: string)
    ensures '.' !in ext
    ensures |ext| <= |filename|
  {
    Lower(LastSegment(filename, '.'))
  }

  /** The icon of a lowercased extension. */
  function IconOfExtension(ext: string): Icon {
    if ext in ImageExtensions then ImageIcon
    else if ext == "pdf" then PdfIcon
    else if ext in DocumentExtensions then DocumentIcon
    else GenericFileIcon
  }

  /** getFileIcon of both detail pages: by lowercased extension. */
  function ExtensionIcon(filename: string): Icon {
    IconOfExtension(Extension(filename))
  }

  /**
   * Only the text after the last dot decides, whatever comes before it, and its case does not
   * matter: `NOTES.PDF` and `notes.pdf` show the same icon.
   */
  lemma IconByLastSegment(stem: string, ext: string)
    requires '.' !in ext
    ensures ExtensionIcon(stem + "." + ext) == IconOfExtension(Lower(ext))
    ensures ExtensionIcon(stem + "." + ext) == ExtensionIcon(stem + "." + Lower(ext))
  {
    LastSegmentAfterDot(stem, ext);
    assert '.' !in Lower(ext);
    LastSegmentAfterDot(stem, Lower(ext));
    LowerTwice(ext);
  }

  lemma LowerTwice(s: string)
    ensures Lower(Lower(s)) == Lower(s)
  {
  }

  lemma {:induction false} LastSegmentAfterDot(stem: string, ext: string)
    requires '.' !in ext
    ensures LastSegment(stem + "." + ext, '.') == LastSegment(ext, '.') == ext
  {
    if ext == [] {
      assert (stem + "." + ext) == stem + ".";
    } else {
      var last := ext[|ext| - 1];
      var init := ext[..|ext| - 1];
      assert '.' !in init;
      assert ext == init + [last];
      assert stem + "." + ext == (stem + "." + init) + [last];
      assert (stem + "." + ext)[..|stem + "." + ext| - 1] == stem + "." + init;
      LastSegmentAfterDot(stem, init);
    }
  }

  // ---------------------------------------------------------------------------------------------
  // Deleting

  datatype Kind = NoticePage | EventPage

  /** What the page shows after handleDelete. */
  datatype AfterDelete = Navigate(path: string) | Stay(error: string, dialogOpen: bool)

  /** A deleted item leads back to its list; a failure shows an error and closes the dialog. */
  function DeleteOutcome(kind: Kind, succeeded: bool): (r: AfterDelete)
    ensures succeeded <==> r.Navigate?
    ensures r.Stay? ==> !r.dialogOpen && r.error != ""
  {
    match (kind, succeeded)
    case (NoticePage, true) => Navigate("/notices")
    case (EventPage, true) => Navigate("/events")
    case (NoticePage, false) => Stay("Failed to delete notice. Please try again.", false)
    case (EventPage, false) => Stay("Failed to delete event. Please try again.", false)
  }
}
