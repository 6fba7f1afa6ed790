/**
 * The notice composer: the form it starts with, the attachments it admits (at most two, none
 * larger than 5 MiB), the icon it shows per attachment, and the multipart body it posts.
 * The browser's alert dialogs and the timed redirect after success are left out.
 */
module CreateNotice {
  import opened Wrappers
  import opened Strings
  import opened Seqs
  import opened Content
  import opened Departments
  import ContentRoutes

  /** A file picked in the browser: its name, size in bytes and MIME type. */
  datatype LocalFile = LocalFile(name: string, size: nat, mimeType: string)

  const MaxAttachments: nat := 2
  const MaxFileSize: nat := 5 * 1024 * 1024

  /** The form state; the reset after success leaves out the audience and the expiry date. */
  datatype Draft = Draft(title: string, content: string, noticeType: string,
                         targetAudience: Option<string>, department: string, expiryDate: Option<string>)

  const InitialDraft := Draft("", "", DefaultNoticeType, Some("all"), AllDepartments, Some(""))
  const ResetDraft := Draft("", "", DefaultNoticeType, None, AllDepartments, None)

  // ---------------------------------------------------------------------------------------------
  // Admission of picked files

  /** The verdict on a batch of picked files; an oversized batch names its oversized files. */
  datatype Admission = Admitted | TooMany | Oversized(names: seq<string>)

  function NameOf(f: LocalFile): string {
    f.name
  }

  predicate IsOversized(f: LocalFile) {
    f.size > MaxFileSize
  }

  function OversizedNames(files: seq<LocalFile>): (names: seq<string>)
    ensures |names| <= |files|
    ensures names == [] <==> forall j :: 0 <= j < |files| ==> !IsOversized(files[j])
  {
    if files == [] then []
    else
      var rest := OversizedNames(files[1..]);
      assert forall j :: 1 <= j < |files| ==> files[j] == files[1..][j - 1];
      (if IsOversized(files[0]) then [files[0].name] else []) + rest
  }

  /** The count is checked first, then the sizes; a batch is only ever taken whole. */
  function Admit(current: nat, files: seq<LocalFile>): (a: Admission)
    ensures a == TooMany <==> current + |files| > MaxAttachments
    ensures a == Admitted <==>
      current + |files| <= MaxAttachments && forall j :: 0 <= j < |files| ==> !IsOversized(files[j])
    ensures a.Oversized? ==> a.names != [] && a.names == OversizedNames(files)
  {
    if current + |files| > MaxAttachments then TooMany
    else
      var big := OversizedNames(files);
      if big != [] then Oversized(big) else Admitted
  }

  /** The attachment list after a batch is picked: the batch appended in order, or no change. */
  function AfterPick(attachments: seq<LocalFile>, files: seq<LocalFile>): seq<LocalFile> {
    if Admit(|attachments|, files) == Admitted then attachments + files else attachments
  }

  /** `attachments.filter((_, i) => i !== index)`. */
  function DropIndex(s: seq<LocalFile>, index: int): seq<LocalFile> {
    if s == [] then []
    else (if index == 0 then [] else [s[0]]) + DropIndex(s[1..], index - 1)
  }

  /** Removing index i takes out exactly that element; an index outside the list changes nothing. */
  lemma {:induction false} DropIndexEffect(s: seq<LocalFile>, index: int)
    ensures 0 <= index < |s| ==> DropIndex(s, index) == s[..index] + s[index + 1..]
    ensures !(0 <= index < |s|) ==> DropIndex(s, index) == s
  {
    if s != [] {
      DropIndexEffect(s[1..], index - 1);
      if 0 < index < |s| {
        assert s[1..][..index - 1] == s[1..index];
        assert s[1..][index..] == s[index + 1..];
        assert s[..index] == [s[0]] + s[1..index];
      } else if index == 0 {
        assert s[1..] == s[index + 1..];
      } else {
        assert s == [s[0]] + s[1..];
      }
    }
  }

  /** What the composer holds: never more than two files, none of them oversized. */
  predicate AttachmentsOk(s: seq<LocalFile>) {
    |s| <= MaxAttachments && forall j :: 0 <= j < |s| ==> !IsOversized(s[j])
  }

  /** Picking files keeps the attachments admissible. */
  lemma PickKeepsOk(attachments: seq<LocalFile>, files: seq<LocalFile>)
    requires AttachmentsOk(attachments)
    ensures AttachmentsOk(AfterPick(attachments, files))
    ensures Admit(|attachments|, files) == Admitted ==> AfterPick(attachments, files)[|attachments|..] == files
    ensures Admit(|attachments|, files) != Admitted ==> AfterPick(attachments, files) == attachments
  {
    if Admit(|attachments|, files) == Admitted {
      var r := attachments + files;
      assert forall j :: |attachments| <= j < |r| ==> r[j] == files[j - |attachments|];
    }
  }

  /** Removing an attachment keeps the attachments admissible. */
  lemma RemoveKeepsOk(attachments: seq<LocalFile>, index: int)
    requires AttachmentsOk(attachments)
    ensures AttachmentsOk(DropIndex(attachments, index))
  {
    DropIndexEffect(attachments, index);
    if 0 <= index < |attachments| {
      var r := DropIndex(attachments, index);
      assert forall j :: 0 <= j < |r| ==> r[j] == attachments[if j < index then j else j + 1];
    }
  }

  /** The composer's cap on files is the cap of the create route. */
  lemma CapMatchesRoute()
    ensures MaxAttachments == ContentRoutes.UploadCap(ContentRoutes.Notices, ContentRoutes.Post)
  {
  }

  // ---------------------------------------------------------------------------------------------
  // Icons

  datatype Icon = ImageIcon | PdfIcon | DocumentIcon | GenericFileIcon

  /** getFileIcon of the composer: by MIME type. */
  function MimeIcon(mimeType: string): Icon {
    if StartsWith(mimeType, "image/") then ImageIcon
    else if mimeType == "application/pdf" then PdfIcon
    else if Contains(mimeType, "word") || Contains(mimeType, "document") then DocumentIcon
    else GenericFileIcon
  }

  /** Any `image/` type shows the image icon, and each icon is chosen by its own test. */
  lemma MimeIconCases(mimeType: string)
    ensures MimeIcon(mimeType) == ImageIcon <==> StartsWith(mimeType, "image/")
    ensures MimeIcon(mimeType) == PdfIcon <==> mimeType == "application/pdf"
    ensures MimeIcon(mimeType) == DocumentIcon <==>
      !StartsWith(mimeType, "image/") && mimeType != "application/pdf"
      && (Contains(mimeType, "word") || Contains(mimeType, "document"))
  {
    if mimeType == "application/pdf" {
      assert mimeType[..6] == "applic";
    }
  }

  // ---------------------------------------------------------------------------------------------
  // The posted body

  /** One part of a multipart body: a text field or a file. */
  datatype Part = Field(name: string, value: string) | FilePart(name: string, file: LocalFile)

  function AttachmentPart(f: LocalFile): Part {
    FilePart("attachments", f)
  }

  /** One `attachments` part per file, in order. */
  function FileParts(files: seq<LocalFile>): seq<Part> {
    seq(|files|, j requires 0 <= j < |files| => AttachmentPart(files[j]))
  }

  /** The body the composer posts: four text fields, then one `attachments` part per file. */
  function Payload(d: Draft, files: seq<LocalFile>): (parts: seq<Part>)
    ensures |parts| == 4 + |files|
    ensures forall j :: 0 <= j < |files| ==> parts[4 + j] == FilePart("attachments", files[j])
  {
    [Field("title", d.title), Field("content", d.content), Field("type", d.noticeType),
     Field("department", d.department)] + FileParts(files)
  }

  /** handleSubmit's body, built as the source does: the fields, then a loop over the attachments. */
  method BuildPayload(d: Draft, files: seq<LocalFile>) returns (parts: seq<Part>)
    ensures parts == Payload(d, files)
  {
    parts := [Field("title", d.title), Field("content", d.content), Field("type", d.noticeType),
              Field("department", d.department)];
    var i := 0;
    while i < |files|
      invariant 0 <= i <= |files|
      invariant |parts| == 4 + i
      invariant parts[..4] == Payload(d, files)[..4]
      invariant forall j :: 0 <= j < i ==> parts[4 + j] == AttachmentPart(files[j])
    {
      parts := parts + [AttachmentPart(files[i])];
      i := i + 1;
    }
    assert parts == Payload(d, files);
  }

  /** The form the notice routes read from a body: the first value of each named field. */
  function FieldValue(parts: seq<Part>, name: string): Option<string> {
    if parts == [] then None
    else if parts[0].Field? && parts[0].name == name then Some(parts[0].value)
    else FieldValue(parts[1..], name)
  }

  function FileCount(parts: seq<Part>): (n: nat)
    ensures n <= |parts|
  {
    if parts == [] then 0 else (if parts[0].FilePart? then 1 else 0) + FileCount(parts[1..])
  }

  lemma {:induction false} FilesCounted(files: seq<LocalFile>)
    ensures FileCount(FileParts(files)) == |files|
    ensures forall name :: FieldValue(FileParts(files), name) == None
  {
    var ps := FileParts(files);
    if files != [] {
      FilesCounted(files[1..]);
      assert ps[1..] == FileParts(files[1..]);
    }
  }

  lemma FieldValueAppended(head: seq<Part>, tail: seq<Part>, name: string)
    requires forall j :: 0 <= j < |tail| ==> tail[j].FilePart?
    ensures FieldValue(head + tail, name) == if FieldValue(head, name).Some? then FieldValue(head, name) else FieldValue(tail, name)
  {
    if head != [] {
      assert (head + tail)[1..] == head[1..] + tail;
      FieldValueAppended(head[1..], tail, name);
    } else {
      assert head + tail == tail;
    }
  }

  lemma FileCountAppended(head: seq<Part>, tail: seq<Part>)
    ensures FileCount(head + tail) == FileCount(head) + FileCount(tail)
  {
    if head != [] {
      assert (head + tail)[1..] == head[1..] + tail;
      FileCountAppended(head[1..], tail);
    } else {
      assert head + tail == tail;
    }
  }

  /**
   * The body carries the draft's title, content, type and department under the names the route
   * validates, as many files as are attached, and neither an audience nor an expiry date.
   */
  lemma PayloadFields(d: Draft, files: seq<LocalFile>)
    ensures var p := Payload(d, files);
      FieldValue(p, "title") == Some(d.title) && FieldValue(p, "content") == Some(d.content)
      && FieldValue(p, "type") == Some(d.noticeType) && FieldValue(p, "department") == Some(d.department)
      && FieldValue(p, "expiryDate") == None && FieldValue(p, "targetAudience") == None
      && FileCount(p) == |files|
  {
    var head := [Field("title", d.title), Field("content", d.content), Field("type", d.noticeType),
                 Field("department", d.department)];
    var tail := FileParts(files);
    assert Payload(d, files) == head + tail;
    FilesCounted(files);
    FieldValueAppended(head, tail, "title");
    FieldValueAppended(head, tail, "content");
    FieldValueAppended(head, tail, "type");
    FieldValueAppended(head, tail, "department");
    FieldValueAppended(head, tail, "expiryDate");
    FieldValueAppended(head, tail, "targetAudience");
    FileCountAppended(head, tail);
    FieldsOfHead(d);
  }

  /** The four text fields alone, unfolded one part at a time. */
  lemma FieldsOfHead(d: Draft)
    ensures var head := [Field("title", d.title), Field("content", d.content), Field("type", d.noticeType),
                         Field("department", d.department)];
      FieldValue(head, "title") == Some(d.title) && FieldValue(head, "content") == Some(d.content)
      && FieldValue(head, "type") == Some(d.noticeType) && FieldValue(head, "department") == Some(d.department)
      && FieldValue(head, "expiryDate") == None && FieldValue(head, "targetAudience") == None
      && FileCount(head) == 0
  {
    var h3 := [Field("department", d.department)];
    var h2 := [Field("type", d.noticeType)] + h3;
    var h1 := [Field("content", d.content)] + h2;
    var head := [Field("title", d.title)] + h1;
    assert h3[1..] == [] && h2[1..] == h3 && h1[1..] == h2 && head[1..] == h1;
    forall n | n != "department" ensures FieldValue(h3, n) == None {
      assert FieldValue(h3, n) == FieldValue([], n);
    }
    forall n | n != "type" ensures FieldValue(h2, n) == FieldValue(h3, n) {
    }
    forall n | n != "content" ensures FieldValue(h1, n) == FieldValue(h2, n) {
    }
    forall n | n != "title" ensures FieldValue(head, n) == FieldValue(h1, n) {
    }
    assert FileCount(h3) == 0 && FileCount(h2) == 0 && FileCount(h1) == 0;
    assert head == [Field("title", d.title), Field("content", d.content), Field("type", d.noticeType),
                    Field("department", d.department)];
  }

  /** The notice form the create route reads from the composer's body. */
  function ServerForm(d: Draft): ContentRoutes.NoticeForm {
    ContentRoutes.NoticeForm(d.title, d.content, Some(d.noticeType), d.department)
  }

  /** With the default type and department, a title and a content are all the route asks for. */
  lemma DefaultsPassValidation(title: string, content: string)
    ensures var d := InitialDraft.(title := title, content := content);
      ContentRoutes.NoticeErrors(ServerForm(d)) == [] <==> title != [] && content != []
  {
    assert DefaultNoticeType in NoticeTypes;
  }

  // ---------------------------------------------------------------------------------------------
  // The component

  /** Why a post failed, as the response reports it (`None` or empty where a part is missing). */
  datatype Failure = Failure(status: Option<nat>, message: Option<string>, errorsJson: Option<string>, clientMessage: string)

  function Truthy(s: Option<string>): bool {
    s.Some? && s.value != ""
  }

  /** The message shown after a failed post: the server's message, else its errors, else a status line. */
  function ErrorText(f: Failure): (text: string)
    ensures Truthy(f.message) ==> text == f.message.value
    ensures !Truthy(f.message) && Truthy(f.errorsJson) ==> text == f.errorsJson.value
    ensures !Truthy(f.message) && !Truthy(f.errorsJson) ==> StartsWith(text, "Error ")
  {
    if Truthy(f.message) then f.message.value
    else if Truthy(f.errorsJson) then f.errorsJson.value
    else
      var status := if f.status.Some? && f.status.value != 0 then NatToString(f.status.value) else "";
      var reason := if f.clientMessage != "" then f.clientMessage else "Failed to create notice";
      "Error " + status + ": " + reason
  }

  class Composer {
    var form: Draft
    var attachments: seq<LocalFile>
    var error: string
    var success: bool

    constructor ()
      ensures form == InitialDraft && attachments == [] && error == "" && !success
    {
      form := InitialDraft;
      attachments := [];
      error := "";
      success := false;
    }

    /** handleFileChange: an admitted batch is appended; a refused one changes nothing. */
    method FileChange(files: seq<LocalFile>) returns (verdict: Admission)
      modifies this
      ensures verdict == Admit(|old(attachments)|, files)
      ensures attachments == AfterPick(old(attachments), files)
      ensures form == old(form) && error == old(error) && success == old(success)
    {
      verdict := Admit(|attachments|, files);
      if verdict == Admitted {
        attachments := attachments + files;
      }
    }

    /** removeAttachment. */
    method RemoveAttachment(index: int)
      modifies this
      ensures attachments == DropIndex(old(attachments), index)
      ensures form == old(form) && error == old(error) && success == old(success)
    {
      attachments := DropIndex(attachments, index);
    }

    /**
     * handleSubmit: posts the body; on success the form and attachments are reset, otherwise the
     * failure is shown and everything else is kept.
     */
    method Submit(failure: Option<Failure>) returns (parts: seq<Part>)
      modifies this
      ensures parts == Payload(old(form), old(attachments))
      ensures failure.None? ==> form == ResetDraft && attachments == [] && success && error == ""
      ensures failure.Some? ==>
        form == old(form) && attachments == old(attachments) && success == old(success)
        && error == ErrorText(failure.value)
    {
      error := "";
      parts := BuildPayload(form, attachments);
      if failure.None? {
        success := true;
        form := ResetDraft;
        attachments := [];
      } else {
        error := ErrorText(failure.value);
      }
    }
  }
}
