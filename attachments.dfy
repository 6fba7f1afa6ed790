/**
 * What the notice and event handlers share about attachments: the records built from an
 * upload batch, and the reconciliation an update performs between the stored list, the
 * ids the client asks to keep and the new uploads.
 */
module Attachments {
  import opened Seqs
  import opened Http
  import opened Content
  import opened Store
  import ServerConfig

  /** A file the upload middleware has stored: the client's file name and the stored name. */
  datatype UploadedFile = UploadedFile(originalname: string, filename: string)

  /** What a content handler leaves behind: the store, the uploads directory and the response. */
  datatype Effect = Effect(db: Db, uploads: set<string>, reply: Reply)

  /** The attachment record of one upload, under the given subdocument id. */
  function AttachmentOf(f: UploadedFile, id: nat, baseUrl: string): Attachment {
    Attachment(id, f.originalname, ServerConfig.GetFullUrl(baseUrl, "uploads/" + f.filename))
  }

  /** One attachment per upload, in upload order, with ids counted from `firstId`. */
  function Uploaded(files: seq<UploadedFile>, firstId: nat, baseUrl: string): (r: seq<Attachment>)
    ensures |r| == |files|
    ensures forall k :: 0 <= k < |files| ==> r[k] == AttachmentOf(files[k], firstId + k, baseUrl)
  {
    if files == [] then []
    else Uploaded(files[..|files| - 1], firstId, baseUrl) + [AttachmentOf(files[|files| - 1], firstId + |files| - 1, baseUrl)]
  }

  /** The `for (const file of req.files)` loop that pushes one record per upload. */
  method BuildAttachments(files: seq<UploadedFile>, firstId: nat, baseUrl: string) returns (r: seq<Attachment>)
    ensures r == Uploaded(files, firstId, baseUrl)
  {
    r := [];
    var k := 0;
    while k < |files|
      invariant k <= |files|
      invariant r == Uploaded(files[..k], firstId, baseUrl)
    {
      assert files[..k + 1][..k] == files[..k];
      r := r + [AttachmentOf(files[k], firstId + k, baseUrl)];
      k := k + 1;
    }
    assert files[..k] == files;
  }

  /** `req.body.keepAttachments`: absent, one id, or a list of ids. */
  datatype KeepParam = KeepNone | KeepOne(id: nat) | KeepMany(ids: seq<nat>)

  /** A single value is treated as a one-element list; an absent one as the empty list. */
  function KeepList(p: KeepParam): (r: seq<nat>)
    ensures p.KeepNone? ==> r == []
    ensures p.KeepOne? ==> r == [p.id]
    ensures p.KeepMany? ==> r == p.ids
  {
    match p
    case KeepNone => []
    case KeepOne(id) => [id]
    case KeepMany(ids) => ids
  }

  function InKeep(keep: seq<nat>): Attachment -> bool {
    (a: Attachment) => a.id in keep
  }

  function NotInKeep(keep: seq<nat>): Attachment -> bool {
    (a: Attachment) => a.id !in keep
  }

  /** The stored attachments the client keeps, in their stored order. */
  function Kept(stored: seq<Attachment>, keep: seq<nat>): seq<Attachment> {
    Filter(stored, InKeep(keep))
  }

  /** The stored attachments handed to `deleteFiles`. */
  function Dropped(stored: seq<Attachment>, keep: seq<nat>): seq<Attachment> {
    Filter(stored, NotInKeep(keep))
  }

  /** The new list of an update that carries files: the kept ones, then the new ones. */
  function Reconciled(stored: seq<Attachment>, keep: seq<nat>, added: seq<Attachment>): seq<Attachment> {
    Kept(stored, keep) + added
  }

  /**
   * Kept and dropped partition the stored list: together they are as long as it, each
   * stored attachment lands in exactly one of them, and each keeps the stored order.
   */
  lemma KeptDroppedPartition(stored: seq<Attachment>, keep: seq<nat>)
    ensures |Kept(stored, keep)| + |Dropped(stored, keep)| == |stored|
    ensures forall j :: 0 <= j < |stored| ==>
      (stored[j] in Kept(stored, keep) <==> stored[j].id in keep) &&
      (stored[j] in Dropped(stored, keep) <==> stored[j].id !in keep)
    ensures IsSubsequence(Kept(stored, keep), stored) && IsSubsequence(Dropped(stored, keep), stored)
  {
    FilterComplement(stored, InKeep(keep), NotInKeep(keep));
    var kept := Kept(stored, keep);
    var dropped := Dropped(stored, keep);
    forall j | 0 <= j < |stored|
      ensures (stored[j] in kept <==> stored[j].id in keep) && (stored[j] in dropped <==> stored[j].id !in keep)
    {
      if stored[j] in kept {
        var k :| 0 <= k < |kept| && kept[k] == stored[j];
        assert InKeep(keep)(kept[k]);
      }
      if stored[j] in dropped {
        var k :| 0 <= k < |dropped| && dropped[k] == stored[j];
        assert NotInKeep(keep)(dropped[k]);
      }
    }
  }

  /** Keeping every stored id keeps the whole list and drops nothing. */
  lemma KeepAll(stored: seq<Attachment>, keep: seq<nat>)
    requires forall j :: 0 <= j < |stored| ==> stored[j].id in keep
    ensures Kept(stored, keep) == stored && Dropped(stored, keep) == []
  {
    FilterAll(stored, InKeep(keep));
    FilterNone(stored, NotInKeep(keep));
  }

  /** Keeping nothing drops the whole list. */
  lemma KeepNothing(stored: seq<Attachment>)
    ensures Kept(stored, []) == [] && Dropped(stored, []) == stored
  {
    FilterNone(stored, InKeep([]));
    FilterAll(stored, NotInKeep([]));
  }
}
