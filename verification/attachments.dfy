/** The attachment admission policy of the upload step (`handle_attachment`):
    a cap on the number of files and a cap on their combined size. */
module Attachments {
  import opened Wrappers

  /** One uploaded document as the wizard stores it: the name and MIME type
      the sender's client declared (either may be missing) and the downloaded
      bytes. */
  datatype Attachment = Attachment(fileName: Option<string>, mimeType: Option<string>, content: seq<bv8>)

  /** At most this many attachments per report. */
  const MaxAttachments: nat := 10

  /** The size cap, in mebibytes. */
  const MaxTotalSizeMb: nat := 25

  /** The size cap in bytes: 25 * 1024 * 1024. */
  const MaxTotalBytes: nat := MaxTotalSizeMb * 1024 * 1024

  /** The MIME types the program declares acceptable. The upload step never
      consults this list (see `AdmitIgnoresMimeType`). */
  const AllowedMimeTypes: seq<string> :=
    ["image/png", "image/jpeg", "application/pdf", "text/plain", "application/zip"]

  /** The combined byte length of the attachments' contents. */
  function TotalSize(atts: seq<Attachment>): nat
  {
    if |atts| == 0 then 0 else |atts[0].content| + TotalSize(atts[1..])
  }

  /** Appending one entry adds its length to the total. */
  lemma {:induction false} TotalSizeAppend(atts: seq<Attachment>, a: Attachment)
    ensures TotalSize(atts + [a]) == TotalSize(atts) + |a.content|
  {
    if |atts| > 0 {
      assert (atts + [a])[1..] == atts[1..] + [a];
      TotalSizeAppend(atts[1..], a);
    }
  }

  /** The two bounds every stored attachment list respects. */
  predicate WithinLimits(atts: seq<Attachment>) {
    |atts| <= MaxAttachments && TotalSize(atts) <= MaxTotalBytes
  }

  /** Why an upload was refused. */
  datatype Rejection = TooMany | TooLarge

  /** The decision on one upload: the new list, or the reason for refusal. */
  datatype Admission = Accepted(entries: seq<Attachment>) | Rejected(reason: Rejection)

  /** The admission decision for `upload` given the list collected so far.
      The count is checked first (before the file is fetched), then the
      combined size; a total exactly equal to the cap is admitted. */
  function Admit(atts: seq<Attachment>, upload: Attachment): (r: Admission)
    ensures r == Rejected(TooMany) <==> |atts| >= MaxAttachments
    ensures r == Rejected(TooLarge) <==>
              |atts| < MaxAttachments && TotalSize(atts) + |upload.content| > MaxTotalBytes
    ensures r.Accepted? ==> |r.entries| == |atts| + 1
    ensures r.Accepted? ==> r.entries[..|atts|] == atts && r.entries[|atts|..] == [upload]
    ensures r.Accepted? ==> TotalSize(r.entries) == TotalSize(atts) + |upload.content|
  {
    if |atts| >= MaxAttachments then Rejected(TooMany)
    else if TotalSize(atts) + |upload.content| > MaxTotalBytes then Rejected(TooLarge)
    else
      TotalSizeAppend(atts, upload);
      Accepted(atts + [upload])
  }

  /** An admitted upload never takes a list past either bound, and a list
      within the bounds stays within them. */
  lemma AdmitPreservesLimits(atts: seq<Attachment>, upload: Attachment)
    requires WithinLimits(atts)
    ensures Admit(atts, upload).Accepted? ==> WithinLimits(Admit(atts, upload).entries)
  {
  }

  /** The declared MIME type plays no part in the decision. */
  lemma AdmitIgnoresMimeType(atts: seq<Attachment>, upload: Attachment, mime: Option<string>)
    ensures Admit(atts, upload.(mimeType := mime)).Accepted? <==> Admit(atts, upload).Accepted?
  {
  }

  /** A file whose type is outside the allow-list is admitted into an empty
      list all the same. */
  lemma DisallowedTypeAdmitted()
    ensures "application/x-msdownload" !in AllowedMimeTypes
    ensures Admit([], Attachment(Some("setup.exe"), Some("application/x-msdownload"), [0x4D, 0x5A])).Accepted?
  {
  }

  /** The list after a sequence of uploads, each decided against the list
      left by the ones before it. */
  function AdmitAll(atts: seq<Attachment>, uploads: seq<Attachment>): seq<Attachment>
    decreases |uploads|
  {
    if |uploads| == 0 then atts
    else
      match Admit(atts, uploads[0])
      case Accepted(next) => AdmitAll(next, uploads[1..])
      case Rejected(_) => AdmitAll(atts, uploads[1..])
  }

  /** Across any sequence of uploads the list stays within both bounds, keeps
      its earlier entries in place, and grows by at most one per upload. */
  lemma {:induction false} AdmitAllWithinLimits(atts: seq<Attachment>, uploads: seq<Attachment>)
    requires WithinLimits(atts)
    ensures WithinLimits(AdmitAll(atts, uploads))
    ensures atts <= AdmitAll(atts, uploads)
    ensures |AdmitAll(atts, uploads)| <= |atts| + |uploads|
    decreases |uploads|
  {
    if |uploads| > 0 {
      match Admit(atts, uploads[0])
      case Accepted(next) =>
        AdmitAllWithinLimits(next, uploads[1..]);
      case Rejected(_) =>
        AdmitAllWithinLimits(atts, uploads[1..]);
    }
  }
}
