/**
 * The check run on a candidate upload before it is accepted into the workflow
 * (frontend/src/App.jsx, `acceptedTypes` and the two guards of `handleFileSelection`).
 */
module FileValidation {

  /** A file handed over by the browser; its content is never inspected here. */
  datatype FileInfo = FileInfo(name: string, mime: string, size: nat)

  /** The MIME types the workflow accepts, compared as exact strings. */
  const AcceptedTypes: seq<string> := ["image/jpeg", "image/png", "image/webp", "image/jpg"]

  /** The largest accepted size in bytes: ten mebibytes, inclusive. */
  const MaxUploadBytes: nat := 10 * 1024 * 1024

  const UnsupportedTypeMessage: string := "Please upload a JPG, PNG, or WEBP image file."
  const TooLargeMessage: string := "The selected file exceeds the 10 MB size limit."

  datatype Rejection = UnsupportedType | TooLarge

  datatype Verdict = Accepted | Rejected(reason: Rejection)

  /** The message the workflow shows for a rejected candidate. */
  function RejectionMessage(reason: Rejection): (m: string)
    ensures m != ""
    ensures reason.UnsupportedType? <==> m == UnsupportedTypeMessage
  {
    match reason
    case UnsupportedType => UnsupportedTypeMessage
    case TooLarge => TooLargeMessage
  }

  /** Type first, then size: a wrong type is reported even when the file is also too large. */
  function Validate(mime: string, size: nat): (v: Verdict)
    ensures v.Rejected? && v.reason == UnsupportedType <==> mime !in AcceptedTypes
    ensures v.Rejected? && v.reason == TooLarge <==> mime in AcceptedTypes && size > MaxUploadBytes
  {
    if mime !in AcceptedTypes then Rejected(UnsupportedType)
    else if size > MaxUploadBytes then Rejected(TooLarge)
    else Accepted
  }

  /** The pair of guards, as one yes/no question: accepted exactly when the type is one of the
      four and the size is at most ten mebibytes. */
  predicate IsAccepted(mime: string, size: nat)
    ensures IsAccepted(mime, size) <==> mime in AcceptedTypes && size <= MaxUploadBytes
  {
    Validate(mime, size).Accepted?
  }

  /** An unlisted type is refused whatever the size, including sizes that are also too large. */
  lemma UnsupportedWhateverSize(mime: string, size: nat)
    requires mime !in AcceptedTypes
    ensures Validate(mime, size) == Rejected(UnsupportedType)
  {
  }

  /** The size limit is inclusive: exactly 10 MiB passes and one more byte fails. */
  lemma SizeBoundary(mime: string)
    requires mime in AcceptedTypes
    ensures Validate(mime, 10485760) == Accepted
    ensures Validate(mime, 10485761) == Rejected(TooLarge)
  {
  }

  /** The match is exact: neighbouring spellings such as `image/gif` or `IMAGE/PNG` are refused. */
  lemma ExactTypeMatch()
    ensures Validate("image/gif", 1) == Rejected(UnsupportedType)
    ensures Validate("IMAGE/PNG", 1) == Rejected(UnsupportedType)
    ensures Validate("image/jpg", 1) == Accepted
  {
    assert "image/gif" != AcceptedTypes[0] && "image/gif" != AcceptedTypes[1];
    assert "image/gif" != AcceptedTypes[2] && "image/gif" != AcceptedTypes[3];
    assert "IMAGE/PNG"[0] != AcceptedTypes[0][0] && "IMAGE/PNG"[0] != AcceptedTypes[1][0];
    assert "IMAGE/PNG"[0] != AcceptedTypes[2][0] && "IMAGE/PNG"[0] != AcceptedTypes[3][0];
  }
}
