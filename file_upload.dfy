/** The dropzone: it builds its accept map from a list of MIME types, uploads
    only the first accepted file, picks one message for a rejected drop
    (too large before invalid type before anything else), and tracks whether
    a drag is over it. */
module FileUpload {
  import opened Records

  const DefaultAcceptedTypes: seq<string> := [
    "image/*",
    "application/pdf",
    "text/plain",
    "application/json",
    "text/csv",
    "application/vnd.ms-excel",
    "application/vnd.openxmlformats-officedocument.spreadsheetml.sheet"
  ]

  const DefaultMaxSize: nat := 10 * 1024 * 1024

  const UploadFallback := "Failed to upload file"

  /** A file picked in the browser. */
  datatype LocalFile = LocalFile(name: string, contentType: string, size: nat)

  /** The dropzone's error slot. The too-large message prints `maxSize` in MiB. */
  datatype DropError =
    | TooLarge(maxSize: nat)        // "File is too large. Maximum size is ...MB"
    | TypeNotSupported              // "File type not supported"
    | ErrorUploading                // "Error uploading file"
    | UploadFailed(message: string) // the upload's own error message

  /** The message for a rejected drop, from the error codes of its first rejection. */
  function RejectionMessage(codes: seq<string>, maxSize: nat): (r: DropError)
    ensures r.TooLarge? <==> "file-too-large" in codes
    ensures r.TooLarge? ==> r.maxSize == maxSize
    ensures r.TypeNotSupported? <==> "file-too-large" !in codes && "file-invalid-type" in codes
    ensures r.ErrorUploading? <==> "file-too-large" !in codes && "file-invalid-type" !in codes
  {
    if "file-too-large" in codes then TooLarge(maxSize)
    else if "file-invalid-type" in codes then TypeNotSupported
    else ErrorUploading
  }

  /** The fold that adds one empty-list entry per type to `acc`. */
  function AcceptEntries(acc: map<string, seq<string>>, types: seq<string>): (r: map<string, seq<string>>)
    ensures r.Keys == acc.Keys + set t | t in types
    ensures forall k :: k in r && k in types ==> r[k] == []
    ensures forall k :: k in r && k !in types ==> r[k] == acc[k]
    decreases |types|
  {
    if types == [] then acc
    else
      var r := AcceptEntries(acc[types[0] := []], types[1..]);
      assert forall t :: t in types <==> t == types[0] || t in types[1..];
      r
  }

  /** The accept map: one key per accepted type, each mapped to the empty list. */
  function AcceptMap(types: seq<string>): (r: map<string, seq<string>>)
    ensures r.Keys == set t | t in types
    ensures forall k :: k in r ==> r[k] == []
  {
    AcceptEntries(map[], types)
  }

  class UploadZone {
    const acceptedFileTypes: seq<string>
    const maxSize: nat
    var dragActive: bool
    var error: Option<DropError>

    /** The component as the application mounts it: default types and size. */
    constructor ()
      ensures acceptedFileTypes == DefaultAcceptedTypes && maxSize == DefaultMaxSize
      ensures !dragActive && error == None
    {
      acceptedFileTypes := DefaultAcceptedTypes;
      maxSize := DefaultMaxSize;
      dragActive := false;
      error := None;
    }

    method DragEnter()
      modifies this
      ensures dragActive && error == old(error)
    {
      dragActive := true;
    }

    method DragLeave()
      modifies this
      ensures !dragActive && error == old(error)
    {
      dragActive := false;
    }

    method DropAccepted()
      modifies this
      ensures !dragActive && error == old(error)
    {
      dragActive := false;
    }

    /** `onDropRejected`, given the error codes of the first rejection. */
    method DropRejected(codes: seq<string>)
      modifies this
      ensures !dragActive && error == Some(RejectionMessage(codes, maxSize))
    {
      dragActive := false;
      error := Some(RejectionMessage(codes, maxSize));
    }

    /** `onDrop` up to the awaited upload: with no accepted file nothing
        happens; otherwise the error is cleared and only the first file is
        handed to the upload. */
    method DropBegin(acceptedFiles: seq<LocalFile>) returns (upload: Option<LocalFile>)
      modifies this
      ensures dragActive == old(dragActive)
      ensures acceptedFiles == [] ==> upload == None && error == old(error)
      ensures acceptedFiles != [] ==> upload == Some(acceptedFiles[0]) && error == None
    {
      if |acceptedFiles| == 0 {
        return None;
      }
      error := None;
      upload := Some(acceptedFiles[0]);
    }

    /** The rest of `onDrop`: a failed upload's message becomes the error. */
    method DropSettle(outcome: Outcome<()>)
      modifies this
      ensures dragActive == old(dragActive)
      ensures outcome.Resolved? ==> error == old(error)
      ensures outcome.Rejected? ==> error == Some(UploadFailed(MessageOr(outcome.thrown, UploadFallback)))
    {
      if outcome.Rejected? {
        error := Some(UploadFailed(MessageOr(outcome.thrown, UploadFallback)));
      }
    }
  }
}
