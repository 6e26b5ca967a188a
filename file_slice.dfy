/** The Redux slice for the file list. Each async thunk is a pending step
    followed by a settle step that runs the fulfilled or the rejected case;
    the server's answer is the settle step's parameter. A rejected thunk's
    payload is the server body's `message`, or a fixed fallback. */
module FileSlice {
  import opened Records

  const FetchFallback := "Failed to fetch files"
  const UploadFallback := "Failed to upload file"
  const DeleteFallback := "Failed to delete file"

  /** The payload a thunk rejects with: the server's message when it is truthy, else the fallback. */
  function RejectPayload(t: Thrown, fallback: string): (r: string)
    requires fallback != ""
    ensures r != ""
    ensures Truthy(ResponseMessage(t)) ==> r == t.responseMessage.value
    ensures !Truthy(ResponseMessage(t)) ==> r == fallback
    ensures t.NonError? ==> r == fallback
  {
    OrElse(ResponseMessage(t), fallback)
  }

  /** The delete reducer's error: the payload's error when truthy, else the fallback,
      where the thunk's payload already holds a message or the same fallback. */
  function DeleteRejectedError(t: Thrown): (r: string)
    ensures r == RejectPayload(t, DeleteFallback)
  {
    OrElse(Some(RejectPayload(t, DeleteFallback)), DeleteFallback)
  }

  class FileSliceState {
    var files: seq<FileRecord>
    var loading: bool
    var error: Option<string>
    var uploadProgress: int
    var downloadingId: Option<int>
    var deletingId: Option<int>

    /** `initialState` */
    constructor ()
      ensures files == [] && !loading && error == None && uploadProgress == 0
      ensures downloadingId == None && deletingId == None
    {
      files := [];
      loading := false;
      error := None;
      uploadProgress := 0;
      downloadingId := None;
      deletingId := None;
    }

    method ClearError()
      modifies this
      ensures error == None
      ensures files == old(files) && loading == old(loading) && uploadProgress == old(uploadProgress)
      ensures downloadingId == old(downloadingId) && deletingId == old(deletingId)
    {
      error := None;
    }

    method SetUploadProgress(progress: int)
      modifies this
      ensures uploadProgress == progress
      ensures files == old(files) && loading == old(loading) && error == old(error)
      ensures downloadingId == old(downloadingId) && deletingId == old(deletingId)
    {
      uploadProgress := progress;
    }

    /** `fetchFiles.pending` */
    method FetchPending()
      modifies this
      ensures loading && error == None
      ensures files == old(files) && uploadProgress == old(uploadProgress)
      ensures downloadingId == old(downloadingId) && deletingId == old(deletingId)
    {
      loading := true;
      error := None;
    }

    /** `fetchFiles.fulfilled` or `fetchFiles.rejected`: the list is replaced
        wholesale on success and kept as it was on failure. */
    method FetchSettle(outcome: Outcome<seq<FileRecord>>)
      modifies this
      ensures !loading
      ensures outcome.Resolved? ==> files == outcome.value && error == old(error)
      ensures outcome.Rejected? ==> files == old(files) && error == Some(RejectPayload(outcome.thrown, FetchFallback))
      ensures uploadProgress == old(uploadProgress)
      ensures downloadingId == old(downloadingId) && deletingId == old(deletingId)
    {
      match outcome
      case Resolved(payload) =>
        loading := false;
        files := payload;
      case Rejected(thrown) =>
        loading := false;
        error := Some(RejectPayload(thrown, FetchFallback));
    }

    /** `uploadFile.pending` */
    method UploadPending()
      modifies this
      ensures loading && error == None && uploadProgress == 0
      ensures files == old(files)
      ensures downloadingId == old(downloadingId) && deletingId == old(deletingId)
    {
      loading := true;
      error := None;
      uploadProgress := 0;
    }

    /** `uploadFile.fulfilled` or `uploadFile.rejected`: the new record goes
        to the front on success; nothing is inserted on failure. */
    method UploadSettle(outcome: Outcome<FileRecord>)
      modifies this
      ensures !loading
      ensures outcome.Resolved? ==>
        files == [outcome.value] + old(files) && uploadProgress == 100 && error == old(error)
      ensures outcome.Rejected? ==>
        files == old(files) && uploadProgress == 0 && error == Some(RejectPayload(outcome.thrown, UploadFallback))
      ensures outcome.Resolved? ==> |files| == |old(files)| + 1 && files[0] == outcome.value && files[1..] == old(files)
      ensures downloadingId == old(downloadingId) && deletingId == old(deletingId)
    {
      match outcome
      case Resolved(payload) =>
        loading := false;
        files := [payload] + files;
        uploadProgress := 100;
      case Rejected(thrown) =>
        loading := false;
        error := Some(RejectPayload(thrown, UploadFallback));
        uploadProgress := 0;
    }

    /** `deleteFile.pending`: marks the id; the list and the loading flag stay. */
    method DeletePending(id: int)
      modifies this
      ensures deletingId == Some(id) && error == None
      ensures files == old(files) && loading == old(loading) && uploadProgress == old(uploadProgress)
      ensures downloadingId == old(downloadingId)
    {
      deletingId := Some(id);
      error := None;
    }

    /** `deleteFile.fulfilled` or `deleteFile.rejected`: the mark is cleared
        either way; on success every record with the id is removed. */
    method DeleteSettle(id: int, outcome: Outcome<()>)
      modifies this
      ensures deletingId == None
      ensures outcome.Resolved? ==> files == WithoutId(old(files), id) && error == old(error)
      ensures outcome.Rejected? ==> files == old(files) && error == Some(RejectPayload(outcome.thrown, DeleteFallback))
      ensures outcome.Resolved? ==> !HasId(files, id)
      ensures loading == old(loading) && uploadProgress == old(uploadProgress) && downloadingId == old(downloadingId)
    {
      match outcome
      case Resolved(_) =>
        files := WithoutId(files, id);
        deletingId := None;
      case Rejected(thrown) =>
        error := Some(DeleteRejectedError(thrown));
        deletingId := None;
    }
  }

  /** Refetching an unchanged server list leaves the records as they were. */
  method RefetchIsIdempotent(server: seq<FileRecord>) returns (first: seq<FileRecord>, second: seq<FileRecord>)
    ensures first == server && second == first
  {
    var state := new FileSliceState();
    state.FetchPending();
    state.FetchSettle(Resolved(server));
    first := state.files;
    state.FetchPending();
    state.FetchSettle(Resolved(server));
    second := state.files;
  }

  /** Starting from one record, an upload followed by deleting the first
      record leaves only the uploaded one; a failing delete then keeps the
      records, clears its mark and reports the fallback message. */
  method UploadThenDelete(a: FileRecord, b: FileRecord)
    returns (afterUpload: seq<FileRecord>, afterDelete: seq<FileRecord>, afterFailedDelete: seq<FileRecord>,
             deletingId: Option<int>, error: Option<string>)
    requires a.id == 1 && b.id == 2
    ensures afterUpload == [b, a]
    ensures afterDelete == [b]
    ensures afterFailedDelete == [b] && deletingId == None && error == Some(DeleteFallback)
  {
    var state := new FileSliceState();
    state.FetchPending();
    state.FetchSettle(Resolved([a]));
    state.UploadPending();
    state.UploadSettle(Resolved(b));
    afterUpload := state.files;
    state.DeletePending(1);
    state.DeleteSettle(1, Resolved(()));
    afterDelete := state.files;
    state.DeletePending(7);
    state.DeleteSettle(7, Rejected(NonError));
    afterFailedDelete := state.files;
    deletingId := state.deletingId;
    error := state.error;
  }
}
