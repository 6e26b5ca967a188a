/** The application's handlers over the hook: an `uploadError` slot that
    upload, delete and download failures write, a `downloadingId` set before
    a download and cleared in its `finally`, and the error banner, which
    prefers the hook's error over `uploadError`. */
module App {
  import opened Records
  import FileManager
  import FileList

  const UploadFallback := "Failed to upload file"
  const DeleteFallback := "Failed to delete file"
  const DownloadFallback := "Failed to download file"

  /** The error banner: shown when either slot is truthy, with the hook's error preferred. */
  function AlertMessage(error: Option<string>, uploadError: Option<string>): (r: Option<string>)
    ensures r.Some? <==> Truthy(error) || Truthy(uploadError)
    ensures Truthy(error) ==> r == error
    ensures !Truthy(error) && Truthy(uploadError) ==> r == uploadError
    ensures r.Some? ==> r.value != ""
  {
    if Truthy(error) then error
    else if Truthy(uploadError) then uploadError
    else None
  }

  /** The table is given no `deletingId`, so no row's delete control is ever pending. */
  lemma NoRowDeletePending(files: seq<FileRecord>, i: int)
    requires 0 <= i < |files|
    ensures !FileList.RowPending(None, files[i].id)
  {
  }

  class AppState {
    const manager: FileManager.FileManagerState
    var uploadError: Option<string>
    var downloadingId: Option<int>

    constructor ()
      ensures fresh(manager)
      ensures manager.files == [] && !manager.isLoading && manager.error == None
      ensures uploadError == None && downloadingId == None
    {
      manager := new FileManager.FileManagerState();
      uploadError := None;
      downloadingId := None;
    }

    /** The message shown in the banner, if any. */
    function Alert(): (r: Option<string>)
      reads this, manager
      ensures r.Some? <==> Truthy(manager.error) || Truthy(uploadError)
      ensures Truthy(manager.error) ==> r == manager.error
      ensures !Truthy(manager.error) && Truthy(uploadError) ==> r == uploadError
    {
      AlertMessage(manager.error, uploadError)
    }

    /** The effect on mount starts a fetch; it settles through `manager.FetchSettle`. */
    method Mount()
      modifies manager
      ensures manager.isLoading && manager.error == None && manager.files == old(manager.files)
    {
      manager.Begin();
    }

    /** `handleUpload` up to the awaited call: `uploadError` is cleared first. */
    method HandleUploadBegin()
      modifies this, manager
      ensures uploadError == None && downloadingId == old(downloadingId)
      ensures manager.isLoading && manager.error == None && manager.files == old(manager.files)
    {
      uploadError := None;
      manager.Begin();
    }

    /** The rest of `handleUpload`: only a failure sets `uploadError`, to the
        message the hook rethrew, which is also the hook's error. */
    method HandleUploadSettle(outcome: Outcome<FileRecord>)
      modifies this, manager
      ensures !manager.isLoading && downloadingId == old(downloadingId)
      ensures outcome.Resolved? ==>
        uploadError == old(uploadError) && manager.files == [outcome.value] + old(manager.files) && manager.error == old(manager.error)
      ensures outcome.Rejected? ==>
        uploadError == Some(MessageOr(outcome.thrown, UploadFallback)) && uploadError == manager.error &&
        manager.files == old(manager.files)
      ensures outcome.Rejected? ==> Alert() == AlertMessage(uploadError, None)
    {
      var r := manager.UploadSettle(outcome);
      if r.Rejected? {
        uploadError := Some(MessageOr(r.thrown, UploadFallback));
      }
    }

    /** `handleDelete` up to the awaited call: `uploadError` is not cleared. */
    method HandleDeleteBegin(file: FileRecord)
      modifies manager
      ensures manager.isLoading && manager.error == None && manager.files == old(manager.files)
    {
      manager.Begin();
    }

    /** The rest of `handleDelete`: a failure sets `uploadError` from the
        error the hook rethrew. */
    method HandleDeleteSettle(file: FileRecord, outcome: Outcome<()>)
      modifies this, manager
      ensures !manager.isLoading && downloadingId == old(downloadingId)
      ensures outcome.Resolved? ==>
        uploadError == old(uploadError) && manager.files == WithoutId(old(manager.files), file.id) && manager.error == old(manager.error)
      ensures outcome.Rejected? ==>
        uploadError == Some(MessageOr(outcome.thrown, DeleteFallback)) && manager.files == old(manager.files) &&
        manager.error == Some(FileManager.DeleteError)
    {
      var r := manager.DeleteSettle(file.id, outcome);
      if r.Rejected? {
        uploadError := Some(MessageOr(r.thrown, DeleteFallback));
      }
    }

    /** `handleDownload` up to the awaited call: the row is marked. */
    method HandleDownloadBegin(file: FileRecord)
      modifies this
      ensures downloadingId == Some(file.id) && uploadError == old(uploadError)
      ensures FileList.RowPending(downloadingId, file.id)
    {
      downloadingId := Some(file.id);
    }

    /** The rest of `handleDownload`: the mark is cleared on success and on
        failure; a failure sets `uploadError`. */
    method HandleDownloadSettle(file: FileRecord, outcome: Outcome<()>)
      modifies this, manager
      ensures downloadingId == None
      ensures manager.files == old(manager.files) && manager.isLoading == old(manager.isLoading)
      ensures outcome.Resolved? ==> uploadError == old(uploadError) && manager.error == old(manager.error)
      ensures outcome.Rejected? ==> uploadError == Some(MessageOr(outcome.thrown, DownloadFallback))
      ensures outcome.Rejected? ==> manager.error == Some(FileManager.DownloadError)
    {
      var r := manager.Download(file, outcome);
      if r.Rejected? {
        uploadError := Some(MessageOr(r.thrown, DownloadFallback));
      }
      downloadingId := None;
    }
  }

  /** A failed upload's message outlives a later successful delete: the hook's
      error is cleared by the delete, `uploadError` is not, and the banner
      still shows it although the record is gone. */
  method StaleUploadError(a: FileRecord)
    returns (alertAfterUpload: Option<string>, alertAfterDelete: Option<string>, hookError: Option<string>, files: seq<FileRecord>)
    ensures alertAfterUpload == Some("Network Error")
    ensures hookError == None && alertAfterDelete == Some("Network Error")
    ensures files == []
  {
    var app := new AppState();
    app.Mount();
    app.manager.FetchSettle(Resolved([a]));
    app.HandleUploadBegin();
    app.HandleUploadSettle(Rejected(ErrorObject("Network Error", None)));
    alertAfterUpload := app.Alert();
    app.HandleDeleteBegin(a);
    app.HandleDeleteSettle(a, Resolved(()));
    hookError := app.manager.error;
    alertAfterDelete := app.Alert();
    files := app.manager.files;
  }
}
