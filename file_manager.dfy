/** The `useFileManager` hook: three state cells (the records, a loading flag
    and an error) updated step by step around each awaited call. Every
    operation except download sets loading and clears the error first, and
    clears loading in its `finally`. Upload, delete and download rethrow. */
module FileManager {
  import opened Records

  const FetchError := "Failed to fetch files"
  const UploadFallback := "Failed to upload file"
  const DeleteError := "Failed to delete file"
  const DownloadError := "Failed to download file"

  class FileManagerState {
    var files: seq<FileRecord>
    var isLoading: bool
    var error: Option<string>

    constructor ()
      ensures files == [] && !isLoading && error == None
    {
      files := [];
      isLoading := false;
      error := None;
    }

    /** The first two steps of fetch, upload and delete. */
    method Begin()
      modifies this
      ensures isLoading && error == None && files == old(files)
    {
      isLoading := true;
      error := None;
    }

    /** The rest of `fetchFiles`: the server list replaces the records; a
        failure keeps them and is not rethrown. */
    method FetchSettle(outcome: Outcome<seq<FileRecord>>)
      modifies this
      ensures !isLoading
      ensures outcome.Resolved? ==> files == outcome.value && error == old(error)
      ensures outcome.Rejected? ==> files == old(files) && error == Some(FetchError)
    {
      if outcome.Resolved? {
        files := outcome.value;
      } else {
        error := Some(FetchError);
      }
      isLoading := false;
    }

    /** The rest of `uploadFile`: the new record is prepended and returned;
        on failure a new `Error` with the message is thrown. */
    method UploadSettle(outcome: Outcome<FileRecord>) returns (r: Outcome<FileRecord>)
      modifies this
      ensures !isLoading
      ensures outcome.Resolved? ==>
        r == outcome && files == [outcome.value] + old(files) && error == old(error)
      ensures outcome.Rejected? ==>
        var message := MessageOr(outcome.thrown, UploadFallback);
        r == Rejected(ErrorObject(message, None)) && files == old(files) && error == Some(message)
      ensures UniqueIds(old(files)) && outcome.Resolved? && !HasId(old(files), outcome.value.id) ==> UniqueIds(files)
    {
      if outcome.Resolved? {
        files := [outcome.value] + files;
        r := outcome;
        if UniqueIds(old(files)) {
          PrependKeepsUnique(outcome.value, old(files));
        }
      } else {
        var message := MessageOr(outcome.thrown, UploadFallback);
        error := Some(message);
        r := Rejected(ErrorObject(message, None));
      }
      isLoading := false;
    }

    /** The rest of `deleteFile`: every record with the id is removed; on
        failure the records stay and the original error is rethrown. */
    method DeleteSettle(id: int, outcome: Outcome<()>) returns (r: Outcome<()>)
      modifies this
      ensures !isLoading && r == outcome
      ensures outcome.Resolved? ==> files == WithoutId(old(files), id) && error == old(error)
      ensures outcome.Rejected? ==> files == old(files) && error == Some(DeleteError)
      ensures UniqueIds(old(files)) ==> UniqueIds(files)
    {
      if outcome.Resolved? {
        files := WithoutId(files, id);
        if UniqueIds(old(files)) {
          WithoutIdKeepsUnique(old(files), id);
        }
      } else {
        error := Some(DeleteError);
      }
      r := outcome;
      isLoading := false;
    }

    /** `downloadFile`: one awaited call; neither the records nor the loading
        flag change, and a failure sets the error and is rethrown. */
    method Download(file: FileRecord, outcome: Outcome<()>) returns (r: Outcome<()>)
      modifies this
      ensures r == outcome && files == old(files) && isLoading == old(isLoading)
      ensures outcome.Resolved? ==> error == old(error)
      ensures outcome.Rejected? ==> error == Some(DownloadError)
    {
      if outcome.Rejected? {
        error := Some(DownloadError);
      }
      r := outcome;
    }
  }
}
