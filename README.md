# droplite in Dafny

droplite is a small file-sharing application. Its Spring backend validates an
upload against an allow-list of extensions and a 10 MiB limit. It then stores
the bytes under a generated UUID name and keeps the metadata in a database.
Its React frontend lists, uploads, previews, downloads and deletes those files.

This project models the core of both halves:

- **Backend.**
  - `FileValidator` is the extension allow-list, the case-insensitive
    extension check and the inclusive size limit.
  - `FileStorage` holds the storage-name derivation, the `..` path guard and
    the storage service. The service is a class over an abstract database
    (`map<int, FileRecord>` with a next-id counter) and a disk (`set<string>`
    of paths).
- **Frontend state.**
  - `FileSlice` is the Redux slice.
  - `FileManager` is the `useFileManager` hook.
  - `App` is the application's handlers and error banner.
  - Each asynchronous operation is split into a method for the steps before
    its `await` and a method for the steps after it. The awaited call's
    result is an `Outcome` parameter: it resolves with a value or rejects
    with a thrown value.
- **Frontend components.**
  - `FileList` is the icon choice, pagination and the list's display states.
  - `FilePreview` is the preview dialog's extension, its classification and
    its content fetch.
  - `FileUpload` is the dropzone's accept map, its rejection messages and its
    drop handler.
- **Shared modules.**
  - `Records` holds the file record, JavaScript truthiness, the catch-block
    message rule and the id filter used by delete.
  - `Strings` holds the string operations the source relies on.
  - `Consistency` relates the frontend's rules to the backend's.

On these points the code behaves as follows, and the model keeps that behaviour:

- The hook's upload, delete and download rethrow to the application's
  handlers, which catch and keep the message in `uploadError`; the hook's
  fetch does not rethrow.
- The application's `uploadError` is not cleared when a delete or download
  starts or succeeds, so an old message can outlive later successful
  operations (`App.StaleUploadError`).
- A failed delete keeps the record in the list, whatever the server's reason.
  The code does not treat a not-found answer as success.
- The application never passes a `deletingId` to the table, so no delete
  control is ever shown as pending (`App.NoRowDeletePending`).
- The hook's delete also sets the global loading flag.
- The application uses the hook, not the Redux slice. The slice is still
  modelled, because it is part of the code.

## Model

| member | source | states |
|---|---|---|
| Records.OrElse | droplite-frontend/src/features/files/fileSlice.ts:117 | JavaScript `\|\|` on an optional string: the value when it is truthy (present and non-empty), else the fallback; a non-empty fallback makes the result non-empty |
| Records.MessageOr | droplite-frontend/src/hooks/useFileManager.ts:31 | a caught `Error` yields its own message; any other thrown value yields the fallback |
| Records.ResponseMessage | droplite-frontend/src/features/files/fileSlice.ts:32 | an Axios error yields exactly the server body's message it carries, possibly none; any other thrown value yields none |
| Records.WithoutId | droplite-frontend/src/hooks/useFileManager.ts:44 | the filtered list holds exactly the records of the input whose id differs from the deleted id, and is no longer than the input |
| Records.WithoutIdAppend | droplite-frontend/src/features/files/fileSlice.ts:113 | filtering distributes over concatenation, so the kept records keep their order |
| Records.WithoutIdUnchanged | droplite-frontend/src/hooks/useFileManager.ts:44 | deleting leaves the list unchanged exactly when no record has the id; otherwise the list gets strictly shorter |
| Records.WithoutIdIdempotent | droplite-frontend/src/features/files/fileSlice.ts:113 | a repeated delete of the same id changes nothing further |
| Records.WithoutIdKeepsUnique | droplite-frontend/src/features/files/fileSlice.ts:113 | deleting keeps record ids unique |
| Records.PrependKeepsUnique | droplite-frontend/src/features/files/fileSlice.ts:98 | prepending an uploaded record keeps ids unique exactly when its id is new to the list |
| FileValidator.GetAllowedExtensions | droplite-backend/src/main/java/com/droplite/util/FileValidator.java:10-16 | the copy holds the five allowed extensions in order, each non-empty, dot-free and already lower-case |
| FileValidator.GetFileExtension | droplite-backend/src/main/java/com/droplite/util/FileValidator.java:59-64 | "" for a name with no '.'; otherwise the dot-free text after the last '.', which ends the name right after a '.' |
| FileValidator.IsValidFileType | droplite-backend/src/main/java/com/droplite/util/FileValidator.java:20-41 | a valid type implies a present, non-empty file with a non-empty name that contains a '.'; a part of zero bytes (`isEmpty`, line 21) is always rejected |
| FileValidator.IsValidFileSize | droplite-backend/src/main/java/com/droplite/util/FileValidator.java:43-57 | valid exactly when the file is present and at most 10485760 bytes long (inclusive) |
| FileValidator.ExtensionOfLower | droplite-backend/src/main/java/com/droplite/util/FileValidator.java:32-33 | the extension of the lower-cased name equals the lower-cased extension |
| FileValidator.NoDotIsInvalidType | droplite-backend/src/main/java/com/droplite/util/FileValidator.java:59-62 | a name with no '.' never has a valid type |
| FileValidator.ValidTypeHasAllowedSuffix | droplite-backend/src/main/java/com/droplite/util/FileValidator.java:32-33 | a valid type means the lower-cased name ends in '.' followed by the lower-cased extension |
| FileValidator.AllowedSuffixIsValidType | droplite-backend/src/main/java/com/droplite/util/FileValidator.java:20-41 | a non-empty, named upload whose lower-cased name ends in '.' plus an allowed extension is accepted |
| FileValidator.ValidTypeIffAllowedSuffix | droplite-backend/src/main/java/com/droplite/util/FileValidator.java:20-41 | for a non-empty, named upload: a valid type exactly when the lower-cased name ends in '.' plus some allowed extension |
| FileStorage.StoredExtension | droplite-backend/src/main/java/com/droplite/service/FileStorageServiceImpl.java:81-84 | "" without a '.'; otherwise the validator's extension with the dot in front, and always a suffix of the original name |
| FileStorage.StoredFileName | droplite-backend/src/main/java/com/droplite/service/FileStorageServiceImpl.java:85 | the storage name starts with the UUID text, ends with the stored extension, and is exactly as long as the two together |
| FileStorage.DotFreeUuidNeverTraverses | droplite-backend/src/main/java/com/droplite/service/FileStorageServiceImpl.java:85-93 | with a dot-free UUID, the generated name never contains "..", so the path guard cannot fire |
| FileStorage.GeneratedNameNeverTraverses | droplite-backend/src/main/java/com/droplite/service/FileStorageServiceImpl.java:85-93 | a name generated from the text form of a UUID never trips the path guard |
| FileStorage.HasTraversal | droplite-backend/src/main/java/com/droplite/service/FileStorageServiceImpl.java:89 | the guard fires exactly when the storage name has two '.' side by side |
| FileStorage.Resolve | droplite-backend/src/main/java/com/droplite/service/FileStorageServiceImpl.java:99 | the target path is the storage directory, a '/', then the storage name |
| FileStorage.ResolveInjective | droplite-backend/src/main/java/com/droplite/service/FileStorageServiceImpl.java:99-110 | different storage names resolve to different paths, so a fresh name never replaces another record's file |
| FileStorage.FileStorageService.constructor | droplite-backend/src/main/java/com/droplite/service/FileStorageServiceImpl.java:41-59 | the service starts over the records the injected repository already holds and the files already in the storage directory, with its invariant established |
| FileStorage.FileStorageService.GetFileById | droplite-backend/src/main/java/com/droplite/service/FileStorageServiceImpl.java:200-203 | returns the stored record exactly when the id is in the database, and not-found otherwise |
| FileStorage.FileStorageService.LoadAsResource | droplite-backend/src/main/java/com/droplite/service/FileStorageServiceImpl.java:135-158 | returns the record's path exactly when the record exists and its file is on disk, and not-found otherwise |
| FileStorage.FileStorageService.Store | droplite-backend/src/main/java/com/droplite/service/FileStorageServiceImpl.java:62-132 | an invalid type changes nothing; a tripped guard or a failed copy changes nothing; a failed save leaves the copied file on disk with no metadata; success saves a record under a fresh id with the generated name and path, which can then be fetched and loaded; the invariant is kept |
| FileStorage.FileStorageService.DeleteFile | droplite-backend/src/main/java/com/droplite/service/FileStorageServiceImpl.java:172-197 | an unknown id is not-found and changes nothing; an I/O failure keeps the metadata and the file; otherwise both the metadata and the file are removed (the metadata even if the file was already gone) |
| FileStorage.DeleteWithMissingFile | droplite-backend/src/main/java/com/droplite/service/FileStorageServiceImpl.java:172-188 | a record whose file has vanished cannot be loaded, yet deleting it succeeds and removes the record |
| FileSlice.RejectPayload | droplite-frontend/src/features/files/fileSlice.ts:25-62 | a thunk rejects with the server's message when it is truthy, and with the fixed fallback otherwise (a non-Error value, an Axios error without a message or with an empty one); never with "" |
| FileSlice.DeleteRejectedError | droplite-frontend/src/features/files/fileSlice.ts:116-119 | the delete reducer's own fallback never applies: its error is exactly the thunk's rejection payload |
| FileSlice.FileSliceState.constructor | droplite-frontend/src/features/files/fileSlice.ts:14-22 | the initial state: no records, not loading, no error, progress 0, no pending ids |
| FileSlice.FileSliceState.ClearError | droplite-frontend/src/features/files/fileSlice.ts:71-73 | clears the error and nothing else |
| FileSlice.FileSliceState.SetUploadProgress | droplite-frontend/src/features/files/fileSlice.ts:68-70 | sets the progress and nothing else |
| FileSlice.FileSliceState.FetchPending | droplite-frontend/src/features/files/fileSlice.ts:77-80 | sets loading and clears the error; the records are kept |
| FileSlice.FileSliceState.FetchSettle | droplite-frontend/src/features/files/fileSlice.ts:81-88 | success replaces the records with the server list; failure keeps them and stores the rejection payload; loading ends either way |
| FileSlice.FileSliceState.UploadPending | droplite-frontend/src/features/files/fileSlice.ts:91-95 | sets loading, clears the error and resets the progress to 0 |
| FileSlice.FileSliceState.UploadSettle | droplite-frontend/src/features/files/fileSlice.ts:96-105 | success puts the new record in front of the old list and sets the progress to 100; failure inserts nothing, resets the progress and stores the payload |
| FileSlice.FileSliceState.DeletePending | droplite-frontend/src/features/files/fileSlice.ts:108-111 | marks the id as deleting and clears the error; the records and the loading flag stay |
| FileSlice.FileSliceState.DeleteSettle | droplite-frontend/src/features/files/fileSlice.ts:112-119 | the deleting mark is cleared on success and on failure; success leaves no record with the id; failure leaves the records unchanged |
| FileSlice.RefetchIsIdempotent | droplite-frontend/src/features/files/fileSlice.ts:77-88 | fetching an unchanged server list twice yields the same records both times |
| FileSlice.UploadThenDelete | droplite-frontend/src/features/files/fileSlice.ts:91-119 | from one record, an upload and a delete of the first record leave only the upload; a failed delete then keeps the records, clears its mark and reports the fallback |
| FileManager.FileManagerState.constructor | droplite-frontend/src/hooks/useFileManager.ts:5-7 | the hook starts with no records, not loading and no error |
| FileManager.FileManagerState.Begin | droplite-frontend/src/hooks/useFileManager.ts:10-11 | fetch, upload and delete first set loading and clear the error, keeping the records |
| FileManager.FileManagerState.FetchSettle | droplite-frontend/src/hooks/useFileManager.ts:9-21 | success replaces the records; failure keeps them and sets the fixed fetch error; loading ends either way |
| FileManager.FileManagerState.UploadSettle | droplite-frontend/src/hooks/useFileManager.ts:23-37 | success prepends and returns the record, keeping ids unique when its id is new; failure sets the error to the caught message and rethrows a new `Error` with that message |
| FileManager.FileManagerState.DeleteSettle | droplite-frontend/src/hooks/useFileManager.ts:39-52 | success removes the id's records and keeps ids unique; failure keeps the records, sets the fixed delete error and rethrows the original value |
| FileManager.FileManagerState.Download | droplite-frontend/src/hooks/useFileManager.ts:54-62 | never touches the records or the loading flag; failure sets the fixed download error and rethrows |
| App.AlertMessage | droplite-frontend/src/App.tsx:92-96 | the banner is shown exactly when either error is truthy, prefers the hook's error, and never shows an empty message |
| App.AppState.Alert | droplite-frontend/src/App.tsx:92-96 | the banner shows the hook's error when truthy, else the upload error when truthy, and nothing otherwise |
| App.NoRowDeletePending | droplite-frontend/src/App.tsx:109-115 | the table is given no `deletingId`, so no row's delete control is pending (FileList.tsx marks a row pending exactly when its id is the pending id) |
| App.AppState.constructor | droplite-frontend/src/App.tsx:31-42 | the application starts with a fresh hook state, no upload error and no download in progress |
| App.AppState.Mount | droplite-frontend/src/App.tsx:44-46 | mounting starts a fetch: loading is set and the error cleared |
| App.AppState.HandleUploadBegin | droplite-frontend/src/App.tsx:48-51 | the upload handler clears its own error before the hook's upload starts |
| App.AppState.HandleUploadSettle | droplite-frontend/src/App.tsx:48-56 | success keeps the upload error and prepends the record; failure sets the upload error to the hook's rethrown message, which equals the hook's error and is what the banner shows |
| App.AppState.HandleDeleteBegin | droplite-frontend/src/App.tsx:58-60 | the delete handler starts the hook's delete without clearing the upload error |
| App.AppState.HandleDeleteSettle | droplite-frontend/src/App.tsx:58-65 | success removes the record and keeps the upload error; failure records the rethrown message in the upload error |
| App.AppState.HandleDownloadBegin | droplite-frontend/src/App.tsx:67-70 | the row being downloaded is marked, so its download control is pending (the row's id equals `downloadingId`) |
| App.AppState.HandleDownloadSettle | droplite-frontend/src/App.tsx:67-77 | the download mark is cleared on success and on failure; success leaves the upload error and the hook's error as they were; failure records the message in the upload error and the hook's error |
| App.StaleUploadError | droplite-frontend/src/App.tsx:48-65 | after a failed upload and a successful delete, the hook's error is cleared and the record gone, yet the banner still shows the upload's message |
| FileList.GetFileIcon | droplite-frontend/src/components/FileList.tsx:43-52 | for each icon, exactly when it is chosen: the PDF icon for any type mentioning pdf, then image, table, document and code in that order, and the generic icon when no test matches |
| FileList.VisibleRows | droplite-frontend/src/components/FileList.tsx:136-137 | a page shows at most one page of rows: none past the end, the remainder on the last page, and row i is record page times page size plus i |
| FileList.RecordOnItsPage | droplite-frontend/src/components/FileList.tsx:136-137 | record i is row i mod page size of page i div page size |
| FileList.PagesDisjoint | droplite-frontend/src/components/FileList.tsx:136-137 | rows of a later page come from strictly later positions, so no record appears on two pages |
| FileList.Pagination.constructor | droplite-frontend/src/components/FileList.tsx:70-71 | the table starts on page 0 with 10 rows per page |
| FileList.Pagination.ChangePage | droplite-frontend/src/components/FileList.tsx:77-79 | changes the page and keeps the page size |
| FileList.Pagination.ChangeRowsPerPage | droplite-frontend/src/components/FileList.tsx:81-84 | a new page size returns to page 0 |
| FileList.Display | droplite-frontend/src/components/FileList.tsx:103-119 | the spinner exactly while loading with no records, the empty message exactly when idle with no records, the table exactly when there are records |
| FileList.AtMostOnePendingRow | droplite-frontend/src/components/FileList.tsx:177-193 | a row is pending exactly when its id equals `downloadingId` (or `deletingId`); with unique ids such an id marks at most one row |
| FilePreview.PreviewExtension | droplite-frontend/src/components/FilePreviewModal.tsx:73 | the lower-cased text after the last '.', which is dot-free; the whole lower-cased name when there is no '.' |
| FilePreview.Classify | droplite-frontend/src/components/FilePreviewModal.tsx:76-151 | image exactly for jpg, jpeg and png; text exactly for txt and json; unsupported exactly for everything else |
| FilePreview.SkipsFetch | droplite-frontend/src/components/FilePreviewModal.tsx:35-41 | the content fetch is skipped for no file, and for a file exactly when the list gives it the PDF or the image icon |
| FilePreview.PreviewExtensionOfSuffix | droplite-frontend/src/components/FilePreviewModal.tsx:73 | the preview extension of a stem, '.' and a dot-free extension is that extension lower-cased, whatever dots the stem holds |
| FilePreview.UpperCaseImageName | droplite-frontend/src/components/FilePreviewModal.tsx:73-76 | the extension is compared case-insensitively: any name ending in ".PNG" previews as an image |
| FilePreview.Preview | droplite-frontend/src/components/FilePreviewModal.tsx:63-73 | nothing is rendered exactly when there is no file; a name with a '.' is classified by the validator's extension lower-cased, a name without one by the whole lower-cased name |
| FilePreview.TextPaneView | droplite-frontend/src/components/FilePreviewModal.tsx:108-135 | the spinner exactly while loading; otherwise the error alert exactly when the error is truthy; otherwise the content when it is truthy, else the placeholder |
| FilePreview.PreviewState.constructor | droplite-frontend/src/components/FilePreviewModal.tsx:29-31 | no content, no error, not loading |
| FilePreview.PreviewState.FetchBegin | droplite-frontend/src/components/FilePreviewModal.tsx:34-44 | the fetch starts exactly when there is a file whose type is neither image nor pdf, and then sets loading and clears the error; otherwise nothing changes |
| FilePreview.PreviewState.FetchSettle | droplite-frontend/src/components/FilePreviewModal.tsx:46-57 | success stores the text; failure, a non-ok response included, sets the fixed load error; loading ends either way |
| FileUpload.RejectionMessage | droplite-frontend/src/components/FileUpload.tsx:61-71 | too-large exactly when that code is present, carrying the size limit; invalid-type exactly when it is present without too-large; the generic message otherwise |
| FileUpload.AcceptEntries | droplite-frontend/src/components/FileUpload.tsx:52-55 | the fold's keys are the starting keys plus every type; each type maps to the empty list and other keys keep their values |
| FileUpload.AcceptMap | droplite-frontend/src/components/FileUpload.tsx:52-55 | the accept map has exactly one key per accepted type, each mapped to the empty list |
| FileUpload.UploadZone.constructor | droplite-frontend/src/components/FileUpload.tsx:13-32 | the dropzone as mounted: the default types, the 10 MiB limit, no drag and no error |
| FileUpload.UploadZone.DragEnter | droplite-frontend/src/components/FileUpload.tsx:58 | a drag over the zone activates it and keeps the error |
| FileUpload.UploadZone.DragLeave | droplite-frontend/src/components/FileUpload.tsx:59 | leaving deactivates it and keeps the error |
| FileUpload.UploadZone.DropAccepted | droplite-frontend/src/components/FileUpload.tsx:60 | an accepted drop deactivates it and keeps the error |
| FileUpload.UploadZone.DropRejected | droplite-frontend/src/components/FileUpload.tsx:61-71 | a rejected drop deactivates it and shows the message chosen from the first rejection's codes |
| FileUpload.UploadZone.DropBegin | droplite-frontend/src/components/FileUpload.tsx:34-41 | with no accepted file nothing happens; otherwise the error is cleared and only the first file is uploaded |
| FileUpload.UploadZone.DropSettle | droplite-frontend/src/components/FileUpload.tsx:42-46 | a failed upload shows the caught message; a successful one leaves the error as it was |
| Consistency.ExtensionConventions | droplite-backend/src/main/java/com/droplite/service/FileStorageServiceImpl.java:81-84 | with a '.', the stored extension is the validator's with a leading dot and the preview's is the validator's lower-cased; without one, validator and storage give "" but the preview uses the whole lower-cased name |
| Consistency.DotlessNameMismatch | droplite-frontend/src/components/FilePreviewModal.tsx:73 | every name without a '.' that spells a previewable extension (such as "png") previews as an image or text, yet the backend refuses it |
| Consistency.PreviewSupportsExactlyAllowList | droplite-backend/src/main/java/com/droplite/util/FileValidator.java:10-12 | for a name with a '.', the preview offers an image or text view exactly for the backend's allowed extensions |
| Consistency.AcceptedUploadsArePreviewable | droplite-frontend/src/components/FilePreviewModal.tsx:73-88 | every upload the backend accepts can be previewed inline |
| Consistency.ExtensionOffAllowListRejected | droplite-backend/src/main/java/com/droplite/util/FileValidator.java:32-33 | a name whose lower-cased form ends in '.' and an extension off the allow-list is refused |
| Consistency.DropzoneAcceptsWhatBackendRejects | droplite-frontend/src/components/FileUpload.tsx:13-21 | the dropzone accepts PDF, CSV and Excel types, which the backend refuses by their extensions |
| Consistency.SizeLimitsAgree | droplite-frontend/src/components/FileUpload.tsx:23 | the dropzone's size limit equals the backend's |

## Left out

- `formatFileSize` in the file list: floating-point logarithms and rounding to two decimals are not modelled.
- The HTTP client (`api.ts`), the browser download (Blob, object URL, anchor click), `window.open` and image and iframe rendering: these are I/O. Their results are the `Outcome` parameters of the settle methods.
- The REST controller and the repository interface: they only translate HTTP requests to service calls and back.
- `getAllFiles` and `loadFileContent`: the first returns the repository's contents in the database's order, which the abstract map does not fix. The second only calls `loadAsResource`.
- `StringUtils.cleanPath`: treated as the identity on the original name. Uploaded names are plain file names without path segments.
- Lower-casing: only ASCII letters are lowered. Java's and JavaScript's full Unicode case mapping is not modelled.
- The random UUID, the creation timestamp and the database's id generation: these become a UUID parameter, a time parameter and a counter given to the constructor.
- FileStorage.FileStorageService.constructor: the failure to create the storage directory, which makes the source constructor throw, is not modelled; the initial records must already satisfy the service invariant (ids match their keys and lie below the next id).
- FileStorage.FileStorageService.Store: the failure points after validation (a failed copy, a failed save) are a parameter. Directory creation failures and exception messages are not modelled.
- FileStorage.FileStorageService.LoadAsResource: the readability check and the malformed-URL branch are folded into "the path is on disk".
- `MultipartFile.isEmpty` is modelled as a size of 0. A missing content type is not modelled: content types are strings.
- react-dropzone's own MIME matching and size check are not modelled. The model starts from the error codes of the first rejection.
- FileUpload.RejectionMessage: the too-large message carries the limit in bytes. The source formats it as megabytes with JavaScript number division.
- The Redux slice's `currentRequestId` is never read or written by the reducers. It is left out.
- The preview dialog's `open` flag, `selectedFile` and close handler: these are presentation state with no rule attached.
- Concurrency: an operation's begin and settle steps are separate methods, but only sequences of them that a client writes down are reasoned about. Arbitrary interleavings of in-flight requests are not explored.
- Logging to standard output and the console is not modelled.
