/** The backend's storage service: it validates an upload, derives a storage
    name from a generated UUID and the original extension, copies the bytes
    to disk and saves the metadata; it deletes metadata even when the file on
    disk is already gone, but keeps it when the physical delete fails. The
    database is an abstract map from id to record and the disk a set of paths. */
module FileStorage {
  import opened Strings
  import opened Records
  import opened FileValidator

  datatype StorageError =
    | FileTypeNotAllowed          // validation failed; nothing was written
    | CouldNotStore(fileName: string)  // path guard, copy or save failed
    | FileNotFound(id: int)       // no metadata, or no file on disk
    | DeleteFailed(id: int)       // the physical delete raised an I/O error

  /** Where a store attempt fails after validation, if at all. */
  datatype StoreFault = NoFault | CopyFails | SaveFails

  /** The stored extension: the original name from its last '.', dot
      included, or "" when the name has no '.'. Unlike the validator's
      extension it keeps the dot. */
  function StoredExtension(originalFileName: string): (r: string)
    ensures '.' !in originalFileName ==> r == ""
    ensures '.' in originalFileName ==> r == "." + GetFileExtension(originalFileName)
    ensures EndsWith(originalFileName, r)
  {
    var k := LastIndexOf(originalFileName, '.');
    if k < 0 then ""
    else
      LastDotSuffix(originalFileName);
      originalFileName[k..]
  }

  /** The generated storage name: the UUID text followed by the stored extension. */
  function StoredFileName(uuid: string, originalFileName: string): (r: string)
    ensures StartsWith(r, uuid)
    ensures EndsWith(r, StoredExtension(originalFileName))
    ensures |r| == |uuid| + |StoredExtension(originalFileName)|
  {
    uuid + StoredExtension(originalFileName)
  }

  /** The path guard: a storage name containing ".", ".", side by side is refused. */
  predicate HasTraversal(fileName: string)
    ensures HasTraversal(fileName) <==>
      exists i :: 0 <= i < |fileName| - 1 && fileName[i] == '.' && fileName[i + 1] == '.'
  {
    ContainsPair(fileName, '.', '.');
    Contains(fileName, "..")
  }

  /** The target path of a stored name inside the storage directory. */
  function Resolve(location: string, fileName: string): (r: string)
    ensures StartsWith(r, location + "/")
    ensures EndsWith(r, fileName)
    ensures |r| == |location| + 1 + |fileName|
  {
    location + "/" + fileName
  }

  /** Different storage names resolve to different paths, so a store with a
      fresh name never replaces another record's file. */
  lemma ResolveInjective(location: string, a: string, b: string)
    requires Resolve(location, a) == Resolve(location, b)
    ensures a == b
  {
    var p := Resolve(location, a);
    assert a == p[|location| + 1..];
  }

  /** The text form of a random UUID: 36 characters, hex digits with dashes
      at positions 8, 13, 18 and 23. */
  predicate IsUuidText(u: string)
  {
    |u| == 36 &&
    forall i :: 0 <= i < 36 ==>
      if i == 8 || i == 13 || i == 18 || i == 23 then u[i] == '-'
      else '0' <= u[i] <= '9' || 'a' <= u[i] <= 'f'
  }

  lemma UuidTextHasNoDot(u: string)
    requires IsUuidText(u)
    ensures '.' !in u
  {
  }

  /** The guard never fires for a dot-free UUID: the stored extension holds a
      single '.', at its start, and the UUID ends in a character that is not one. */
  lemma {:induction false} DotFreeUuidNeverTraverses(uuid: string, originalFileName: string)
    requires '.' !in uuid
    ensures !HasTraversal(StoredFileName(uuid, originalFileName))
  {
    var ext := StoredExtension(originalFileName);
    var s := StoredFileName(uuid, originalFileName);
    ContainsPair(s, '.', '.');
    forall i | 0 <= i < |s| - 1 && s[i] == '.'
      ensures s[i + 1] != '.'
    {
      if i >= |uuid| {
        assert s[i] == ext[i - |uuid|] && s[i + 1] == ext[i + 1 - |uuid|];
        assert ext[1..][i - |uuid|] == ext[i + 1 - |uuid|];
      }
    }
  }

  /** A generated UUID never trips the path guard. */
  lemma GeneratedNameNeverTraverses(uuid: string, originalFileName: string)
    requires IsUuidText(uuid)
    ensures !HasTraversal(StoredFileName(uuid, originalFileName))
  {
    UuidTextHasNoDot(uuid);
    DotFreeUuidNeverTraverses(uuid, originalFileName);
  }

  class FileStorageService {
    const storageLocation: string
    var repository: map<int, FileRecord>
    var disk: set<string>
    var nextId: int

    /** Each record is stored under its own id, and every id in use lies
        below the next id the database will assign. */
    ghost predicate Valid()
      reads this
    {
      1 <= nextId &&
      forall id :: id in repository ==> repository[id].id == id && 1 <= id < nextId
    }

    /** The service over the records the injected repository already holds
        and the files already in the storage directory. */
    constructor (location: string, records: map<int, FileRecord>, files: set<string>, next: int)
      requires 1 <= next
      requires forall id :: id in records ==> records[id].id == id && 1 <= id < next
      ensures Valid()
      ensures storageLocation == location && repository == records && disk == files && nextId == next
    {
      storageLocation := location;
      repository := records;
      disk := files;
      nextId := next;
    }

    /** `getFileById`: the record, or not-found. */
    function GetFileById(id: int): (r: Result<FileRecord, StorageError>)
      reads this
      ensures r.Success? <==> id in repository
      ensures r.Success? ==> r.value == repository[id]
      ensures r.Failure? ==> r.error == FileNotFound(id)
    {
      if id in repository then Success(repository[id]) else Failure(FileNotFound(id))
    }

    /** `loadAsResource`: the stored path when the record exists and its
        file is on disk; not-found otherwise. */
    function LoadAsResource(id: int): (r: Result<string, StorageError>)
      reads this
      ensures r.Success? <==> id in repository && repository[id].path in disk
      ensures r.Success? ==> r.value == repository[id].path
      ensures r.Failure? ==> r.error == FileNotFound(id)
    {
      if id !in repository then Failure(FileNotFound(id))
      else if repository[id].path !in disk then Failure(FileNotFound(id))
      else Success(repository[id].path)
    }

    /** `store`: `uuid` is the generated UUID text, `fault` says where the
        attempt fails after validation, and `now` is the creation time. */
    method Store(file: MultipartFile, uuid: string, fault: StoreFault, now: string)
      returns (r: Result<FileRecord, StorageError>)
      requires Valid()
      modifies this
      ensures Valid()
      ensures !IsValidFileType(Some(file)) ==>
        r == Failure(FileTypeNotAllowed) && repository == old(repository) && disk == old(disk) && nextId == old(nextId)
      ensures IsValidFileType(Some(file)) ==>
        var name := StoredFileName(uuid, file.originalFilename.value);
        var target := Resolve(storageLocation, name);
        if HasTraversal(name) || fault == CopyFails then
          r == Failure(CouldNotStore(name)) && repository == old(repository) && disk == old(disk) && nextId == old(nextId)
        else if fault == SaveFails then
          r == Failure(CouldNotStore(name)) && repository == old(repository) && disk == old(disk) + {target} && nextId == old(nextId)
        else
          r == Success(FileRecord(old(nextId), name, file.originalFilename.value, target, file.contentType, file.size, now)) &&
          repository == old(repository)[old(nextId) := r.value] && disk == old(disk) + {target} && nextId == old(nextId) + 1
      ensures r.Success? ==> r.value.id !in old(repository) && GetFileById(r.value.id) == Success(r.value)
      ensures r.Success? ==> LoadAsResource(r.value.id) == Success(r.value.path)
      ensures r.Success? ==> EndsWith(r.value.filename, "." + GetFileExtension(r.value.originalFilename))
    {
      if !IsValidFileType(Some(file)) {
        return Failure(FileTypeNotAllowed);
      }
      var originalFileName := file.originalFilename.value;
      var fileName := StoredFileName(uuid, originalFileName);
      if HasTraversal(fileName) {
        return Failure(CouldNotStore(fileName));
      }
      var targetLocation := Resolve(storageLocation, fileName);
      if fault == CopyFails {
        return Failure(CouldNotStore(fileName));
      }
      disk := disk + {targetLocation};
      if fault == SaveFails {
        return Failure(CouldNotStore(fileName));
      }
      assert EndsWith(fileName, "." + GetFileExtension(originalFileName)) by {
        assert '.' in originalFileName;
        assert StoredExtension(originalFileName) == "." + GetFileExtension(originalFileName);
      }
      var entity := FileRecord(nextId, fileName, originalFileName, targetLocation, file.contentType, file.size, now);
      repository := repository[nextId := entity];
      nextId := nextId + 1;
      r := Success(entity);
    }

    /** `deleteFile`: `ioFails` says whether deleting the physical file
        raises an I/O error. */
    method DeleteFile(id: int, ioFails: bool) returns (r: Result<(), StorageError>)
      requires Valid()
      modifies this
      ensures Valid() && nextId == old(nextId)
      ensures id !in old(repository) ==>
        r == Failure(FileNotFound(id)) && repository == old(repository) && disk == old(disk)
      ensures id in old(repository) && ioFails ==>
        r == Failure(DeleteFailed(id)) && repository == old(repository) && disk == old(disk)
      ensures id in old(repository) && !ioFails ==>
        r == Success(()) && repository == old(repository) - {id} && disk == old(disk) - {old(repository)[id].path}
      ensures r.Success? ==> GetFileById(id) == Failure(FileNotFound(id))
    {
      if id !in repository {
        return Failure(FileNotFound(id));
      }
      var entity := repository[id];
      if ioFails {
        return Failure(DeleteFailed(id));
      }
      // deleteIfExists: the metadata goes whether or not the file was on disk
      disk := disk - {entity.path};
      repository := repository - {id};
      r := Success(());
    }
  }

  /** Metadata is removed even when the file had already vanished from disk:
      the record cannot be loaded, yet deleting it succeeds and the record is gone. */
  method DeleteWithMissingFile(location: string, record: FileRecord)
    returns (loaded: Result<string, StorageError>, deleted: Result<(), StorageError>, after: Result<FileRecord, StorageError>)
    requires record.id == 1
    ensures loaded == Failure(FileNotFound(1))
    ensures deleted == Success(())
    ensures after == Failure(FileNotFound(1))
  {
    var service := new FileStorageService(location, map[1 := record], {}, 2);
    loaded := service.LoadAsResource(1);
    deleted := service.DeleteFile(1, false);
    after := service.GetFileById(1);
  }
}
