/** The file record shared by the backend entity and the frontend `FileInfo`,
    the shape of a thrown JavaScript value, the outcome of an awaited call,
    and the operations the client state applies to a list of records. */
module Records {

  datatype Option<T> = None | Some(value: T)

  datatype Result<T, E> = Success(value: T) | Failure(error: E)

  /** One stored file: server id, generated storage name, the user's name,
      the storage path, the MIME type, the size in bytes and the upload time. */
  datatype FileRecord = FileRecord(
    id: int,
    filename: string,
    originalFilename: string,
    path: string,
    contentType: string,
    size: nat,
    createdAt: string)

  /** A value thrown by an awaited call: an `Error` object (an Axios error
      carries the server body's `message`, if any) or some other value. */
  datatype Thrown = ErrorObject(message: string, responseMessage: Option<string>) | NonError

  /** How an awaited call settles: it resolves with a value or rejects with a thrown value. */
  datatype Outcome<T> = Resolved(value: T) | Rejected(thrown: Thrown)

  /** JavaScript truthiness of a `string | null`: null and "" are falsy. */
  predicate Truthy(s: Option<string>)
  {
    s.Some? && s.value != ""
  }

  /** JavaScript's `||` on an optional string: `s` when truthy, else the fallback. */
  function OrElse(s: Option<string>, fallback: string): (r: string)
    ensures Truthy(s) ==> r == s.value
    ensures !Truthy(s) ==> r == fallback
    ensures fallback != "" ==> r != ""
  {
    if Truthy(s) then s.value else fallback
  }

  /** The message a catch block shows: an `Error`'s own message, or the fallback for any other thrown value. */
  function MessageOr(t: Thrown, fallback: string): (r: string)
    ensures t.ErrorObject? ==> r == t.message
    ensures t.NonError? ==> r == fallback
  {
    match t
    case ErrorObject(message, _) => message
    case NonError => fallback
  }

  /** The server body's message carried by a thrown value; only an Axios error carries one. */
  function ResponseMessage(t: Thrown): (r: Option<string>)
    ensures t.NonError? ==> r.None?
    ensures t.ErrorObject? ==> r == t.responseMessage
  {
    if t.ErrorObject? then t.responseMessage else None
  }

  /** No two records in the list share an id. */
  predicate UniqueIds(files: seq<FileRecord>)
  {
    forall i, j :: 0 <= i < j < |files| ==> files[i].id != files[j].id
  }

  predicate HasId(files: seq<FileRecord>, id: int)
  {
    exists i :: 0 <= i < |files| && files[i].id == id
  }

  /** The records whose id differs from `id`, in their order. */
  function WithoutId(files: seq<FileRecord>, id: int): (r: seq<FileRecord>)
    ensures |r| <= |files|
    ensures forall f :: f in r <==> f in files && f.id != id
  {
    if files == [] then []
    else if files[0].id == id then WithoutId(files[1..], id)
    else [files[0]] + WithoutId(files[1..], id)
  }

  /** Filtering distributes over concatenation: the kept records stay in
      their relative order. */
  lemma {:induction false} WithoutIdAppend(a: seq<FileRecord>, b: seq<FileRecord>, id: int)
    ensures WithoutId(a + b, id) == WithoutId(a, id) + WithoutId(b, id)
  {
    if a == [] {
      assert a + b == b;
    } else {
      assert (a + b)[0] == a[0];
      assert (a + b)[1..] == a[1..] + b;
      WithoutIdAppend(a[1..], b, id);
    }
  }

  /** A non-empty list has the id exactly when its head or its tail has it. */
  lemma HasIdCons(files: seq<FileRecord>, id: int)
    requires files != []
    ensures HasId(files, id) <==> files[0].id == id || HasId(files[1..], id)
  {
    if HasId(files[1..], id) {
      var i :| 0 <= i < |files[1..]| && files[1..][i].id == id;
      assert files[i + 1].id == id;
    }
    if HasId(files, id) && files[0].id != id {
      var i :| 0 <= i < |files| && files[i].id == id;
      assert files[1..][i - 1].id == id;
    }
  }

  /** The filter leaves the list as it was exactly when no record has the id,
      and otherwise makes it strictly shorter. */
  lemma {:induction false} WithoutIdUnchanged(files: seq<FileRecord>, id: int)
    ensures WithoutId(files, id) == files <==> !HasId(files, id)
    ensures HasId(files, id) ==> |WithoutId(files, id)| < |files|
  {
    if files != [] {
      var tail := files[1..];
      WithoutIdUnchanged(tail, id);
      HasIdCons(files, id);
      if files[0].id == id {
        assert |WithoutId(files, id)| <= |tail| < |files|;
      } else {
        assert WithoutId(files, id) == [files[0]] + WithoutId(tail, id);
        assert files == [files[0]] + tail;
      }
    }
  }

  /** Filtering twice by the same id is filtering once. */
  lemma WithoutIdIdempotent(files: seq<FileRecord>, id: int)
    ensures WithoutId(WithoutId(files, id), id) == WithoutId(files, id)
  {
    WithoutIdUnchanged(WithoutId(files, id), id);
  }

  /** Removing records keeps ids unique. */
  lemma {:induction false} WithoutIdKeepsUnique(files: seq<FileRecord>, id: int)
    requires UniqueIds(files)
    ensures UniqueIds(WithoutId(files, id))
  {
    if files != [] {
      var rest := WithoutId(files[1..], id);
      WithoutIdKeepsUnique(files[1..], id);
      if files[0].id != id {
        forall j | 0 <= j < |rest|
          ensures rest[j].id != files[0].id
        {
          assert rest[j] in files[1..];
          var k :| 0 <= k < |files[1..]| && files[1..][k] == rest[j];
          assert files[k + 1] == rest[j];
        }
        assert WithoutId(files, id) == [files[0]] + rest;
      }
    }
  }

  /** Prepending a record keeps ids unique exactly when its id is new. */
  lemma PrependKeepsUnique(r: FileRecord, files: seq<FileRecord>)
    requires UniqueIds(files)
    ensures UniqueIds([r] + files) <==> !HasId(files, r.id)
  {
    var s := [r] + files;
    if HasId(files, r.id) {
      var i :| 0 <= i < |files| && files[i].id == r.id;
      assert s[0].id == s[i + 1].id;
    } else {
      forall i, j | 0 <= i < j < |s|
        ensures s[i].id != s[j].id
      {
        if i == 0 {
          assert s[j] == files[j - 1];
        } else {
          assert s[i] == files[i - 1] && s[j] == files[j - 1];
        }
      }
    }
  }
}
