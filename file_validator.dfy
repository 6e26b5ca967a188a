/** The backend's upload checks: an allow-list of file extensions, matched
    case-insensitively against the text after the original name's last '.',
    and an inclusive 10 MiB size limit. */
module FileValidator {
  import opened Strings
  import opened Records

  /** A multipart upload as the backend receives it: the client's file name
      (absent when the part carries none), the declared content type and the
      size in bytes. */
  datatype MultipartFile = MultipartFile(originalFilename: Option<string>, contentType: string, size: nat)
  {
    /** The part has no content. */
    predicate IsEmpty()
    {
      size == 0
    }

    /** The part has content and a non-empty original name. */
    predicate HasName()
    {
      !IsEmpty() && originalFilename.Some? && originalFilename.value != ""
    }
  }

  const AllowedExtensions: seq<string> := ["txt", "jpg", "jpeg", "png", "json"]

  const MaxFileSize: nat := 10 * 1024 * 1024

  /** A copy of the allow-list; its entries are lower-case, non-empty and dot-free,
      which is what makes the lower-cased comparison in IsValidFileType work. */
  function GetAllowedExtensions(): (r: seq<string>)
    ensures |r| == 5
    ensures forall i :: 0 <= i < |r| ==> r[i] == AllowedExtensions[i]
    ensures forall e :: e in r ==> e != "" && '.' !in e && Lower(e) == e
  {
    AllowedExtensions
  }

  /** The text after the last '.', without the dot; "" when there is no '.'. */
  function GetFileExtension(filename: string): (r: string)
    ensures '.' !in r
    ensures '.' !in filename ==> r == ""
    ensures '.' in filename ==> |r| < |filename| && filename[|filename| - |r| - 1] == '.' && filename[|filename| - |r|..] == r
  {
    if '.' !in filename then "" else AfterLast(filename, '.')
  }

  /** The name from its last '.' on is that '.' followed by the validator's extension. */
  lemma LastDotSuffix(s: string)
    requires '.' in s
    ensures s[LastIndexOf(s, '.')..] == "." + GetFileExtension(s)
    ensures EndsWith(s, s[LastIndexOf(s, '.')..])
  {
    var k := LastIndexOf(s, '.');
    assert s[k..] == [s[k]] + s[k + 1..];
  }

  /** An upload's type is valid when the file is present and non-empty, has a
      non-empty name, and the lower-cased extension is on the allow-list. */
  function IsValidFileType(file: Option<MultipartFile>): (r: bool)
    ensures r ==> file.Some? && file.value.HasName()
    ensures file.Some? && file.value.size == 0 ==> !r
    ensures r ==> '.' in file.value.originalFilename.value
  {
    if file.None? || file.value.IsEmpty() then false
    else if file.value.originalFilename.None? || file.value.originalFilename.value == "" then false
    else Lower(GetFileExtension(file.value.originalFilename.value)) in AllowedExtensions
  }

  /** An upload's size is valid when the file is present and at most 10 MiB. */
  function IsValidFileSize(file: Option<MultipartFile>): (r: bool)
    ensures r <==> file.Some? && file.value.size <= 10485760
  {
    if file.None? then false else file.value.size <= MaxFileSize
  }

  /** Lower-casing a name and then taking its extension is the same as
      taking the extension and lower-casing it. */
  lemma ExtensionOfLower(filename: string)
    ensures GetFileExtension(Lower(filename)) == Lower(GetFileExtension(filename))
  {
    LastDotOfLower(filename);
    var k := LastIndexOf(filename, '.');
    if k >= 0 {
      assert filename[k] in filename;
      LowerSuffix(filename, k + 1);
    } else {
      assert '.' !in Lower(filename);
    }
  }

  /** A name with no '.' never has a valid type: its extension is "". */
  lemma NoDotIsInvalidType(file: MultipartFile)
    requires file.originalFilename.Some? && '.' !in file.originalFilename.value
    ensures !IsValidFileType(Some(file))
  {
  }

  /** A valid type means the lower-cased name ends in '.' and the allowed
      extension that matched. */
  lemma ValidTypeHasAllowedSuffix(file: MultipartFile)
    requires IsValidFileType(Some(file))
    ensures EndsWith(Lower(file.originalFilename.value), "." + Lower(GetFileExtension(file.originalFilename.value)))
  {
    var n := file.originalFilename.value;
    var low := Lower(n);
    ExtensionOfLower(n);
    LastDotOfLower(n);
    assert low[LastIndexOf(low, '.')] in low;
    LastDotSuffix(low);
  }

  /** A non-empty upload whose lower-cased name ends in '.' and an allowed
      extension has a valid type. */
  lemma AllowedSuffixIsValidType(file: MultipartFile, e: string)
    requires file.HasName() && e in AllowedExtensions
    requires EndsWith(Lower(file.originalFilename.value), "." + e)
    ensures IsValidFileType(Some(file))
  {
    var n := file.originalFilename.value;
    var low := Lower(n);
    ExtensionOfLower(n);
    assert e in GetAllowedExtensions();
    LastDotOfSuffix(low, e);
    assert low[|low| - |e| - 1] == '.';
    assert '.' in low;
  }

  /** For a non-empty upload with a non-empty name, the type is valid exactly
      when the lower-cased name ends in '.' followed by an allowed extension. */
  lemma ValidTypeIffAllowedSuffix(file: MultipartFile)
    requires file.HasName()
    ensures IsValidFileType(Some(file)) <==>
      exists e :: e in AllowedExtensions && EndsWith(Lower(file.originalFilename.value), "." + e)
  {
    var low := Lower(file.originalFilename.value);
    if IsValidFileType(Some(file)) {
      ValidTypeHasAllowedSuffix(file);
    }
    if exists e :: e in AllowedExtensions && EndsWith(low, "." + e) {
      var e :| e in AllowedExtensions && EndsWith(low, "." + e);
      AllowedSuffixIsValidType(file, e);
    }
  }
}
