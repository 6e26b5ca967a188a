/** Facts that relate the frontend's rules to the backend's: the three
    extension conventions, the dropzone's accept list against the backend's
    allow-list, and the preview classes against the allow-list. */
module Consistency {
  import opened Strings
  import opened Records
  import opened FileValidator
  import FileStorage
  import FilePreview
  import FileUpload

  /** The three extensions of one name. With a '.', the stored one is the
      validator's with the dot in front, and the preview's is the validator's
      lower-cased. Without one, the validator and storage give "" while the
      preview gives the whole lower-cased name. */
  lemma ExtensionConventions(name: string)
    ensures '.' in name ==> FileStorage.StoredExtension(name) == "." + GetFileExtension(name)
    ensures '.' in name ==> FilePreview.PreviewExtension(name) == Lower(GetFileExtension(name))
    ensures '.' !in name ==> GetFileExtension(name) == "" && FileStorage.StoredExtension(name) == ""
    ensures '.' !in name ==> FilePreview.PreviewExtension(name) == Lower(name)
  {
    if '.' in name {
      var e := GetFileExtension(name);
      var p := FilePreview.PreviewExtension(name);
      assert |p| == |AfterLast(name, '.')|;
      assert AfterLast(name, '.') == e;
    }
  }

  /** A name with no '.' that spells a previewable extension, such as "png",
      previews as an image or as text, yet the backend refuses it. */
  lemma DotlessNameMismatch(file: MultipartFile)
    requires file.originalFilename.Some? && '.' !in file.originalFilename.value
    requires Lower(file.originalFilename.value) in FilePreview.ImageExtensions + FilePreview.TextExtensions
    ensures FilePreview.Classify(FilePreview.PreviewExtension(file.originalFilename.value)) != FilePreview.Unsupported
    ensures !IsValidFileType(Some(file))
  {
    NoDotIsInvalidType(file);
  }

  /** For a name with a '.', the preview offers an image or text view exactly
      for the extensions the backend accepts. */
  lemma PreviewSupportsExactlyAllowList(name: string)
    requires '.' in name
    ensures FilePreview.Classify(FilePreview.PreviewExtension(name)) != FilePreview.Unsupported
        <==> Lower(GetFileExtension(name)) in AllowedExtensions
  {
    ExtensionConventions(name);
    var e := Lower(GetFileExtension(name));
    assert e in AllowedExtensions <==> e in FilePreview.ImageExtensions || e in FilePreview.TextExtensions;
  }

  /** Every upload the backend accepts can be previewed inline. */
  lemma AcceptedUploadsArePreviewable(file: MultipartFile)
    requires IsValidFileType(Some(file))
    ensures FilePreview.Classify(FilePreview.PreviewExtension(file.originalFilename.value)) != FilePreview.Unsupported
  {
    PreviewSupportsExactlyAllowList(file.originalFilename.value);
  }

  /** A name whose lower-cased extension is not on the allow-list is refused. */
  lemma ExtensionOffAllowListRejected(file: MultipartFile, e: string)
    requires file.originalFilename.Some? && '.' !in e && e !in AllowedExtensions
    requires EndsWith(Lower(file.originalFilename.value), "." + e)
    ensures !IsValidFileType(Some(file))
  {
    var n := file.originalFilename.value;
    LastDotOfSuffix(Lower(n), e);
    ExtensionOfLower(n);
    var low := Lower(n);
    assert low[|low| - |e| - 1] == '.';
    assert '.' in low;
  }

  /** The dropzone's default list accepts PDF, CSV and Excel types, which
      the backend refuses by their extensions. */
  lemma DropzoneAcceptsWhatBackendRejects(file: MultipartFile, e: string)
    requires file.originalFilename.Some?
    requires e in ["pdf", "csv", "xls", "xlsx"]
    requires EndsWith(Lower(file.originalFilename.value), "." + e)
    ensures "application/pdf" in FileUpload.AcceptMap(FileUpload.DefaultAcceptedTypes)
    ensures "text/csv" in FileUpload.AcceptMap(FileUpload.DefaultAcceptedTypes)
    ensures "application/vnd.ms-excel" in FileUpload.AcceptMap(FileUpload.DefaultAcceptedTypes)
    ensures !IsValidFileType(Some(file))
  {
    assert FileUpload.DefaultAcceptedTypes[1] == "application/pdf";
    assert FileUpload.DefaultAcceptedTypes[4] == "text/csv";
    assert FileUpload.DefaultAcceptedTypes[5] == "application/vnd.ms-excel";
    ExtensionOffAllowListRejected(file, e);
  }

  /** Both sides cap uploads at 10 MiB. */
  lemma SizeLimitsAgree()
    ensures FileUpload.DefaultMaxSize == MaxFileSize
  {
  }
}
