/** The preview dialog: it classifies a record by the lower-cased text after
    the last '.' of its original name (image, text or unsupported), skips the
    content fetch for images and PDFs, and keeps loading, error and content
    cells for the fetch it does run. */
module FilePreview {
  import opened Strings
  import opened Records
  import FileValidator
  import FileList

  const ImageExtensions: seq<string> := ["jpg", "jpeg", "png"]
  const TextExtensions: seq<string> := ["txt", "json"]
  const LoadError := "Failed to load file content"
  const NoContent := "No content to display"

  datatype PreviewKind = ImagePreview | TextPreview | Unsupported

  /** The preview's extension: the lower-cased text
      after the last '.', or the whole lower-cased name when there is none. */
  function PreviewExtension(name: string): (r: string)
    ensures |r| <= |name|
    ensures '.' !in r
    ensures '.' !in name ==> r == Lower(name)
    ensures '.' in name ==> |r| < |name| && name[|name| - |r| - 1] == '.' && r == Lower(name[|name| - |r|..])
  {
    var ext := AfterLast(name, '.');
    assert forall i :: 0 <= i < |ext| ==> Lower(ext)[i] != '.' by {
      forall i | 0 <= i < |ext| ensures Lower(ext)[i] != '.' {
        assert ext[i] in ext;
      }
    }
    Lower(ext)
  }

  /** The three disjoint preview classes, image extensions checked first. */
  function Classify(ext: string): (r: PreviewKind)
    ensures r == ImagePreview <==> ext in ImageExtensions
    ensures r == TextPreview <==> ext in TextExtensions
    ensures r == Unsupported <==> ext !in ImageExtensions && ext !in TextExtensions
  {
    if ext in ImageExtensions then ImagePreview
    else if ext in TextExtensions then TextPreview
    else Unsupported
  }

  /** The extension of `stem.ext` is `ext` lower-cased, whatever dots the stem holds. */
  lemma PreviewExtensionOfSuffix(stem: string, ext: string)
    requires '.' !in ext
    ensures PreviewExtension(stem + "." + ext) == Lower(ext)
  {
    var name := stem + "." + ext;
    assert name[|name| - |ext| - 1..] == "." + ext;
    LastDotOfSuffix(name, ext);
  }

  /** The extension is compared case-insensitively: any name ending in ".PNG" previews as an image. */
  lemma UpperCaseImageName(stem: string)
    ensures Classify(PreviewExtension(stem + "." + "PNG")) == ImagePreview
  {
    PreviewExtensionOfSuffix(stem, "PNG");
    assert Lower("PNG") == "png";
  }

  /** The content fetch is skipped for no file, for an image type and for
      any type that mentions pdf: exactly the records the file list marks
      with the PDF or the image icon. */
  predicate SkipsFetch(file: Option<FileRecord>)
    ensures file.None? ==> SkipsFetch(file)
    ensures file.Some? ==>
      (SkipsFetch(file) <==> FileList.GetFileIcon(file.value.contentType) in {FileList.PdfIcon, FileList.ImageIcon})
  {
    file.None? || StartsWith(file.value.contentType, "image/") || Contains(file.value.contentType, "pdf")
  }

  /** What the dialog renders: nothing without a file, otherwise the
      preview chosen from the original name. With a '.', the class is that
      of the backend validator's extension lower-cased; without one, that of
      the whole lower-cased name. */
  function Preview(file: Option<FileRecord>): (r: Option<PreviewKind>)
    ensures r.None? <==> file.None?
    ensures file.Some? && '.' in file.value.originalFilename ==>
      r.value == Classify(Lower(FileValidator.GetFileExtension(file.value.originalFilename)))
    ensures file.Some? && '.' !in file.value.originalFilename ==> r.value == Classify(Lower(file.value.originalFilename))
  {
    if file.None? then None else Some(Classify(PreviewExtension(file.value.originalFilename)))
  }

  datatype TextPane = Spinner | ErrorAlert(message: string) | Content(text: string)

  /** The text preview's body: the spinner while loading, then the error if
      there is one, then the content or a placeholder when it is empty. */
  function TextPaneView(isLoading: bool, error: Option<string>, fileContent: Option<string>): (r: TextPane)
    ensures r.Spinner? <==> isLoading
    ensures r.ErrorAlert? ==> Truthy(error) && r.message == error.value
    ensures r.ErrorAlert? <==> !isLoading && Truthy(error)
    ensures r.Content? ==> !Truthy(error) && r.text != ""
    ensures r.Content? && Truthy(fileContent) ==> r.text == fileContent.value
    ensures r.Content? && !Truthy(fileContent) ==> r.text == NoContent
  {
    if isLoading then Spinner
    else if Truthy(error) then ErrorAlert(error.value)
    else Content(OrElse(fileContent, NoContent))
  }

  class PreviewState {
    var fileContent: Option<string>
    var error: Option<string>
    var isLoading: bool

    constructor ()
      ensures fileContent == None && error == None && !isLoading
    {
      fileContent := None;
      error := None;
      isLoading := false;
    }

    /** The effect up to the awaited fetch: nothing happens when the fetch
        is skipped; otherwise loading is set and the error cleared. */
    method FetchBegin(file: Option<FileRecord>) returns (started: bool)
      modifies this
      ensures started <==> !SkipsFetch(file)
      ensures started ==> isLoading && error == None && fileContent == old(fileContent)
      ensures !started ==> isLoading == old(isLoading) && error == old(error) && fileContent == old(fileContent)
    {
      if file.None? {
        return false;
      }
      if StartsWith(file.value.contentType, "image/") || Contains(file.value.contentType, "pdf") {
        return false;
      }
      isLoading := true;
      error := None;
      started := true;
    }

    /** The rest of the fetch: the text is kept on success, a fixed message
        on failure (a non-ok response counts as one), and loading ends either way. */
    method FetchSettle(outcome: Outcome<string>)
      modifies this
      ensures !isLoading
      ensures outcome.Resolved? ==> fileContent == Some(outcome.value) && error == old(error)
      ensures outcome.Rejected? ==> error == Some(LoadError) && fileContent == old(fileContent)
    {
      if outcome.Resolved? {
        fileContent := Some(outcome.value);
      } else {
        error := Some(LoadError);
      }
      isLoading := false;
    }
  }
}
