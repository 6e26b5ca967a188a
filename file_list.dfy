/** The file table: an icon chosen from the MIME type by a fixed order of
    tests, a pagination window over the records, the choice between spinner,
    empty message and table, and the per-row pending markers. */
module FileList {
  import opened Strings
  import opened Records

  datatype FileIcon = PdfIcon | ImageIcon | TableIcon | DocIcon | CodeIcon | GenericIcon

  /** `getFileIcon`: the first matching test wins. */
  function GetFileIcon(contentType: string): (r: FileIcon)
    ensures r == PdfIcon <==> Contains(contentType, "pdf")
    ensures r == ImageIcon <==> !Contains(contentType, "pdf") && StartsWith(contentType, "image/")
    ensures r == TableIcon <==>
      !Contains(contentType, "pdf") && !StartsWith(contentType, "image/") &&
      (Contains(contentType, "spreadsheet") || Contains(contentType, "excel"))
    ensures r == DocIcon <==>
      !Contains(contentType, "pdf") && !StartsWith(contentType, "image/") &&
      !Contains(contentType, "spreadsheet") && !Contains(contentType, "excel") &&
      Contains(contentType, "text")
    ensures r == CodeIcon <==>
      !Contains(contentType, "pdf") && !StartsWith(contentType, "image/") &&
      !Contains(contentType, "spreadsheet") && !Contains(contentType, "excel") &&
      !Contains(contentType, "text") && Contains(contentType, "json")
    ensures r == GenericIcon <==>
      !Contains(contentType, "pdf") && !StartsWith(contentType, "image/") &&
      !Contains(contentType, "spreadsheet") && !Contains(contentType, "excel") &&
      !Contains(contentType, "text") && !Contains(contentType, "json")
  {
    if Contains(contentType, "pdf") then PdfIcon
    else if StartsWith(contentType, "image/") then ImageIcon
    else if Contains(contentType, "spreadsheet") || Contains(contentType, "excel") then TableIcon
    else if Contains(contentType, "text") then DocIcon
    else if Contains(contentType, "json") then CodeIcon
    else GenericIcon
  }

  /** The rows of one page: the slice that starts at page times page size and
      holds at most one page, with JavaScript's clamping of both ends to the length. */
  function VisibleRows(files: seq<FileRecord>, page: nat, rowsPerPage: nat): (r: seq<FileRecord>)
    ensures |r| <= rowsPerPage
    ensures |r| == if page * rowsPerPage >= |files| then 0
                   else if |files| - page * rowsPerPage < rowsPerPage then |files| - page * rowsPerPage
                   else rowsPerPage
    ensures forall i :: 0 <= i < |r| ==> r[i] == files[page * rowsPerPage + i]
  {
    var start := if page * rowsPerPage < |files| then page * rowsPerPage else |files|;
    var end := if page * rowsPerPage + rowsPerPage < |files| then page * rowsPerPage + rowsPerPage else |files|;
    files[start..end]
  }

  /** Every record is on exactly one page: record `i` is row `i % rowsPerPage`
      of page `i / rowsPerPage`, and no other page shows that index. */
  lemma RecordOnItsPage(files: seq<FileRecord>, rowsPerPage: nat, i: nat)
    requires rowsPerPage > 0 && i < |files|
    ensures i % rowsPerPage < |VisibleRows(files, i / rowsPerPage, rowsPerPage)|
    ensures VisibleRows(files, i / rowsPerPage, rowsPerPage)[i % rowsPerPage] == files[i]
  {
    var p := i / rowsPerPage;
    var k := i % rowsPerPage;
    assert p * rowsPerPage + k == i;
    assert p * rowsPerPage <= i;
  }

  /** Two different pages never show the same record position. */
  lemma PagesDisjoint(files: seq<FileRecord>, rowsPerPage: nat, p: nat, q: nat, a: nat, b: nat)
    requires p < q
    requires a < |VisibleRows(files, p, rowsPerPage)| && b < |VisibleRows(files, q, rowsPerPage)|
    ensures p * rowsPerPage + a < q * rowsPerPage + b
  {
    LaterPageStartsLater(p, q, rowsPerPage);
  }

  lemma LaterPageStartsLater(p: nat, q: nat, rowsPerPage: nat)
    requires p < q
    ensures p * rowsPerPage + rowsPerPage <= q * rowsPerPage
  {
    var d := q - p;
    assert q * rowsPerPage == p * rowsPerPage + d * rowsPerPage;
    assert d * rowsPerPage >= rowsPerPage by {
      assert d >= 1;
    }
  }

  /** The table's page and page size; changing the page size goes back to the first page. */
  class Pagination {
    var page: nat
    var rowsPerPage: nat

    constructor ()
      ensures page == 0 && rowsPerPage == 10
    {
      page := 0;
      rowsPerPage := 10;
    }

    /** `handleChangePage` */
    method ChangePage(newPage: nat)
      modifies this
      ensures page == newPage && rowsPerPage == old(rowsPerPage)
    {
      page := newPage;
    }

    /** `handleChangeRowsPerPage` */
    method ChangeRowsPerPage(value: nat)
      modifies this
      ensures rowsPerPage == value && page == 0
    {
      rowsPerPage := value;
      page := 0;
    }
  }

  datatype ListDisplay = Spinner | EmptyMessage | Table

  /** What the list shows: a spinner only while loading with no records, the
      empty message with no records otherwise, the table when there are records. */
  function Display(isLoading: bool, files: seq<FileRecord>): (r: ListDisplay)
    ensures r == Spinner <==> isLoading && files == []
    ensures r == EmptyMessage <==> !isLoading && files == []
    ensures r == Table <==> files != []
  {
    if isLoading && |files| == 0 then Spinner
    else if |files| == 0 then EmptyMessage
    else Table
  }

  /** A row's download or delete control is disabled and spinning exactly
      while its id is the pending one (`downloadingId` or `deletingId`); an
      absent id marks no row. */
  predicate RowPending(pendingId: Option<int>, id: int)
  {
    pendingId == Some(id)
  }

  /** With unique ids, one pending id marks at most one row of the table, for
      downloads and for deletes alike. */
  lemma AtMostOnePendingRow(files: seq<FileRecord>, pendingId: Option<int>, i: int, j: int)
    requires UniqueIds(files) && 0 <= i < j < |files|
    ensures !(RowPending(pendingId, files[i].id) && RowPending(pendingId, files[j].id))
  {
    assert files[i].id != files[j].id;
  }
}
