/** The files page: the file list with its name search, selecting a file
    (with the detail panel on narrow windows), deleting a file, and the size
    label of a file. The window width is a parameter. */
module FilesView {
  import opened Wrappers
  import opened Seqs
  import Text

  datatype FileType = Folder | Image | Video | Audio | Archive | Document

  datatype FileItem = FileItem(
    id: string,
    name: string,
    fileType: FileType,
    size: Option<int>,
    items: Option<int>,
    path: string,
    mimeType: Option<string>,
    createdAt: string,
    updatedAt: string)

  /** Below this width selecting a file opens the mobile detail panel. */
  const DetailBreakpoint := 1024

  // ---------------------------------------------------------------- sizes

  function Pow(b: nat, e: nat): (r: nat)
    ensures b >= 1 ==> r >= 1
  {
    if e == 0 then 1 else b * Pow(b, e - 1)
  }

  /** `Math.floor(Math.log(bytes) / Math.log(1024))`, computed exactly: the
      largest unit whose size does not exceed `bytes`. */
  function UnitIndex(bytes: nat): (i: nat)
    requires bytes >= 1
    ensures Pow(1024, i) <= bytes < Pow(1024, i + 1)
  {
    if bytes < 1024 then 0 else 1 + UnitIndex(bytes / 1024)
  }

  /** `sizes[i]`, which is `undefined` past the last unit. */
  function UnitName(i: nat): string {
    if i < 5 then ["B", "KB", "MB", "GB", "TB"][i] else "undefined"
  }

  /** `(bytes / 1024^i).toFixed(1)` as a number of tenths, halves rounded up. */
  function Tenths(bytes: nat, i: nat): nat {
    (20 * bytes + Pow(1024, i)) / (2 * Pow(1024, i))
  }

  /** `parseFloat(...)` printed back: the tenths digit only when it is not 0. */
  function TenthsText(n: nat): string {
    if n % 10 == 0 then Text.NatToString(n / 10)
    else Text.NatToString(n / 10) + "." + [Text.DigitChar(n % 10)]
  }

  /** `formatFileSize`: `-` without a size, `0 B` for zero, otherwise the size
      in its largest unit with at most one decimal. A negative size gives
      `NaN undefined`, as the logarithm of a negative number does. */
  function FormatFileSize(bytes: Option<int>): (r: string)
    ensures bytes.None? ==> r == "-"
    ensures bytes == Some(0) ==> r == "0 B"
  {
    match bytes
    case None => "-"
    case Some(b) =>
      if b == 0 then "0 B"
      else if b < 0 then "NaN undefined"
      else
        var i := UnitIndex(b);
        TenthsText(Tenths(b, i)) + " " + UnitName(i)
  }

  /** Under a kilobyte the size is the exact byte count. */
  lemma SmallSizesInBytes(b: nat)
    requires 1 <= b < 1024
    ensures FormatFileSize(Some(b)) == Text.NatToString(b) + " B"
  {
    assert UnitIndex(b) == 0;
    assert Tenths(b, 0) == b * 10;
    assert (b * 10) / 10 == b;
  }

  /** The unit is the largest that fits: a size from 1024^i up to just below
      1024^(i+1) is labelled with unit i. */
  lemma UnitFits(b: nat, i: nat)
    requires Pow(1024, i) <= b < Pow(1024, i + 1)
    ensures UnitIndex(b) == i
  {
    var j := UnitIndex(b);
    if j < i {
      PowMonotone(j + 1, i);
    } else if i < j {
      PowMonotone(i + 1, j);
    }
  }

  lemma {:induction false} PowMonotone(a: nat, b: nat)
    requires a <= b
    ensures Pow(1024, a) <= Pow(1024, b)
    decreases b
  {
    if a < b {
      PowMonotone(a, b - 1);
    }
  }

  /** Examples: one and a half kilobytes, and a megabyte. */
  lemma SizeExamples()
    ensures FormatFileSize(Some(1536)) == "1.5 KB"
    ensures FormatFileSize(Some(1048576)) == "1 MB"
  {
    assert Pow(1024, 1) == 1024;
    UnitFits(1536, 1);
    assert Tenths(1536, 1) == 15;
    assert Text.NatToString(1) == "1";
    assert Pow(1024, 2) == 1048576;
    UnitFits(1048576, 2);
    assert Tenths(1048576, 2) == 10;
  }

  // ---------------------------------------------------------------- the list

  function NameMatches(query: string): FileItem -> bool {
    (f: FileItem) => Text.IncludesIgnoreCase(f.name, query)
  }

  function NotFile(id: string): FileItem -> bool {
    (f: FileItem) => f.id != id
  }

  /** `filteredFiles`: the files whose name contains the query, ignoring
      case, in order. */
  function FilterFiles(files: seq<FileItem>, query: string): (r: seq<FileItem>)
    ensures forall f :: f in r <==> f in files && Text.IncludesIgnoreCase(f.name, query)
  {
    Filter(files, NameMatches(query))
  }

  class FilesPage {
    var files: seq<FileItem>
    var searchQuery: string
    var selected: Option<FileItem>
    var showMobileDetail: bool

    constructor (files: seq<FileItem>)
      ensures this.files == files && searchQuery == "" && selected.None? && !showMobileDetail
    {
      this.files := files;
      searchQuery, selected, showMobileDetail := "", None, false;
    }

    /** `handleSelectFile`: always selects; opens the detail panel only on a
        window narrower than 1024. */
    method SelectFile(file: FileItem, innerWidth: int)
      modifies this
      ensures selected == Some(file)
      ensures showMobileDetail == (old(showMobileDetail) || innerWidth < DetailBreakpoint)
      ensures files == old(files) && searchQuery == old(searchQuery)
    {
      selected := Some(file);
      if innerWidth < DetailBreakpoint {
        showMobileDetail := true;
      }
    }

    /** `handleDeleteFile`: removes the files with the id; deleting the
        selected file clears the selection and closes the detail panel,
        deleting another keeps both. */
    method DeleteFile(id: string)
      modifies this
      ensures files == Filter(old(files), NotFile(id))
      ensures forall f :: f in files <==> f in old(files) && f.id != id
      ensures old(selected).Some? && old(selected).value.id == id ==> selected.None? && !showMobileDetail
      ensures !(old(selected).Some? && old(selected).value.id == id) ==>
        selected == old(selected) && showMobileDetail == old(showMobileDetail)
      ensures searchQuery == old(searchQuery)
    {
      files := Filter(files, NotFile(id));
      if selected.Some? && selected.value.id == id {
        selected := None;
        showMobileDetail := false;
      }
    }
  }
}
