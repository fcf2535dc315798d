/**
 * The CSV to Excel tool: the upload gates of `_invoke`, the encoding
 * fallback, the empty-table check, the sheet name cleaner and the column
 * width rule of `CsvExcelConverter.convert`. pandas and openpyxl are outside
 * the model: the parse attempt per encoding is an oracle and the worksheet
 * is given by its cell texts.
 */
module CsvToExcel {
  import opened Wrappers
  import opened Text

  // ===========================================================================
  // Upload gates

  const MaxFileSize: nat := 50 * 1024 * 1024

  /** An uploaded file: its name, its extension (with the dot) and its bytes. */
  datatype InputFile = InputFile(filename: string, extension: Option<string>, blob: seq<byte>)

  /** What `_invoke` does with the upload before converting. */
  datatype Gate =
    | MissingLibraries
    | MissingInput
    | BadExtension(shown: string)
    | EmptyBlob
    | TooLarge(size: nat)
    | Accepted(warnNotCsv: bool)

  /** The bytes of ',', ';', tab and '|'. */
  const SeparatorBytes: set<byte> := {44, 59, 9, 124}

  /**
   * Whether the first KiB, decoded as UTF-8 ignoring errors, holds a common
   * separator. ASCII bytes decode to themselves whatever surrounds them, so
   * this is a test on the bytes.
   */
  predicate HasCsvStructure(blob: seq<byte>) {
    var header := if |blob| <= 1024 then blob else blob[..1024];
    exists i :: 0 <= i < |header| && header[i] in SeparatorBytes
  }

  function CheckUpload(librariesPresent: bool, input: Option<InputFile>): (g: Gate)
    ensures g.Accepted? <==>
      && librariesPresent && input.Some?
      && input.value.extension.Some? && Lower(input.value.extension.value) == ".csv"
      && 0 < |input.value.blob| <= MaxFileSize
    ensures g.Accepted? ==> (g.warnNotCsv <==> !HasCsvStructure(input.value.blob))
  {
    if !librariesPresent then MissingLibraries
    else if input.None? then MissingInput
    else
      var f := input.value;
      if f.extension.None? || f.extension.value == [] || Lower(f.extension.value) != ".csv" then
        BadExtension(if f.extension.None? || f.extension.value == [] then "None" else f.extension.value)
      else if |f.blob| == 0 then EmptyBlob
      else if |f.blob| > MaxFileSize then TooLarge(|f.blob|)
      else Accepted(!HasCsvStructure(f.blob))
  }

  /** A blob of exactly 50 MiB passes the size gate; one byte more does not. */
  lemma {:induction false} SizeBoundary(f: InputFile)
    requires f.extension == Some(".csv")
    ensures |f.blob| == MaxFileSize ==> CheckUpload(true, Some(f)).Accepted?
    ensures |f.blob| == MaxFileSize + 1 ==> CheckUpload(true, Some(f)) == TooLarge(MaxFileSize + 1)
  {
    assert Lower(".csv") == ".csv";
  }

  /**
   * The workbook is named after the upload: it ends in ".xlsx", and putting
   * the upload's own extension back in place of ".xlsx" gives the upload name.
   */
  function OutputName(filename: string): (r: string)
    ensures EndsWith(r, ".xlsx")
    ensures r[..|r| - 5] + Ext(filename) == filename
  {
    var r := Stem(filename) + ".xlsx";
    assert r[|r| - 5..] == ".xlsx";
    assert r[..|r| - 5] == Stem(filename);
    SplitExtShape(filename);
    r
  }

  // ===========================================================================
  // Sheet name

  /** The characters Excel refuses in a sheet name, in the order they are removed. */
  const InvalidSheetChars: seq<char> := ['\\', '/', '?', '*', '[', ']']
  const InvalidSheetSet: set<char> := {'\\', '/', '?', '*', '[', ']'}

  /** `_sanitize_sheet_name`: invalid characters removed, cut to 31, "Sheet1" when blank. */
  function SheetName(name: string): string {
    if name == [] then "Sheet1"
    else
      var cleaned := RemoveAll(name, InvalidSheetSet);
      var cut := if |cleaned| > 31 then cleaned[..31] else cleaned;
      if Strip(cut) == [] then "Sheet1" else cut
  }

  /** The loop of `_sanitize_sheet_name`: one replace(char, '') per invalid character. */
  method SanitizeSheetName(name: string) returns (r: string)
    ensures r == SheetName(name)
  {
    if name == [] {
      return "Sheet1";
    }
    r := name;
    ghost var removed: set<char> := {};
    RemoveAllAbsent(name, removed);
    for k := 0 to |InvalidSheetChars|
      invariant r == RemoveAll(name, removed)
      invariant forall c :: c in removed <==> c in InvalidSheetChars[..k]
    {
      RemoveCharAfterAll(name, removed, InvalidSheetChars[k]);
      r := ReplaceChar(r, InvalidSheetChars[k], "");
      assert InvalidSheetChars[..k + 1] == InvalidSheetChars[..k] + [InvalidSheetChars[k]];
      removed := removed + {InvalidSheetChars[k]};
    }
    assert InvalidSheetChars[..|InvalidSheetChars|] == InvalidSheetChars;
    assert removed == InvalidSheetSet;
    if |r| > 31 {
      r := r[..31];
    }
    if Strip(r) == [] {
      r := "Sheet1";
    }
  }

  /** "Sheet1" is itself a clean sheet name. */
  lemma {:induction false} Sheet1Clean()
    ensures forall i :: 0 <= i < |"Sheet1"| ==> "Sheet1"[i] !in InvalidSheetSet
    ensures Strip("Sheet1") != []
  {
    var s := "Sheet1";
    assert s[0] == 'S' && 'S' !in Whitespace;
    StripNonBlank(s, 0);
  }

  /** A sheet name is never empty, has at most 31 characters, holds none of \ / ? * [ ] and is not blank. */
  lemma {:induction false} SheetNameValid(name: string)
    ensures var r := SheetName(name);
      && 0 < |r| <= 31
      && (forall i :: 0 <= i < |r| ==> r[i] !in InvalidSheetSet)
      && Strip(r) != []
  {
    Sheet1Clean();
    var r := SheetName(name);
    if r != "Sheet1" {
      var cleaned := RemoveAll(name, InvalidSheetSet);
      forall i | 0 <= i < |r| ensures r[i] !in InvalidSheetSet {
        assert r[i] == cleaned[i];
      }
      StripEmptyNil();
    }
  }

  lemma {:induction false} StripEmptyNil()
    ensures Strip([]) == []
  {
    StripEmpty([]);
  }

  /** A name that is empty or only whitespace once cleaned becomes "Sheet1". */
  lemma {:induction false} SheetNameBlank(name: string)
    requires forall i :: 0 <= i < |name| ==> IsSpace(name[i]) || name[i] in InvalidSheetSet
    ensures SheetName(name) == "Sheet1"
  {
    if name != [] {
      var cleaned := RemoveAll(name, InvalidSheetSet);
      RemoveAllSpaces(name, InvalidSheetSet);
      var cut := if |cleaned| > 31 then cleaned[..31] else cleaned;
      assert forall k :: 0 <= k < |cut| ==> cut[k] == cleaned[k];
      StripEmpty(cut);
    }
  }

  /** What survives the removal is whitespace when everything outside `bad` was. */
  lemma {:induction false} RemoveAllSpaces(s: string, bad: set<char>)
    requires forall i :: 0 <= i < |s| ==> IsSpace(s[i]) || s[i] in bad
    ensures forall i :: 0 <= i < |RemoveAll(s, bad)| ==> IsSpace(RemoveAll(s, bad)[i])
  {
    if s != [] {
      RemoveAllSpaces(s[1..], bad);
      var head := if s[0] in bad then [] else [s[0]];
      var rest := RemoveAll(s[1..], bad);
      assert RemoveAll(s, bad) == head + rest;
      forall i | 0 <= i < |head + rest| ensures IsSpace((head + rest)[i]) {
        if i >= |head| {
          assert (head + rest)[i] == rest[i - |head|];
        }
      }
    }
  }

  /** Cleaning a sheet name twice gives the same name as cleaning it once. */
  lemma {:induction false} SheetNameIdempotent(name: string)
    ensures SheetName(SheetName(name)) == SheetName(name)
  {
    var r := SheetName(name);
    SheetNameValid(name);
    RemoveAllAbsent(r, InvalidSheetSet);
  }

  /**
   * The characters openpyxl refuses in a worksheet title. Excel forbids ':' as
   * well as the six characters `_sanitize_sheet_name` removes.
   */
  const TitleForbidden: set<char> := {'\\', '*', '?', ':', '/', '[', ']'}

  /** Whether openpyxl accepts `t` as a worksheet title: it must be non-empty and hold no forbidden character. */
  predicate TitleAccepted(t: string) {
    t != [] && forall i :: 0 <= i < |t| ==> t[i] !in TitleForbidden
  }

  /** The first forbidden character of a title, the one openpyxl's error names (a space when there is none). */
  function FirstForbidden(t: string): char {
    if t == [] then ' ' else if t[0] in TitleForbidden then t[0] else FirstForbidden(t[1..])
  }

  /** The message of the ValueError openpyxl raises for a refused title. */
  function TitleError(t: string): string {
    if t == [] then "Title must have at least one character"
    else "Invalid character " + [FirstForbidden(t)] + " found in sheet title"
  }

  /**
   * `_sanitize_sheet_name` keeps ':', so a file stem holding one yields a
   * sheet name that openpyxl refuses.
   */
  lemma {:induction false} SheetNameKeepsColon()
    ensures SheetName("q1:2024") == "q1:2024"
    ensures !TitleAccepted(SheetName("q1:2024"))
    ensures TitleError(SheetName("q1:2024")) == "Invalid character : found in sheet title"
  {
    var n := "q1:2024";
    assert n == ['q', '1', ':', '2', '0', '2', '4'];
    forall i | 0 <= i < |n| ensures n[i] !in InvalidSheetSet {
      assert n[i] == 'q' || n[i] == ':' || '0' <= n[i] <= '9';
    }
    ColonNameClean(n);
    ColonFirstForbidden(n);
  }

  /** In a title whose first two characters are allowed and whose third is ':', openpyxl's error names ':'. */
  lemma {:induction false} ColonFirstForbidden(n: string)
    requires |n| >= 3 && n[0] !in TitleForbidden && n[1] !in TitleForbidden && n[2] == ':'
    ensures !TitleAccepted(n)
    ensures TitleError(n) == "Invalid character : found in sheet title"
  {
    assert n[1..][0] == n[1];
    assert n[1..][1..] == n[2..];
    assert n[2..][0] == ':';
    assert FirstForbidden(n) == FirstForbidden(n[1..]);
    assert FirstForbidden(n[1..]) == FirstForbidden(n[2..]) == ':';
    assert "Invalid character " + [':'] + " found in sheet title" == "Invalid character : found in sheet title";
  }

  /** A short name holding no removed character and not starting with a space is kept whole. */
  lemma {:induction false} ColonNameClean(n: string)
    requires 0 < |n| <= 31 && !IsSpace(n[0])
    requires forall i :: 0 <= i < |n| ==> n[i] !in InvalidSheetSet
    ensures SheetName(n) == n
  {
    RemoveAllAbsent(n, InvalidSheetSet);
    StripNonBlank(n, 0);
  }

  /** The sheet name with ':' removed too, as Excel's naming rules require. */
  function ExcelSheetName(name: string): string {
    if name == [] then "Sheet1"
    else
      var cleaned := RemoveAll(name, TitleForbidden);
      var cut := if |cleaned| > 31 then cleaned[..31] else cleaned;
      if Strip(cut) == [] then "Sheet1" else cut
  }

  /**
   * The corrected name is always a title openpyxl accepts, at most 31
   * characters and not blank, and it differs from `SheetName` only for names
   * holding ':'.
   */
  lemma {:induction false} ExcelSheetNameAccepted(name: string)
    ensures TitleAccepted(ExcelSheetName(name)) && |ExcelSheetName(name)| <= 31
    ensures Strip(ExcelSheetName(name)) != []
    ensures ':' !in name ==> ExcelSheetName(name) == SheetName(name)
  {
    Sheet1Clean();
    var r := ExcelSheetName(name);
    if r != "Sheet1" {
      var cleaned := RemoveAll(name, TitleForbidden);
      forall i | 0 <= i < |r| ensures r[i] !in TitleForbidden {
        assert r[i] == cleaned[i];
      }
      StripEmptyNil();
    }
    if ':' !in name {
      RemoveAllColonFree(name);
    }
  }

  /** Without ':' in the name, removing it as well removes nothing more. */
  lemma {:induction false} RemoveAllColonFree(s: string)
    requires ':' !in s
    ensures RemoveAll(s, TitleForbidden) == RemoveAll(s, InvalidSheetSet)
  {
    if s != [] {
      assert s[0] in TitleForbidden <==> s[0] in InvalidSheetSet;
      RemoveAllColonFree(s[1..]);
    }
  }

  // ===========================================================================
  // Reading the CSV

  /** The encodings tried, in order. */
  const Encodings: seq<string> := ["utf-8", "gbk", "gb2312", "latin-1", "iso-8859-1"]

  /** The parsed table: column names and data rows, as pandas holds them. */
  datatype Frame = Frame(columns: seq<string>, rows: seq<seq<Option<string>>>)

  /** What `pd.read_csv` does with one encoding. */
  datatype ReadOutcome = Parsed(frame: Frame) | DecodeError | EmptyData | OtherError(error: string)

  /** The result of the encoding loop: a frame and the encoding that read it, or the failure message. */
  datatype ReadResult = Read(frame: Frame, encoding: string) | ReadFailed(message: string)

  /** The encoding loop: the first encoding that parses; only decode errors move on. */
  function ReadWith(encs: seq<string>, read: string -> ReadOutcome): (r: ReadResult)
    ensures r.Read? ==> r.encoding in encs && read(r.encoding) == Parsed(r.frame)
  {
    if encs == [] then ReadFailed("Unable to read CSV file with any supported encoding")
    else
      match read(encs[0])
      case Parsed(df) => Read(df, encs[0])
      case DecodeError => ReadWith(encs[1..], read)
      case EmptyData => ReadFailed("CSV file is empty")
      case OtherError(e) => ReadFailed("Error reading CSV: " + e)
  }

  /**
   * The loop reads with the first encoding that is not a decode error: when it
   * parses the frame is kept with that encoding, otherwise its error ends the
   * loop; when every encoding is a decode error the read fails.
   */
  lemma {:induction false} ReadWithFirst(encs: seq<string>, read: string -> ReadOutcome)
    ensures (forall i :: 0 <= i < |encs| ==> read(encs[i]).DecodeError?) ==>
      ReadWith(encs, read) == ReadFailed("Unable to read CSV file with any supported encoding")
    ensures forall i :: (0 <= i < |encs| && !read(encs[i]).DecodeError?
                         && (forall j :: 0 <= j < i ==> read(encs[j]).DecodeError?)) ==>
      ReadWith(encs, read) == match read(encs[i])
        case Parsed(df) => Read(df, encs[i])
        case EmptyData => ReadFailed("CSV file is empty")
        case OtherError(e) => ReadFailed("Error reading CSV: " + e)
        case DecodeError => ReadFailed("")
  {
    if encs != [] {
      ReadWithFirst(encs[1..], read);
      forall i | 0 < i < |encs| ensures encs[1..][i - 1] == encs[i] { }
    }
  }

  /** The encoding loop of `convert`, breaking at the first success. */
  method ReadCsv(read: string -> ReadOutcome) returns (r: ReadResult)
    ensures r == ReadWith(Encodings, read)
  {
    var k := 0;
    while k < |Encodings|
      invariant 0 <= k <= |Encodings|
      invariant ReadWith(Encodings, read) == ReadWith(Encodings[k..], read)
    {
      assert Encodings[k..][1..] == Encodings[k + 1..];
      match read(Encodings[k]) {
        case Parsed(df) =>
          return Read(df, Encodings[k]);
        case DecodeError =>
        case EmptyData =>
          return ReadFailed("CSV file is empty");
        case OtherError(e) =>
          return ReadFailed("Error reading CSV: " + e);
      }
      k := k + 1;
    }
    return ReadFailed("Unable to read CSV file with any supported encoding");
  }

  // ===========================================================================
  // Column widths

  /**
   * `str(cell.value)` of a written cell. A missing field is written with
   * pandas' default `na_rep`, the empty string, so its text is "".
   */
  function CellText(c: Option<string>): string {
    if c.None? then "" else c.value
  }

  function MaxLength(cells: seq<Option<string>>): (m: nat)
    ensures forall i :: 0 <= i < |cells| ==> |CellText(cells[i])| <= m
    ensures cells == [] ==> m == 0
    ensures cells != [] ==> exists i :: 0 <= i < |cells| && |CellText(cells[i])| == m
  {
    if cells == [] then 0
    else
      var m := MaxLength(cells[..|cells| - 1]);
      var l := |CellText(cells[|cells| - 1])|;
      if l > m then l else m
  }

  /**
   * `min(max_length + 2, 50)`: 50 exactly when some cell is at least 48
   * characters long, otherwise two wider than the longest cell.
   */
  function Width(cells: seq<Option<string>>): (w: nat)
    ensures 2 <= w <= 50
    ensures w == 50 <==> exists i :: 0 <= i < |cells| && |CellText(cells[i])| >= 48
    ensures w < 50 ==> forall i :: 0 <= i < |cells| ==> |CellText(cells[i])| + 2 <= w
    ensures w < 50 ==> cells == [] || exists i :: 0 <= i < |cells| && |CellText(cells[i])| + 2 == w
  {
    var m := MaxLength(cells) + 2;
    if m < 50 then m else 50
  }

  /** The worksheet's columns, header cell first: the header row followed by the data rows. */
  function SheetColumns(df: Frame): seq<seq<Option<string>>>
    requires Rectangular(df)
  {
    seq(|df.columns|, j requires 0 <= j < |df.columns| =>
      [Some(df.columns[j])] + seq(|df.rows|, r requires 0 <= r < |df.rows| => df.rows[r][j]))
  }

  /** The width pass: for each column the longest cell text, plus two, at most 50. */
  method ColumnWidths(columns: seq<seq<Option<string>>>) returns (widths: seq<nat>)
    ensures |widths| == |columns|
    ensures forall j :: 0 <= j < |columns| ==> widths[j] == Width(columns[j])
  {
    widths := [];
    for j := 0 to |columns|
      invariant |widths| == j
      invariant forall k :: 0 <= k < j ==> widths[k] == Width(columns[k])
    {
      var adjusted := ColumnWidth(columns[j]);
      widths := widths + [adjusted];
    }
  }

  /** One column of the width pass. */
  method ColumnWidth(column: seq<Option<string>>) returns (adjusted: nat)
    ensures adjusted == Width(column)
  {
    var maxLength := 0;
    for i := 0 to |column|
      invariant maxLength == MaxLength(column[..i])
    {
      assert column[..i + 1][..i] == column[..i];
      var len := |CellText(column[i])|;
      if len > maxLength {
        maxLength := len;
      }
    }
    assert column[..|column|] == column;
    adjusted := if maxLength + 2 < 50 then maxLength + 2 else 50;
  }

  // ===========================================================================
  // Conversion

  /** The workbook written: one sheet, the frame, and the width of each column. */
  datatype Workbook = Workbook(sheetName: string, frame: Frame, widths: seq<nat>)

  /** pandas' `df.empty`: no rows or no columns. */
  predicate EmptyFrame(df: Frame) {
    |df.rows| == 0 || |df.columns| == 0
  }

  predicate Rectangular(df: Frame) {
    forall r :: 0 <= r < |df.rows| ==> |df.rows[r]| == |df.columns|
  }

  function Widths(columns: seq<seq<Option<string>>>): (ws: seq<nat>)
    ensures |ws| == |columns|
    ensures forall j :: 0 <= j < |ws| ==> 2 <= ws[j] <= 50
  {
    seq(|columns|, j requires 0 <= j < |columns| => Width(columns[j]))
  }

  // ===========================================================================
  // Cell strings

  /** The control characters openpyxl refuses in a cell string: U+0000-U+0008, U+000B, U+000C and U+000E-U+001F. */
  predicate CellCharIllegal(c: char) {
    c < ' ' && c != '\t' && c != '\n' && c != '\r'
  }

  /** Whether openpyxl's cell setter accepts the string `s`. */
  predicate CellAccepted(s: string) {
    forall i :: 0 <= i < |s| ==> !CellCharIllegal(s[i])
  }

  /** Every header and every written field of the frame is accepted. */
  predicate FrameAccepted(df: Frame) {
    && (forall j :: 0 <= j < |df.columns| ==> CellAccepted(df.columns[j]))
    && (forall r, j :: 0 <= r < |df.rows| && 0 <= j < |df.rows[r]| ==> CellAccepted(CellText(df.rows[r][j])))
  }

  /** The strings of column j below its header, top to bottom. */
  function ColumnCells(df: Frame, j: nat): (r: seq<string>)
    requires Rectangular(df) && j < |df.columns|
    ensures |r| == |df.rows|
    ensures forall k :: 0 <= k < |df.rows| ==> r[k] == CellText(df.rows[k][j])
  {
    seq(|df.rows|, k requires 0 <= k < |df.rows| => CellText(df.rows[k][j]))
  }

  /** The body strings of the first n columns, column after column. */
  function BodyCells(df: Frame, n: nat): seq<string>
    requires Rectangular(df) && n <= |df.columns|
  {
    if n == 0 then [] else BodyCells(df, n - 1) + ColumnCells(df, n - 1)
  }

  /**
   * The strings `df.to_excel` hands to openpyxl, in pandas' order: the header
   * row, then the body column by column.
   */
  function WrittenCells(df: Frame): seq<string>
    requires Rectangular(df)
  {
    df.columns + BodyCells(df, |df.columns|)
  }

  /** The first string openpyxl refuses, the one whose IllegalCharacterError ends the write. */
  function FirstIllegal(cells: seq<string>): Option<string> {
    if cells == [] then None
    else if !CellAccepted(cells[0]) then Some(cells[0])
    else FirstIllegal(cells[1..])
  }

  /** The message of openpyxl's IllegalCharacterError for the string `v`. */
  function CellError(v: string): string {
    v + " cannot be used in worksheets."
  }

  /** Every string of the list is accepted. */
  predicate AllAccepted(cells: seq<string>) {
    forall i :: 0 <= i < |cells| ==> CellAccepted(cells[i])
  }

  /** The fields of the first n columns are all accepted. */
  predicate ColumnsAccepted(df: Frame, n: nat)
    requires Rectangular(df) && n <= |df.columns|
  {
    forall r, j :: 0 <= r < |df.rows| && 0 <= j < n ==> CellAccepted(CellText(df.rows[r][j]))
  }

  /** FirstIllegal is None exactly when every string is accepted, and otherwise names the first refused one. */
  lemma {:induction false} FirstIllegalExact(cells: seq<string>)
    ensures FirstIllegal(cells).None? <==> AllAccepted(cells)
    ensures FirstIllegal(cells).Some? ==>
      exists i :: (0 <= i < |cells| && cells[i] == FirstIllegal(cells).value
                   && !CellAccepted(cells[i]) && AllAccepted(cells[..i]))
  {
    if cells != [] && CellAccepted(cells[0]) {
      var tail := cells[1..];
      FirstIllegalExact(tail);
      assert cells == [cells[0]] + tail;
      AllAcceptedAppend([cells[0]], tail);
      if FirstIllegal(tail).Some? {
        var i :| (0 <= i < |tail| && tail[i] == FirstIllegal(tail).value
                  && !CellAccepted(tail[i]) && AllAccepted(tail[..i]));
        assert cells[..i + 1] == [cells[0]] + tail[..i];
        AllAcceptedAppend([cells[0]], tail[..i]);
        assert cells[i + 1] == tail[i];
      }
    } else if cells != [] {
      assert !CellAccepted(cells[0]);
      assert cells[..0] == [];
    }
  }

  /** Acceptance of a concatenation is acceptance of both parts. */
  lemma {:induction false} AllAcceptedAppend(a: seq<string>, b: seq<string>)
    ensures AllAccepted(a + b) <==> AllAccepted(a) && AllAccepted(b)
  {
    var ab := a + b;
    forall i | 0 <= i < |a| ensures ab[i] == a[i] { }
    forall k | 0 <= k < |b| ensures ab[|a| + k] == b[k] { }
    if AllAccepted(a) && AllAccepted(b) {
      forall i | 0 <= i < |ab| ensures CellAccepted(ab[i]) {
        if i >= |a| {
          assert ab[i] == b[i - |a|];
        }
      }
    }
  }

  /** The body of the first n columns is accepted exactly when each of their fields is. */
  lemma {:induction false} BodyCellsAccepted(df: Frame, n: nat)
    requires Rectangular(df) && n <= |df.columns|
    ensures AllAccepted(BodyCells(df, n)) <==> ColumnsAccepted(df, n)
  {
    if n > 0 {
      BodyCellsAccepted(df, n - 1);
      var col := ColumnCells(df, n - 1);
      AllAcceptedAppend(BodyCells(df, n - 1), col);
      assert AllAccepted(col) <==> forall r :: 0 <= r < |df.rows| ==> CellAccepted(CellText(df.rows[r][n - 1]));
      if ColumnsAccepted(df, n - 1) && AllAccepted(col) {
        forall r, j | 0 <= r < |df.rows| && 0 <= j < n ensures CellAccepted(CellText(df.rows[r][j])) {
          if j == n - 1 {
            assert col[r] == CellText(df.rows[r][j]);
          }
        }
      }
    }
  }

  /** openpyxl accepts every string pandas writes exactly when the frame's headers and fields are all accepted. */
  lemma {:induction false} WrittenCellsAccepted(df: Frame)
    requires Rectangular(df)
    ensures FirstIllegal(WrittenCells(df)).None? <==> FrameAccepted(df)
  {
    FirstIllegalExact(WrittenCells(df));
    BodyCellsAccepted(df, |df.columns|);
    AllAcceptedAppend(df.columns, BodyCells(df, |df.columns|));
  }

  /** A field holding U+0001 is refused, and it is the string the write fails on. */
  lemma {:induction false} ControlCharRefused()
    ensures !CellAccepted("a\U{1}b")
    ensures FirstIllegal(["h", "a\U{1}b"]) == Some("a\U{1}b")
  {
    var bad := "a\U{1}b";
    assert CellCharIllegal(bad[1]);
    var h := "h";
    assert CellAccepted(h) by { assert |h| == 1 && h[0] == 'h'; }
    var cells := [h, bad];
    assert cells[0] == h && cells[1..] == [bad];
    assert FirstIllegal([bad]) == Some(bad);
  }

  function SuccessMessage(df: Frame, encoding: string, sheet: string): string {
    "Excel file created successfully with " + NatStr(|df.rows|) + " rows and "
    + NatStr(|df.columns|) + " columns using " + encoding + " encoding, sheet name: '" + sheet + "'"
  }

  /**
   * `convert`: the workbook and its success message, or the failure message.
   * Writing the frame fails, through the handler of `convert`, when openpyxl
   * refuses the sheet name, and after that when it refuses a header or field.
   */
  function Convert(inputName: string, fileSize: nat, read: string -> ReadOutcome): (r: Result<(Workbook, string)>)
    requires forall e :: read(e).Parsed? ==> Rectangular(read(e).frame)
    ensures r.Ok? ==> !EmptyFrame(r.value.0.frame) && 0 < fileSize
    ensures r.Ok? ==> (r.value.0.sheetName == SheetName(Stem(Basename(inputName)))
                       && TitleAccepted(r.value.0.sheetName))
    ensures r.Ok? ==> (Rectangular(r.value.0.frame)
                       && r.value.0.widths == Widths(SheetColumns(r.value.0.frame)))
    ensures r.Ok? ==> forall j :: 0 <= j < |r.value.0.widths| ==> 2 <= r.value.0.widths[j] <= 50
    ensures r.Ok? ==> FrameAccepted(r.value.0.frame)
  {
    if fileSize == 0 then Fail("CSV file is empty")
    else
      match ReadWith(Encodings, read)
      case ReadFailed(m) => Fail(m)
      case Read(df, enc) =>
        assert read(enc) == Parsed(df);
        if EmptyFrame(df) then Fail("CSV file is empty")
        else
          var sheet := SheetName(Stem(Basename(inputName)));
          if !TitleAccepted(sheet) then Fail(TitleError(sheet))
          else
            match FirstIllegal(WrittenCells(df))
            case Some(v) => Fail(CellError(v))
            case None =>
              WrittenCellsAccepted(df);
              var columns := SheetColumns(df);
              Ok((Workbook(sheet, df, Widths(columns)), SuccessMessage(df, enc, sheet)))
  }

  /** The body of `convert`: the size check, the encoding loop, the empty check, the sheet name and the width pass. */
  method ConvertCsv(inputName: string, fileSize: nat, read: string -> ReadOutcome) returns (r: Result<(Workbook, string)>)
    requires forall e :: read(e).Parsed? ==> Rectangular(read(e).frame)
    ensures r == Convert(inputName, fileSize, read)
  {
    if fileSize == 0 {
      return Fail("CSV file is empty");
    }
    var res := ReadCsv(read);
    if res.ReadFailed? {
      return Fail(res.message);
    }
    var df := res.frame;
    assert read(res.encoding) == Parsed(df);
    if EmptyFrame(df) {
      return Fail("CSV file is empty");
    }
    var sheet := SanitizeSheetName(Stem(Basename(inputName)));
    if !TitleAccepted(sheet) {
      return Fail(TitleError(sheet));
    }
    var illegal := FirstIllegal(WrittenCells(df));
    if illegal.Some? {
      return Fail(CellError(illegal.value));
    }
    var columns := SheetColumns(df);
    var widths := ColumnWidths(columns);
    assert widths == Widths(columns);
    assert ReadWith(Encodings, read) == Read(df, res.encoding);
    r := Ok((Workbook(sheet, df, widths), SuccessMessage(df, res.encoding, sheet)));
  }

  /**
   * A frame read only after decode errors with the earlier encodings is
   * converted under that encoding, unless openpyxl refuses the sheet name
   * (a stem holding ':') or one of the strings written, in which case its
   * error is the result.
   */
  lemma {:induction false} ConvertUsesFirstParse(inputName: string, fileSize: nat, read: string -> ReadOutcome, i: nat)
    requires forall e :: read(e).Parsed? ==> Rectangular(read(e).frame)
    requires fileSize > 0 && i < |Encodings|
    requires forall j :: 0 <= j < i ==> read(Encodings[j]).DecodeError?
    requires read(Encodings[i]).Parsed? && !EmptyFrame(read(Encodings[i]).frame)
    ensures var r := Convert(inputName, fileSize, read);
      var sheet := SheetName(Stem(Basename(inputName)));
      var df := read(Encodings[i]).frame;
      && (r.Ok? <==> TitleAccepted(sheet) && FrameAccepted(df))
      && (r.Ok? ==> r.value.0.frame == df && r.value.0.sheetName == sheet)
      && (!TitleAccepted(sheet) ==> r == Fail(TitleError(sheet)))
      && (TitleAccepted(sheet) && FirstIllegal(WrittenCells(df)).Some? ==> r == Fail(CellError(FirstIllegal(WrittenCells(df)).value)))
  {
    ReadWithFirst(Encodings, read);
    WrittenCellsAccepted(read(Encodings[i]).frame);
  }
}
