/**
 * The Excel to CSV tool: the upload gates of `_invoke` and
 * `ExcelCsvConverter.convert` — one CSV file per worksheet, named after the
 * workbook and the cleaned sheet name, with pandas' "Unnamed: n" headers
 * blanked. Reading a workbook or a sheet is an oracle: a failure is given as
 * an absent result.
 */
module ExcelToCsv {
  import opened Wrappers
  import opened Text

  // ===========================================================================
  // Upload gates

  const MaxFileSize: nat := 50 * 1024 * 1024

  /** An uploaded file: its name, its extension (with the dot) and its bytes. */
  datatype InputFile = InputFile(filename: string, extension: Option<string>, blob: seq<byte>)

  /** What `_invoke` does with the upload before converting. */
  datatype Gate =
    | MissingLibraries
    | MissingInput
    | BadExtension(shown: string)
    | EmptyBlob
    | TooLarge(size: nat)
    | Accepted(warnNotExcel: bool)

  /**
   * The gates, in order. `opens` says whether pandas can open the blob as a
   * workbook; when it cannot, the tool only warns and goes on.
   */
  function CheckUpload(librariesPresent: bool, input: Option<InputFile>, opens: bool): (g: Gate)
    ensures g.Accepted? <==>
      && librariesPresent && input.Some?
      && input.value.extension.Some?
      && Lower(input.value.extension.value) in {".xlsx", ".xls"}
      && 0 < |input.value.blob| <= MaxFileSize
    ensures g.Accepted? ==> (g.warnNotExcel <==> !opens)
  {
    if !librariesPresent then MissingLibraries
    else if input.None? then MissingInput
    else
      var f := input.value;
      if f.extension.None? || f.extension.value == [] || Lower(f.extension.value) !in {".xlsx", ".xls"} then
        BadExtension(if f.extension.None? || f.extension.value == [] then "None" else f.extension.value)
      else if |f.blob| == 0 then EmptyBlob
      else if |f.blob| > MaxFileSize then TooLarge(|f.blob|)
      else Accepted(!opens)
  }

  // ===========================================================================
  // File names

  /** The characters replaced by '_' in a sheet's file name, in the order they are replaced. */
  const InvalidFileChars: seq<char> := ['\\', '/', ':', '*', '?', '"', '<', '>', '|']
  const InvalidFileSet: set<char> := {'\\', '/', ':', '*', '?', '"', '<', '>', '|'}
  /** What `strip(' .')` removes from both ends. */
  const EdgeChars: set<char> := {' ', '.'}

  /** `_sanitize_filename`: invalid characters become '_', spaces and dots trimmed, "sheet" when nothing is left. */
  function FileSafe(name: string): string {
    if name == [] then "sheet"
    else
      var t := Trim(Substitute(name, InvalidFileSet, '_'), EdgeChars);
      if t == [] then "sheet" else t
  }

  /** The loop of `_sanitize_filename`: one replace(char, '_') per invalid character. */
  method SanitizeFilename(name: string) returns (r: string)
    ensures r == FileSafe(name)
  {
    if name == [] {
      return "sheet";
    }
    r := name;
    ghost var done: set<char> := {};
    SubstituteNone(name, '_');
    for k := 0 to |InvalidFileChars|
      invariant r == Substitute(name, done, '_')
      invariant forall c :: c in done <==> c in InvalidFileChars[..k]
    {
      ReplaceCharAfterSubstitute(name, done, InvalidFileChars[k], '_');
      r := ReplaceChar(r, InvalidFileChars[k], "_");
      assert InvalidFileChars[..k + 1] == InvalidFileChars[..k] + [InvalidFileChars[k]];
      done := done + {InvalidFileChars[k]};
    }
    assert InvalidFileChars[..|InvalidFileChars|] == InvalidFileChars;
    assert done == InvalidFileSet;
    r := Trim(r, EdgeChars);
    if r == [] {
      r := "sheet";
    }
  }

  /** A name usable as a file name: non-empty, no invalid character, no space or dot at either end. */
  predicate CleanFileName(r: string) {
    && r != []
    && (forall i :: 0 <= i < |r| ==> r[i] !in InvalidFileSet)
    && r[0] !in EdgeChars && r[|r| - 1] !in EdgeChars
  }

  /** The file name of a sheet is never empty, holds no invalid character and has no space or dot at either end. */
  lemma {:induction false} FileSafeClean(name: string)
    ensures CleanFileName(FileSafe(name))
  {
    var t := Trim(Substitute(name, InvalidFileSet, '_'), EdgeChars);
    if name == [] || t == [] {
      SheetClean();
      assert FileSafe(name) == "sheet";
    } else {
      TrimmedClean(name);
      assert FileSafe(name) == t;
    }
  }

  lemma {:induction false} TrimmedClean(name: string)
    ensures var t := Trim(Substitute(name, InvalidFileSet, '_'), EdgeChars);
      t != [] ==> CleanFileName(t)
  {
    var sub := Substitute(name, InvalidFileSet, '_');
    assert '_' !in InvalidFileSet;
    SubstituteAvoids(name, InvalidFileSet, '_');
    TrimAvoids(sub, EdgeChars, InvalidFileSet);
  }

  lemma {:induction false} SheetClean()
    ensures CleanFileName("sheet")
  {
    var s := "sheet";
    assert s[0] == 's' && s[1] == 'h' && s[2] == 'e' && s[3] == 'e' && s[4] == 't';
  }

  /** Cleaning a sheet's file name twice gives the same name as cleaning it once. */
  lemma {:induction false} FileSafeIdempotent(name: string)
    ensures FileSafe(FileSafe(name)) == FileSafe(name)
  {
    var r := FileSafe(name);
    FileSafeClean(name);
    var sub := Substitute(r, InvalidFileSet, '_');
    assert sub == r;
    TrimStartStripped(r, EdgeChars);
    TrimEndStripped(r, EdgeChars);
  }

  /** A name made only of spaces and dots becomes "sheet". */
  lemma {:induction false} FileSafeFallback(name: string)
    requires forall i :: 0 <= i < |name| ==> name[i] in EdgeChars
    ensures FileSafe(name) == "sheet"
  {
    if name != [] {
      var sub := Substitute(name, InvalidFileSet, '_');
      TrimStartAll(sub, EdgeChars);
    }
  }

  /** The CSV file of a sheet: the workbook's stem alone when the sheet has the same name, ignoring case. */
  function CsvName(base: string, safeSheet: string): (r: string)
    ensures EndsWith(r, ".csv")
    ensures Lower(safeSheet) == Lower(base) ==> r == base + ".csv"
    ensures Lower(safeSheet) != Lower(base) ==> r == base + "_" + safeSheet + ".csv"
  {
    var r := if Lower(safeSheet) == Lower(base) then base + ".csv" else base + "_" + safeSheet + ".csv";
    assert r[|r| - 4..] == ".csv";
    r
  }

  // ===========================================================================
  // Headers

  /** pandas names a header cell it found empty "Unnamed: n"; those become "". */
  function BlankUnnamed(columns: seq<string>): (r: seq<string>)
    ensures |r| == |columns|
    ensures forall j :: 0 <= j < |columns| ==>
      (StartsWith(columns[j], "Unnamed: ") ==> r[j] == "") && (!StartsWith(columns[j], "Unnamed: ") ==> r[j] == columns[j])
  {
    seq(|columns|, j requires 0 <= j < |columns| => if StartsWith(columns[j], "Unnamed: ") then "" else columns[j])
  }

  /** Blanking the generated headers is idempotent. */
  lemma {:induction false} BlankUnnamedIdempotent(columns: seq<string>)
    ensures BlankUnnamed(BlankUnnamed(columns)) == BlankUnnamed(columns)
  {
    var r := BlankUnnamed(columns);
    forall j | 0 <= j < |r| ensures !StartsWith(r[j], "Unnamed: ") || r[j] == "" {
      if r[j] != "" {
        assert r[j] == columns[j];
      }
    }
  }

  // ===========================================================================
  // Conversion

  /** A worksheet as pandas reads it: header names and the number of data rows. */
  datatype Frame = Frame(columns: seq<string>, rowCount: nat)

  /** A worksheet of the workbook: its name, and its frame unless reading or writing it raised. */
  datatype Sheet = Sheet(name: string, frame: Option<Frame>)

  /** One entry of converted_files (its path is the output directory joined with `name`). */
  datatype CsvFile = CsvFile(name: string, sheetName: string, rows: nat, cols: nat, header: seq<string>)

  /** The CSV file written for a sheet that converted. */
  function FileOf(base: string, sheetName: string, df: Frame): CsvFile {
    CsvFile(CsvName(base, FileSafe(sheetName)), sheetName, df.rowCount, |df.columns|, BlankUnnamed(df.columns))
  }

  /** A sheet that converted: its name and its frame. */
  datatype Done = Done(sheetName: string, frame: Frame)

  /** The sheets that did not raise, in workbook order. */
  function Succeeded(sheets: seq<Sheet>): (done: seq<Done>)
    ensures |done| <= |sheets|
  {
    if sheets == [] then []
    else
      var sh := sheets[|sheets| - 1];
      Succeeded(sheets[..|sheets| - 1]) + (if sh.frame.None? then [] else [Done(sh.name, sh.frame.value)])
  }

  /** converted_files: one CSV file per sheet that converted. */
  function Files(base: string, done: seq<Done>): (files: seq<CsvFile>)
    ensures |files| == |done|
    ensures forall i :: 0 <= i < |done| ==> files[i] == FileOf(base, done[i].sheetName, done[i].frame)
  {
    seq(|done|, i requires 0 <= i < |done| => FileOf(base, done[i].sheetName, done[i].frame))
  }

  /** total_rows: the rows of the sheets that converted. */
  function SheetRows(sheets: seq<Sheet>): nat {
    if sheets == [] then 0
    else
      var sh := sheets[|sheets| - 1];
      SheetRows(sheets[..|sheets| - 1]) + (if sh.frame.None? then 0 else sh.frame.value.rowCount)
  }

  function DoneRows(done: seq<Done>): nat {
    if done == [] then 0 else DoneRows(done[..|done| - 1]) + done[|done| - 1].frame.rowCount
  }

  function Lines(files: seq<CsvFile>): string {
    if files == [] then ""
    else
      var f := files[|files| - 1];
      Lines(files[..|files| - 1]) + "- " + f.name + ": " + NatStr(f.rows) + " rows, " + NatStr(f.cols)
      + " columns (from sheet '" + f.sheetName + "')\n"
  }

  function Summary(files: seq<CsvFile>, totalRows: nat): string {
    "Converted " + NatStr(|files|) + " worksheet(s) to CSV files:\n" + Lines(files)
    + "Total: " + NatStr(totalRows) + " rows across all worksheets"
  }

  /** `convert`: the CSV files and the summary, or the failure message. */
  function Convert(inputName: string, workbook: Result<seq<Sheet>>): (r: Result<(seq<CsvFile>, string)>)
    ensures r.Ok? ==> workbook.Ok? && r.value.0 != []
    ensures r.Ok? ==> r.value.0 == Files(Stem(Basename(inputName)), Succeeded(workbook.value))
    ensures r.Ok? ==> r.value.1 == Summary(r.value.0, DoneRows(Succeeded(workbook.value)))
    ensures workbook.Fail? ==> r == Fail(workbook.message)
    ensures workbook.Ok? && workbook.value == [] ==> r == Fail("Excel file contains no worksheets")
    ensures workbook.Ok? && workbook.value != [] ==>
      && (r.Ok? <==> AnyConverted(workbook.value))
      && (r.Fail? ==> r.message == "Failed to convert any worksheets")
  {
    match workbook
    case Fail(e) => Fail(e)
    case Ok(sheets) =>
      if sheets == [] then Fail("Excel file contains no worksheets")
      else
        SucceededNone(sheets);
        var done := Succeeded(sheets);
        if done == [] then Fail("Failed to convert any worksheets")
        else
          var files := Files(Stem(Basename(inputName)), done);
          SucceededRows(sheets);
          Ok((files, Summary(files, SheetRows(sheets))))
  }

  /** total_rows is the sum of the rows of the sheets that converted: sheets that raised count nothing. */
  lemma {:induction false} SucceededRows(sheets: seq<Sheet>)
    ensures DoneRows(Succeeded(sheets)) == SheetRows(sheets)
  {
    if sheets != [] {
      var init := sheets[..|sheets| - 1];
      var sh := sheets[|sheets| - 1];
      SucceededRows(init);
      var done := Succeeded(init);
      if sh.frame.None? {
        assert Succeeded(sheets) == done;
      } else {
        assert Succeeded(sheets)[..|done|] == done;
      }
    }
  }

  /** Some sheet of the workbook did not raise. */
  predicate AnyConverted(sheets: seq<Sheet>) {
    exists i :: 0 <= i < |sheets| && sheets[i].frame.Some?
  }

  /** Some sheet converts exactly when some sheet did not raise. */
  lemma {:induction false} SucceededNone(sheets: seq<Sheet>)
    ensures AnyConverted(sheets) <==> Succeeded(sheets) != []
  {
    if sheets != [] {
      var init := sheets[..|sheets| - 1];
      var last := |sheets| - 1;
      SucceededNone(init);
      if AnyConverted(init) {
        var i :| 0 <= i < |init| && init[i].frame.Some?;
        assert sheets[i] == init[i];
      }
      if AnyConverted(sheets) && sheets[last].frame.None? {
        var i :| 0 <= i < |sheets| && sheets[i].frame.Some?;
        assert i < last && init[i] == sheets[i];
      }
    }
  }

  /** Every converted sheet is a sheet of the workbook that did not raise, with its frame. */
  lemma {:induction false} SucceededFrom(sheets: seq<Sheet>)
    ensures forall d :: d in Succeeded(sheets) ==>
      exists i :: 0 <= i < |sheets| && sheets[i] == Sheet(d.sheetName, Some(d.frame))
  {
    if sheets != [] {
      var init := sheets[..|sheets| - 1];
      SucceededFrom(init);
      forall i | 0 <= i < |init| ensures init[i] == sheets[i] { }
    }
  }

  /** Sheets convert independently and in order: converting a + b is converting a, then b. */
  lemma {:induction false} SucceededOrder(a: seq<Sheet>, b: seq<Sheet>)
    ensures Succeeded(a + b) == Succeeded(a) + Succeeded(b)
    decreases |b|
  {
    if b == [] {
      assert a + b == a;
    } else {
      var ab := a + b;
      var b' := b[..|b| - 1];
      assert ab[..|ab| - 1] == a + b';
      assert ab[|ab| - 1] == b[|b| - 1];
      SucceededOrder(a, b');
    }
  }

  /** The per-sheet loop of `convert`, accumulating converted_files and total_rows. */
  method ConvertSheets(base: string, sheets: seq<Sheet>) returns (files: seq<CsvFile>, totalRows: nat)
    ensures files == Files(base, Succeeded(sheets))
    ensures totalRows == SheetRows(sheets)
  {
    files, totalRows := [], 0;
    for i := 0 to |sheets|
      invariant files == Files(base, Succeeded(sheets[..i]))
      invariant totalRows == SheetRows(sheets[..i])
    {
      assert sheets[..i + 1][..i] == sheets[..i];
      var sh := sheets[i];
      if sh.frame.None? {
        assert Succeeded(sheets[..i + 1]) == Succeeded(sheets[..i]);
        continue;
      }
      var df := sh.frame.value;
      var header := BlankUnnamed(df.columns);
      var safe := SanitizeFilename(sh.name);
      var name := CsvName(base, safe);
      totalRows := totalRows + df.rowCount;
      ghost var done := Succeeded(sheets[..i]);
      assert Succeeded(sheets[..i + 1]) == done + [Done(sh.name, df)];
      files := files + [CsvFile(name, sh.name, df.rowCount, |df.columns|, header)];
      assert files == Files(base, done + [Done(sh.name, df)]);
    }
    assert sheets[..|sheets|] == sheets;
  }
}
