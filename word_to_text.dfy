/**
 * The Word to text tool: the extension check of `_validate_input_file` and the
 * text assembly of `_process_conversion` — the non-blank paragraphs, then each
 * table framed by marker lines with one " | "-joined line per non-blank row,
 * all joined by blank lines. python-docx is outside the model: a document is
 * given by its paragraph texts and its tables' cell texts.
 */
module WordToText {
  import opened Wrappers
  import opened Text

  // ===========================================================================
  // Validation

  /**
   * `_validate_input_file`. `hasPath` says whether the uploaded file object
   * carries a `path`; `opens` whether python-docx then opens it. An absent
   * extension makes `.lower()` raise, given as None.
   */
  function Validate(extension: Option<string>, docxAvailable: bool, hasPath: bool, opens: bool): (r: Option<bool>)
    ensures r.None? <==> extension.None?
    ensures r == Some(true) <==>
      && extension.Some?
      && (EndsWith(Lower(extension.value), ".docx") || EndsWith(Lower(extension.value), ".doc"))
      && (docxAvailable && hasPath ==> opens)
  {
    if extension.None? then None
    else
      var ext := Lower(extension.value);
      if !(EndsWith(ext, ".docx") || EndsWith(ext, ".doc")) then Some(false)
      else if docxAvailable && hasPath then Some(opens)
      else Some(true)
  }

  // ===========================================================================
  // Text assembly

  /** A table: each row's cell texts. */
  datatype Table = Table(rows: seq<seq<string>>)

  /** What the converter reads of a document: paragraph texts, then tables. */
  datatype Document = Document(paragraphs: seq<string>, tables: seq<Table>)

  const TableStart: string := "\n--- Table ---"
  const TableEnd: string := "--- End of Table ---\n"

  /** One line per row with a non-empty cell: its cells joined by " | ". */
  function RowLines(rows: seq<seq<string>>): seq<string> {
    if rows == [] then []
    else
      var cs := NonBlank(rows[|rows| - 1]);
      RowLines(rows[..|rows| - 1]) + (if cs == [] then [] else [Join(" | ", cs)])
  }

  function TableEntries(t: Table): seq<string> {
    [TableStart] + RowLines(t.rows) + [TableEnd]
  }

  function TablesEntries(tables: seq<Table>): seq<string> {
    if tables == [] then [] else TablesEntries(tables[..|tables| - 1]) + TableEntries(tables[|tables| - 1])
  }

  /** text_content: all paragraph entries, then the entries of every table. */
  function Entries(doc: Document): seq<string> {
    NonBlank(doc.paragraphs) + TablesEntries(doc.tables)
  }

  /** full_text. */
  function FullText(doc: Document): string {
    Join("\n\n", Entries(doc))
  }

  /** A row line is never empty. */
  lemma {:induction false} RowLinesNonEmpty(rows: seq<seq<string>>)
    ensures forall l :: l in RowLines(rows) ==> l != []
  {
    if rows != [] {
      RowLinesNonEmpty(rows[..|rows| - 1]);
      var cs := NonBlank(rows[|rows| - 1]);
      if cs != [] {
        NonBlankExact(rows[|rows| - 1]);
        JoinFirst(" | ", cs);
        assert cs[0] in cs;
        assert |Join(" | ", cs)| >= |cs[0]| > 0;
      }
    }
  }

  /** The number of rows with at least one non-blank cell. */
  function NonBlankRows(rows: seq<seq<string>>): nat {
    if rows == [] then 0
    else NonBlankRows(rows[..|rows| - 1]) + (if NonBlank(rows[|rows| - 1]) == [] then 0 else 1)
  }

  /** A table opens and closes with its marker lines, even with no row line, and has one line per non-blank row. */
  lemma {:induction false} TableEntriesShape(t: Table)
    ensures var es := TableEntries(t);
      && |es| == NonBlankRows(t.rows) + 2
      && es[0] == TableStart && es[|es| - 1] == TableEnd
  {
    RowLinesCount(t.rows);
  }

  lemma {:induction false} RowLinesCount(rows: seq<seq<string>>)
    ensures |RowLines(rows)| == NonBlankRows(rows)
  {
    if rows != [] {
      RowLinesCount(rows[..|rows| - 1]);
    }
  }

  /** The output is empty exactly when there is no non-blank paragraph and no table. */
  lemma {:induction false} FullTextEmpty(doc: Document)
    ensures FullText(doc) == [] <==>
      doc.tables == [] && forall i :: 0 <= i < |doc.paragraphs| ==> Strip(doc.paragraphs[i]) == []
  {
    var es := Entries(doc);
    var ps := NonBlank(doc.paragraphs);
    NonBlankExact(doc.paragraphs);
    if doc.tables != [] {
      TablesEntriesLast(doc.tables);
      assert es != [];
    }
    if es != [] {
      JoinFirst("\n\n", es);
      EntriesNonEmpty(doc);
      assert es[0] in es;
      assert FullText(doc) != [];
    }
    if FullText(doc) == [] {
      assert ps == [];
      forall i | 0 <= i < |doc.paragraphs| ensures Strip(doc.paragraphs[i]) == [] {
        if Strip(doc.paragraphs[i]) != [] {
          assert false;
        }
      }
    } else if doc.tables == [] {
      assert es != [];
      assert es[0] in ps;
    }
  }

  /** The last table's closing marker ends the table entries. */
  lemma {:induction false} TablesEntriesLast(tables: seq<Table>)
    requires tables != []
    ensures TablesEntries(tables) != []
  {
    var t := TableEntries(tables[|tables| - 1]);
    assert t[0] == TableStart;
  }

  /** No entry is empty. */
  lemma {:induction false} EntriesNonEmpty(doc: Document)
    ensures forall e :: e in Entries(doc) ==> e != []
  {
    NonBlankExact(doc.paragraphs);
    TablesEntriesNonEmpty(doc.tables);
  }

  lemma {:induction false} TablesEntriesNonEmpty(tables: seq<Table>)
    ensures forall e :: e in TablesEntries(tables) ==> e != []
  {
    if tables != [] {
      TablesEntriesNonEmpty(tables[..|tables| - 1]);
      RowLinesNonEmpty(tables[|tables| - 1].rows);
    }
  }

  /** The paragraph and table loops of `_process_conversion`, appending to text_content. */
  method CollectText(doc: Document) returns (textContent: seq<string>)
    ensures textContent == Entries(doc)
  {
    textContent := ParagraphLines(doc.paragraphs);
    var tableText := TablesLines(doc.tables);
    textContent := textContent + tableText;
  }

  /** The table loop: the entries of every table in turn. */
  method TablesLines(tables: seq<Table>) returns (lines: seq<string>)
    ensures lines == TablesEntries(tables)
  {
    lines := [];
    for k := 0 to |tables|
      invariant lines == TablesEntries(tables[..k])
    {
      assert tables[..k + 1][..k] == tables[..k];
      var more := TableLines(tables[k]);
      lines := lines + more;
    }
    assert tables[..|tables|] == tables;
  }

  /** The paragraph loop: each non-blank paragraph, stripped. */
  method ParagraphLines(paras: seq<string>) returns (lines: seq<string>)
    ensures lines == NonBlank(paras)
  {
    lines := [];
    for i := 0 to |paras|
      invariant lines == NonBlank(paras[..i])
    {
      assert paras[..i + 1][..i] == paras[..i];
      var text := Strip(paras[i]);
      if text != [] {
        lines := lines + [text];
      }
    }
    assert paras[..|paras|] == paras;
  }

  /** The entries of one table: the opening marker, the row lines, the closing marker. */
  method TableLines(t: Table) returns (lines: seq<string>)
    ensures lines == TableEntries(t)
  {
    lines := [TableStart];
    for r := 0 to |t.rows|
      invariant lines == [TableStart] + RowLines(t.rows[..r])
    {
      assert t.rows[..r + 1][..r] == t.rows[..r];
      var rowText := NonEmptyCells(t.rows[r]);
      if rowText != [] {
        lines := lines + [Join(" | ", rowText)];
      }
    }
    assert t.rows[..|t.rows|] == t.rows;
    lines := lines + [TableEnd];
  }

  /** The cell loop of one row. */
  method NonEmptyCells(cells: seq<string>) returns (rowText: seq<string>)
    ensures rowText == NonBlank(cells)
  {
    rowText := [];
    for c := 0 to |cells|
      invariant rowText == NonBlank(cells[..c])
    {
      assert cells[..c + 1][..c] == cells[..c];
      var cellText := Strip(cells[c]);
      if cellText != [] {
        rowText := rowText + [cellText];
      }
    }
    assert cells[..|cells|] == cells;
  }

  // ===========================================================================
  // Conversion

  // Messages of `_process_conversion`.
  const MissingLibrary: string := "Required library (python-docx) is not available. Please install it using: pip install python-docx"
  const ConvertError: string := "Error converting Word to text: "
  const EmptyOutput: string := "Output text file is empty"

  /**
   * `_process_conversion`: the ".txt" file named after the input and the text
   * read back from it, or the failure message. `doc` is the loaded document
   * or the message of the exception loading it raised.
   */
  function Process(inputName: string, docxAvailable: bool, doc: Result<Document>): (r: Result<(string, string)>)
    ensures r.Ok? ==> r.value.0 == Stem(Basename(inputName)) + ".txt" && r.value.1 != []
  {
    if !docxAvailable then
      Fail(MissingLibrary)
    else if doc.Fail? then Fail(ConvertError + doc.message)
    else
      var full := FullText(doc.value);
      if full == [] then Fail(EmptyOutput)
      else Ok((Stem(Basename(inputName)) + ".txt", Universal(full)))
  }

  /**
   * The conversion succeeds exactly when the library is present, the document
   * loads, and it has a table or a non-blank paragraph; the text returned is
   * the assembled text as read back with universal newlines.
   */
  lemma {:induction false} ProcessOutcome(inputName: string, docxAvailable: bool, doc: Result<Document>)
    ensures var r := Process(inputName, docxAvailable, doc);
      && (r.Ok? <==>
          && docxAvailable && doc.Ok?
          && (doc.value.tables != [] || exists i :: 0 <= i < |doc.value.paragraphs| && Strip(doc.value.paragraphs[i]) != []))
      && (r.Ok? ==> r.value.1 == Universal(FullText(doc.value)))
  {
    if docxAvailable && doc.Ok? {
      FullTextEmpty(doc.value);
    }
  }
}
