/**
 * The PDF to text tool: the upload check of `_validate_input_file`, the two
 * text extractors (PyMuPDF, which numbers a separator after every page but the
 * last, and pdfplumber, which skips pages without text) and the fallback from
 * the first to the second in `_process_conversion`. The PDF libraries are
 * outside the model: a document is given by the text each library extracts
 * from its pages, or the message of the exception it raised.
 */
module PdfToText {
  import opened Wrappers
  import opened Text
  import opened FileInfo

  // ===========================================================================
  // Validation

  /**
   * `_validate_input_file`: the extension must end in ".pdf" (any case); when
   * a "path" entry is present and a PDF library is importable, that library
   * must open it. An absent extension makes `.lower()` raise, given as None.
   */
  function Validate(extension: Option<string>, path: Option<PathValue>, mupdf: bool, plumber: bool, readable: bool): (r: Option<bool>)
    ensures r.None? <==> extension.None?
    ensures r.Some? && r.value ==> EndsWith(Lower(extension.value), ".pdf")
  {
    if extension.None? then None
    else if !EndsWith(Lower(extension.value), ".pdf") then Some(false)
    else if path.Some? && (mupdf || plumber) then Some(Opens(path.value, readable))
    else Some(true)
  }

  /**
   * An upload whose file object has a `path` attribute is refused whenever a
   * PDF library is importable, whatever the file holds; without the attribute
   * only the extension counts.
   */
  lemma {:induction false} ValidateUpload(extension: string, hasPathAttribute: bool, mupdf: bool, plumber: bool, readable: bool)
    ensures var r := Validate(Some(extension), InfoPath(hasPathAttribute), mupdf, plumber, readable);
      r == Some(EndsWith(Lower(extension), ".pdf") && !(hasPathAttribute && (mupdf || plumber)))
  {
  }

  // ===========================================================================
  // Page concatenation

  /** The separator written after page k (1-based). */
  const SepHead: string := "\n\n--- Page "
  const SepTail: string := " ---\n\n"

  function PageSep(k: nat): string {
    SepHead + NatStr(k) + SepTail
  }

  /** PyMuPDF's text: the page texts in order with the numbered separator between consecutive pages. */
  function MuText(pages: seq<string>): string {
    if pages == [] then ""
    else
      var init := pages[..|pages| - 1];
      MuText(init) + (if init == [] then "" else PageSep(|init|)) + pages[|pages| - 1]
  }

  /** Each page's contribution on its own: its text, then its separator unless it is the last page. */
  function Chunks(pages: seq<string>): (r: seq<string>) {
    seq(|pages|, k requires 0 <= k < |pages| => pages[k] + (if k < |pages| - 1 then PageSep(k + 1) else ""))
  }

  /**
   * The PyMuPDF text is each page followed by its own separator, except the
   * last page: n pages give n − 1 separators.
   */
  lemma {:induction false} MuTextChunks(pages: seq<string>)
    ensures MuText(pages) == Concat(Chunks(pages))
  {
    var cs := Chunks(pages);
    ChunksUpTo(pages, |pages|);
    assert cs[..|pages|] == cs;
    assert pages[..|pages|] == pages;
  }

  lemma {:induction false} ChunksUpTo(pages: seq<string>, i: nat)
    requires i <= |pages|
    ensures Concat(Chunks(pages)[..i]) == MuText(pages[..i]) + (if 0 < i < |pages| then PageSep(i) else "")
  {
    if i > 0 {
      ChunksUpTo(pages, i - 1);
      var cs := Chunks(pages);
      var before := pages[..i - 1];
      assert cs[..i][..i - 1] == cs[..i - 1];
      assert pages[..i][..i - 1] == before;
      assert Concat(cs[..i]) == Concat(cs[..i - 1]) + cs[i - 1];
      assert cs[i - 1] == pages[i - 1] + (if i < |pages| then PageSep(i) else "");
      assert MuText(pages[..i]) == MuText(before) + (if before == [] then "" else PageSep(i - 1)) + pages[i - 1];
    }
  }

  /** The PyMuPDF text is empty exactly for no pages or a single page without text. */
  lemma {:induction false} MuTextEmpty(pages: seq<string>)
    ensures MuText(pages) == [] <==> |pages| == 0 || (|pages| == 1 && pages[0] == [])
  {
    if |pages| >= 2 {
      var init := pages[..|pages| - 1];
      assert |MuText(pages)| >= |PageSep(|init|)| > 0;
    }
  }

  /** The page loop of the PyMuPDF path. */
  method MuPdfText(pages: seq<string>) returns (text: string)
    ensures text == MuText(pages)
  {
    text := "";
    var n := |pages|;
    for pageNum := 0 to n
      invariant text == MuText(pages[..pageNum]) + (if 0 < pageNum < n then PageSep(pageNum) else "")
    {
      assert pages[..pageNum + 1][..pageNum] == pages[..pageNum];
      text := text + pages[pageNum];
      if pageNum < n - 1 {
        text := text + PageSep(pageNum + 1);
      }
    }
    assert pages[..n] == pages;
  }

  /** What pdfplumber extracts from one page: `None` or a string. */
  function PageText(page: Option<string>): string {
    if page.Some? then page.value else ""
  }

  /**
   * pdfplumber's text after the first i of the pages: a page with text adds
   * it and, unless it is the last page of the document, its numbered
   * separator; a page without text adds nothing.
   */
  function PlumberUpTo(pages: seq<Option<string>>, i: nat): string
    requires i <= |pages|
  {
    if i == 0 then ""
    else
      var t := PageText(pages[i - 1]);
      PlumberUpTo(pages, i - 1) + (if t == [] then "" else t + (if i < |pages| then PageSep(i) else ""))
  }

  function PlumberText(pages: seq<Option<string>>): string {
    PlumberUpTo(pages, |pages|)
  }

  /** The pdfplumber text is empty exactly when no page has text. */
  lemma {:induction false} PlumberEmpty(pages: seq<Option<string>>, i: nat)
    requires i <= |pages|
    ensures PlumberUpTo(pages, i) == [] <==> forall k :: 0 <= k < i ==> PageText(pages[k]) == []
  {
    if i > 0 {
      PlumberEmpty(pages, i - 1);
    }
  }

  /** When every page has text, pdfplumber yields exactly the PyMuPDF text of the same page texts. */
  lemma {:induction false} PlumberAgrees(pages: seq<Option<string>>)
    requires forall k :: 0 <= k < |pages| ==> PageText(pages[k]) != []
    ensures PlumberText(pages) == MuText(seq(|pages|, k requires 0 <= k < |pages| => PageText(pages[k])))
  {
    var texts := seq(|pages|, k requires 0 <= k < |pages| => PageText(pages[k]));
    PlumberAgreesUpTo(pages, texts, |pages|);
    assert texts[..|pages|] == texts;
  }

  lemma {:induction false} PlumberAgreesUpTo(pages: seq<Option<string>>, texts: seq<string>, i: nat)
    requires i <= |pages| == |texts|
    requires forall k :: 0 <= k < |pages| ==> texts[k] == PageText(pages[k]) != []
    ensures PlumberUpTo(pages, i) == MuText(texts[..i]) + (if 0 < i < |pages| then PageSep(i) else "")
  {
    if i > 0 {
      PlumberAgreesUpTo(pages, texts, i - 1);
      assert texts[..i][..i - 1] == texts[..i - 1];
    }
  }

  /** The page loop of `_extract_with_pdfplumber`. */
  method PlumberPagesText(pages: seq<Option<string>>) returns (text: string)
    ensures text == PlumberText(pages)
  {
    text := "";
    for pageNum := 0 to |pages|
      invariant text == PlumberUpTo(pages, pageNum)
    {
      var pageText := pages[pageNum];
      ghost var t := PageText(pageText);
      assert PlumberUpTo(pages, pageNum + 1) == text + (if t == [] then "" else t + (if pageNum + 1 < |pages| then PageSep(pageNum + 1) else ""));
      if pageText.Some? && pageText.value != [] {
        if pageNum < |pages| - 1 {
          text := text + (pageText.value + PageSep(pageNum + 1));
        } else {
          text := text + pageText.value;
        }
      }
    }
  }

  // ===========================================================================
  // Extraction with fallback

  datatype Library = PyMuPdf | Pdfplumber

  function LibraryName(lib: Library): string {
    match lib
    case PyMuPdf => "PyMuPDF"
    case Pdfplumber => "pdfplumber"
  }

  /**
   * The text and the library that produced it: PyMuPDF first when importable;
   * when it raises, pdfplumber if importable, else PyMuPDF's error. The
   * pdfplumber error reaches the caller wrapped by the outer handler.
   */
  function Extract(mupdf: bool, plumber: bool, mupdfPages: Result<seq<string>>, plumberPages: Result<seq<Option<string>>>): (r: Result<(string, Library)>)
    requires mupdf || plumber
    ensures r.Ok? && r.value.1 == PyMuPdf ==> mupdf && mupdfPages.Ok? && r.value.0 == MuText(mupdfPages.value)
    ensures r.Ok? && r.value.1 == Pdfplumber ==> plumber && plumberPages.Ok? && r.value.0 == PlumberText(plumberPages.value)
    ensures r.Fail? <==> if mupdf && mupdfPages.Ok? then false else if mupdf && !plumber then true else plumberPages.Fail?
  {
    if mupdf && mupdfPages.Ok? then Ok((MuText(mupdfPages.value), PyMuPdf))
    else if mupdf && !plumber then Fail(MuPdfError + mupdfPages.message)
    else if plumberPages.Ok? then Ok((PlumberText(plumberPages.value), Pdfplumber))
    else Fail(PlumberError + plumberPages.message)
  }

  /** The name `_process_conversion` puts in its success message: PyMuPDF whenever it is importable. */
  function ReportedLibraryAsWritten(mupdf: bool): string {
    if mupdf then "PyMuPDF" else "pdfplumber"
  }

  /** When PyMuPDF raises and pdfplumber supplies the text, the message still names PyMuPDF. */
  lemma {:induction false} ReportedLibraryMislabelsFallback()
    ensures var r := Extract(true, true, Fail("damaged xref"), Ok([Some("x")]));
      r.Ok? && r.value.1 == Pdfplumber && ReportedLibraryAsWritten(true) != LibraryName(r.value.1)
  {
  }

  // ===========================================================================
  // Conversion

  // Messages of `_process_conversion`.
  const MissingLibraries: string := "Required library (PyMuPDF or pdfplumber) is not available. Please install one using: pip install PyMuPDF or pip install pdfplumber"
  const MuPdfError: string := "Error extracting text with PyMuPDF: "
  const PlumberError: string := "Error converting PDF to text: Error extracting text with pdfplumber: "
  const EmptyOutput: string := "Output text file is empty"
  const Success: string := "PDF file converted to text successfully using "

  datatype Converted = Converted(fileName: string, content: string, message: string)

  /**
   * `_process_conversion`: the ".txt" file named after the input, holding the
   * extracted text as read back with universal newlines, and the message
   * naming a library the way the code does, PyMuPDF whenever it is
   * importable.
   */
  function Process(inputName: string, mupdf: bool, plumber: bool, mupdfPages: Result<seq<string>>, plumberPages: Result<seq<Option<string>>>): (r: Result<Converted>)
    ensures r.Ok? ==> r.value.fileName == Stem(Basename(inputName)) + ".txt" && r.value.content != []
    ensures r.Ok? ==> r.value.message == Success + ReportedLibraryAsWritten(mupdf)
  {
    if !mupdf && !plumber then
      Fail(MissingLibraries)
    else
      var e := Extract(mupdf, plumber, mupdfPages, plumberPages);
      if e.Fail? then Fail(e.message)
      else if e.value.0 == [] then Fail(EmptyOutput)
      else Ok(Converted(Stem(Basename(inputName)) + ".txt", Universal(e.value.0),
        Success + ReportedLibraryAsWritten(mupdf)))
  }

  /**
   * The success message names the library that produced the text, Extract's
   * tag, except exactly when PyMuPDF is importable but raised and pdfplumber
   * produced the text.
   */
  lemma {:induction false} MessageNamesProducer(inputName: string, mupdf: bool, plumber: bool, mupdfPages: Result<seq<string>>, plumberPages: Result<seq<Option<string>>>)
    requires mupdf || plumber
    ensures var r := Process(inputName, mupdf, plumber, mupdfPages, plumberPages);
      var e := Extract(mupdf, plumber, mupdfPages, plumberPages);
      r.Ok? ==> (r.value.message == Success + LibraryName(e.value.1) <==> !(mupdf && e.value.1 == Pdfplumber))
  {
    var e := Extract(mupdf, plumber, mupdfPages, plumberPages);
    if e.Ok? && mupdf && e.value.1 == Pdfplumber {
      assert (Success + "PyMuPDF")[|Success| + 1] != (Success + "pdfplumber")[|Success| + 1];
    }
  }

  /**
   * A conversion that uses PyMuPDF succeeds exactly when the document has two
   * or more pages or one page with text; one that falls back to pdfplumber
   * exactly when some page has text.
   */
  lemma {:induction false} ProcessSucceeds(inputName: string, mupdf: bool, plumber: bool, mupdfPages: Result<seq<string>>, plumberPages: Result<seq<Option<string>>>)
    ensures var r := Process(inputName, mupdf, plumber, mupdfPages, plumberPages);
      && (mupdf && mupdfPages.Ok? ==>
            (r.Ok? <==> |mupdfPages.value| >= 2 || (|mupdfPages.value| == 1 && mupdfPages.value[0] != [])))
      && (plumber && plumberPages.Ok? && !(mupdf && mupdfPages.Ok?) ==>
            (r.Ok? <==> exists k :: 0 <= k < |plumberPages.value| && PageText(plumberPages.value[k]) != []))
  {
    if mupdf && mupdfPages.Ok? {
      MuTextEmpty(mupdfPages.value);
    }
    if plumber && plumberPages.Ok? {
      PlumberEmpty(plumberPages.value, |plumberPages.value|);
    }
  }

  /** The control flow of `_process_conversion`, running the page loops. */
  method ProcessConversion(inputName: string, mupdf: bool, plumber: bool, mupdfPages: Result<seq<string>>, plumberPages: Result<seq<Option<string>>>)
    returns (r: Result<Converted>)
    ensures r == Process(inputName, mupdf, plumber, mupdfPages, plumberPages)
  {
    var baseName := Stem(Basename(inputName));
    if !mupdf && !plumber {
      return Fail(MissingLibraries);
    }
    var textContent: string;
    if mupdf && mupdfPages.Ok? {
      textContent := MuPdfText(mupdfPages.value);
    } else if mupdf && !plumber {
      return Fail(MuPdfError + mupdfPages.message);
    } else if plumberPages.Ok? {
      textContent := PlumberPagesText(plumberPages.value);
    } else {
      return Fail(PlumberError + plumberPages.message);
    }
    if textContent == [] {
      return Fail(EmptyOutput);
    }
    r := Ok(Converted(baseName + ".txt", Universal(textContent), Success + ReportedLibraryAsWritten(mupdf)));
  }
}
