/**
 * The text to Word tool: the output-format default and the input checks of
 * `_invoke`, and the document `_process_conversion` builds — one Word
 * paragraph per non-blank block of the text. Upload validation is
 * `FileInfo.ValidateText`. python-docx is outside the model: a document is
 * its paragraph texts, which `add_paragraph` appends to.
 */
module TextToWord {
  import opened Wrappers
  import opened Text
  import opened FileInfo

  // ===========================================================================
  // Tool parameters

  /** The output format: the "output_format" parameter if it is "docx", otherwise "docx" as well. */
  function OutputFormat(param: Option<string>): (r: string)
    ensures r == "docx"
  {
    if param.Some? && param.value == "docx" then param.value else "docx"
  }

  /** An uploaded file as `_invoke` sees it. */
  datatype Upload = Upload(filename: string, extension: Option<string>, hasPathAttribute: bool, readable: bool)

  /** How `_invoke` goes on: it stops with its messages, or converts in the given format. */
  datatype Start = Stop(messages: seq<string>) | Convert(filename: string, format: string)

  const MissingInput: string := "Error: Missing required parameter 'input_file'"
  const InvalidFormat: string := "Error: Invalid file format. Only text files (.txt) are supported"
  const DuringConversion: string := "Error during conversion: "

  /**
   * The checks at the top of `_invoke`: a missing input file and a file that
   * fails validation each stop the tool with exactly one message; an absent
   * extension raises inside `.lower()`, caught by the outer handler.
   */
  function Begin(input: Option<Upload>, formatParam: Option<string>): (r: Start)
    ensures r.Stop? ==> |r.messages| == 1
    ensures input.None? ==> r == Stop([MissingInput])
    ensures r.Convert? <==>
      && input.Some?
      && ValidateText(input.value.extension, InfoPath(input.value.hasPathAttribute), input.value.readable) == Some(true)
    ensures r.Convert? ==> r.format == "docx" && r.filename == input.value.filename
  {
    if input.None? then Stop([MissingInput])
    else
      var format := OutputFormat(formatParam);
      var f := input.value;
      match ValidateText(f.extension, InfoPath(f.hasPathAttribute), f.readable)
      case None => Stop([DuringConversion + "'NoneType' object has no attribute 'lower'"])
      case Some(false) => Stop([InvalidFormat])
      case Some(true) => Convert(f.filename, format)
  }

  /** Only a file without a `path` attribute whose extension ends in ".txt" is converted. */
  lemma {:induction false} BeginConverts(input: Option<Upload>, formatParam: Option<string>)
    ensures Begin(input, formatParam).Convert? <==>
      input.Some? && input.value.extension.Some? && !input.value.hasPathAttribute &&
      EndsWith(Lower(input.value.extension.value), ".txt")
  {
    if input.Some? && input.value.extension.Some? {
      ValidateTextUpload(input.value.extension.value, input.value.hasPathAttribute, input.value.readable);
    }
  }

  // ===========================================================================
  // Document

  /** The Word document being built: its paragraph texts in order. */
  class WordDocument {
    var paragraphs: seq<string>

    /** `Document()`: a new, empty document. */
    constructor()
      ensures paragraphs == []
    {
      paragraphs := [];
    }

    /** `add_paragraph(text)`: one more paragraph at the end. */
    method AddParagraph(text: string)
      modifies this
      ensures paragraphs == old(paragraphs) + [text]
    {
      paragraphs := paragraphs + [text];
    }
  }

  /** The paragraphs of the text: its "\n\n"-separated blocks, stripped, blank ones dropped. */
  function Blocks(text: string): seq<string> {
    NonBlank(Split(text, "\n\n"))
  }

  /**
   * Every paragraph is a non-empty stripped block of the text, and every block
   * that does not strip to nothing gives a paragraph.
   */
  lemma {:induction false} BlocksExact(text: string)
    ensures forall p :: p in Blocks(text) ==> p != [] && exists b :: b in Split(text, "\n\n") && p == Strip(b)
    ensures forall b :: b in Split(text, "\n\n") && Strip(b) != [] ==> Strip(b) in Blocks(text)
  {
    var pieces := Split(text, "\n\n");
    NonBlankExact(pieces);
    forall p | p in Blocks(text) ensures p != [] && exists b :: b in pieces && p == Strip(b) {
      var i :| 0 <= i < |pieces| && p == Strip(pieces[i]);
      assert pieces[i] in pieces;
    }
  }

  // Messages of `_process_conversion`.
  const MissingLibrary: string := "Required library (python-docx) is not available. Please install it using: pip install python-docx"
  const ConvertError: string := "Error converting text to Word: "

  /** The saved document: its file name, its paragraphs and the success message. */
  datatype Saved = Saved(fileName: string, paragraphs: seq<string>, message: string)

  /**
   * `_process_conversion` up to the save: the text is read back as UTF-8 with
   * universal newlines (`content`, or the decoding error) and each non-blank
   * block becomes a paragraph of a new document. `add_paragraph` raises on a
   * block lxml cannot store, and the handler returns its message.
   */
  method ProcessConversion(inputName: string, docxAvailable: bool, content: Result<string>, format: string)
    returns (r: Result<Saved>)
    ensures r.Fail? <==> !docxAvailable || content.Fail? || !AllXml(Blocks(Universal(content.value)))
    ensures r.Fail? && docxAvailable && content.Ok? ==> r.message == ConvertError + XmlError
    ensures r.Ok? ==>
      && r.value.fileName == Stem(Basename(inputName)) + "." + format
      && r.value.paragraphs == Blocks(Universal(content.value))
  {
    var baseName := Stem(Basename(inputName));
    if !docxAvailable {
      return Fail(MissingLibrary);
    }
    if content.Fail? {
      return Fail(ConvertError + content.message);
    }
    var doc := new WordDocument();
    var pieces := Split(Universal(content.value), "\n\n");
    ghost var blocks := Blocks(Universal(content.value));
    assert blocks == NonBlank(pieces);
    for i := 0 to |pieces|
      invariant doc.paragraphs == NonBlank(pieces[..i])
      invariant AllXml(doc.paragraphs)
    {
      assert pieces[..i + 1][..i] == pieces[..i];
      var stripped := Strip(pieces[i]);
      if stripped != [] {
        if !XmlCompatible(stripped) {
          NonBlankKeeps(pieces, i);
          AllXmlMember(blocks, stripped);
          return Fail(ConvertError + XmlError);
        }
        XmlCompatibleList(doc.paragraphs, stripped);
        doc.AddParagraph(stripped);
      }
    }
    assert pieces[..|pieces|] == pieces;
    r := Ok(Saved(baseName + "." + format, doc.paragraphs, "Text file converted to Word document (" + format + ") successfully"));
  }

  /** A text holding a form feed inside a block cannot be stored: its one block is refused. */
  lemma {:induction false} FormFeedRefused()
    ensures Blocks("a\U{c}b") == ["a\U{c}b"]
    ensures !AllXml(Blocks("a\U{c}b"))
  {
    var t := "a\U{c}b";
    assert t[0] == 'a' && t[1] == '\U{c}' && t[2] == 'b' && |t| == 3;
    assert forall c | c in t :: c != '\n';
    OneBlock(t);
    assert !XmlCompatible(t) by { assert !XmlChar(t[1]); }
    AllXmlMember([t], t);
  }
}
