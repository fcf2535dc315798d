/**
 * The text to PDF tool: which CJK fonts `_register_chinese_fonts` registers,
 * which font `_process_conversion` then sets for the body text, and the story
 * it hands to reportlab — one paragraph and one spacer per non-blank block of
 * the text. Upload validation is `FileInfo.ValidateText`. reportlab's layout
 * and the font files themselves are outside the model: which candidate font
 * files exist and load is a parameter, and so is what reportlab's paragraph
 * parser makes of each block, which is handed to it as markup.
 */
module TextToPdf {
  import opened Wrappers
  import opened Text

  // ===========================================================================
  // Font registration

  /** A font name and the file it is registered from. */
  type FontFile = (string, string)

  /** The regular candidates, in order; `projectFont` is the chinese_font.ttc of the plugin's fonts directory. */
  function RegularFonts(projectFont: string): seq<FontFile> {
    [ ("ChineseFont", projectFont),
      ("SimSun", "C:/Windows/Fonts/simsun.ttc"),
      ("SimSun", "C:/Windows/Fonts/simsun.ttf"),
      ("SimHei", "C:/Windows/Fonts/simhei.ttf"),
      ("Microsoft YaHei", "C:/Windows/Fonts/msyh.ttf"),
      ("Microsoft YaHei", "C:/Windows/Fonts/msyhbd.ttf"),
      ("KaiTi", "C:/Windows/Fonts/kaiti.ttf"),
      ("FangSong", "C:/Windows/Fonts/simfang.ttf") ]
  }

  /** The bold candidates, tried after the regular ones. */
  const BoldFonts: seq<FontFile> := [
    ("SimSun-Bold", "C:/Windows/Fonts/simsunb.ttf"),
    ("SimHei-Bold", "C:/Windows/Fonts/simheib.ttf"),
    ("Microsoft YaHei-Bold", "C:/Windows/Fonts/msyhbd.ttf") ]

  /** The names registered from the candidates whose file exists and loads (`usable`), in order. */
  function Registered(candidates: seq<FontFile>, usable: set<string>): seq<string> {
    if candidates == [] then []
    else
      var last := candidates[|candidates| - 1];
      Registered(candidates[..|candidates| - 1], usable) + (if last.1 in usable then [last.0] else [])
  }

  /** A name is registered exactly when some candidate of that name has a usable file. */
  lemma {:induction false} RegisteredExact(candidates: seq<FontFile>, usable: set<string>, name: string)
    ensures name in Registered(candidates, usable) <==>
      exists i :: 0 <= i < |candidates| && candidates[i].0 == name && candidates[i].1 in usable
  {
    if candidates != [] {
      var init := candidates[..|candidates| - 1];
      RegisteredExact(init, usable, name);
      if name in Registered(candidates, usable) && name !in Registered(init, usable) {
        assert candidates[|candidates| - 1].0 == name;
      }
      if exists i :: 0 <= i < |candidates| && candidates[i].0 == name && candidates[i].1 in usable {
        var i :| 0 <= i < |candidates| && candidates[i].0 == name && candidates[i].1 in usable;
        if i < |init| {
          assert init[i] == candidates[i];
        }
      }
    }
  }

  /**
   * `_register_chinese_fonts`: the regular, then the bold candidates are
   * registered when their file is usable; the Helvetica aliases are added
   * only when none was; the result says whether any was.
   */
  method RegisterChineseFonts(fontLibrary: bool, projectFont: string, usable: set<string>)
    returns (ok: bool, registered: seq<string>, aliased: bool)
    ensures registered == if fontLibrary then Registered(RegularFonts(projectFont) + BoldFonts, usable) else []
    ensures ok <==> registered != []
    ensures aliased <==> fontLibrary && registered == []
  {
    if !fontLibrary {
      return false, [], false;
    }
    var all := RegularFonts(projectFont) + BoldFonts;
    var n := |RegularFonts(projectFont)|;
    registered := [];
    for i := 0 to n
      invariant registered == Registered(all[..i], usable)
    {
      assert all[..i + 1][..i] == all[..i];
      var font := RegularFonts(projectFont)[i];
      if font.1 in usable {
        registered := registered + [font.0];
      }
    }
    for j := 0 to |BoldFonts|
      invariant registered == Registered(all[..n + j], usable)
    {
      assert all[..n + j + 1][..n + j] == all[..n + j];
      var font := BoldFonts[j];
      if font.1 in usable {
        registered := registered + [font.0];
      }
    }
    assert all[..n + |BoldFonts|] == all;
    aliased := registered == [];
    ok := registered != [];
  }

  // ===========================================================================
  // Font choice

  /**
   * The body font as `_process_conversion` chooses it: Helvetica when no CJK
   * font was registered, else the first registered of ChineseFont, SimSun and
   * Microsoft YaHei, else SimHei whether or not SimHei was registered.
   */
  function ChooseFontAsWritten(registered: seq<string>): string {
    if registered == [] then "Helvetica"
    else if "ChineseFont" in registered then "ChineseFont"
    else if "SimSun" in registered then "SimSun"
    else if "Microsoft YaHei" in registered then "Microsoft YaHei"
    else "SimHei"
  }

  /** With only KaiTi registered, the body font is SimHei, which reportlab does not know. */
  lemma {:induction false} ChooseFontUnregistered()
    ensures ChooseFontAsWritten(["KaiTi"]) == "SimHei" && "SimHei" !in ["KaiTi"]
  {
  }

  /**
   * The body font, falling back to a font that was registered: the same
   * preference order, then SimHei if registered, else the first registered.
   */
  function ChooseFont(registered: seq<string>): (r: string)
    ensures registered == [] ==> r == "Helvetica"
    ensures registered != [] ==> r in registered
    ensures "ChineseFont" in registered ==> r == "ChineseFont"
    ensures "ChineseFont" !in registered && "SimSun" in registered ==> r == "SimSun"
  {
    if registered == [] then "Helvetica"
    else if "ChineseFont" in registered then "ChineseFont"
    else if "SimSun" in registered then "SimSun"
    else if "Microsoft YaHei" in registered then "Microsoft YaHei"
    else if "SimHei" in registered then "SimHei"
    else registered[0]
  }

  /** Whenever the font the code chooses was registered, the corrected choice is the same font. */
  lemma {:induction false} ChooseFontAgrees(registered: seq<string>)
    requires registered == [] || ChooseFontAsWritten(registered) in registered
    ensures ChooseFont(registered) == ChooseFontAsWritten(registered)
  {
  }

  // ===========================================================================
  // Story

  datatype Flowable = Para(text: string, font: string) | Spacer(width: int, height: int)

  /** The paragraphs of the text: its "\n\n"-separated blocks, stripped, blank ones dropped. */
  function Paragraphs(text: string): seq<string> {
    NonBlank(Split(text, "\n\n"))
  }

  /**
   * The error reportlab's paragraph parser raises on the first block it
   * refuses (`markupError` gives the error for a block, None when it parses).
   */
  function FirstMarkupError(paras: seq<string>, markupError: string -> Option<string>): Option<string> {
    if paras == [] then None
    else
      var first := FirstMarkupError(paras[..|paras| - 1], markupError);
      if first.Some? then first else markupError(paras[|paras| - 1])
  }

  /** There is an error exactly when some block is refused, and then it is the error of the first such block. */
  lemma {:induction false} FirstMarkupErrorExact(paras: seq<string>, markupError: string -> Option<string>)
    ensures FirstMarkupError(paras, markupError).None? <==>
      forall i :: 0 <= i < |paras| ==> markupError(paras[i]).None?
    ensures FirstMarkupError(paras, markupError).Some? ==>
      exists i :: 0 <= i < |paras| && FirstMarkupError(paras, markupError) == markupError(paras[i])
        && forall j :: 0 <= j < i ==> markupError(paras[j]).None?
  {
    if paras != [] {
      var init := paras[..|paras| - 1];
      FirstMarkupErrorExact(init, markupError);
      assert forall i :: 0 <= i < |init| ==> init[i] == paras[i];
      if FirstMarkupError(init, markupError).Some? {
        var i :| 0 <= i < |init| && FirstMarkupError(init, markupError) == markupError(init[i])
          && forall j :: 0 <= j < i ==> markupError(init[j]).None?;
        assert FirstMarkupError(paras, markupError) == markupError(paras[i]);
      } else if markupError(paras[|paras| - 1]).Some? {
        assert FirstMarkupError(paras, markupError) == markupError(paras[|paras| - 1]);
      }
    }
  }

  /** The story for the given paragraphs: each one followed by a 1×6 spacer. */
  function StoryOf(paras: seq<string>, font: string): seq<Flowable> {
    if paras == [] then []
    else StoryOf(paras[..|paras| - 1], font) + [Para(paras[|paras| - 1], font), Spacer(1, 6)]
  }

  /** The story holds two flowables per paragraph: the paragraph in the chosen font at 2i, a spacer at 2i + 1. */
  lemma {:induction false} StoryShape(paras: seq<string>, font: string)
    ensures |StoryOf(paras, font)| == 2 * |paras|
    ensures forall i :: 0 <= i < |paras| ==>
      StoryOf(paras, font)[2 * i] == Para(paras[i], font) && StoryOf(paras, font)[2 * i + 1] == Spacer(1, 6)
  {
    if paras != [] {
      var init := paras[..|paras| - 1];
      StoryShape(init, font);
      forall i | 0 <= i < |init| ensures init[i] == paras[i] { }
    }
  }

  /**
   * The paragraph loop of `_process_conversion`. Each stripped block goes to
   * `Paragraph` unescaped; when the parser refuses it, the fallback repeats
   * the same call, so the first refused block's error ends the loop.
   */
  method BuildStory(text: string, font: string, markupError: string -> Option<string>) returns (r: Result<seq<Flowable>>)
    ensures r.Fail? <==> FirstMarkupError(Paragraphs(text), markupError).Some?
    ensures r.Fail? ==> r.message == FirstMarkupError(Paragraphs(text), markupError).value
    ensures r.Ok? ==> r.value == StoryOf(Paragraphs(text), font)
  {
    var pieces := Split(text, "\n\n");
    var story := [];
    for i := 0 to |pieces|
      invariant story == StoryOf(NonBlank(pieces[..i]), font)
      invariant FirstMarkupError(NonBlank(pieces[..i]), markupError).None?
    {
      assert pieces[..i + 1][..i] == pieces[..i];
      var stripped := Strip(pieces[i]);
      ghost var kept := NonBlank(pieces[..i]);
      assert NonBlank(pieces[..i + 1]) == kept + (if stripped == [] then [] else [stripped]);
      if stripped != [] {
        assert (kept + [stripped])[..|kept|] == kept;
        var err := markupError(stripped);
        if err.Some? {
          assert FirstMarkupError(kept + [stripped], markupError) == err;
          FirstMarkupErrorKeeps(pieces, i + 1, markupError);
          return Fail(err.value);
        }
        assert (kept + [stripped])[..|kept|] == kept;
        assert StoryOf(kept + [stripped], font) == StoryOf(kept, font) + [Para(stripped, font), Spacer(1, 6)];
        story := story + [Para(stripped, font), Spacer(1, 6)];
      } else {
        assert kept + [] == kept;
      }
    }
    assert pieces[..|pieces|] == pieces;
    r := Ok(story);
  }

  /** Once a prefix of the blocks holds a refused block, the whole text's first error is that prefix's. */
  lemma {:induction false} FirstMarkupErrorKeeps(pieces: seq<string>, k: nat, markupError: string -> Option<string>)
    requires k <= |pieces|
    requires FirstMarkupError(NonBlank(pieces[..k]), markupError).Some?
    ensures FirstMarkupError(NonBlank(pieces), markupError) == FirstMarkupError(NonBlank(pieces[..k]), markupError)
    decreases |pieces| - k
  {
    if k < |pieces| {
      assert pieces[..k + 1][..k] == pieces[..k];
      assert pieces[..k + 1] == pieces[..k] + [pieces[k]];
      NonBlankAppend(pieces[..k], [pieces[k]]);
      var kept := NonBlank(pieces[..k]);
      var extra := NonBlank([pieces[k]]);
      FirstMarkupErrorAppend(kept, extra, markupError);
      FirstMarkupErrorKeeps(pieces, k + 1, markupError);
    } else {
      assert pieces[..k] == pieces;
    }
  }

  /** A refused block in a prefix decides the first error of any extension. */
  lemma {:induction false} FirstMarkupErrorAppend(a: seq<string>, b: seq<string>, markupError: string -> Option<string>)
    requires FirstMarkupError(a, markupError).Some?
    ensures FirstMarkupError(a + b, markupError) == FirstMarkupError(a, markupError)
    decreases |b|
  {
    if b == [] {
      assert a + b == a;
    } else {
      var init := b[..|b| - 1];
      FirstMarkupErrorAppend(a, init, markupError);
      assert (a + b)[..|a + b| - 1] == a + init;
    }
  }

  /**
   * The blocks escaped before they reach `Paragraph`, as the PowerPoint and
   * Word converters of the plugin do: the parser then sees no tag, and
   * unescaping gives each block back.
   */
  function EscapedParagraphs(text: string): (r: seq<string>)
    ensures |r| == |Paragraphs(text)|
    ensures forall i :: 0 <= i < |r| ==> r[i] == Escape(Paragraphs(text)[i])
  {
    var paras := Paragraphs(text);
    seq(|paras|, i requires 0 <= i < |paras| => Escape(paras[i]))
  }

  /** Every escaped block holds no '<' or '>' and unescapes back to its block. */
  lemma {:induction false} EscapedParagraphsPlain(text: string)
    ensures forall i :: 0 <= i < |EscapedParagraphs(text)| ==>
      '<' !in EscapedParagraphs(text)[i] && '>' !in EscapedParagraphs(text)[i]
      && Unescape(EscapedParagraphs(text)[i]) == Paragraphs(text)[i]
  {
    forall i | 0 <= i < |EscapedParagraphs(text)|
      ensures '<' !in EscapedParagraphs(text)[i] && '>' !in EscapedParagraphs(text)[i]
      ensures Unescape(EscapedParagraphs(text)[i]) == Paragraphs(text)[i]
    {
      EscapeRoundTrip(Paragraphs(text)[i]);
    }
  }

  /**
   * The block "<b>x", whose tag is never closed, reaches `Paragraph` with its
   * tag: the story's text is that block, raw.
   */
  lemma {:induction false} RawBlockKeepsTag()
    ensures Paragraphs("<b>x") == ["<b>x"]
    ensures '<' in Paragraphs("<b>x")[0]
  {
    var t := "<b>x";
    assert t[0] == '<' && t[3] == 'x' && |t| == 4;
    assert forall c | c in t :: c != '\n';
    OneBlock(t);
  }

  // ===========================================================================
  // Conversion

  // Messages of `_process_conversion`.
  const MissingLibrary: string := "Required library (reportlab) is not available. Please install it using: pip install reportlab"
  const ConvertError: string := "Error converting text to PDF: "
  const Success: string := "Text file converted to PDF successfully with Chinese font support"

  /** What is handed to reportlab: the output name and the story. */
  datatype Rendered = Rendered(fileName: string, story: seq<Flowable>, message: string)

  /** The fonts `_register_chinese_fonts` registers, in order. */
  function RegisteredFonts(fontLibrary: bool, projectFont: string, usable: set<string>): seq<string> {
    if fontLibrary then Registered(RegularFonts(projectFont) + BoldFonts, usable) else []
  }

  /** Whether reportlab knows the font: the built-in Helvetica or a registered one. */
  predicate FontKnown(font: string, registered: seq<string>) {
    font == "Helvetica" || font in registered
  }

  /**
   * `_process_conversion` up to the build: fonts are registered, the file is
   * read back as UTF-8 with universal newlines (`content`, or the decoding
   * error), the body font is chosen as the code does, and the story is built
   * from the raw blocks. The conversion fails through its handler when there
   * is a block and the font is one reportlab does not know (`fontError` is
   * reportlab's message then): the first `Paragraph` looks the style's font
   * up before it parses its markup, so this error comes first. Otherwise it
   * fails with the first block the parser refuses.
   */
  method ProcessConversion(inputName: string, reportlab: bool, fontLibrary: bool, projectFont: string, usable: set<string>,
                           content: Result<string>, markupError: string -> Option<string>, fontError: string)
    returns (r: Result<Rendered>)
    ensures var registered := RegisteredFonts(fontLibrary, projectFont, usable);
      r.Fail? <==>
        || !reportlab || content.Fail?
        || FirstMarkupError(Paragraphs(Universal(content.value)), markupError).Some?
        || (Paragraphs(Universal(content.value)) != [] && !FontKnown(ChooseFontAsWritten(registered), registered))
    ensures r.Fail? && reportlab ==> StartsWith(r.message, ConvertError)
    ensures reportlab && content.Fail? ==> r == Fail(ConvertError + content.message)
    ensures reportlab && content.Ok? ==>
      var registered := RegisteredFonts(fontLibrary, projectFont, usable);
      var paras := Paragraphs(Universal(content.value));
      var fontRefused := paras != [] && !FontKnown(ChooseFontAsWritten(registered), registered);
      && (fontRefused ==> r == Fail(ConvertError + fontError))
      && (!fontRefused && FirstMarkupError(paras, markupError).Some? ==>
            r == Fail(ConvertError + FirstMarkupError(paras, markupError).value))
    ensures r.Ok? ==>
      var registered := RegisteredFonts(fontLibrary, projectFont, usable);
      && r.value.fileName == Stem(Basename(inputName)) + ".pdf"
      && r.value.story == StoryOf(Paragraphs(Universal(content.value)), ChooseFontAsWritten(registered))
  {
    var baseName := Stem(Basename(inputName));
    if !reportlab {
      return Fail(MissingLibrary);
    }
    var ok, registered, aliased := RegisterChineseFonts(fontLibrary, projectFont, usable);
    if content.Fail? {
      return Fail(ConvertError + content.message);
    }
    var font := ChooseFontAsWritten(registered);
    var text := Universal(content.value);
    if Paragraphs(text) != [] && !FontKnown(font, registered) {
      return Fail(ConvertError + fontError);
    }
    var story := BuildStory(text, font, markupError);
    if story.Fail? {
      return Fail(ConvertError + story.message);
    }
    r := Ok(Rendered(baseName + ".pdf", story.value, Success));
  }

  /**
   * The code's font choice is a font reportlab knows when one of ChineseFont,
   * SimSun, Microsoft YaHei or SimHei was registered, or none was; with some
   * font registered it is then also the corrected choice.
   */
  lemma {:induction false} ChooseFontAsWrittenKnown(registered: seq<string>)
    requires registered == [] || "ChineseFont" in registered || "SimSun" in registered
      || "Microsoft YaHei" in registered || "SimHei" in registered
    ensures FontKnown(ChooseFontAsWritten(registered), registered)
    ensures registered != [] ==> ChooseFont(registered) == ChooseFontAsWritten(registered)
  {
    if registered != [] {
      ChooseFontAgrees(registered);
    }
  }
}
