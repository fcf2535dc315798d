/**
 * The HTML to Word tool: the output name and decoding of `_invoke`, the
 * element rules of `_process_html_elements` — headings grouped by level,
 * paragraphs, the whole-text fallback, list items, tables, images and links —
 * and the preview. BeautifulSoup and python-docx are outside the model: a
 * parsed page is given by the texts and attributes `find_all` returns, in
 * document order, and a Word document by the blocks appended to it.
 */
module HtmlToWord {
  import opened Wrappers
  import opened Text

  // ===========================================================================
  // Parsed page

  type HeadingLevel = l: nat | 1 <= l <= 6 witness 1

  datatype HeadingElement = HeadingElement(level: HeadingLevel, text: string)
  datatype HtmlList = HtmlList(ordered: bool, items: seq<string>)
  datatype Image = Image(src: string, alt: string)
  datatype Link = Link(href: string, text: string)

  /**
   * What `_process_html_elements` reads of the soup: h1–h6 and p elements
   * with their text, the whole text, the ul/ol lists with their direct li
   * items, each table's tr rows of th/td cell texts, and img and a elements.
   */
  datatype Page = Page(
    headings: seq<HeadingElement>,
    paragraphs: seq<string>,
    text: string,
    lists: seq<HtmlList>,
    tables: seq<seq<seq<string>>>,
    images: seq<Image>,
    links: seq<Link>)

  // ===========================================================================
  // Word document

  datatype Style = Normal | ListBullet | ListNumber

  /** What python-docx adds: headings, paragraphs (links in blue), tables and 6-inch pictures; sizes in points. */
  datatype Block =
    | Heading(text: string, level: HeadingLevel, size: real)
    | Paragraph(text: string, style: Style, size: real, blue: bool)
    | Table(rows: nat, cols: nat, cells: seq<seq<string>>)
    | Picture(src: string, widthInches: real)
    | EmptyParagraph

  /** The Word document being built: its blocks in order. */
  class WordDocument {
    var blocks: seq<Block>

    /** `Document()`: a new, empty document. */
    constructor()
      ensures blocks == []
    {
      blocks := [];
    }

    /** `add_heading`, `add_paragraph`, `add_table`, `add_picture`: one more block at the end. */
    method Append(b: Block)
      modifies this
      ensures blocks == old(blocks) + [b]
    {
      blocks := blocks + [b];
    }
  }

  /**
   * Whether lxml stores every text of the block. Headings, paragraphs and
   * table cells all become runs; a picture holds no text.
   */
  predicate BlockXml(b: Block) {
    match b
    case Heading(t, _, _) => XmlCompatible(t)
    case Paragraph(t, _, _, _) => XmlCompatible(t)
    case Table(_, _, cells) => forall i, j :: 0 <= i < |cells| && 0 <= j < |cells[i]| ==> XmlCompatible(cells[i][j])
    case Picture(_, _) => true
    case EmptyParagraph => true
  }

  predicate BlocksXml(bs: seq<Block>) {
    forall k :: 0 <= k < |bs| ==> BlockXml(bs[k])
  }

  // ===========================================================================
  // Headings

  /** The level-l headings with text, stripped, in document order, each sized font_size + (6 − l). */
  function LevelBlocks(hs: seq<HeadingElement>, l: HeadingLevel, size: real): seq<Block> {
    if hs == [] then []
    else
      var h := hs[|hs| - 1];
      var t := Strip(h.text);
      LevelBlocks(hs[..|hs| - 1], l, size) + (if h.level == l && t != [] then [Heading(t, l, size + (6 - l) as real)] else [])
  }

  /** The heading blocks of levels 1 to l: all level-1 headings, then all level-2 headings, and so on. */
  function HeadingsUpTo(hs: seq<HeadingElement>, l: nat, size: real): seq<Block>
    requires l <= 6
  {
    if l == 0 then [] else HeadingsUpTo(hs, l - 1, size) + LevelBlocks(hs, l, size)
  }

  function HeadingBlocks(hs: seq<HeadingElement>, size: real): seq<Block> {
    HeadingsUpTo(hs, 6, size)
  }

  lemma {:induction false} LevelBlocksShape(hs: seq<HeadingElement>, l: HeadingLevel, size: real)
    ensures forall b :: b in LevelBlocks(hs, l, size) ==>
      b.Heading? && b.level == l && b.size == size + (6 - l) as real && b.text != []
  {
    if hs != [] {
      LevelBlocksShape(hs[..|hs| - 1], l, size);
    }
  }

  /**
   * Headings come out grouped by level, not in document order: every block is
   * a non-empty heading sized font_size + (6 − level), and levels never
   * decrease along the document.
   */
  lemma {:induction false} HeadingsSorted(hs: seq<HeadingElement>, l: nat, size: real)
    requires l <= 6
    ensures forall i :: 0 <= i < |HeadingsUpTo(hs, l, size)| ==>
      var b := HeadingsUpTo(hs, l, size)[i];
      b.Heading? && b.level <= l && b.text != [] && b.size == size + (6 - b.level) as real
    ensures forall i, j :: 0 <= i < j < |HeadingsUpTo(hs, l, size)| ==>
      HeadingsUpTo(hs, l, size)[i].level <= HeadingsUpTo(hs, l, size)[j].level
  {
    if l > 0 {
      HeadingsSorted(hs, l - 1, size);
      LevelBlocksShape(hs, l, size);
      var a := HeadingsUpTo(hs, l - 1, size);
      var b := LevelBlocks(hs, l, size);
      var ab: seq<Block> := a + b;
      forall i | 0 <= i < |ab|
        ensures ab[i].Heading? && ab[i].level <= l && ab[i].text != []
        ensures ab[i].size == size + (6 - ab[i].level) as real
      {
        if i >= |a| {
          assert ab[i] == b[i - |a|];
          assert b[i - |a|] in b;
        } else {
          assert ab[i] == a[i];
        }
      }
      forall i, j | 0 <= i < j < |ab| ensures ab[i].level <= ab[j].level {
        if j >= |a| {
          assert ab[j] == b[j - |a|];
          assert b[j - |a|] in b;
          if i >= |a| {
            assert ab[i] == b[i - |a|];
            assert b[i - |a|] in b;
          } else {
            assert ab[i] == a[i];
          }
        } else {
          assert ab[i] == a[i] && ab[j] == a[j];
        }
      }
    }
  }

  /** Every heading element with text gives its heading block, at its own level. */
  lemma {:induction false} HeadingKept(hs: seq<HeadingElement>, k: nat, size: real)
    requires k < |hs| && Strip(hs[k].text) != []
    ensures Heading(Strip(hs[k].text), hs[k].level, size + (6 - hs[k].level) as real) in HeadingBlocks(hs, size)
  {
    LevelBlocksKept(hs, k, size);
    UpToKeeps(hs, hs[k].level, 6, size);
  }

  lemma {:induction false} LevelBlocksKept(hs: seq<HeadingElement>, k: nat, size: real)
    requires k < |hs| && Strip(hs[k].text) != []
    ensures Heading(Strip(hs[k].text), hs[k].level, size + (6 - hs[k].level) as real) in LevelBlocks(hs, hs[k].level, size)
    decreases |hs|
  {
    if k < |hs| - 1 {
      var init := hs[..|hs| - 1];
      assert init[k] == hs[k];
      LevelBlocksKept(init, k, size);
    }
  }

  lemma {:induction false} UpToKeeps(hs: seq<HeadingElement>, level: HeadingLevel, l: nat, size: real)
    requires level <= l <= 6
    ensures forall b :: b in LevelBlocks(hs, level, size) ==> b in HeadingsUpTo(hs, l, size)
  {
    if l > level {
      UpToKeeps(hs, level, l - 1, size);
    }
  }

  /** The heading loops: levels 1 to 6, each over all headings of that level. */
  method AddHeadings(doc: WordDocument, hs: seq<HeadingElement>, size: real)
    modifies doc
    ensures doc.blocks == old(doc.blocks) + HeadingBlocks(hs, size)
  {
    for i := 1 to 7
      invariant doc.blocks == old(doc.blocks) + HeadingsUpTo(hs, i - 1, size)
    {
      ghost var before := doc.blocks;
      AddLevel(doc, hs, i, size);
      assert HeadingsUpTo(hs, i, size) == HeadingsUpTo(hs, i - 1, size) + LevelBlocks(hs, i, size);
      assert doc.blocks == before + LevelBlocks(hs, i, size);
    }
  }

  /** The loop over the level-l headings. */
  method AddLevel(doc: WordDocument, hs: seq<HeadingElement>, l: HeadingLevel, size: real)
    modifies doc
    ensures doc.blocks == old(doc.blocks) + LevelBlocks(hs, l, size)
  {
    for k := 0 to |hs|
      invariant doc.blocks == old(doc.blocks) + LevelBlocks(hs[..k], l, size)
    {
      assert hs[..k + 1][..k] == hs[..k];
      var text := Strip(hs[k].text);
      if hs[k].level == l && text != [] {
        doc.Append(Heading(text, l, size + (6 - l) as real));
      }
    }
    assert hs[..|hs|] == hs;
  }

  // ===========================================================================
  // Paragraphs, the fallback and lists

  /** One paragraph of the given style and size per text. */
  function ParasOf(texts: seq<string>, style: Style, size: real): seq<Block> {
    if texts == [] then []
    else ParasOf(texts[..|texts| - 1], style, size) + [Paragraph(texts[|texts| - 1], style, size, false)]
  }

  /** Paragraph blocks are the given texts, one each, in order. */
  lemma {:induction false} ParasOfShape(texts: seq<string>, style: Style, size: real)
    ensures |ParasOf(texts, style, size)| == |texts|
    ensures forall i :: 0 <= i < |texts| ==> ParasOf(texts, style, size)[i] == Paragraph(texts[i], style, size, false)
  {
    if texts != [] {
      var init := texts[..|texts| - 1];
      ParasOfShape(init, style, size);
      forall i | 0 <= i < |init| ensures init[i] == texts[i] { }
    }
  }

  /** Appends one paragraph per text with content, stripped: the p loop and each list's item loop. */
  method AddParagraphs(doc: WordDocument, texts: seq<string>, style: Style, size: real)
    modifies doc
    ensures doc.blocks == old(doc.blocks) + ParasOf(NonBlank(texts), style, size)
  {
    for i := 0 to |texts|
      invariant doc.blocks == old(doc.blocks) + ParasOf(NonBlank(texts[..i]), style, size)
    {
      assert texts[..i + 1][..i] == texts[..i];
      var text := Strip(texts[i]);
      ghost var kept := NonBlank(texts[..i]);
      assert NonBlank(texts[..i + 1]) == kept + (if text == [] then [] else [text]);
      if text != [] {
        assert (kept + [text])[..|kept|] == kept;
        doc.Append(Paragraph(text, style, size, false));
      } else {
        assert kept + [] == kept;
      }
    }
    assert texts[..|texts|] == texts;
  }

  /** The whole-text paragraph, added only when the page has no h1–h6 or p element at all. */
  function Fallback(page: Page, size: real): seq<Block> {
    var t := Strip(page.text);
    if page.headings == [] && page.paragraphs == [] && t != [] then [Paragraph(t, Normal, size, false)] else []
  }

  /** The fallback is one paragraph of the stripped whole text exactly when no heading or p exists and the text is not blank. */
  lemma {:induction false} FallbackOnlyWithoutElements(page: Page, size: real)
    ensures Fallback(page, size) != [] <==>
      page.headings == [] && page.paragraphs == [] && exists k :: 0 <= k < |page.text| && !IsSpace(page.text[k])
    ensures |Fallback(page, size)| <= 1
  {
    StripEmpty(page.text);
  }

  /** ol items are numbered, ul items bulleted. */
  function ListStyle(l: HtmlList): Style {
    if l.ordered then ListNumber else ListBullet
  }

  /** The items of one list that have text, one paragraph each in the list's style. */
  function ListItems(l: HtmlList, size: real): seq<Block> {
    ParasOf(NonBlank(l.items), ListStyle(l), size)
  }

  /** The list items with text, list by list: bullets for ul, numbers for ol. */
  function ListBlocks(lists: seq<HtmlList>, size: real): seq<Block> {
    if lists == [] then []
    else ListBlocks(lists[..|lists| - 1], size) + ListItems(lists[|lists| - 1], size)
  }

  method AddLists(doc: WordDocument, lists: seq<HtmlList>, size: real)
    modifies doc
    ensures doc.blocks == old(doc.blocks) + ListBlocks(lists, size)
  {
    for i := 0 to |lists|
      invariant doc.blocks == old(doc.blocks) + ListBlocks(lists[..i], size)
    {
      assert lists[..i + 1][..i] == lists[..i];
      AddList(doc, lists[i], size);
    }
    assert lists[..|lists|] == lists;
  }

  /** The item loop of one list. */
  method AddList(doc: WordDocument, l: HtmlList, size: real)
    modifies doc
    ensures doc.blocks == old(doc.blocks) + ListItems(l, size)
  {
    AddParagraphs(doc, l.items, ListStyle(l), size);
  }

  // ===========================================================================
  // Tables

  /** The largest cell count of the rows; 0 for no rows. */
  function MaxCells(rows: seq<seq<string>>): (r: nat)
    ensures forall i :: 0 <= i < |rows| ==> |rows[i]| <= r
    ensures rows != [] ==> exists i :: 0 <= i < |rows| && |rows[i]| == r
    ensures rows == [] ==> r == 0
  {
    if rows == [] then 0
    else
      var m := MaxCells(rows[..|rows| - 1]);
      var last := |rows[|rows| - 1]|;
      if m >= last then
        (if m > 0 || |rows| > 1 then
           assert exists i :: 0 <= i < |rows| - 1 && |rows[i]| == m by {
             if |rows| > 1 {
               var i :| 0 <= i < |rows| - 1 && |rows[..|rows| - 1][i]| == m;
               assert rows[..|rows| - 1][i] == rows[i];
             }
           }
           m
         else last)
      else last
  }

  /** The cells of the Word table: cell (i, j) is the stripped text of the row's j-th cell, or empty when the row is shorter. */
  function TableCells(rows: seq<seq<string>>, cols: nat): seq<seq<string>> {
    seq(|rows|, i requires 0 <= i < |rows| => seq(cols, j requires 0 <= j < cols => if j < |rows[i]| then Strip(rows[i][j]) else ""))
  }

  /** A table is kept when it has a row and some row has a cell. */
  predicate TableKept(rows: seq<seq<string>>) {
    rows != [] && MaxCells(rows) > 0
  }

  function TableBlocks(tables: seq<seq<seq<string>>>): seq<Block> {
    if tables == [] then []
    else
      var t := tables[|tables| - 1];
      TableBlocks(tables[..|tables| - 1]) + (if TableKept(t) then [Table(|t|, MaxCells(t), TableCells(t, MaxCells(t)))] else [])
  }

  /**
   * Every table block has one row per tr and as many columns as the longest
   * row, so every cell of every row has its place; tables without rows or
   * without cells give no block.
   */
  lemma {:induction false} TableBlocksShape(tables: seq<seq<seq<string>>>)
    ensures forall b :: b in TableBlocks(tables) ==>
      && b.Table? && b.cols > 0 && |b.cells| == b.rows
      && (forall i :: 0 <= i < b.rows ==> |b.cells[i]| == b.cols)
    ensures forall k :: 0 <= k < |tables| && TableKept(tables[k]) ==>
      var t := tables[k];
      Table(|t|, MaxCells(t), TableCells(t, MaxCells(t))) in TableBlocks(tables)
    ensures |TableBlocks(tables)| <= |tables|
  {
    if tables != [] {
      var init := tables[..|tables| - 1];
      TableBlocksShape(init);
      forall k | 0 <= k < |init| ensures init[k] == tables[k] { }
    }
  }

  /** No cell text is lost: each cell of each row is in the table, stripped, at its row and position. */
  lemma {:induction false} TableCellsComplete(rows: seq<seq<string>>)
    ensures var cs := TableCells(rows, MaxCells(rows));
      forall i, j :: 0 <= i < |rows| && 0 <= j < |rows[i]| ==> cs[i][j] == Strip(rows[i][j])
  {
  }

  /** The cell loops of one table, writing into the empty table python-docx created. */
  method FillTable(rows: seq<seq<string>>, cols: nat) returns (cells: seq<seq<string>>)
    ensures cells == TableCells(rows, cols)
  {
    cells := seq(|rows|, _ => seq(cols, _ => ""));
    for i := 0 to |rows|
      invariant |cells| == |rows|
      invariant forall r :: 0 <= r < |rows| ==> |cells[r]| == cols
      invariant forall r :: 0 <= r < i ==> cells[r] == TableCells(rows, cols)[r]
      invariant forall r, c :: i <= r < |rows| && 0 <= c < cols ==> cells[r][c] == ""
    {
      var row := rows[i];
      for j := 0 to |row|
        invariant |cells| == |rows|
        invariant forall r :: 0 <= r < |rows| ==> |cells[r]| == cols
        invariant forall r :: 0 <= r < i ==> cells[r] == TableCells(rows, cols)[r]
        invariant forall r, c :: i < r < |rows| && 0 <= c < cols ==> cells[r][c] == ""
        invariant forall c :: 0 <= c < cols ==> cells[i][c] == if c < j then Strip(row[c]) else ""
      {
        if j >= cols {
          break;
        }
        cells := cells[i := cells[i][j := Strip(row[j])]];
      }
      assert cells[i] == TableCells(rows, cols)[i];
    }
  }

  method AddTables(doc: WordDocument, tables: seq<seq<seq<string>>>)
    modifies doc
    ensures doc.blocks == old(doc.blocks) + TableBlocks(tables)
  {
    for k := 0 to |tables|
      invariant doc.blocks == old(doc.blocks) + TableBlocks(tables[..k])
    {
      assert tables[..k + 1][..k] == tables[..k];
      var rows := tables[k];
      if rows == [] {
        continue;
      }
      var cols := MaxCells(rows);
      if cols == 0 {
        continue;
      }
      var cells := FillTable(rows, cols);
      doc.Append(Table(|rows|, cols, cells));
    }
    assert tables[..|tables|] == tables;
  }

  // ===========================================================================
  // Images and links

  const ImagePrefix: string := "[图片: "

  /** The text shown instead of an image: the alt text, or the src when alt is empty, in brackets. */
  function Placeholder(img: Image): string {
    ImagePrefix + (if img.alt != [] then img.alt else img.src) + "]"
  }

  predicate IsRemote(src: string) {
    StartsWith(src, "http://") || StartsWith(src, "https://")
  }

  /**
   * The blocks of one image: a 6-inch picture for a local path that exists
   * (`existing`) and that python-docx can insert (`insertable`), the
   * placeholder paragraph otherwise. When the path exists but the picture
   * cannot be inserted, `add_picture` has already added its empty paragraph
   * before reading the image, so that paragraph stays before the placeholder.
   */
  function ImageBlocksOf(img: Image, size: real, existing: set<string>, insertable: set<string>): (bs: seq<Block>)
    ensures |bs| == 1 || |bs| == 2
    ensures bs[|bs| - 1].Picture? <==> !IsRemote(img.src) && img.src in existing && img.src in insertable
    ensures bs[|bs| - 1].Picture? ==> bs == [Picture(img.src, 6.0)]
    ensures !bs[|bs| - 1].Picture? ==> bs[|bs| - 1] == Paragraph(Placeholder(img), Normal, size, false)
    ensures |bs| == 2 <==> !IsRemote(img.src) && img.src in existing && img.src !in insertable
    ensures |bs| == 2 ==> bs[0] == EmptyParagraph
  {
    var placeholder := Paragraph(Placeholder(img), Normal, size, false);
    if IsRemote(img.src) then [placeholder]
    else if img.src in existing then
      if img.src in insertable then [Picture(img.src, 6.0)] else [EmptyParagraph, placeholder]
    else [placeholder]
  }

  function ImageBlocks(imgs: seq<Image>, size: real, existing: set<string>, insertable: set<string>): seq<Block> {
    if imgs == [] then []
    else ImageBlocks(imgs[..|imgs| - 1], size, existing, insertable) + ImageBlocksOf(imgs[|imgs| - 1], size, existing, insertable)
  }

  /** Images are handled independently and in order: the blocks of a + b are those of a, then those of b. */
  lemma {:induction false} ImageBlocksAppend(a: seq<Image>, b: seq<Image>, size: real, existing: set<string>, insertable: set<string>)
    ensures ImageBlocks(a + b, size, existing, insertable)
      == ImageBlocks(a, size, existing, insertable) + ImageBlocks(b, size, existing, insertable)
    decreases |b|
  {
    if b != [] {
      var init := b[..|b| - 1];
      ImageBlocksAppend(a, init, size, existing, insertable);
      assert (a + b)[..|a + b| - 1] == a + init;
      assert (a + b)[|a + b| - 1] == b[|b| - 1];
    } else {
      assert a + b == a;
    }
  }

  /** A single image gives exactly its own blocks. */
  lemma {:induction false} ImageBlocksSingle(img: Image, size: real, existing: set<string>, insertable: set<string>)
    ensures ImageBlocks([img], size, existing, insertable) == ImageBlocksOf(img, size, existing, insertable)
  {
    assert [img][..0] == [];
  }

  method AddImages(doc: WordDocument, imgs: seq<Image>, size: real, existing: set<string>, insertable: set<string>)
    modifies doc
    ensures doc.blocks == old(doc.blocks) + ImageBlocks(imgs, size, existing, insertable)
  {
    for i := 0 to |imgs|
      invariant doc.blocks == old(doc.blocks) + ImageBlocks(imgs[..i], size, existing, insertable)
    {
      assert imgs[..i + 1][..i] == imgs[..i];
      var src := imgs[i].src;
      if IsRemote(src) {
        doc.Append(Paragraph(Placeholder(imgs[i]), Normal, size, false));
      } else if src in existing {
        if src in insertable {
          doc.Append(Picture(src, 6.0));
        } else {
          doc.Append(EmptyParagraph);
          doc.Append(Paragraph(Placeholder(imgs[i]), Normal, size, false));
        }
      } else {
        doc.Append(Paragraph(Placeholder(imgs[i]), Normal, size, false));
      }
    }
    assert imgs[..|imgs|] == imgs;
  }

  /** The links with text: one blue paragraph "text (href)" each, in order. */
  function LinkBlocks(links: seq<Link>, size: real): seq<Block> {
    if links == [] then []
    else
      var l := links[|links| - 1];
      var t := Strip(l.text);
      LinkBlocks(links[..|links| - 1], size) + (if t != [] then [Paragraph(t + " (" + l.href + ")", Normal, size, true)] else [])
  }

  /** Each link with text gives its paragraph; a link without text gives none. */
  lemma {:induction false} LinkBlocksExact(links: seq<Link>, size: real)
    ensures forall b :: b in LinkBlocks(links, size) ==>
      exists k :: 0 <= k < |links| && Strip(links[k].text) != [] && b == Paragraph(Strip(links[k].text) + " (" + links[k].href + ")", Normal, size, true)
    ensures forall k :: 0 <= k < |links| && Strip(links[k].text) != [] ==>
      Paragraph(Strip(links[k].text) + " (" + links[k].href + ")", Normal, size, true) in LinkBlocks(links, size)
  {
    if links != [] {
      var init := links[..|links| - 1];
      LinkBlocksExact(init, size);
      forall k | 0 <= k < |init| ensures init[k] == links[k] { }
    }
  }

  method AddLinks(doc: WordDocument, links: seq<Link>, size: real)
    modifies doc
    ensures doc.blocks == old(doc.blocks) + LinkBlocks(links, size)
  {
    for i := 0 to |links|
      invariant doc.blocks == old(doc.blocks) + LinkBlocks(links[..i], size)
    {
      assert links[..i + 1][..i] == links[..i];
      var text := Strip(links[i].text);
      if text != [] {
        doc.Append(Paragraph(text + " (" + links[i].href + ")", Normal, size, true));
      }
    }
    assert links[..|links|] == links;
  }

  // ===========================================================================
  // All elements

  /** The blocks `_process_html_elements` appends, section by section. */
  function ElementBlocks(page: Page, size: real, existing: set<string>, insertable: set<string>): seq<Block> {
    TextBlocks(page, size) + OtherBlocks(page, size, existing, insertable)
  }

  /** Headings, then p paragraphs, then the fallback. */
  function TextBlocks(page: Page, size: real): seq<Block> {
    HeadingBlocks(page.headings, size) + ParasOf(NonBlank(page.paragraphs), Normal, size) + Fallback(page, size)
  }

  /** List items, then tables, then images, then links. */
  function OtherBlocks(page: Page, size: real, existing: set<string>, insertable: set<string>): seq<Block> {
    ListBlocks(page.lists, size) + TableBlocks(page.tables) + ImageBlocks(page.images, size, existing, insertable) + LinkBlocks(page.links, size)
  }

  method ProcessHtmlElements(doc: WordDocument, page: Page, size: real, existing: set<string>, insertable: set<string>)
    modifies doc
    ensures doc.blocks == old(doc.blocks) + ElementBlocks(page, size, existing, insertable)
  {
    AddTextElements(doc, page, size);
    AddOtherElements(doc, page, size, existing, insertable);
  }

  method AddTextElements(doc: WordDocument, page: Page, size: real)
    modifies doc
    ensures doc.blocks == old(doc.blocks) + TextBlocks(page, size)
  {
    AddHeadings(doc, page.headings, size);
    AddParagraphs(doc, page.paragraphs, Normal, size);
    AddFallback(doc, page, size);
  }

  method AddOtherElements(doc: WordDocument, page: Page, size: real, existing: set<string>, insertable: set<string>)
    modifies doc
    ensures doc.blocks == old(doc.blocks) + OtherBlocks(page, size, existing, insertable)
  {
    ghost var start := doc.blocks;
    AddLists(doc, page.lists, size);
    AddTables(doc, page.tables);
    AddImages(doc, page.images, size, existing, insertable);
    AddLinks(doc, page.links, size);
    AppendFour(start, ListBlocks(page.lists, size), TableBlocks(page.tables),
               ImageBlocks(page.images, size, existing, insertable), LinkBlocks(page.links, size));
  }

  /** Appending four runs of blocks one after the other appends their concatenation. */
  lemma AppendFour(s: seq<Block>, a: seq<Block>, b: seq<Block>, c: seq<Block>, d: seq<Block>)
    ensures s + a + b + c + d == s + (a + b + c + d)
  {
  }

  /** The whole-text paragraph when the page has no heading or p element. */
  method AddFallback(doc: WordDocument, page: Page, size: real)
    modifies doc
    ensures doc.blocks == old(doc.blocks) + Fallback(page, size)
  {
    if page.headings == [] && page.paragraphs == [] {
      var text := Strip(page.text);
      if text != [] {
        doc.Append(Paragraph(text, Normal, size, false));
      }
    }
  }

  // ===========================================================================
  // Naming, decoding and preview

  /**
   * The output name: the "output_file" parameter when given, else the input's
   * filename (or name, or "html_document") with its extension replaced by ".docx".
   */
  function OutputName(outputFile: string, originalName: Option<string>): (r: string)
    ensures outputFile != [] ==> r == outputFile
    ensures outputFile == [] ==>
      var orig := if originalName.Some? then originalName.value else "html_document";
      EndsWith(r, ".docx") && r[..|r| - 5] + Ext(orig) == orig
  {
    if outputFile != [] then outputFile
    else
      var orig := if originalName.Some? then originalName.value else "html_document";
      var r := Stem(orig) + ".docx";
      assert r[|r| - 5..] == ".docx";
      assert r[..|r| - 5] == Stem(orig);
      SplitExtShape(orig);
      r
  }

  /** The outcome of decoding the upload with the requested encoding. */
  datatype Decoding = Decoded(text: string) | Undecodable | UnknownEncoding(message: string)

  /** The content `_invoke` reads: text already, or bytes with their decodings (requested, and UTF-8 with replacement). */
  datatype HtmlSource = TextContent(text: string) | Blob(requested: Decoding, replaced: string)

  const ErrorPrefix: string := "转换过程中发生错误: "

  /** Bytes are decoded with the requested encoding; only a decoding error falls back to UTF-8 with replacement. */
  function Decode(src: HtmlSource): (r: Result<string>)
    ensures r.Fail? <==> src.Blob? && src.requested.UnknownEncoding?
    ensures src.Blob? && src.requested.Undecodable? ==> r == Ok(src.replaced)
    ensures src.Blob? && src.requested.Decoded? ==> r == Ok(src.requested.text)
  {
    match src
    case TextContent(t) => Ok(t)
    case Blob(requested, replaced) =>
      match requested
      case Decoded(t) => Ok(t)
      case Undecodable => Ok(replaced)
      case UnknownEncoding(m) => Fail(ErrorPrefix + m)
  }

  const PreviewLength: nat := 500

  /** The preview: the first 500 characters and "..." when the text is longer, else the whole text. */
  function Preview(text: string): (r: string)
    ensures |text| <= PreviewLength ==> r == text
    ensures |text| > PreviewLength ==> |r| == PreviewLength + 3 && r[..PreviewLength] == text[..PreviewLength] && r[PreviewLength..] == "..."
  {
    if |text| > PreviewLength then text[..PreviewLength] + "..." else text
  }

  // ===========================================================================
  // Conversion

  const NoDocx: string := "Error: python-docx库未安装，请安装python-docx>=0.8.11"
  const NoInput: string := "Error: 请提供有效的HTML文件"

  datatype Output = Output(fileName: string, blocks: seq<Block>, preview: string)

  /**
   * `_invoke` up to the save: the checks, decoding, parsing (`parse`), the
   * output name, the document built from the page and the preview of its text.
   * python-docx raises on the first text lxml cannot store; the handler then
   * reports its message and the document is dropped.
   */
  method Convert(docxAvailable: bool, input: Option<HtmlSource>, outputFile: string, originalName: Option<string>,
                 fontSize: real, parse: string -> Page, existing: set<string>, insertable: set<string>)
    returns (r: Result<Output>)
    ensures !docxAvailable ==> r == Fail(NoDocx)
    ensures docxAvailable && input.None? ==> r == Fail(NoInput)
    ensures r.Ok? <==> (docxAvailable && input.Some? && Decode(input.value).Ok?
                        && BlocksXml(ElementBlocks(parse(Decode(input.value).value), fontSize, existing, insertable)))
    ensures docxAvailable && input.Some? && Decode(input.value).Ok? && r.Fail? ==> r.message == ErrorPrefix + XmlError
    ensures r.Ok? ==>
      var page := parse(Decode(input.value).value);
      && r.value.fileName == OutputName(outputFile, originalName)
      && r.value.blocks == ElementBlocks(page, fontSize, existing, insertable)
      && r.value.preview == Preview(page.text)
  {
    if !docxAvailable {
      return Fail(NoDocx);
    }
    if input.None? {
      return Fail(NoInput);
    }
    var html := Decode(input.value);
    if html.Fail? {
      return Fail(html.message);
    }
    var page := parse(html.value);
    var name := OutputName(outputFile, originalName);
    var doc := new WordDocument();
    ProcessHtmlElements(doc, page, fontSize, existing, insertable);
    assert doc.blocks == ElementBlocks(page, fontSize, existing, insertable);
    if !BlocksXml(doc.blocks) {
      return Fail(ErrorPrefix + XmlError);
    }
    r := Ok(Output(name, doc.blocks, Preview(page.text)));
  }
}
