/**
 * The PowerPoint to PDF tool: the upload check of `_invoke`, and what
 * `PptPdfEngine` draws for a presentation — one PDF page per slide, the
 * slide's background, then every shape at its position converted from EMU to
 * points with the y axis flipped. Group children are placed relative to the
 * group, connectors at their absolute end points. python-pptx and reportlab
 * are outside the model: a presentation is an abstract tree of shapes and a
 * page is the list of drawing operations issued on the canvas.
 */
module PptToPdf {
  import opened Wrappers
  import opened Text

  // ===========================================================================
  // Units

  const EmuPerInch: int := 914400
  const PtPerInch: int := 72
  const EmuToPt: real := PtPerInch as real / EmuPerInch as real

  /** A length in EMU as points: 12700 EMU make one point. */
  function ToPt(emu: int): (r: real)
    ensures r * 12700.0 == emu as real
  {
    emu as real * EmuToPt
  }

  /** The conversion is additive, so offsets can be added before or after it. */
  lemma {:induction false} ToPtAdd(a: int, b: int)
    ensures ToPt(a + b) == ToPt(a) + ToPt(b)
  {
  }

  // ===========================================================================
  // Colours

  datatype Rgb = Rgb(red: byte, green: byte, blue: byte)
  datatype Color = Color(red: real, green: real, blue: real)

  const Black: Color := Color(0.0, 0.0, 0.0)
  /** Theme colours are all drawn as this light grey. */
  const LightGrey: Color := Color(0.9, 0.9, 0.9)

  /** `_rgb_to_color`: each channel scaled from 0..255 to 0..1, and recoverable from it. */
  function RgbToColor(c: Rgb): (r: Color)
    ensures 0.0 <= r.red <= 1.0 && 0.0 <= r.green <= 1.0 && 0.0 <= r.blue <= 1.0
    ensures (r.red * 255.0).Floor == c.red as int
    ensures (r.green * 255.0).Floor == c.green as int
    ensures (r.blue * 255.0).Floor == c.blue as int
  {
    Color(c.red as int as real / 255.0, c.green as int as real / 255.0, c.blue as int as real / 255.0)
  }

  /** What a colour format holds: an RGB value, a theme colour, or neither. */
  datatype ColorSpec = RgbSpec(rgb: Rgb) | SchemeSpec | OtherSpec

  /**
   * A fill: none set (its type is None), one with a foreground colour (solid
   * and pattern fills), or one whose foreground colour cannot be read
   * (gradient, picture and background fills raise).
   */
  datatype Fill = NoFill | Foreground(fore: ColorSpec) | NoForeground

  /** `_get_solid_fill_color`: the RGB colour, grey for a theme colour, nothing otherwise. */
  function SolidFillColor(f: Fill): Option<Color> {
    if !f.Foreground? then None
    else match f.fore
      case RgbSpec(rgb) => Some(RgbToColor(rgb))
      case SchemeSpec => Some(LightGrey)
      case OtherSpec => None
  }

  // ===========================================================================
  // Lines and dash patterns

  /** The MSO_LINE_DASH_STYLE members; `OtherDash` stands for every member the table leaves out. */
  datatype DashStyle = Dash | DashDot | Dot | LongDash | LongDashDot | RoundDot | SquareDot | Solid | OtherDash

  /** A line format: its fill, its width in EMU (0 when unset) and its dash style, if any. */
  datatype LineFormat = LineFormat(fill: Fill, widthEmu: nat, dash: Option<DashStyle>)

  /**
   * The dash table of `_apply_dash_style` for a line `width` points wide:
   * dashes and gaps of 1, 3, 4 or 8 line widths, except the literal 1 that
   * starts a round dot; solid lines get the empty pattern; a style the table
   * does not map gives None.
   */
  function DashPattern(style: DashStyle, width: real): (r: Option<seq<real>>)
    ensures r.None? <==> style == OtherDash
    ensures style == Solid ==> r == Some([])
    ensures r.Some? ==> |r.value| % 2 == 0
    ensures r.Some? ==> forall i :: 0 <= i < |r.value| && !(style == RoundDot && i == 0) ==>
      r.value[i] in {width, 3.0 * width, 4.0 * width, 8.0 * width}
    ensures style == RoundDot ==> r.Some? && |r.value| == 2 && r.value[0] == 1.0
    ensures r.Some? && width > 0.0 ==> forall i :: 0 <= i < |r.value| ==> r.value[i] > 0.0
  {
    match style
    case Dash => Some([width * 4.0, width * 3.0])
    case DashDot => Some([width * 4.0, width * 3.0, width * 1.0, width * 3.0])
    case Dot => Some([width * 1.0, width * 3.0])
    case LongDash => Some([width * 8.0, width * 3.0])
    case LongDashDot => Some([width * 8.0, width * 3.0, width * 1.0, width * 3.0])
    case RoundDot => Some([1.0, width * 4.0])
    case SquareDot => Some([width * 1.0, width * 1.0])
    case Solid => Some([])
    case OtherDash => None
  }

  /** Apart from the round dot's leading 1, a pattern scales with the line width. */
  lemma {:induction false} DashScales(style: DashStyle, width: real, k: real)
    ensures DashPattern(style, k * width).Some? == DashPattern(style, width).Some?
    ensures DashPattern(style, width).Some? ==>
      var p, q := DashPattern(style, width).value, DashPattern(style, k * width).value;
      |q| == |p| && forall i :: 0 <= i < |p| && !(style == RoundDot && i == 0) ==> q[i] == k * p[i]
  {
  }

  /**
   * The pattern `_apply_dash_style` passes to `setDash`, or None when it
   * leaves the dash unchanged: no dash style, or one the table does not map.
   * The width is the line's, or 1 point when unset.
   */
  function ApplyDash(line: LineFormat): Option<seq<real>> {
    if line.dash.None? then None
    else DashPattern(line.dash.value, if line.widthEmu != 0 then ToPt(line.widthEmu) else 1.0)
  }

  // ===========================================================================
  // Paragraph alignment

  datatype Align = AlignLeft | AlignCenter | AlignRight | AlignJustify

  /** The python-pptx PP_ALIGN value of each alignment: LEFT 1, CENTER 2, RIGHT 3, JUSTIFY 4. */
  function PpAlignValue(a: Align): int {
    match a
    case AlignLeft => 1
    case AlignCenter => 2
    case AlignRight => 3
    case AlignJustify => 4
  }

  /** `_map_alignment` as written: 1 is centred, 2 right, 3 justified, anything else left. */
  function MapAlignmentAsWritten(value: Option<int>): Align {
    if value == Some(1) then AlignCenter
    else if value == Some(2) then AlignRight
    else if value == Some(3) then AlignJustify
    else AlignLeft
  }

  /**
   * Every alignment a paragraph states is misread: left text is centred,
   * centred text right-aligned, right text justified, justified text left.
   */
  lemma {:induction false} AlignmentMisread(a: Align)
    ensures MapAlignmentAsWritten(Some(PpAlignValue(a))) != a
  {
  }

  /**
   * The alignment of a paragraph by its PP_ALIGN value: each of the four
   * values gives its own alignment, and every other value (and no value)
   * gives left alignment.
   */
  function MapAlignment(value: Option<int>): (r: Align)
    ensures forall a :: value == Some(PpAlignValue(a)) ==> r == a
    ensures r != AlignLeft ==> value == Some(PpAlignValue(r))
  {
    if value == Some(2) then AlignCenter
    else if value == Some(3) then AlignRight
    else if value == Some(4) then AlignJustify
    else AlignLeft
  }

  // ===========================================================================
  // Fonts

  datatype Fonts = Fonts(regular: string, bold: string)

  /**
   * `_register_fonts`: the plugin's chinese_font.ttc, when found and loaded,
   * serves as both the regular and the bold font; otherwise Helvetica and
   * Helvetica-Bold are used.
   */
  function EngineFonts(fontRegistered: bool): (r: Fonts)
    ensures fontRegistered <==> r.regular == r.bold
    ensures !fontRegistered ==> r == Fonts("Helvetica", "Helvetica-Bold")
  {
    if fontRegistered then Fonts("CustomChineseFont", "CustomChineseFont")
    else Fonts("Helvetica", "Helvetica-Bold")
  }

  // ===========================================================================
  // Shapes and drawing operations

  /** The first run's font: its size in EMU (0 when unset), whether it is bold, and its colour. */
  datatype Run = Run(sizeEmu: nat, bold: bool, color: ColorSpec)
  datatype TextParagraph = TextParagraph(text: string, runs: seq<Run>, alignment: Option<int>)
  /** A text frame: its paragraphs and its four margins in EMU, each absent when the attribute is missing. */
  datatype TextFrame = TextFrame(paragraphs: seq<TextParagraph>, marginLeft: Option<int>, marginRight: Option<int>,
                                 marginTop: Option<int>, marginBottom: Option<int>)

  /** A table row: its height in EMU and its cells' texts, None for a cell without a text frame. */
  datatype TableRow = TableRow(heightEmu: int, cells: seq<Option<string>>)
  datatype PptTable = PptTable(rows: seq<TableRow>, columnWidthsEmu: seq<int>)

  datatype Kind =
    | Group(children: seq<Shape>)
    | Connector(beginX: int, beginY: int, endX: int, endY: int)
    | AutoShape
    | TextBox
    | Picture
    | OtherShape

  /**
   * A shape: whether it has a false `visible` attribute, its left/top and
   * width/height in EMU (None when the attributes are missing), its kind, and
   * what it carries. `imageLoads` says whether a picture's blob reads as an
   * image.
   */
  datatype Shape = Shape(hidden: bool, position: Option<(int, int)>, extent: Option<(int, int)>, kind: Kind,
                         fill: Option<Fill>, line: Option<LineFormat>, textFrame: Option<TextFrame>,
                         table: Option<PptTable>, imageLoads: bool)

  /** A rectangle on the page in points, by its lower-left corner. */
  datatype Rect = Rect(x: real, y: real, w: real, h: real)

  datatype Flowable =
    | LineBreak
    | Para(markup: string, font: string, size: real, leading: real, color: Color, align: Align)

  datatype Margins = Margins(left: real, right: real, top: real, bottom: real)

  /** A drawing operation on the canvas. */
  datatype Op =
    | PageFill(color: Color, width: real, height: real)
    | Box(rect: Rect, fill: Option<Color>, stroke: Option<(Color, real)>, strokeFlag: bool, dash: Option<seq<real>>)
    | TextBoxOp(rect: Rect, margins: Margins, drawW: real, drawH: real, flowables: seq<Flowable>)
    | TableOp(rect: Rect, cells: seq<seq<string>>, rowHeights: seq<real>, colWidths: seq<real>, font: string)
    | ImageOp(rect: Rect)
    | LineOp(x1: real, y1: real, x2: real, y2: real, color: Color, width: real, dash: Option<seq<real>>)

  /**
   * The page rectangle of a shape whose top-left corner is at (x, y) EMU from
   * the slide's top-left corner: the y axis is flipped, so the shape's top
   * edge lies ToPt(y) below the top of the page.
   */
  function Place(x: int, y: int, width: int, height: int, pageHeight: real): (r: Rect)
    ensures r.y + r.h == pageHeight - ToPt(y)
    ensures r.x == ToPt(x) && r.w == ToPt(width) && r.h == ToPt(height)
  {
    Rect(ToPt(x), pageHeight - ToPt(y) - ToPt(height), ToPt(width), ToPt(height))
  }

  /**
   * `_draw_shape_background`: the fill colour, if any; a stroke only with a
   * line colour and a positive width, and the dash only then; the stroke flag
   * whenever there is a line colour.
   */
  function BoxOp(s: Shape, rect: Rect): Op {
    var fill := if s.fill.Some? then SolidFillColor(s.fill.value) else None;
    var lineColor := if s.line.Some? then SolidFillColor(s.line.value.fill) else None;
    var stroked := lineColor.Some? && s.line.value.widthEmu > 0;
    Box(rect, fill, if stroked then Some((lineColor.value, ToPt(s.line.value.widthEmu))) else None,
        lineColor.Some?, if stroked then ApplyDash(s.line.value) else None)
  }

  /**
   * `_draw_connector`: a line between the absolute begin and end points,
   * black and 1 point wide unless the line format says otherwise.
   */
  function ConnectorOp(k: Kind, line: Option<LineFormat>, pageHeight: real): Op
    requires k.Connector?
  {
    var color := if line.Some? && SolidFillColor(line.value.fill).Some? then SolidFillColor(line.value.fill).value else Black;
    var width := if line.Some? && line.value.widthEmu != 0 then ToPt(line.value.widthEmu) else 1.0;
    LineOp(ToPt(k.beginX), pageHeight - ToPt(k.beginY), ToPt(k.endX), pageHeight - ToPt(k.endY),
           color, width, if line.Some? then ApplyDash(line.value) else None)
  }

  // ---------------------------------------------------------------------------
  // Text boxes

  /** A paragraph's text as markup: escaped, then each "\n" as a "<br/>" tag. */
  function ParaMarkup(text: string): string {
    ReplaceChar(Escape(text), '\n', "<br/>")
  }

  /** Turning the "<br/>" tags back into newlines recovers a text without '<'. */
  lemma {:induction false} BreakRoundTrip(s: string)
    requires '<' !in s
    ensures ReplaceAll(ReplaceChar(s, '\n', "<br/>"), "<br/>", "\n") == s
  {
    if s != [] {
      var t := s[1..];
      var rt := ReplaceChar(t, '\n', "<br/>");
      BreakRoundTrip(t);
      if s[0] == '\n' {
        var m := "<br/>" + rt;
        assert m[..5] == "<br/>";
        assert m[5..] == rt;
      } else {
        var m := [s[0]] + rt;
        assert m[0] == s[0];
        assert m[1..] == rt;
        if |m| >= 5 {
          assert m[..5] != "<br/>" by {
            assert m[..5][0] == s[0];
          }
        }
      }
      assert s == [s[0]] + t;
    }
  }

  /** Paragraph markup loses nothing: unescaping it, with "<br/>" read as a newline, gives the text back. */
  lemma {:induction false} ParaMarkupRoundTrip(text: string)
    ensures Unescape(ReplaceAll(ParaMarkup(text), "<br/>", "\n")) == text
    ensures '\n' !in ParaMarkup(text)
  {
    EscapeRoundTrip(text);
    BreakRoundTrip(Escape(text));
  }

  /**
   * The flowable of one paragraph in `_draw_smart_text_box`: an empty
   * paragraph without runs is a line break; any other takes the first run's
   * size (10 when unset), boldness and RGB colour (black otherwise), a
   * leading of 1.2 times the size and the alignment `_map_alignment` gives as written.
   */
  function FlowableOf(p: TextParagraph, fonts: Fonts): (r: Flowable)
    ensures r.LineBreak? <==> p.text == [] && p.runs == []
    ensures r.Para? ==>
      && Unescape(ReplaceAll(r.markup, "<br/>", "\n")) == p.text
      && '\n' !in r.markup
      && r.size > 0.0 && r.leading == 1.2 * r.size
      && r.font == (if p.runs != [] && p.runs[0].bold then fonts.bold else fonts.regular)
      && r.align == MapAlignmentAsWritten(p.alignment)
  {
    if p.text == [] && p.runs == [] then LineBreak
    else
      var size := if p.runs != [] && p.runs[0].sizeEmu != 0 then ToPt(p.runs[0].sizeEmu) else 10.0;
      var bold := p.runs != [] && p.runs[0].bold;
      var color := if p.runs != [] && p.runs[0].color.RgbSpec? then RgbToColor(p.runs[0].color.rgb) else Black;
      ParaMarkupRoundTrip(p.text);
      Para(ParaMarkup(p.text), if bold then fonts.bold else fonts.regular, size, size * 1.2, color, MapAlignmentAsWritten(p.alignment))
  }

  /** One flowable per paragraph, in order. */
  function Flowables(paras: seq<TextParagraph>, fonts: Fonts): seq<Flowable> {
    seq(|paras|, i requires 0 <= i < |paras| => FlowableOf(paras[i], fonts))
  }

  /** The paragraph loop of `_draw_smart_text_box`. */
  method BuildFlowables(paras: seq<TextParagraph>, fonts: Fonts) returns (flowables: seq<Flowable>)
    ensures flowables == Flowables(paras, fonts)
  {
    flowables := [];
    for i := 0 to |paras|
      invariant |flowables| == i
      invariant forall k :: 0 <= k < i ==> flowables[k] == FlowableOf(paras[k], fonts)
    {
      var p := paras[i];
      if p.text == [] && p.runs == [] {
        flowables := flowables + [LineBreak];
        continue;
      }
      var size := 10.0;
      var bold := false;
      var color := Black;
      if p.runs != [] {
        var run := p.runs[0];
        if run.sizeEmu != 0 {
          size := ToPt(run.sizeEmu);
        }
        if run.bold {
          bold := true;
        }
        if run.color.RgbSpec? {
          color := RgbToColor(run.color.rgb);
        }
      }
      var font := if bold then fonts.bold else fonts.regular;
      var f := Para(ParaMarkup(p.text), font, size, size * 1.2, color, MapAlignmentAsWritten(p.alignment));
      assert f == FlowableOf(p, fonts);
      flowables := flowables + [f];
    }
  }

  /** The text of a frame: its paragraphs' texts joined by newlines. */
  function FrameText(tf: TextFrame): string {
    Join("\n", seq(|tf.paragraphs|, i requires 0 <= i < |tf.paragraphs| => tf.paragraphs[i].text))
  }

  /** A margin in points; 5 when the attribute is missing. */
  function MarginPt(m: Option<int>): real {
    if m.Some? then ToPt(m.value) else 5.0
  }

  function Max(a: real, b: real): real {
    if a >= b then a else b
  }

  /**
   * `_draw_smart_text_box` after the paragraph loop: nothing without
   * flowables, else one frame over the shape's rectangle, padded by the
   * margins, whose content box is never below 10 by 10 points.
   */
  function TextOps(tf: TextFrame, rect: Rect, fonts: Fonts): seq<Op> {
    var flowables := Flowables(tf.paragraphs, fonts);
    if flowables == [] then []
    else
      var m := Margins(MarginPt(tf.marginLeft), MarginPt(tf.marginRight), MarginPt(tf.marginTop), MarginPt(tf.marginBottom));
      [TextBoxOp(rect, m, Max(10.0, rect.w - m.left - m.right), Max(10.0, rect.h - m.top - m.bottom), flowables)]
  }

  /**
   * A frame whose text is not blank always gets its box, and the box holds
   * one flowable per paragraph and is at least 10 points wide and high, and
   * at least the rectangle less its margins.
   */
  lemma {:induction false} TextBoxShape(tf: TextFrame, rect: Rect, fonts: Fonts)
    requires Strip(FrameText(tf)) != []
    ensures |TextOps(tf, rect, fonts)| == 1
    ensures var op := TextOps(tf, rect, fonts)[0];
      && op.TextBoxOp? && op.rect == rect && |op.flowables| == |tf.paragraphs|
      && op.drawW >= 10.0 && op.drawH >= 10.0
      && op.drawW >= rect.w - op.margins.left - op.margins.right
      && op.drawH >= rect.h - op.margins.top - op.margins.bottom
  {
  }

  /** `_draw_smart_text_box`. */
  method DrawTextBox(tf: TextFrame, rect: Rect, fonts: Fonts) returns (ops: seq<Op>)
    ensures ops == TextOps(tf, rect, fonts)
  {
    var flowables := BuildFlowables(tf.paragraphs, fonts);
    if flowables == [] {
      return [];
    }
    var ml, mr, mt, mb := MarginPt(tf.marginLeft), MarginPt(tf.marginRight), MarginPt(tf.marginTop), MarginPt(tf.marginBottom);
    var drawW := Max(10.0, rect.w - ml - mr);
    var drawH := Max(10.0, rect.h - mt - mb);
    ops := [TextBoxOp(rect, Margins(ml, mr, mt, mb), drawW, drawH, flowables)];
  }

  // ---------------------------------------------------------------------------
  // Tables

  /** A cell's stripped text; empty without a text frame. */
  function CellText(c: Option<string>): string {
    if c.Some? then Strip(c.value) else ""
  }

  function RowTexts(row: TableRow): seq<string> {
    seq(|row.cells|, j requires 0 <= j < |row.cells| => CellText(row.cells[j]))
  }

  /** The cell texts, row by row. */
  function TableData(rows: seq<TableRow>): seq<seq<string>> {
    seq(|rows|, i requires 0 <= i < |rows| => RowTexts(rows[i]))
  }

  function RowHeights(rows: seq<TableRow>): seq<real> {
    seq(|rows|, i requires 0 <= i < |rows| => ToPt(rows[i].heightEmu))
  }

  function ColumnWidths(widths: seq<int>): seq<real> {
    seq(|widths|, i requires 0 <= i < |widths| => ToPt(widths[i]))
  }

  function EscapeRow(row: seq<string>): seq<string> {
    seq(|row|, j requires 0 <= j < |row| => Escape(row[j]))
  }

  /** Each cell text escaped for paragraph markup. */
  function EscapedData(data: seq<seq<string>>): seq<seq<string>> {
    seq(|data|, i requires 0 <= i < |data| => EscapeRow(data[i]))
  }

  /**
   * The table keeps the rows and cells of the slide's table, and each cell's
   * markup holds no raw '<' or '>' and unescapes to the cell's stripped text.
   */
  lemma {:induction false} TableCellsRoundTrip(rows: seq<TableRow>)
    ensures |EscapedData(TableData(rows))| == |rows|
    ensures forall i :: 0 <= i < |rows| ==> |EscapedData(TableData(rows))[i]| == |rows[i].cells|
    ensures forall i, j :: 0 <= i < |rows| && 0 <= j < |rows[i].cells| ==>
      var m := EscapedData(TableData(rows))[i][j];
      Unescape(m) == CellText(rows[i].cells[j]) && '<' !in m && '>' !in m
  {
    forall i, j | 0 <= i < |rows| && 0 <= j < |rows[i].cells|
      ensures var m := EscapedData(TableData(rows))[i][j];
        Unescape(m) == CellText(rows[i].cells[j]) && '<' !in m && '>' !in m
    {
      EscapeRoundTrip(CellText(rows[i].cells[j]));
    }
  }

  /** `_draw_exact_table`: nothing for a table without rows, else one table in the regular font over the shape's rectangle. */
  function TableOps(t: PptTable, rect: Rect, fonts: Fonts): seq<Op> {
    if t.rows == [] then []
    else [TableOp(rect, EscapedData(TableData(t.rows)), RowHeights(t.rows), ColumnWidths(t.columnWidthsEmu), fonts.regular)]
  }

  /** The first loop of `_draw_exact_table`: row heights and stripped cell texts. */
  method ReadTable(rows: seq<TableRow>) returns (data: seq<seq<string>>, heights: seq<real>)
    ensures data == TableData(rows) && heights == RowHeights(rows)
  {
    data, heights := [], [];
    for i := 0 to |rows|
      invariant |data| == i && |heights| == i
      invariant forall k :: 0 <= k < i ==> data[k] == RowTexts(rows[k]) && heights[k] == ToPt(rows[k].heightEmu)
    {
      var rowData := [];
      heights := heights + [ToPt(rows[i].heightEmu)];
      for j := 0 to |rows[i].cells|
        invariant |rowData| == j
        invariant forall k :: 0 <= k < j ==> rowData[k] == CellText(rows[i].cells[k])
      {
        var cell := rows[i].cells[j];
        var txt := if cell.Some? then Strip(cell.value) else "";
        rowData := rowData + [txt];
      }
      data := data + [rowData];
    }
  }

  /** The second loop of `_draw_exact_table`: every cell text escaped. */
  method EscapeTable(data: seq<seq<string>>) returns (processed: seq<seq<string>>)
    ensures processed == EscapedData(data)
  {
    processed := [];
    for i := 0 to |data|
      invariant |processed| == i
      invariant forall k :: 0 <= k < i ==> processed[k] == EscapeRow(data[k])
    {
      var newRow := [];
      for j := 0 to |data[i]|
        invariant |newRow| == j
        invariant forall k :: 0 <= k < j ==> newRow[k] == Escape(data[i][k])
      {
        newRow := newRow + [Escape(data[i][j])];
      }
      processed := processed + [newRow];
    }
  }

  method DrawTable(t: PptTable, rect: Rect, fonts: Fonts) returns (ops: seq<Op>)
    ensures ops == TableOps(t, rect, fonts)
  {
    if t.rows == [] {
      return [];
    }
    var data, heights := ReadTable(t.rows);
    var widths := ColumnWidths(t.columnWidthsEmu);
    var processed := EscapeTable(data);
    ops := [TableOp(rect, processed, heights, widths, fonts.regular)];
  }

  // ---------------------------------------------------------------------------
  // The shape tree

  /**
   * What a shape other than a group or a connector draws over its
   * rectangle: the background for auto shapes and text boxes, then the text
   * box if its text is not blank, else the table, else the picture.
   */
  function ShapeOps(s: Shape, rect: Rect, fonts: Fonts): seq<Op> {
    (if s.kind.AutoShape? || s.kind.TextBox? then [BoxOp(s, rect)] else []) +
    (if s.textFrame.Some? && Strip(FrameText(s.textFrame.value)) != [] then TextOps(s.textFrame.value, rect, fonts)
     else if s.table.Some? then TableOps(s.table.value, rect, fonts)
     else if s.kind.Picture? && s.imageLoads then [ImageOp(rect)]
     else [])
  }

  /** How far the shape's left edge lies from its parent's; 0 without a position. */
  function Left(s: Shape): int {
    if s.position.Some? then s.position.value.0 else 0
  }

  function Top(s: Shape): int {
    if s.position.Some? then s.position.value.1 else 0
  }

  /**
   * `_render_shape_recursive`: a hidden shape draws nothing, its subtree
   * included; the shape's position is added to the offset (or the offset is
   * kept when the position is missing); a group draws its children at that
   * offset, a connector its line, and any other shape with a size its
   * operations at the offset position.
   */
  function Render(s: Shape, xOff: int, yOff: int, pageHeight: real, fonts: Fonts): seq<Op>
    decreases s
  {
    if s.hidden then []
    else
      var x, y := xOff + Left(s), yOff + Top(s);
      match s.kind
      case Group(children) => RenderAll(children, x, y, pageHeight, fonts)
      case Connector(_, _, _, _) => [ConnectorOp(s.kind, s.line, pageHeight)]
      case _ =>
        if s.extent.None? then []
        else ShapeOps(s, Place(x, y, s.extent.value.0, s.extent.value.1, pageHeight), fonts)
  }

  /** The shapes drawn one after the other, at the same offset. */
  function RenderAll(shapes: seq<Shape>, xOff: int, yOff: int, pageHeight: real, fonts: Fonts): seq<Op>
    decreases shapes
  {
    if shapes == [] then []
    else RenderAll(shapes[..|shapes| - 1], xOff, yOff, pageHeight, fonts) + Render(shapes[|shapes| - 1], xOff, yOff, pageHeight, fonts)
  }

  /** Drawing follows the order of the shapes. */
  lemma {:induction false} RenderAllAppend(a: seq<Shape>, b: seq<Shape>, xOff: int, yOff: int, pageHeight: real, fonts: Fonts)
    ensures RenderAll(a + b, xOff, yOff, pageHeight, fonts) == RenderAll(a, xOff, yOff, pageHeight, fonts) + RenderAll(b, xOff, yOff, pageHeight, fonts)
    decreases |b|
  {
    if b == [] {
      assert a + b == a;
    } else {
      var b' := b[..|b| - 1];
      RenderAllAppend(a, b', xOff, yOff, pageHeight, fonts);
      assert (a + b)[..|a + b| - 1] == a + b';
      assert (a + b)[|a + b| - 1] == b[|b| - 1];
    }
  }

  /** Shapes that are all hidden draw nothing. */
  lemma {:induction false} HiddenDrawNothing(shapes: seq<Shape>, xOff: int, yOff: int, pageHeight: real, fonts: Fonts)
    requires forall i :: 0 <= i < |shapes| ==> shapes[i].hidden
    ensures RenderAll(shapes, xOff, yOff, pageHeight, fonts) == []
  {
    if shapes != [] {
      HiddenDrawNothing(shapes[..|shapes| - 1], xOff, yOff, pageHeight, fonts);
    }
  }

  // ---------------------------------------------------------------------------
  // Moving drawings

  function MoveRect(r: Rect, dx: real, dy: real): Rect {
    Rect(r.x + dx, r.y + dy, r.w, r.h)
  }

  /** An operation moved by (dx, dy): page fills and connector lines stay where they are. */
  function MoveOp(op: Op, dx: real, dy: real): Op {
    if op.PageFill? || op.LineOp? then op else op.(rect := MoveRect(op.rect, dx, dy))
  }

  function Move(ops: seq<Op>, dx: real, dy: real): seq<Op> {
    seq(|ops|, i requires 0 <= i < |ops| => MoveOp(ops[i], dx, dy))
  }

  lemma {:induction false} MoveAppend(a: seq<Op>, b: seq<Op>, dx: real, dy: real)
    ensures Move(a + b, dx, dy) == Move(a, dx, dy) + Move(b, dx, dy)
  {
    var l, r := Move(a + b, dx, dy), Move(a, dx, dy) + Move(b, dx, dy);
    assert |l| == |r|;
    forall i | 0 <= i < |l| ensures l[i] == r[i] {
      if i < |a| {
        assert (a + b)[i] == a[i];
      } else {
        assert (a + b)[i] == b[i - |a|];
      }
    }
  }

  /** A shape's operations over a moved rectangle are its operations moved. */
  lemma {:induction false} ShapeOpsMove(s: Shape, rect: Rect, dx: real, dy: real, fonts: Fonts)
    ensures ShapeOps(s, MoveRect(rect, dx, dy), fonts) == Move(ShapeOps(s, rect, fonts), dx, dy)
  {
    var moved := MoveRect(rect, dx, dy);
    var head := if s.kind.AutoShape? || s.kind.TextBox? then [BoxOp(s, rect)] else [];
    var tail :=
      if s.textFrame.Some? && Strip(FrameText(s.textFrame.value)) != [] then TextOps(s.textFrame.value, rect, fonts)
      else if s.table.Some? then TableOps(s.table.value, rect, fonts)
      else if s.kind.Picture? && s.imageLoads then [ImageOp(rect)]
      else [];
    assert ShapeOps(s, rect, fonts) == head + tail;
    MoveAppend(head, tail, dx, dy);
  }

  /**
   * Moving the offset by (dx, dy) EMU moves everything a shape draws rigidly
   * by (dx, -dy) points, the y axis being flipped — except connector lines,
   * which are drawn at their absolute end points and stay put.
   */
  lemma {:induction false} RenderMoves(s: Shape, xOff: int, yOff: int, dx: int, dy: int, pageHeight: real, fonts: Fonts)
    ensures Render(s, xOff + dx, yOff + dy, pageHeight, fonts) == Move(Render(s, xOff, yOff, pageHeight, fonts), ToPt(dx), -ToPt(dy))
    decreases s, 1
  {
    if !s.hidden {
      var x, y := xOff + Left(s), yOff + Top(s);
      if s.kind.Group? {
        RenderAllMoves(s.kind.children, x, y, dx, dy, pageHeight, fonts);
      } else if !s.kind.Connector? && s.extent.Some? {
        var rect := Place(x, y, s.extent.value.0, s.extent.value.1, pageHeight);
        PlaceMoves(x, y, s.extent.value.0, s.extent.value.1, dx, dy, pageHeight);
        ShapeOpsMove(s, rect, ToPt(dx), -ToPt(dy), fonts);
      }
    }
  }

  lemma {:induction false} PlaceMoves(x: int, y: int, w: int, h: int, dx: int, dy: int, pageHeight: real)
    ensures Place(x + dx, y + dy, w, h, pageHeight) == MoveRect(Place(x, y, w, h, pageHeight), ToPt(dx), -ToPt(dy))
  {
    ToPtAdd(x, dx);
    ToPtAdd(y, dy);
  }

  lemma {:induction false} RenderAllMoves(shapes: seq<Shape>, xOff: int, yOff: int, dx: int, dy: int, pageHeight: real, fonts: Fonts)
    ensures RenderAll(shapes, xOff + dx, yOff + dy, pageHeight, fonts) == Move(RenderAll(shapes, xOff, yOff, pageHeight, fonts), ToPt(dx), -ToPt(dy))
    decreases shapes, 0
  {
    if shapes != [] {
      var init, last := shapes[..|shapes| - 1], shapes[|shapes| - 1];
      RenderAllMoves(init, xOff, yOff, dx, dy, pageHeight, fonts);
      RenderMoves(last, xOff, yOff, dx, dy, pageHeight, fonts);
      MoveAppend(RenderAll(init, xOff, yOff, pageHeight, fonts), Render(last, xOff, yOff, pageHeight, fonts), ToPt(dx), -ToPt(dy));
    }
  }

  /** `_render_shape_recursive`. */
  method RenderShape(s: Shape, xOff: int, yOff: int, pageHeight: real, fonts: Fonts) returns (ops: seq<Op>)
    ensures ops == Render(s, xOff, yOff, pageHeight, fonts)
    decreases s
  {
    if s.hidden {
      return [];
    }
    var x, y := xOff, yOff;
    if s.position.Some? {
      x, y := xOff + s.position.value.0, yOff + s.position.value.1;
    }
    assert x == xOff + Left(s) && y == yOff + Top(s);
    match s.kind {
      case Group(children) =>
        ops := RenderShapes(children, x, y, pageHeight, fonts);
      case Connector(_, _, _, _) =>
        ops := [ConnectorOp(s.kind, s.line, pageHeight)];
      case _ =>
        if s.extent.None? {
          return [];
        }
        var rect := Place(x, y, s.extent.value.0, s.extent.value.1, pageHeight);
        ops := [];
        if s.kind.AutoShape? || s.kind.TextBox? {
          ops := [BoxOp(s, rect)];
        }
        if s.textFrame.Some? && Strip(FrameText(s.textFrame.value)) != [] {
          var text := DrawTextBox(s.textFrame.value, rect, fonts);
          ops := ops + text;
        } else if s.table.Some? {
          var table := DrawTable(s.table.value, rect, fonts);
          ops := ops + table;
        } else if s.kind.Picture? && s.imageLoads {
          ops := ops + [ImageOp(rect)];
        }
    }
  }

  /** The loop over a group's children, and over a slide's shapes. */
  method RenderShapes(shapes: seq<Shape>, xOff: int, yOff: int, pageHeight: real, fonts: Fonts) returns (ops: seq<Op>)
    ensures ops == RenderAll(shapes, xOff, yOff, pageHeight, fonts)
    decreases shapes
  {
    ops := [];
    for i := 0 to |shapes|
      invariant ops == RenderAll(shapes[..i], xOff, yOff, pageHeight, fonts)
    {
      assert shapes[..i + 1][..i] == shapes[..i];
      var shapeOps := RenderShape(shapes[i], xOff, yOff, pageHeight, fonts);
      ops := ops + shapeOps;
    }
    assert shapes[..|shapes|] == shapes;
  }

  // ===========================================================================
  // Slides and the conversion

  datatype Slide = Slide(background: Fill, shapes: seq<Shape>)
  /** A presentation: its slide size in EMU and its slides. */
  datatype Presentation = Presentation(widthEmu: int, heightEmu: int, slides: seq<Slide>)
  /** The PDF: its page size in points and each page's drawing operations. */
  datatype Pdf = Pdf(width: real, height: real, pages: seq<seq<Op>>)

  /**
   * `_process_slide`: the background's colour, when it has one, over the
   * whole page, then the shapes from the slide's top-left corner.
   */
  function SlideOps(slide: Slide, width: real, height: real, fonts: Fonts): seq<Op> {
    var c := SolidFillColor(slide.background);
    (if c.Some? then [PageFill(c.value, width, height)] else []) + RenderAll(slide.shapes, 0, 0, height, fonts)
  }

  method ProcessSlide(slide: Slide, width: real, height: real, fonts: Fonts) returns (ops: seq<Op>)
    ensures ops == SlideOps(slide, width, height, fonts)
  {
    ops := [];
    var color := SolidFillColor(slide.background);
    if color.Some? {
      ops := [PageFill(color.value, width, height)];
    }
    var shapeOps := RenderShapes(slide.shapes, 0, 0, height, fonts);
    ops := ops + shapeOps;
  }

  /** The pages of the presentation, one per slide. */
  function Pages(prs: Presentation, fonts: Fonts): seq<seq<Op>> {
    seq(|prs.slides|, i requires 0 <= i < |prs.slides| => SlideOps(prs.slides[i], ToPt(prs.widthEmu), ToPt(prs.heightEmu), fonts))
  }

  /**
   * `PptPdfEngine.convert`: a presentation that does not open (`prs`
   * carries the error) fails with its message; otherwise the page size is the
   * slide size in points and each slide becomes one page.
   */
  method Convert(prs: Result<Presentation>, fontRegistered: bool) returns (r: Result<Pdf>)
    ensures r.Fail? <==> prs.Fail?
    ensures r.Fail? ==> r.message == prs.message
    ensures r.Ok? ==>
      && r.value.width == ToPt(prs.value.widthEmu) && r.value.height == ToPt(prs.value.heightEmu)
      && r.value.pages == Pages(prs.value, EngineFonts(fontRegistered))
  {
    var fonts := EngineFonts(fontRegistered);
    if prs.Fail? {
      return Fail(prs.message);
    }
    var p := prs.value;
    var width, height := ToPt(p.widthEmu), ToPt(p.heightEmu);
    var pages := [];
    for i := 0 to |p.slides|
      invariant |pages| == i
      invariant forall k :: 0 <= k < i ==> pages[k] == SlideOps(p.slides[k], width, height, fonts)
    {
      var ops := ProcessSlide(p.slides[i], width, height, fonts);
      pages := pages + [ops];
    }
    r := Ok(Pdf(width, height, pages));
  }

  // ===========================================================================
  // The tool

  datatype Upload = Upload(filename: string, extension: Option<string>)
  datatype Start = Stop(message: string) | Begin(outputName: string)

  const MissingLibraries: string := "Error: Required libraries (python-pptx, reportlab, Pillow) are missing."
  const MissingInput: string := "Error: Input file is required."
  const NotPptx: string := "Error: Only .pptx files are supported."

  /**
   * The checks of `_invoke`: the libraries must be importable, a file given,
   * and its extension ".pptx" in any case; the PDF is named after the file
   * name without its extension.
   */
  function CheckUpload(dependencies: bool, input: Option<Upload>): (r: Start)
    ensures r.Begin? <==>
      dependencies && input.Some? && input.value.extension.Some? && Lower(input.value.extension.value) == ".pptx"
    ensures r.Begin? ==> EndsWith(r.outputName, ".pdf") && r.outputName[..|r.outputName| - 4] == Stem(input.value.filename)
  {
    if !dependencies then Stop(MissingLibraries)
    else if input.None? then Stop(MissingInput)
    else if input.value.extension.None? || input.value.extension.value == [] || Lower(input.value.extension.value) != ".pptx" then Stop(NotPptx)
    else
      var name := Stem(input.value.filename) + ".pdf";
      assert name[..|name| - 4] == Stem(input.value.filename);
      Begin(name)
  }
}
