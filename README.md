# File converter plugin: a Dafny model of its own conversion rules

The file converter plugin offers one tool per conversion. Word to PDF,
CSV to Excel, Excel to CSV, Word to text, PDF to text, text to PDF,
text to Word, HTML to Word and PowerPoint to PDF are modelled here. Each
tool checks its upload, saves it and calls a document library
(python-docx, python-pptx, pandas, PyMuPDF, pdfplumber, reportlab,
BeautifulSoup). It then applies its own rules to what the library
returns. This project models those rules, with the library objects taken
as abstract inputs:

- **Word to PDF.** The list-numbering engine keeps a counter per
  (numId, ilvl) and renders prefixes as bullets, CJK numerals or decimals.
  CJK numerals come from `int_to_chinese`. Heading bookmarks are clamped so
  that the outline never goes more than one level deeper at a time. The
  file also covers the upload name sanitiser, proportional column widths,
  table row padding and the image fit.
- **CSV to Excel and Excel to CSV.** The upload gates check extension and
  size. The sheet-name and file-name sanitisers are modelled, as are the
  encoding fallback, the column-width rule, the per-sheet conversion loop
  and the CSV naming rule.
- **Word to text, PDF to text, text to PDF, text to Word.** Validation
  includes the self-referential "path" entry of `get_file_info`. The model
  covers text assembly (paragraph filtering, table markers, page
  separators), the PyMuPDF/pdfplumber fallback, the body-font choice, and
  the story and document built from the text.
- **HTML to Word.** The element rules are modelled: headings by level,
  paragraphs, the whole-text fallback, lists, tables sized by their longest
  row, images and their placeholders, links, the output name, decoding and
  the preview.
- **PowerPoint to PDF.** The model covers:
  - the EMU to point conversion (12700 EMU per point) and the y-axis flip;
  - group offsets;
  - connectors, shape backgrounds and dash patterns;
  - text boxes with escaped markup and a minimum size;
  - tables, slide backgrounds and the upload gate.

The modules are:

- `Wrappers`: Option, Result and byte.
- `Text`: the Python string operations the tools use. These are strip,
  lower, replace, split, join, `str(int)`, `os.path.basename`,
  `os.path.splitext`, universal newlines and markup escaping.
- `FileInfo`: the `get_file_info` helper shared by three tools.
- One module per tool.

Code that changes state step by step is modelled as imperative Dafny and
proved against a specification function:

- the numbering engine is a class with map fields;
- Word documents are classes whose methods append;
- loops are methods with invariants.

Rules that are pure expressions are functions. The properties the tools
promise are lemmas about those functions.

## Model

| member | source | states |
|---|---|---|
| WordToPdf.IntToChinese | tools/word_2_pdf.py:42-47 | The numeral is never empty and begins with a decimal digit exactly when n ≥ 20; below 20 it is CJK characters (one digit, 十, or 十 and a digit) |
| WordToPdf.ChineseRoundTrip | tools/word_2_pdf.py:42-47 | An independent reader of CJK numerals and decimal strings recovers n from `IntToChinese(n)` for every n, so distinct counter values give distinct numerals |
| WordToPdf.CjkDigitRoundTrip | tools/word_2_pdf.py:44-45 | Each of the ten CJK digits reads back as its own value |
| WordToPdf.GoodPrefix | tools/word_2_pdf.py:91-103 | The abstractNums before the first one with an unparsable ilvl all parse, and that one does not |
| WordToPdf.ParseLevels | tools/word_2_pdf.py:93-102 | The w:lvl loop succeeds exactly when every ilvl parses, and then builds the level map with the "decimal" and "%1." defaults |
| WordToPdf.NumberingEngine.constructor | tools/word_2_pdf.py:79-84 | A new engine has empty counters, and its abstract and num dicts are those `_parse_numbering_xml` builds from the numbering part |
| WordToPdf.NumberingEngine.ParseNumbering | tools/word_2_pdf.py:86-110 | Without a numbering part nothing changes. Otherwise the abstractNums up to the first bad ilvl are added, and the nums only when none raised (the exception ends the whole parse) |
| WordToPdf.NumberingEngine.GetNumberingText | tools/word_2_pdf.py:112-142 | The prefix and the new counter table are exactly one step of the numbering state machine applied to the old counters |
| WordToPdf.AdvanceCounters | tools/word_2_pdf.py:114-136 | An unresolved paragraph (blank text, no numPr or numId, unmapped numId, undefined level) gives "" and leaves every counter unchanged. A resolved one moves its own (numId, ilvl) counter from k to k+1, leaves every other counter unchanged, and renders the new value |
| WordToPdf.Values | tools/word_2_pdf.py:133-136 | One counter value per paragraph of a run |
| WordToPdf.ListRun | tools/word_2_pdf.py:133-136 | Paragraphs of one list level are numbered consecutively, k+1, k+2, …, from the counter's previous value; counters are never reset |
| WordToPdf.DecimalPrefix | tools/word_2_pdf.py:140 | The default "%1." decimal format renders value v at level 0 as "v. " |
| WordToPdf.DecimalNotChinese | tools/word_2_pdf.py:139 | The "decimal" format does not take the CJK branch |
| WordToPdf.DecimalListRun | tools/word_2_pdf.py:133-140 | A fresh decimal list numbers its paragraphs "1. ", "2. ", "3. ", … |
| WordToPdf.Clamp | tools/word_2_pdf.py:332-333 | The assigned level is the heading's own level or one past the previous level, whichever is smaller |
| WordToPdf.Tracker | tools/word_2_pdf.py:284-336 | The tracker starts at −1 and never drops below it |
| WordToPdf.Clamped | tools/word_2_pdf.py:329-336 | Clamping keeps one entry per paragraph |
| WordToPdf.Headings | tools/word_2_pdf.py:329-338 | The bookmark levels are at most one per paragraph |
| WordToPdf.ClampedShape | tools/word_2_pdf.py:329-336 | Exactly the heading paragraphs get a level, and a clamped level never exceeds the style's level |
| WordToPdf.ClampedOutline | tools/word_2_pdf.py:284-336 | The clamped levels form a valid outline: the first is 0 and each is at most one deeper than the one before. The tracker is the last assigned level |
| WordToPdf.ValidOutlineSnoc | tools/word_2_pdf.py:332-336 | Appending a level at most one past the last keeps an outline valid |
| WordToPdf.ValidOutlinePrefix | tools/word_2_pdf.py:329-336 | Every prefix of a valid outline is valid |
| WordToPdf.ClampedKeepsValid | tools/word_2_pdf.py:332-333 | Headings that already form a valid outline are left unchanged by the clamp |
| WordToPdf.ClampedSkippedLevel | tools/word_2_pdf.py:330-333 | Heading levels [0, 2, 1] become [0, 1, 1] |
| WordToPdf.ChildLevels | tools/word_2_pdf.py:287-325 | One outline request per body child |
| WordToPdf.ParaStep | tools/word_2_pdf.py:289-345 | Handling a paragraph keeps the tracker at −1 or above |
| WordToPdf.ChildStep | tools/word_2_pdf.py:287-376 | Handling any body child keeps the tracker at −1 or above |
| WordToPdf.WalkBody | tools/word_2_pdf.py:284-376 | The walk over the body keeps the tracker at −1 or above |
| WordToPdf.ParaStepOutline | tools/word_2_pdf.py:307-345 | A paragraph adds a bookmark exactly when it is a kept heading, at the clamped level, and moves the tracker to it. Other paragraphs leave bookmarks and tracker unchanged |
| WordToPdf.TableStepOutline | tools/word_2_pdf.py:347-376 | Tables add no bookmark and leave the tracker unchanged |
| WordToPdf.ChildStepOutline | tools/word_2_pdf.py:287-376 | Any body child adds exactly its clamped heading level to the bookmarks, or nothing |
| WordToPdf.BookmarkLevelsAppend | tools/word_2_pdf.py:338-345 | The bookmarks of a concatenated story are those of its parts in order |
| WordToPdf.BookmarkLevelsSnoc | tools/word_2_pdf.py:345 | Appending one flowable adds its level exactly when it is a bookmark |
| WordToPdf.NoBookmarks | tools/word_2_pdf.py:303-376 | A story without bookmark paragraphs has no outline entries |
| WordToPdf.PicturesNoBookmarks | tools/word_2_pdf.py:294-305 | Inline images add no outline entries |
| WordToPdf.ClampedSnoc | tools/word_2_pdf.py:329-336 | One more paragraph extends the clamped outline by its clamped level (headings only) and updates the tracker the same way |
| WordToPdf.StoryOutline | tools/word_2_pdf.py:284-376 | The bookmark levels of the whole story are exactly the clamped outline levels of the body's headings, and the final tracker is the last of them |
| WordToPdf.StoryOutlineStep | tools/word_2_pdf.py:287-376 | The inductive step of the above for one more body child |
| WordToPdf.StoryOutlineValid | tools/word_2_pdf.py:329-338 | The story's bookmarks always form a valid outline, whatever the heading styles |
| WordToPdf.BuildStory | tools/word_2_pdf.py:284-376 | The body loop produces exactly the story of the body walk and leaves the engine's counters where the walk leaves them |
| WordToPdf.AddParagraph | tools/word_2_pdf.py:289-345 | One paragraph of the loop updates story, tracker and counters exactly as one walk step |
| WordToPdf.TableFlowsOf | tools/word_2_pdf.py:347-376 | The table branch produces the padded rows and a 12-point spacer, and nothing for a table without columns or rows |
| WordToPdf.PicturesOf | tools/word_2_pdf.py:294-305 | The image loop emits one picture per loaded image, in order |
| WordToPdf.FitImage | tools/word_2_pdf.py:300-302 | An image is at most 16 cm wide and never wider than it was. Its aspect ratio is kept, and an image that fits is unchanged |
| WordToPdf.Proportional | tools/word_2_pdf.py:232 | One scaled width per grid column |
| WordToPdf.ColWidths | tools/word_2_pdf.py:224-235 | Widths exist exactly when the grid has columns and a positive total, one per grid column; otherwise None |
| WordToPdf.ProportionalSum | tools/word_2_pdf.py:230-232 | The scaled widths sum to 17 cm times the grid total over the divisor |
| WordToPdf.ProportionalAt | tools/word_2_pdf.py:232 | Column i gets its grid width times 17 cm over the total |
| WordToPdf.ColWidthsFill | tools/word_2_pdf.py:224-232 | When widths exist they sum to exactly 17 cm |
| WordToPdf.ColWidthsShare | tools/word_2_pdf.py:232 | Each column's width is its share of the grid total times 17 cm |
| WordToPdf.ColWidthsRatio | tools/word_2_pdf.py:232 | Any two columns stand in the ratio of their grid widths |
| WordToPdf.CrossRatio | tools/word_2_pdf.py:232 | The product identity behind the ratio property |
| WordToPdf.Cells | tools/word_2_pdf.py:357-360 | One cell per cell of the row |
| WordToPdf.Padding | tools/word_2_pdf.py:361 | Padding of n empty cells |
| WordToPdf.RowShape | tools/word_2_pdf.py:355-362 | A row has max(cell count, table column count) entries. The first are the stripped, escaped cell texts in order; the rest are "" |
| WordToPdf.CellsAt | tools/word_2_pdf.py:358 | Cell j holds the stripped, escaped text of cell j |
| WordToPdf.PaddingAt | tools/word_2_pdf.py:361 | Every padding entry is "" |
| WordToPdf.TableRow | tools/word_2_pdf.py:355-362 | The cell loop and the `while` padding loop build exactly that row |
| WordToPdf.SafeName | tools/word_2_pdf.py:154-159 | The saved name is the upload name with `\ / * ? : " < > \|` removed. When fewer than two characters remain it is "document.docx". ".docx" is appended exactly when the cleaned name does not already end in ".docx" in any case. The result is safe, has at least two characters and ends in ".docx" |
| WordToPdf.DocxSafe | tools/word_2_pdf.py:157-159 | ".docx" and "document.docx" are safe names |
| WordToPdf.DocxAppended | tools/word_2_pdf.py:158-159 | Appending ".docx" to a safe name keeps it safe and makes it end in ".docx" |
| WordToPdf.SafeNameIdempotent | tools/word_2_pdf.py:154-159 | Sanitising a sanitised name changes nothing |
| WordToPdf.OutputName | tools/word_2_pdf.py:169 | The PDF name ends in ".pdf", contains no forbidden character, and putting the sanitised upload's extension back in place of ".pdf" gives the sanitised upload name (splitext(safe_name)[0] + ".pdf") |
| WordToPdf.PdfNameSafe | tools/word_2_pdf.py:169 | A prefix of a safe name plus ".pdf" is safe |
| WordToPdf.CheckUpload | tools/word_2_pdf.py:146-149 | A missing file is refused. A file without an extension makes `.lower()` raise. Otherwise the upload is accepted exactly when the lower-cased extension ends in ".docx" |
| WordToPdf.CheckUploadCase | tools/word_2_pdf.py:146-149 | ".DOCX" is accepted, ".doc" and a missing file are refused |
| CsvToExcel.CheckUpload | tools/csv_2_excel.py:24-58 | The upload goes on exactly when the libraries are present, a file is given, its extension lowers to ".csv" and its blob has 1 to 50·1024·1024 bytes. The not-CSV warning is raised exactly when the first 1024 bytes hold none of `,` `;` tab `\|` |
| CsvToExcel.SizeBoundary | tools/csv_2_excel.py:44-47 | A blob of exactly 50 MiB is accepted and one byte more is rejected as too large |
| CsvToExcel.OutputName | tools/csv_2_excel.py:71 | The output name ends in ".xlsx", and putting the upload's own extension back in place of ".xlsx" gives the upload name |
| CsvToExcel.SanitizeSheetName | tools/csv_2_excel.py:184-207 | The replace loop computes the sheet-name specification |
| CsvToExcel.SheetNameValid | tools/csv_2_excel.py:184-207 | A sheet name is non-empty, at most 31 characters, contains none of `\ / ? * [ ]` and is not blank |
| CsvToExcel.SheetNameBlank | tools/csv_2_excel.py:192-206 | A name made only of whitespace and forbidden characters becomes "Sheet1" |
| CsvToExcel.SheetNameIdempotent | tools/csv_2_excel.py:184-207 | Sanitising a sanitised sheet name changes nothing |
| CsvToExcel.SheetNameKeepsColon | tools/csv_2_excel.py:184-208 | The stem "q1:2024" is kept as the sheet name, ":" included. openpyxl refuses that title with "Invalid character : found in sheet title" |
| CsvToExcel.ExcelSheetNameAccepted | tools/csv_2_excel.py:184-208 | Corrected: removing ":" as well always gives a title openpyxl accepts, at most 31 characters and not blank. For names without ":" it equals the sheet name the code computes |
| CsvToExcel.ReadWith | tools/csv_2_excel.py:118-134 | A successful read used one of the listed encodings and carries that encoding's frame |
| CsvToExcel.ReadWithFirst | tools/csv_2_excel.py:114-134 | Encodings are tried in order and only a decode error moves to the next. The first other outcome decides: a frame, "CSV file is empty", or "Error reading CSV: …". When every encoding fails to decode, the result is the "Unable to read" failure |
| CsvToExcel.ReadCsv | tools/csv_2_excel.py:114-134 | The encoding loop with its `break` and early returns computes exactly that |
| CsvToExcel.MaxLength | tools/csv_2_excel.py:152-169 | max_length is the length of the longest `str(cell)` of the column, or 0 for none. A missing field counts as the empty text pandas writes for it |
| CsvToExcel.Width | tools/csv_2_excel.py:171 | A width lies in [2, 50]. It is 50 exactly when some cell has 48 or more characters, and otherwise is the longest cell plus 2 |
| CsvToExcel.ColumnWidth | tools/csv_2_excel.py:161-171 | The inner cell loop computes that width |
| CsvToExcel.ColumnWidths | tools/csv_2_excel.py:160-172 | One width per column, each the width rule of its column |
| CsvToExcel.Widths | tools/csv_2_excel.py:160-172 | Every column width lies in [2, 50] |
| CsvToExcel.Convert | tools/csv_2_excel.py:107-182 | A successful conversion has a non-empty file and frame. Its sheet is the sanitised file stem and a title openpyxl accepts. Every header and field it writes is a string openpyxl accepts. Its widths are the width rule applied to each column, header cell first, each in [2, 50]. A sheet name that openpyxl refuses makes the conversion fail with openpyxl's message |
| CsvToExcel.ConvertCsv | tools/csv_2_excel.py:107-182 | The converter method computes that conversion |
| CsvToExcel.ConvertUsesFirstParse | tools/csv_2_excel.py:110-182 | Suppose the first encoding that decodes gives a non-empty frame. Then the conversion succeeds exactly when openpyxl accepts the sanitised file stem as a title and accepts every header and field, and it then uses that frame and that sheet name. A refused title fails with openpyxl's "Invalid character" message. Otherwise the first refused string, in pandas' writing order, fails with "… cannot be used in worksheets." |
| CsvToExcel.FirstIllegalExact | tools/csv_2_excel.py:152-153 | No refused string is found exactly when openpyxl accepts every string. Otherwise the one found is refused, and every string written before it is accepted |
| CsvToExcel.BodyCellsAccepted | tools/csv_2_excel.py:152-153 | The body of the first n columns is accepted exactly when each of its fields is |
| CsvToExcel.WrittenCellsAccepted | tools/csv_2_excel.py:152-153 | openpyxl accepts everything `df.to_excel` writes exactly when it accepts every header and every field |
| CsvToExcel.ControlCharRefused | tools/csv_2_excel.py:152-153 | A field "a\x01b" is refused, and it is the string the write fails on |
| ExcelToCsv.CheckUpload | tools/excel_2_csv.py:26-61 | The upload goes on exactly when the libraries are present, a file is given, its extension lowers to ".xlsx" or ".xls" and its blob has 1 to 50·1024·1024 bytes. An unreadable workbook only adds a warning |
| ExcelToCsv.SanitizeFilename | tools/excel_2_csv.py:181-200 | The replace loop computes the file-name specification |
| ExcelToCsv.FileSafeClean | tools/excel_2_csv.py:185-200 | A sanitised name is non-empty, contains none of `\ / : * ? " < > \|`, and neither starts nor ends with a space or "." |
| ExcelToCsv.FileSafeIdempotent | tools/excel_2_csv.py:185-200 | Sanitising a sanitised name changes nothing |
| ExcelToCsv.FileSafeFallback | tools/excel_2_csv.py:196-200 | A name of only spaces and dots becomes "sheet" |
| ExcelToCsv.CsvName | tools/excel_2_csv.py:132-137 | The name ends in ".csv". It is "base.csv" when the sheet name equals the base case-insensitively, else "base_sheet.csv" |
| ExcelToCsv.BlankUnnamed | tools/excel_2_csv.py:126 | Column headers starting "Unnamed: " become "" and all others are kept, with the column count preserved |
| ExcelToCsv.BlankUnnamedIdempotent | tools/excel_2_csv.py:126 | Blanking twice is blanking once |
| ExcelToCsv.Succeeded | tools/excel_2_csv.py:120-159 | No more converted sheets than sheets |
| ExcelToCsv.Files | tools/excel_2_csv.py:129-154 | One CSV file per converted sheet, named by the CSV naming rule, in order |
| ExcelToCsv.SucceededRows | tools/excel_2_csv.py:145-146 | total_rows is the row total of the converted sheets only |
| ExcelToCsv.SucceededNone | tools/excel_2_csv.py:156-162 | Some sheet is converted exactly when some sheet did not raise (nothing is converted exactly when every sheet raises) |
| ExcelToCsv.SucceededFrom | tools/excel_2_csv.py:120-159 | Every converted entry comes from a sheet of the workbook, with its own name and frame |
| ExcelToCsv.SucceededOrder | tools/excel_2_csv.py:120-159 | Converted sheets keep workbook order |
| ExcelToCsv.ConvertSheets | tools/excel_2_csv.py:114-159 | The sheet loop produces exactly those files and that row total |
| ExcelToCsv.Convert | tools/excel_2_csv.py:105-174 | A workbook that cannot be read fails with its message, and an empty one with "Excel file contains no worksheets". Otherwise the conversion succeeds exactly when some sheet converts, and fails with "Failed to convert any worksheets" when every sheet raised. A success lists one CSV file per converted sheet, in workbook order, named after the input stem. Its message is the summary of those files, and the total counts the rows of the converted sheets only |
| FileInfo.ValidateText | tools/text_2_pdf.py:237-253 | Validation raises exactly when the extension is absent, and passes only for an extension ending in ".txt" in any case |
| FileInfo.ValidateTextUpload | tools/text_2_word.py:146-162 | A ".txt" upload passes exactly when its file object has no `path` attribute, because the stored "path" is the info dict itself and cannot be opened |
| WordToText.Validate | tools/word_2_text.py:137-154 | Validation raises exactly when the extension is absent. It passes exactly when the extension ends in ".docx" or ".doc" and, when python-docx and a path are present, the document opens |
| WordToText.ParagraphLines | tools/word_2_text.py:176-179 | The paragraph loop keeps the non-blank paragraphs, stripped, in order |
| WordToText.NonEmptyCells | tools/word_2_text.py:186-189 | The cell loop keeps the non-blank cells, stripped, in order |
| WordToText.TableLines | tools/word_2_text.py:183-192 | One table's entries are the opening marker, its row lines and the closing marker |
| WordToText.TablesLines | tools/word_2_text.py:182-192 | The table loop emits every table's entries in turn |
| WordToText.CollectText | tools/word_2_text.py:173-192 | text_content is the paragraph entries followed by the entries of every table |
| WordToText.RowLinesNonEmpty | tools/word_2_text.py:184-191 | Every row line is non-empty |
| WordToText.RowLinesCount | tools/word_2_text.py:184-191 | There is one row line per row with a non-blank cell |
| WordToText.TableEntriesShape | tools/word_2_text.py:183-192 | A table opens with "\n--- Table ---" and closes with "--- End of Table ---\n", even without row lines. Between the markers is one line per non-blank row |
| WordToText.TablesEntriesLast | tools/word_2_text.py:192 | Some table output exists whenever there is a table |
| WordToText.EntriesNonEmpty | tools/word_2_text.py:173-192 | No entry of text_content is empty |
| WordToText.TablesEntriesNonEmpty | tools/word_2_text.py:182-192 | No table entry is empty |
| WordToText.FullTextEmpty | tools/word_2_text.py:195 | The joined text is empty exactly when the document has no table and no non-blank paragraph |
| WordToText.Process | tools/word_2_text.py:156-239 | A successful conversion is named after the input stem with ".txt" and returns non-empty text |
| WordToText.ProcessOutcome | tools/word_2_text.py:165-239 | The conversion succeeds exactly when python-docx is present, the document loads and it has a table or a non-blank paragraph. The text returned is the "\n\n"-joined entries as read back with universal newlines |
| PdfToText.Validate | tools/pdf_2_text.py:144-168 | Validation raises exactly when the extension is absent, and passes only for ".pdf" in any case |
| PdfToText.ValidateUpload | tools/pdf_2_text.py:144-168 | A ".pdf" upload passes unless its file object has a `path` attribute and a PDF library is importable: opening the stored dict then raises |
| PdfToText.MuTextChunks | tools/pdf_2_text.py:189-193 | The PyMuPDF text is each page's text followed by "\n\n--- Page k ---\n\n" (k 1-based), except the last page |
| PdfToText.ChunksUpTo | tools/pdf_2_text.py:189-193 | The invariant of the page loop: after i pages the text is the text of those pages with their separators |
| PdfToText.MuTextEmpty | tools/pdf_2_text.py:189-193 | The PyMuPDF text is empty exactly for no pages or one page without text |
| PdfToText.MuPdfText | tools/pdf_2_text.py:188-194 | The PyMuPDF page loop computes that text |
| PdfToText.PlumberEmpty | tools/pdf_2_text.py:255-260 | The pdfplumber text is empty exactly when no page has text |
| PdfToText.PlumberAgrees | tools/pdf_2_text.py:255-260 | When every page has text, pdfplumber gives the same text as PyMuPDF would for those page texts |
| PdfToText.PlumberAgreesUpTo | tools/pdf_2_text.py:255-260 | The loop-prefix form of the above |
| PdfToText.PlumberPagesText | tools/pdf_2_text.py:250-264 | The pdfplumber loop computes its text, skipping pages without text |
| PdfToText.Extract | tools/pdf_2_text.py:183-203 | PyMuPDF is used when importable and it does not raise. Otherwise pdfplumber is used, when importable. Extraction fails exactly when the chosen path raises, or when PyMuPDF raised and pdfplumber is absent |
| PdfToText.Process | tools/pdf_2_text.py:170-248 | A successful conversion is named after the input stem with ".txt" and returns non-empty text. Its message names PyMuPDF whenever PyMuPDF is importable, else pdfplumber |
| PdfToText.MessageNamesProducer | tools/pdf_2_text.py:183-238 | The success message names the library that produced the text, except exactly when PyMuPDF is importable but raised and pdfplumber produced the text |
| PdfToText.ProcessSucceeds | tools/pdf_2_text.py:186-245 | Via PyMuPDF, conversion succeeds exactly for two or more pages or one page with text. Via the pdfplumber fallback, it succeeds exactly when some page has text |
| PdfToText.ProcessConversion | tools/pdf_2_text.py:170-248 | The control flow with both page loops computes that conversion, message included |
| TextToPdf.RegisteredExact | tools/text_2_pdf.py:88-111 | A font name is registered exactly when one of its candidate files is usable |
| TextToPdf.RegisterChineseFonts | tools/text_2_pdf.py:57-142 | The regular then the bold candidates are registered in order when usable. The result is true exactly when one was. Helvetica aliases are added exactly when none was, and nothing happens without the font library |
| TextToPdf.ChooseFont | tools/text_2_pdf.py:288-310 | Helvetica without CJK fonts. Otherwise the first registered of ChineseFont, SimSun, Microsoft YaHei, then SimHei, with the result always registered |
| TextToPdf.ChooseFontAgrees | tools/text_2_pdf.py:288-310 | Whenever the code's choice is a registered font, the corrected choice is the same |
| TextToPdf.ChooseFontAsWrittenKnown | tools/text_2_pdf.py:288-307 | The code's choice is a font reportlab knows whenever ChineseFont, SimSun, Microsoft YaHei or SimHei was registered, or none was. When some font was registered, it also agrees with the corrected choice |
| TextToPdf.StoryShape | tools/text_2_pdf.py:331-341 | The story has two flowables per paragraph: the paragraph in the chosen font, then Spacer(1, 6) |
| TextToPdf.FirstMarkupErrorExact | tools/text_2_pdf.py:331-341 | The loop has an error exactly when some block is refused, and it is the error of the first refused block |
| TextToPdf.BuildStory | tools/text_2_pdf.py:328-341 | The paragraph loop hands each stripped non-blank "\n\n"-block to `Paragraph` unescaped. It fails exactly when the parser refuses a block, with the error of the first such block. Otherwise it builds that story |
| TextToPdf.ProcessConversion | tools/text_2_pdf.py:255-383 | The conversion fails exactly when reportlab is absent, the text does not decode, the parser refuses a block, or there is a paragraph and the code's body font is not one reportlab knows. Every failure after the library check carries "Error converting text to PDF: ". A decoding failure reports its own message. An unknown font is reported before any refused block, because the first `Paragraph` looks the font up before parsing its markup. Otherwise the error reported is the first refused block's. On success, the name is the stem with ".pdf" and the story is built from the universal-newline text in the font the code chooses |
| TextToPdf.RawBlockKeepsTag | tools/text_2_pdf.py:331-341 | The text "<b>x" gives the single block "<b>x", which reaches `Paragraph` with its unclosed tag |
| TextToPdf.EscapedParagraphsPlain | tools/text_2_pdf.py:331-341 | Corrected: escaped blocks hold no "<" or ">", and unescaping each gives back its block |
| TextToWord.OutputFormat | tools/text_2_word.py:56-58 | The output format is always "docx" |
| TextToWord.Begin | tools/text_2_word.py:46-66 | A missing input gives exactly one error message. The conversion starts exactly when validation passes, in format "docx" |
| TextToWord.BeginConverts | tools/text_2_word.py:46-162 | A file is converted exactly when its extension ends in ".txt" and its object has no `path` attribute |
| TextToWord.WordDocument.constructor | tools/text_2_word.py:182 | A new document has no paragraphs |
| TextToWord.WordDocument.AddParagraph | tools/text_2_word.py:189 | `add_paragraph` appends one paragraph at the end and changes nothing else |
| TextToWord.BlocksExact | tools/text_2_word.py:185-189 | Every paragraph is a non-empty stripped block, and every block that does not strip to nothing gives one |
| TextToWord.ProcessConversion | tools/text_2_word.py:164-232 | The conversion fails exactly when python-docx is absent, the text does not decode, or a block holds a character lxml cannot store. That last case fails with "Error converting text to Word: " and lxml's message. On success, the name is the stem with the output format and the paragraphs are exactly the non-blank stripped blocks of the universal-newline text |
| TextToWord.FormFeedRefused | tools/text_2_word.py:185-189 | The text "a", form feed, "b" is one block, and lxml cannot store it |
| HtmlToWord.WordDocument.constructor | tools/html_2_word.py:135 | A new document has no blocks |
| HtmlToWord.WordDocument.Append | tools/html_2_word.py:202-236 | Adding a heading, paragraph, table or picture appends one block at the end |
| HtmlToWord.LevelBlocksShape | tools/html_2_word.py:197-206 | Every heading block of level i has non-empty text and run size font_size + (6 − i) |
| HtmlToWord.HeadingsSorted | tools/html_2_word.py:196-206 | Heading blocks come sorted by level, all h1 before all h2 and so on, each sized font_size + (6 − level) |
| HtmlToWord.HeadingKept | tools/html_2_word.py:196-202 | Every heading with non-blank text gives its heading block |
| HtmlToWord.LevelBlocksKept | tools/html_2_word.py:197-202 | The same within the pass of its own level |
| HtmlToWord.UpToKeeps | tools/html_2_word.py:196 | Later level passes keep what earlier passes added |
| HtmlToWord.AddHeadings | tools/html_2_word.py:196-206 | The heading loops append exactly the heading blocks |
| HtmlToWord.AddLevel | tools/html_2_word.py:197-206 | One level's loop appends exactly that level's blocks |
| HtmlToWord.ParasOfShape | tools/html_2_word.py:209-216 | One paragraph block per text, in order |
| HtmlToWord.AddParagraphs | tools/html_2_word.py:209-216 | The p loop appends the stripped non-blank texts as paragraphs |
| HtmlToWord.FallbackOnlyWithoutElements | tools/html_2_word.py:218-226 | The whole-text paragraph is added exactly when there is no h1–h6 or p and the text is not blank, and at most once |
| HtmlToWord.AddFallback | tools/html_2_word.py:218-226 | The fallback step appends exactly that |
| HtmlToWord.AddLists | tools/html_2_word.py:228-243 | The list loop appends every non-blank item, "List Bullet" for ul and "List Number" for ol, list by list |
| HtmlToWord.AddList | tools/html_2_word.py:230-243 | One list's items are appended in order |
| HtmlToWord.MaxCells | tools/html_2_word.py:254 | cols is the largest cell count of any row, attained by some row, or 0 without rows |
| HtmlToWord.TableBlocksShape | tools/html_2_word.py:246-269 | Every table block has one row per tr and max-cells columns, with every row complete. Exactly the tables with a row and a cell give a block |
| HtmlToWord.TableCellsComplete | tools/html_2_word.py:262-269 | Cell (i, j) of the Word table holds the stripped text of cell j of row i |
| HtmlToWord.FillTable | tools/html_2_word.py:262-269 | The fill loops compute that cell grid |
| HtmlToWord.AddTables | tools/html_2_word.py:246-269 | The table loop appends exactly the table blocks |
| HtmlToWord.ImageBlocksOf | tools/html_2_word.py:279-303 | An image becomes a 6-inch picture exactly when its src is not http(s), exists and inserts. Otherwise it ends in the placeholder "[图片: alt or src]". When the src exists but python-docx cannot insert it, the empty paragraph `add_picture` adds before reading the image stays in front of the placeholder |
| HtmlToWord.ImageBlocksAppend | tools/html_2_word.py:278-303 | Images are handled independently and in order: the blocks of a + b are those of a, then those of b |
| HtmlToWord.ImageBlocksSingle | tools/html_2_word.py:279-303 | One image gives exactly its own blocks |
| HtmlToWord.AddImages | tools/html_2_word.py:278-303 | The image loop appends exactly those blocks |
| HtmlToWord.LinkBlocksExact | tools/html_2_word.py:306-314 | Each link with non-blank text gives "text (href)", and a link without text gives nothing |
| HtmlToWord.AddLinks | tools/html_2_word.py:306-314 | The link loop appends exactly those paragraphs |
| HtmlToWord.ProcessHtmlElements | tools/html_2_word.py:193-314 | The elements are appended in the order headings, p, fallback, lists, tables, images, links |
| HtmlToWord.AddTextElements | tools/html_2_word.py:195-226 | The headings, paragraphs and fallback are appended in that order |
| HtmlToWord.AddOtherElements | tools/html_2_word.py:228-314 | The lists, tables, images and links are appended in that order |
| HtmlToWord.OutputName | tools/html_2_word.py:119-127 | A given output_file is used as is. Otherwise the name ends in ".docx", and putting the extension of filename, name or "html_document" back in place of ".docx" gives that name |
| HtmlToWord.Decode | tools/html_2_word.py:109-113 | Bytes are decoded with the requested encoding, or with UTF-8 and replacement when that raises a decode error. Only an unknown encoding fails |
| HtmlToWord.Preview | tools/html_2_word.py:154-155 | Text of at most 500 characters is kept. Longer text becomes its first 500 characters followed by "..." |
| HtmlToWord.Convert | tools/html_2_word.py:76-191 | Without python-docx or an input, the result is the matching error. The conversion succeeds exactly when decoding succeeds and lxml can store every text of the blocks; otherwise it fails with lxml's message. On success the name, the blocks and the preview are those of the decoded, parsed page |
| PptToPdf.ToPt | tools/ppt_2_pdf.py:28-30 | A point is 12700 EMU (72 points per 914400-EMU inch) |
| PptToPdf.ToPtAdd | tools/ppt_2_pdf.py:155-160 | The conversion is additive, so offsets may be summed in EMU or in points |
| PptToPdf.RgbToColor | tools/ppt_2_pdf.py:422-423 | Each channel lies in [0, 1] and scales back to its byte |
| PptToPdf.DashPattern | tools/ppt_2_pdf.py:280-306 | An unmapped style leaves the dash unset and SOLID gives []. Every pattern has even length, and every entry is 1, 3, 4 or 8 line widths except ROUND_DOT's leading 1. Entries are positive for a positive width |
| PptToPdf.DashScales | tools/ppt_2_pdf.py:287-303 | Scaling the line width scales every entry that depends on it |
| PptToPdf.MapAlignment | tools/ppt_2_pdf.py:425-429 | Corrected: each python-pptx alignment value maps to its own alignment, and only LEFT and unknown values give left |
| PptToPdf.EngineFonts | tools/ppt_2_pdf.py:93-112 | The plugin font serves as regular and bold exactly when it registered; otherwise Helvetica and Helvetica-Bold |
| PptToPdf.Place | tools/ppt_2_pdf.py:177-183 | A shape at (x, y) EMU is drawn at x points with its top edge y points below the top of the page (the y-axis flip), at its own size |
| PptToPdf.PlaceMoves | tools/ppt_2_pdf.py:155-183 | Shifting a shape by (dx, dy) EMU shifts its rectangle by (dx, −dy) points |
| PptToPdf.BreakRoundTrip | tools/ppt_2_pdf.py:345 | Mapping "\n" to "<br/>" is undone by mapping it back on text without "<" |
| PptToPdf.ParaMarkupRoundTrip | tools/ppt_2_pdf.py:345 | The paragraph markup has no raw newline, and unescaping it after restoring line breaks gives back the text |
| PptToPdf.FlowableOf | tools/ppt_2_pdf.py:313-347 | An empty paragraph with no runs gives a line break. Any other gives escaped markup that reads back as its text, a positive size with leading 1.2 × size, the bold or regular font from its first run, and the alignment `_map_alignment` gives as written (so a LEFT paragraph is centred) |
| PptToPdf.BuildFlowables | tools/ppt_2_pdf.py:313-347 | The paragraph loop computes those flowables |
| PptToPdf.TextBoxShape | tools/ppt_2_pdf.py:308-363 | A frame with text gives one text box op at the shape's rectangle, with one flowable per paragraph. The drawing box is at least 10 × 10 and at least the rectangle less its margins |
| PptToPdf.DrawTextBox | tools/ppt_2_pdf.py:308-363 | The drawing method computes that op |
| PptToPdf.TableCellsRoundTrip | tools/ppt_2_pdf.py:368-388 | The escaped table data has one row per table row and one cell per cell. Each cell has no raw "<" or ">" and unescapes to the cell's text |
| PptToPdf.ReadTable | tools/ppt_2_pdf.py:368-378 | The row loop reads the cell texts and row heights |
| PptToPdf.EscapeTable | tools/ppt_2_pdf.py:381-388 | The nested loops escape every cell |
| PptToPdf.DrawTable | tools/ppt_2_pdf.py:365-400 | The table method computes its op |
| PptToPdf.HiddenDrawNothing | tools/ppt_2_pdf.py:151-152 | Hidden shapes, with their whole subtree, draw nothing |
| PptToPdf.RenderAllAppend | tools/ppt_2_pdf.py:165-168 | The ops of a shape list are those of its parts in order |
| PptToPdf.MoveAppend | tools/ppt_2_pdf.py:155-160 | Shifting a list of ops shifts each one |
| PptToPdf.ShapeOpsMove | tools/ppt_2_pdf.py:177-204 | Drawing a shape in a shifted rectangle shifts its background, text, table and image ops |
| PptToPdf.RenderMoves | tools/ppt_2_pdf.py:150-204 | Rendering under a group offset of (dx, dy) EMU equals rendering at the origin, shifted by (dx, −dy) points. Connectors and backgrounds stay put, since connectors use absolute coordinates |
| PptToPdf.RenderAllMoves | tools/ppt_2_pdf.py:165-168 | The same for every child of a group |
| PptToPdf.RenderShape | tools/ppt_2_pdf.py:150-204 | The recursive renderer produces exactly the specified ops |
| PptToPdf.RenderShapes | tools/ppt_2_pdf.py:165-168 | The child loop produces exactly the specified ops |
| PptToPdf.ProcessSlide | tools/ppt_2_pdf.py:133-148 | A slide's ops are its solid background fill, when there is one, then its shapes |
| PptToPdf.Convert | tools/ppt_2_pdf.py:114-131 | The conversion fails exactly when the presentation does not open, keeping its message. The page size is the slide size in points, with one page per slide |
| PptToPdf.CheckUpload | tools/ppt_2_pdf.py:38-58 | Conversion starts exactly when the dependencies are present, a file is given and its extension lowers to ".pptx". The output name is the input stem followed by ".pdf" |
| Text.Lower | tools/csv_2_excel.py:34 | Lowering keeps the length and maps each character on its own (ASCII letters) |
| Text.StripShape | tools/text_2_word.py:187-189 | `strip()` returns a stripped slice of the input whose dropped ends are all whitespace |
| Text.StripEmpty | tools/text_2_word.py:187 | A string strips to "" exactly when it is all whitespace |
| Text.StripIdempotent | tools/word_2_text.py:177 | Stripping twice is stripping once |
| Text.NonBlankExact | tools/text_2_pdf.py:331-336 | The kept blocks are exactly the non-empty stripped pieces |
| Text.NonBlankAppend | tools/text_2_pdf.py:332-336 | Filtering a concatenation filters each part |
| Text.NonBlankIdempotent | tools/word_2_text.py:176-179 | Filtering twice is filtering once |
| Text.JoinSplit | tools/text_2_pdf.py:331 | `sep.join(s.split(sep))` gives back s, so splitting loses nothing |
| Text.Split | tools/text_2_word.py:185 | `split` always returns at least one piece |
| Text.JoinSnoc | tools/word_2_text.py:195 | Joining one more entry adds the separator and the entry |
| Text.SplitNoSep | tools/text_2_word.py:185 | A text without the separator's first character splits into itself alone |
| Text.Universal | tools/text_2_word.py:178-179 | Reading in text mode turns every "\r\n" into "\n", then every remaining "\r" into "\n". So no "\r" is left, the text never lengthens and emptiness is kept |
| Text.BasenameShape | tools/text_2_word.py:169 | The base name is a suffix of the path without "/" |
| Text.SplitExtShape | tools/text_2_word.py:169 | `splitext` splits a path into root and extension that concatenate back. The extension is empty or one dot with no further dot or "/", and leading dots of the base name do not start one |
| Text.NatStr | tools/pdf_2_text.py:193 | `str(n)` is non-empty decimal digits without a leading zero |
| Text.ParseNatStr | tools/pdf_2_text.py:193 | Decimal strings read back as their number |
| Text.Substitute | tools/excel_2_csv.py:189-191 | Replacing each forbidden character by "_" keeps the length and changes exactly those characters |
| Text.RemoveAll | tools/csv_2_excel.py:196-198 | Removing the forbidden characters leaves none of them and never lengthens |
| Text.RemoveAllAppend | tools/csv_2_excel.py:196-198 | Removal from a concatenation is the removal from each part, so the kept characters stay in order |
| Text.RemoveAllOne | tools/csv_2_excel.py:196-198 | A single character is dropped exactly when it is forbidden |
| Text.RemoveAllKeeps | tools/csv_2_excel.py:196-198 | Every character that is not forbidden occurs as often after the removal as before |
| Text.EscapeRoundTrip | tools/ppt_2_pdf.py:345 | Escaping "&" first, then "<" and ">", leaves no raw "<" or ">", and unescaping gives back the text |
| Text.EscapeAppend | tools/word_2_pdf.py:327 | Escaping a concatenation escapes each part |
| Text.XmlCompatibleAppend | tools/text_2_word.py:189 | A text is storable by lxml exactly when both of its parts are |

## Left out

- Host protocol and I/O are not modelled. This covers `create_text_message`, `create_json_message`, `create_blob_message`, temporary directories, writing and reading files, the sleep-and-retry read loops, the hardcoded Windows output directory, and size reporting. The file contents a tool reads back are parameters.
- Library internals are oracles or abstract inputs. These are python-docx, python-pptx, pandas, PyMuPDF, pdfplumber, BeautifulSoup and reportlab layout and drawing (`build`, `wrap`, `drawOn`, `KeepInFrame`, `Frame`, image readers). So are the results of opening, decoding and parsing files, and file existence.
- Font registration by file search is given as a set of usable files or a flag. Only the registration order and the font choice are modelled.
- `BookmarkParagraph.draw` is not modelled. That is the outline call at draw time, the 50-character title cut and the swallowed outline error. The model proves that the levels it receives already form a valid outline.
- Floating point is not modelled: geometry, colours and widths are exact `real` values. IEEE rounding is out, and so are `round(…, 2)` and the `int()` truncations of sizes.
- Text.Lower: lowers only the ASCII letters, where Python's `str.lower` is full Unicode.
- Lowering and escaping use the same Text functions in every tool. `re.sub` in the Word to PDF name sanitiser is modelled as character removal.
- PptToPdf: a python-pptx attribute that reads as None makes the Python code raise, and that path is not modelled. Shape sizes, margins and run sizes are taken as integers.
- PptToPdf: python-pptx line breaks inside a paragraph ("\v") are treated as ordinary characters.
- PptToPdf: the exception handlers that skip a shape whose drawing raises are not modelled. Pictures are drawn when their blob loads, and are otherwise skipped.
- HtmlToWord: fonts set on runs (font_family) are not modelled. Block sizes carry the font size.
- HtmlToWord: the `blob`, `read()` or file-path ways of getting the bytes are one input. BeautifulSoup's `get_text` and `find_all` results are the parsed page.
- WordToPdf: the image map from document relations and the reportlab styles are not modelled. Styles are named by level; base fonts are not modelled.
- CsvToExcel: `str(cell.value)` is modelled as a given string per cell, with a missing field written as "". The openpyxl column letters are left out. Of openpyxl's title rules, only the forbidden characters and the empty title are modelled. The message for a refused cell string is the one openpyxl 3.1 gives. Earlier openpyxl versions raise IllegalCharacterError with an empty message. Number cells are taken as their text, which never holds a control character.
- TextToPdf: what reportlab's paragraph parser accepts is an input per block, and so is reportlab's message for an unknown font. The model does not decide which markup reportlab accepts.
- TextToWord and HtmlToWord: python-docx refuses text by lxml's rule, modelled as the characters below " " other than tab, line feed and carriage return, plus U+FFFE and U+FFFF. Picture file names are not checked against that rule.
- The other tools of the plugin (HTML to PDF, PDF to image, PDF to Word, Excel to PDF, image to PDF) are thin wrappers over external converters and are not part of this model.

## Findings

| source | as written | input that shows it | evidently intended | confidence | as-written member | corrected member |
|---|---|---|---|---|---|---|
| tools/ppt_2_pdf.py:425-429 | `_map_alignment` treats 1 as center, 2 as right and 3 as justify, which is Word's numbering | A PowerPoint paragraph aligned LEFT (python-pptx value 1) is drawn centred. CENTER (2) is drawn right-aligned and RIGHT (3) justified | python-pptx's PP_ALIGN numbering: LEFT 1, CENTER 2, RIGHT 3, JUSTIFY 4 | not executed | PptToPdf.MapAlignmentAsWritten, PptToPdf.AlignmentMisread, PptToPdf.FlowableOf, PptToPdf.BuildFlowables | PptToPdf.MapAlignment |
| tools/text_2_pdf.py:288-307 | When none of ChineseFont, SimSun or Microsoft YaHei is registered, the body font is SimHei whether or not SimHei was registered | Only KaiTi registered: the style names SimHei, which reportlab does not know | Fall back to a font that was actually registered | not executed | TextToPdf.ChooseFontAsWritten, TextToPdf.ChooseFontUnregistered, TextToPdf.ProcessConversion | TextToPdf.ChooseFont, TextToPdf.ChooseFontAgrees |
| tools/pdf_2_text.py:238 | The success message names PyMuPDF whenever PyMuPDF is importable | PyMuPDF raises on the file and pdfplumber extracts the text: the message still says PyMuPDF | Name the library that produced the text | not executed | PdfToText.ReportedLibraryAsWritten, PdfToText.ReportedLibraryMislabelsFallback, PdfToText.Process | PdfToText.Extract, PdfToText.MessageNamesProducer |
| tools/csv_2_excel.py:195-198 | `_sanitize_sheet_name` removes `\ / ? * [ ]` but keeps ":", which Excel also forbids in sheet names | The file "q1:2024.csv": openpyxl refuses the sheet title, and the conversion fails with "Invalid character : found in sheet title" | Remove ":" as well, so that every file stem gives a usable sheet name | not executed | CsvToExcel.SheetNameKeepsColon, CsvToExcel.Convert | CsvToExcel.ExcelSheetName, CsvToExcel.ExcelSheetNameAccepted |
| tools/text_2_pdf.py:331-341 | Each block goes to reportlab's `Paragraph` unescaped, so it is parsed as markup. The fallback repeats the same call | The text "<b>x": the block reaches the parser with a tag that is never closed, the parser refuses it, and the conversion fails | Escape each block first, as the PowerPoint and Word converters do (tools/ppt_2_pdf.py:345, tools/word_2_pdf.py:327) | not executed | TextToPdf.RawBlockKeepsTag, TextToPdf.BuildStory | TextToPdf.EscapedParagraphs, TextToPdf.EscapedParagraphsPlain |
