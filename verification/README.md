# GoogleSheetsToDocs in Dafny

GoogleSheetsToDocs is a small web application. It reads a patent
spreadsheet and writes a formatted Google Docs document from it. The
spreadsheet has five tabs: a cover page, an abstract, classification codes,
claims and application events.

This project models the application's core in Dafny:

- **Identifier extraction.** The `Convert` action takes the first run of 25
  or more `[-\w]` characters out of each pasted link (`ids.dfy`).
- **Error mapping.** The `Convert` action turns Google API errors into the
  error line shown on the page (`controller.dfy`).
- **Row parsers.** These turn the spreadsheet's cell matrices into records:
  - the cover page and abstract cells;
  - the classification-code rows;
  - the claim forest, rebuilt from dotted markers such as "2.1";
  - the two-cell application-event rows.
  
  They are in `sheet.dfy`, with `int.Parse` and `string.Split('.')` in
  `numbers.dfy` and `yyyy-MM-dd` date formatting in `dates.dfy`.
- **Document planner.** `CreateDoc` turns the records into batches of Docs
  API edit requests. It threads an integer cursor through a few helpers
  that each emit requests and advance the cursor:
  - `AddText`, `AddLineBreak`, `AddPageBreak`, `AddInlineImage`,
    `AddHeading` and `AddClaims` (`cursor.dfy`, `claims.dfy`);
  - table filling (`tables.dfy`);
  - the section planners, the body clearing and the cursor resync between
    batches (`planner.dfy`).

Every helper is a pure function. It returns `Emit(reqs, next)`: the
requests it appends and the cursor it leaves.

`document.dfy` gives requests a meaning. The body is a character sequence,
and `ApplyAll` applies a batch to it. `Contiguous` is the cursor discipline
the helpers keep. The splice lemmas prove what a batch writes into the body
under the one-position counting the planner assumes: every request that
advances the cursor by one, a page break included, takes one position. For example, the cover on an empty document is its banner, title
and fields in reading order. The claims batch splices the heading and the
pre-order claim lines at its start.

Failures are values. `Wrappers.Fault` names the .NET exception the original
raises when an unchecked list index or `int.Parse` fails. `Controller.Thrown`
adds the Google API error, the `AggregateException` wrapper and the
`ArgumentNullException`.

## Model

| member | source | states |
|---|---|---|
| Cursor.AddText | GoogleSheetsToDocs/Services/Implementations/ConvertService.cs:635-678 | Inserts the text, plus "\n" when asked, at the pre-call cursor. With `updateIndex` the cursor advances by the inserted length; without it the cursor is unchanged. The style request, present only when a style is given, covers exactly [loc, loc + inserted length) in both modes. |
| Cursor.AddTextSplices | GoogleSheetsToDocs/Services/Implementations/ConvertService.cs:635-678 | What AddText puts into the body is exactly its line. With the cursor update, the insertion starts at the cursor and the cursor ends right after it. |
| Cursor.AddLineBreak | GoogleSheetsToDocs/Services/Implementations/ConvertService.cs:715-732 | `count` newline insertions at index, index+1, …, index+count-1 (none when count is not positive); the cursor advances by the number emitted. |
| Cursor.AddLineBreakSplices | GoogleSheetsToDocs/Services/Implementations/ConvertService.cs:715-732 | The line breaks insert only newlines, back to back from the cursor. |
| Cursor.AddPageBreak | GoogleSheetsToDocs/Services/Implementations/ConvertService.cs:587-599 | One page break at the cursor; the cursor advances by one. |
| Cursor.AddInlineImage | GoogleSheetsToDocs/Services/Implementations/ConvertService.cs:572-585 | One image at the cursor; the cursor advances by one. |
| Cursor.AddHeading | GoogleSheetsToDocs/Services/Implementations/ConvertService.cs:680-713 | Inserts the heading without a newline and sets TITLE/CENTER over exactly [index, index+len). The cursor advances by len. |
| ClaimList.Lines | GoogleSheetsToDocs/Services/Implementations/ConvertService.cs:520-530 | One line per claim in pre-order. Each line is the claim's content prefixed by as many tabs as its level's ordinal. |
| ClaimList.AddClaims | GoogleSheetsToDocs/Services/Implementations/ConvertService.cs:520-530 | No ensures of its own. Its contract is carried by AddClaimsIsPreorder (it equals one AddText per pre-order line), AddClaimsSplices and AddClaimsAdvance. |
| ClaimList.AddClaimsSplices | GoogleSheetsToDocs/Services/Implementations/ConvertService.cs:520-530 | AddClaims inserts exactly the pre-order lines, each newline-terminated, back to back from the cursor. |
| ClaimList.AddClaimsIsPreorder | GoogleSheetsToDocs/Services/Implementations/ConvertService.cs:520-530 | The recursive walk (parent, then its children, then the siblings) emits the same requests and cursor as one AddText per pre-order line. |
| ClaimList.AddClaimsAdvance | GoogleSheetsToDocs/Services/Implementations/ConvertService.cs:520-530 | The cursor advances by the sum over all claims of tabs + content length + 1. |
| ClaimList.TabsMatchDepth | GoogleSheetsToDocs/Services/Implementations/ConvertService.cs:524 | In a forest of strict shape (L1 claims, L2 children, L3 grandchildren), every line's tab count equals the claim's depth in the tree. |
| Tables.RowStep | GoogleSheetsToDocs/Services/Implementations/ConvertService.cs:361-375 | Data row k+1's first cell is written len(col0) + CellGap (2) + len(col1) + RowGap (3) positions after row k's, the gaps every table here uses. |
| Tables.RowRequestsAreAddText | GoogleSheetsToDocs/Services/Implementations/ConvertService.cs:363-372 | A row's four requests are what two AddText calls emit without moving the cursor. The first call writes at the running offset; the second writes 2 positions after the first text ends. |
| Tables.FillRows | GoogleSheetsToDocs/Services/Implementations/ConvertService.cs:359-375 | Four requests per data row, and the running offset ends past every row's width (RowsWidth). Where each row lands is stated by FillRowsPlacesRow. |
| Tables.FillRowsPlacesRow | GoogleSheetsToDocs/Services/Implementations/ConvertService.cs:359-375 | The loop's running offset puts row k's requests at the closed-form position: 3 past the header, plus the widths of rows 0..k-1. |
| Tables.HeaderRow | GoogleSheetsToDocs/Services/Implementations/ConvertService.cs:340-359 | Both header cells of row 0 are shaded. The header texts go at tableIdx+3 and tableIdx+5+len(header0), each in the header style over exactly its text. The running offset starts at the end of the second header. |
| Tables.TwoColumnTable | GoogleSheetsToDocs/Services/Implementations/ConvertService.cs:326-375 | A table of n+1 rows and 2 columns at the cursor, whose table start is the cursor + 1. Then come the header row's requests, with both header texts in 10pt bold over exactly their text, and then four requests per data row. |
| Tables.TableRowPlaced | GoogleSheetsToDocs/Services/Implementations/ConvertService.cs:361-375 | Data row k's two texts are at the closed-form offset. Each is styled over exactly its own text. |
| Planner.LabelValue | GoogleSheetsToDocs/Services/Implementations/ConvertService.cs:245-252 | A cover field inserts caption, value and newline contiguously from the cursor. |
| Planner.LabelValueStyles | GoogleSheetsToDocs/Services/Implementations/ConvertService.cs:245-252 | The caption is 14pt over exactly the caption, and the value with its newline is 14pt bold over exactly those characters. |
| Planner.CoverHead | GoogleSheetsToDocs/Services/Implementations/ConvertService.cs:195-208 | The cover's top half inserts the banner image, 3 newlines, the title and 12 newlines, contiguously. |
| Planner.CoverHeadLayout | GoogleSheetsToDocs/Services/Implementations/ConvertService.cs:195-208 | The image request comes first. The spacer newlines go at b..b+11, where b is the position after the title. The NORMAL_TEXT range is [b+1, b+13): the spacer shifted by the offset of 1. |
| Planner.CoverFields | GoogleSheetsToDocs/Services/Implementations/ConvertService.cs:245-254 | Inserts "Prepared by: ", "Inventor: " and "Patent No: " with their values in that order, then a page break. |
| Planner.CoverSection | GoogleSheetsToDocs/Services/Implementations/ConvertService.cs:193-254 | The whole cover is contiguous from the first body position. It inserts exactly the cover text in reading order. |
| Planner.CoverLayout | GoogleSheetsToDocs/Services/Implementations/ConvertService.cs:195-208 | The cover opens with the banner URI at the cursor. Its spacer and NORMAL_TEXT range are those of CoverHeadLayout. |
| Planner.SectionHeading | GoogleSheetsToDocs/Services/Implementations/ConvertService.cs:256-262 | A heading is three requests. It inserts exactly text + "\n" contiguously. |
| Planner.SectionHeadingLayout | GoogleSheetsToDocs/Services/Implementations/ConvertService.cs:258-262 | The HEADING_2 range starts one past the inserted text's start. It ends on the heading's newline: the text's range shifted by the offset of 1. |
| Planner.PagedHeading | GoogleSheetsToDocs/Services/Implementations/ConvertService.cs:315-323 | A page break then a heading. It inserts page break + text + "\n" and leaves the cursor at index + 2 + len. |
| Planner.AbstractSection | GoogleSheetsToDocs/Services/Implementations/ConvertService.cs:256-302 | The abstract is heading, table, shading and two styled texts: nine requests. |
| Planner.AbstractLayout | GoogleSheetsToDocs/Services/Implementations/ConvertService.cs:265-302 | The 1-column 2-row table is inserted at the cursor after the heading. The header cell is shaded at the table start, which is the cursor + 1. "Abstract" goes at tableIdx+3 and the abstract at tableIdx+6+len("Abstract"), each styled over exactly its text. |
| Planner.AbstractFollowsTableRule | GoogleSheetsToDocs/Services/Implementations/ConvertService.cs:265-285 | The abstract table obeys the same position rule as the two-column tables: it is inserted where the heading's text ends, row 0's text is RowGap after the table start, and row 1's text is RowGap after row 0's text ends. |
| Planner.CodeRows | GoogleSheetsToDocs/Services/Implementations/ConvertService.cs:361-372 | Row k of the table is code k's USC code and definition, both in 10pt, in sheet order. |
| Planner.ClassificationSection | GoogleSheetsToDocs/Services/Implementations/ConvertService.cs:315-375 | The section is 4 heading requests, 7 table and header requests, and 4 per code. |
| Planner.ClassificationLayout | GoogleSheetsToDocs/Services/Implementations/ConvertService.cs:315-338 | A paged heading, then the "USC Codes"/"Definitions" table inserted at the cursor the heading left. |
| Planner.ClassificationRowsPlaced | GoogleSheetsToDocs/Services/Implementations/ConvertService.cs:359-375 | Code k and its definition are written at the running offset's closed form, 2 positions apart plus the code's length. |
| Planner.ClassificationExample | GoogleSheetsToDocs/Services/Implementations/ConvertService.cs:326-375 | With two codes the table has 3 rows. The second data row starts len("A01B") + len("Farming") + 5 after the first. |
| Planner.ClaimsSection | GoogleSheetsToDocs/Services/Implementations/ConvertService.cs:386-411 | The claims batch is contiguous. It inserts a page break, "Claims\n" and the pre-order claim lines. |
| Planner.ClaimsLayout | GoogleSheetsToDocs/Services/Implementations/ConvertService.cs:396-411 | The last request is the NUMBERED_DECIMAL_NESTED bullet range [listStart, final cursor). The final cursor is listStart plus the sum of tabs + content + 1. |
| Planner.ClaimsOnBody | GoogleSheetsToDocs/Services/Implementations/ConvertService.cs:386-398 | Applied to any body at a position inside it, the claims batch splices exactly page break, heading line and claim lines there, and changes nothing else. |
| Planner.EventRows | GoogleSheetsToDocs/Services/Implementations/ConvertService.cs:477-510 | Row k is the event's yyyy-MM-dd date in 10pt and its status in the status style. |
| Planner.EventsSection | GoogleSheetsToDocs/Services/Implementations/ConvertService.cs:422-511 | The section is 3 heading requests (no page break), 7 table and header requests, and 4 per event. |
| Planner.EventsLayout | GoogleSheetsToDocs/Services/Implementations/ConvertService.cs:422-460 | A heading, then the "Date"/"Status" table inserted at the cursor the heading left. |
| Planner.EventRowStyled | GoogleSheetsToDocs/Services/Implementations/ConvertService.cs:477-510 | The date cell is plain Font10 over exactly 10 characters. The status style has link and underline exactly when the event has a hyperlink, and the link colour then, grey otherwise. Each row is 10 + len(status) + 5 wide. |
| Requests.StatusStyle | GoogleSheetsToDocs/Services/Implementations/ConvertService.cs:487-508 | The status style has link set to the hyperlink and underline iff one exists. The foreground is RGB(17,85,204) iff a link is present and RGB(95,99,104) iff not. It is 10pt. |
| Planner.ClearRequests | GoogleSheetsToDocs/Services/Implementations/ConvertService.cs:734-760 | No request when the body has exactly 2 elements, and a failure when it has none. Otherwise one deletion of [1, last end - 1). |
| Planner.ClearEmptiesBody | GoogleSheetsToDocs/Services/Implementations/ConvertService.cs:741-754 | The deletion leaves exactly the body's first and last characters. |
| Planner.Resync | GoogleSheetsToDocs/Services/Implementations/ConvertService.cs:311-312 | The next cursor is the last element's EndIndex - 1, and a failure for an empty list. |
| Planner.SectionBatches | GoogleSheetsToDocs/Services/Implementations/ConvertService.cs:185-511 | There are four section batches. Their contents are stated by the section members and their layout lemmas. |
| Planner.PlanDocument | GoogleSheetsToDocs/Services/Implementations/ConvertService.cs:185-518 | The plan succeeds iff every content list read is non-empty. It has 4 batches when the initial body has 2 elements, and 5 otherwise. |
| Planner.PlanSkipsClearing | GoogleSheetsToDocs/Services/Implementations/ConvertService.cs:738-739 | With 2 initial elements the plan is the four section batches, each starting at the resynced cursor. |
| Planner.PlanClearsFirst | GoogleSheetsToDocs/Services/Implementations/ConvertService.cs:189 | Otherwise the clearing batch goes first, then the same four section batches. |
| Planner.CoverOnEmptyBody | GoogleSheetsToDocs/Services/Implementations/ConvertService.cs:193-254 | On a cleared body (section break and final newline) the cover's characters land between the two, in reading order. |
| SheetParser.GetCoverPage | GoogleSheetsToDocs/Services/Implementations/ConvertService.cs:39-53 | Succeeds iff rows 0..2 each have a cell. Title, patent number and inventor are rows 0, 1 and 2; the preparer is "Agent Name". |
| SheetParser.GetAbstract | GoogleSheetsToDocs/Services/Implementations/ConvertService.cs:56-61 | The abstract is cell [0][0], and a failure when it is missing. |
| SheetParser.GetClassificationCodes | GoogleSheetsToDocs/Services/Implementations/ConvertService.cs:63-82 | One code per row in order, from columns 0 and 1. An empty range gives none, and a row without a second cell is a failure. |
| SheetParser.FirstMarker | GoogleSheetsToDocs/Services/Implementations/ConvertService.cs:94-98 | The column of the first cell that is not all `char.IsWhiteSpace` (Unicode space, line and paragraph separators, U+0009 to U+000D, U+0085): every earlier cell is blank; None iff all are blank. |
| SheetParser.FirstMarkerSkipsUnicodeSpace | GoogleSheetsToDocs/Services/Implementations/ConvertService.cs:96-98 | A cell holding only U+3000 is blank, so the marker is found in the next column. |
| SheetParser.GetListIndent | GoogleSheetsToDocs/Services/Implementations/ConvertService.cs:140-157 | Succeeds iff the first piece parses and, when there is a second piece, so does it. |
| SheetParser.ListIndentTwoParts | GoogleSheetsToDocs/Services/Implementations/ConvertService.cs:144-154 | "a.b" gives L1Parent a and L2Parent b. |
| SheetParser.ListIndentOnePart | GoogleSheetsToDocs/Services/Implementations/ConvertService.cs:146-154 | "a" gives L1Parent a and L2Parent 0. |
| SheetParser.ListIndentIgnoresRest | GoogleSheetsToDocs/Services/Implementations/ConvertService.cs:144-154 | Pieces after the second are ignored. |
| SheetParser.ListIndentTrailingDot | GoogleSheetsToDocs/Services/Implementations/ConvertService.cs:146-149 | "x." is a failure: the empty second piece does not parse. |
| SheetParser.AddChild | GoogleSheetsToDocs/Services/Implementations/ConvertService.cs:113-118 | top[a].Children gains the claim at its end and nothing else in the forest changes; an out-of-range a is a failure. |
| SheetParser.AddGrandchild | GoogleSheetsToDocs/Services/Implementations/ConvertService.cs:122-127 | top[a].Children[b].Children gains the claim and nothing else changes; a missing parent is a failure. |
| SheetParser.AddClaimRow | GoogleSheetsToDocs/Services/Implementations/ConvertService.cs:94-132 | An all-blank row adds nothing, and a marker with no next cell is a failure. A marker in column 3 adds nothing. A column-0 marker appends a top-level claim whose text is the next cell. |
| SheetParser.AddClaimRowChild | GoogleSheetsToDocs/Services/Implementations/ConvertService.cs:111-119 | A column-1 marker succeeds iff it parses and its first number n is between 1 and the number of top-level claims. Claim n then gains the text as its last L2 child and nothing else changes. A parse failure keeps its fault; a bad n is an index fault. |
| SheetParser.AddClaimRowGrandchild | GoogleSheetsToDocs/Services/Implementations/ConvertService.cs:120-128 | A column-2 marker "a.b" succeeds iff it parses and child b of claim a exists (both from 1). That child then gains the text as its last L3 child and nothing else changes. A parse failure keeps its fault; a missing parent is an index fault. |
| SheetParser.GetClaims | GoogleSheetsToDocs/Services/Implementations/ConvertService.cs:84-138 | No ensures of its own. Its contract is carried by GetClaimsWellLeveled (a three-level forest), AddClaimRow with AddClaimRowChild and AddClaimRowGrandchild (each row's effect), and GetClaimsExample. |
| SheetParser.GetClaimsWellLeveled | GoogleSheetsToDocs/Services/Implementations/ConvertService.cs:84-138 | GetClaims always builds a strict three-level forest: L1 at the top, L2 children, L3 grandchildren. |
| SheetParser.GetClaimsExample | GoogleSheetsToDocs/Services/Implementations/ConvertService.cs:84-138 | Rows "1"/A, (blank) "1"/B, "2"/C give A with the child B, followed by C with none. |
| SheetParser.GetClaimsTrailingDotFails | GoogleSheetsToDocs/Services/Implementations/ConvertService.cs:111-119 | A level-2 marker "1." fails, although its parent exists. |
| SheetParser.KeptRows | GoogleSheetsToDocs/Services/Implementations/ConvertService.cs:166-169 | Every kept row has two cells, and a row is kept iff it has two cells. |
| SheetParser.KeptRowsSingle | GoogleSheetsToDocs/Services/Implementations/ConvertService.cs:166-169 | One row is kept iff it has exactly two cells. |
| SheetParser.KeptRowsAppend | GoogleSheetsToDocs/Services/Implementations/ConvertService.cs:164-169 | Filtering distributes over concatenation. With KeptRowsSingle this fixes the result: the two-cell rows in sheet order, each as often as it occurs. |
| SheetParser.GetApplicationEvents | GoogleSheetsToDocs/Services/Implementations/ConvertService.cs:159-183 | A null sheet or a null row list throws NullReferenceException, and a sheet without grids fails on `Data[0]`. Otherwise it succeeds iff no row's cell list is null and every kept row's date parses. Event k then comes from kept row k: its parsed date, status text and status hyperlink. |
| SheetParser.EventRowsFirstFault | GoogleSheetsToDocs/Services/Implementations/ConvertService.cs:164-179 | The first row the loop cannot pass decides the fault: a null cell list gives NullReferenceException, a rejected date gives FormatException. |
| Numbers.SplitJoin | GoogleSheetsToDocs/Services/Implementations/ConvertService.cs:144 | Splitting at '.' loses nothing: joining the pieces with '.' gives the input back. |
| Numbers.SplitAtFirstDot | GoogleSheetsToDocs/Services/Implementations/ConvertService.cs:144 | A dot-free piece followed by '.' becomes the first piece of the split. |
| Numbers.ParseInt | GoogleSheetsToDocs/Services/Implementations/ConvertService.cs:148 | A parsed value is within the 32-bit range. A failure is a format or an overflow error, and the empty string is a format failure. |
| Numbers.ParseIntAcceptsNumerals | GoogleSheetsToDocs/Services/Implementations/ConvertService.cs:148 | The parse escapes a format error iff the trimmed text is an optional sign followed by at least one decimal digit. |
| Numbers.ParseIntOfNumeral | GoogleSheetsToDocs/Services/Implementations/ConvertService.cs:153 | Such a numeral parses to its signed value when that fits 32 bits, and is an overflow error otherwise. |
| Numbers.ParseIntToString | GoogleSheetsToDocs/Services/Implementations/ConvertService.cs:153 | Every 32-bit integer's decimal rendering parses back to it. |
| Dates.FormatDate | GoogleSheetsToDocs/Services/Implementations/ConvertService.cs:481 | yyyy-MM-dd: 10 characters, with dashes at 4 and 7 and digits elsewhere. |
| Dates.FormatDateRoundTrip | GoogleSheetsToDocs/Services/Implementations/ConvertService.cs:481 | Reading the rendering back gives the date. |
| Records.LevelOf | GoogleSheetsToDocs/Services/Implementations/ConvertService.cs:100 | Column j names a level iff 0 <= j < 3, and that level's ordinal is j. |
| IdExtraction.Scan | GoogleSheetsToDocs/Controllers/HomeController.cs:32-33 | The first start at or after p where 25 identifier characters follow, with its greedy length. None iff there is no such start. |
| IdExtraction.ExtractId | GoogleSheetsToDocs/Controllers/HomeController.cs:32-33 | The result is empty iff no run of 25 or more `[-\w]` characters exists. Otherwise it has at least 25 characters, all of them `[-\w]`. |
| IdExtraction.ExtractIdLeftmostMaximal | GoogleSheetsToDocs/Controllers/HomeController.cs:32-33 | A non-empty result is a substring of the input with no accepted run starting earlier, and the character just after it is not `[-\w]` (the greedy quantifier took the whole run). |
| IdExtraction.ScanLeftBoundary | GoogleSheetsToDocs/Controllers/HomeController.cs:32-33 | The match the engine finds starts at the beginning of the input or right after a character outside `[-\w]`. |
| IdExtraction.ExtractIdOfId | GoogleSheetsToDocs/Controllers/HomeController.cs:32-33 | A bare identifier of 25 or more `[-\w]` characters is returned unchanged. |
| IdExtraction.ExtractIdIdempotent | GoogleSheetsToDocs/Controllers/HomeController.cs:32-33 | Extracting from an extracted identifier gives it back. |
| IdExtraction.ExtractIdFromLink | GoogleSheetsToDocs/Controllers/HomeController.cs:32-33 | An identifier pasted inside a link whose surrounding text holds no run and ends or starts in a separator is exactly what comes out. |
| Controller.Catch | GoogleSheetsToDocs/Controllers/HomeController.cs:40-53 | The page is rendered iff the outcome completed or is a Google API error, with no error line iff it completed. Any other exception escapes unchanged. |
| Controller.FirstFault | GoogleSheetsToDocs/Services/Implementations/ConvertService.cs:32-36 | Done iff every read completed. Otherwise it is the first failed read, in `.Result` order. |
| Controller.ResultOf | GoogleSheetsToDocs/Services/Implementations/ConvertService.cs:32-36 | Reading `.Result` of a faulted task throws the task's exception wrapped in an AggregateException. |
| Controller.ExtractAsWritten | GoogleSheetsToDocs/Services/Implementations/ConvertService.cs:22-37 | Completes iff all five reads completed. Otherwise it throws the first failed read's exception, in `.Result` order, wrapped in an AggregateException. |
| Controller.Convert | GoogleSheetsToDocs/Controllers/HomeController.cs:30-54 | A null input escapes as ArgumentNullException. A rendered page carries the two extracted identifiers, and it is rendered only when every sheet read completed. |
| Controller.ConvertWith | GoogleSheetsToDocs/Controllers/HomeController.cs:30-54 | A null input escapes as ArgumentNullException. A rendered page carries the two extracted identifiers. |
| Controller.ConvertMapsCreateErrors | GoogleSheetsToDocs/Controllers/HomeController.cs:40-51 | With the reads complete, a completed CreateDoc renders no error line. A NotFound API error renders "Spreadsheet was not found", any other API error renders its message, and other exceptions escape. |
| Controller.ReadErrorEscapes | GoogleSheetsToDocs/Services/Implementations/ConvertService.cs:30-36 | As written, a sheet read that fails with an API error escapes the action wrapped in an AggregateException. |
| Controller.MissingSheetExample | GoogleSheetsToDocs/Controllers/HomeController.cs:42-48 | A 404 on the first read: the action as written fails unhandled, and the awaited version shows "Spreadsheet was not found". |
| Controller.ConvertAwaitedReportsApiErrors | GoogleSheetsToDocs/Controllers/HomeController.cs:40-51 | With the reads awaited, the first failing step's API error is shown with the NotFound text or its message, and only non-API exceptions escape. |
| Controller.ConvertAgreesWhenReadsComplete | GoogleSheetsToDocs/Services/Implementations/ConvertService.cs:22-37 | When every read completes, the two versions render the same page. |
| Controller.EmptyBodyEscapes | GoogleSheetsToDocs/Services/Implementations/ConvertService.cs:736-750 | A document read back with no structural element makes clearing fail with an index fault. That fault is not an API error, so it escapes the action. |

## Left out

- The Google Sheets and Docs API calls, OAuth and file I/O are not modelled. Each values read is given as its cell matrix. The application-events read is given as the sheet it returns: None for a null sheet, and a grid whose row list and cell lists may be null. Each document read-back is given as its list of structural elements. The outcome of each awaited call is a parameter of the controller model.
- `Task.WhenAny` and the concurrency of the five sheet reads are not modelled. Only the order in which `.Result` is read (cover page, abstract, classification codes, application events, claims) is kept, because it decides which failure surfaces.
- `DateTime.Parse` is culture-dependent library code. It is the `parseDate` parameter of `GetApplicationEvents`.
- Records.ValidDate accepts days 1 to 31 in every month. This is enough for the `yyyy-MM-dd` round trip, but it is not the calendar.
- Colours are integer RGB triples. The source divides each component by 255 as a float.
- `\w` is ASCII letters, digits and '_'. .NET's Unicode word class and `RegexOptions.IgnoreCase` are not modelled. The class is already case-insensitive.
- Lengths are counted in Dafny characters. The source's own cursor arithmetic (`text.Length` at ConvertService.cs:262, 284, 352 and 652-665) and the Docs API count UTF-16 code units. For text outside the Basic Multilingual Plane, the model's positions therefore differ from the source's, and not only from the API's.
- Cursor positions are unbounded integers. The source's 32-bit `int` would wrap only for documents far beyond any real size.
- A structural element's `EndIndex` is always present. A null `EndIndex` is not modelled. In the three read-backs (ConvertService.cs:312, 383 and 419) `.EndIndex.Value - 1` would throw InvalidOperationException. When the body is cleared (ConvertService.cs:750), `EndIndex - 1` is lifted `int?` arithmetic, so a null end would go out as the `DeleteContentRange` end and nothing would throw there.
- Numbers.ParseInt accepts only '-' and '+' as signs, which are the invariant culture's. `int.Parse(string)` uses the current culture's signs. It also tolerates trailing NUL characters after the number, which ParseInt rejects with FormatError.
- Planner.PlanDocument returns a bare Failure when a read-back body is empty. It does not record which batches were already applied. In the source, the clearing batch and every batch sent before that read have reached the document when `Content[Count - 1]` throws. The Docs API always returns a body with at least the section break and the final newline, so this path is not reached in practice.
- Cells are strings. A null cell in a values matrix, or a null `FormattedValue` in an events row, is not modelled. A null date value would make `DateTime.Parse` throw ArgumentNullException; a null status value would be stored as it is.
- `Claim.Children` is never null, so the null check in AddClaims has nothing to skip.
- Table insertion has no meaning in the text model (`Apply` gives None). Splice lemmas are proved only for the batches without tables: the cover and the claims. The table sections are described by their request layout.
- The Google SDK's request and style object graphs are replaced by the `Requests.Request` datatype and named style constants. The `Fields = "*"` masks are not modelled.
- MVC views, `Index`, `Error()` and logging are not modelled.
- The page break takes one position, as the planner's `index++` after InsertPageBreak assumes (ConvertService.cs:587-599). The Docs API documents InsertPageBreak as inserting a page break followed by a newline. That trailing newline is not modelled, so ClaimsOnBody and CoverOnEmptyBody hold for the planner's counting and not for the body the service ends up with.
- Planner.SectionBatches only states that there are four batches. Their contents are stated by the section members and layout lemmas.
- The code is followed where the written design differs from it:
  - The NotFound error line reads "Spreadsheet was not found". It is shown even when it is the document, not the spreadsheet, that is missing.
  - A level-2 marker "2." fails, because `int.Parse("")` throws.
  - The claim text cell is read before the level is checked, so a marker in the last column with no following cell is a failure rather than being ignored.

## Findings

| source | as written | input that shows it | evidently intended | confidence | as-written member | corrected member |
|---|---|---|---|---|---|---|
| GoogleSheetsToDocs/Services/Implementations/ConvertService.cs:30-36 | The five sheet reads are taken through `.Result`. A read that fails with a GoogleApiException therefore throws an AggregateException, which the `catch (GoogleApiException)` in HomeController.cs never sees, so the request fails unhandled. | A sheet identifier that does not resolve: the cover-page read answers 404 (`MissingSheetExample`). | Await the reads so that their API errors reach the catch clause. The page then shows "Spreadsheet was not found", as it does for CreateDoc's errors. | not executed; high — this is how `Task.Result` behaves for a faulted task | Controller.ReadErrorEscapes | Controller.ConvertAwaitedReportsApiErrors |
