/** CreateDoc: the document template as four batches of requests, each
    planned from the cursor the previous batch left. The cover starts at the
    first body position; every later batch starts at the cursor read back
    from the document after the previous batch (its last structural
    element's end, minus one), because the table a batch inserts adds
    structure the planner does not count.
 */
module Planner {
  import opened Wrappers
  import opened Records
  import opened Requests
  import opened DocModel
  import opened Cursor
  import opened ClaimList
  import opened Tables
  import opened Dates

  /** First position of the body of an empty document. */
  const BodyStart := 1

  const BannerUri := "https://drive.google.com/uc?export=view&id=1oVrLElJ_q9ErqssSIgxukpAe80UwwWPC"

  /** Blank lines between the cover title and the cover fields. */
  const CoverNewlines := 12

  /** The shift CreateDoc applies to the NORMAL_TEXT and HEADING_2 paragraph ranges. */
  const ParagraphOffset := 1

  const AbstractTitle := "Abstract"
  const CodesTitle := "Relevant Classification Codes"
  const ClaimsTitle := "Claims"
  const EventsTitle := "Application Events"

  // ---------------------------------------------------------------- cover

  /** The characters the cover's top half inserts: the banner, three blank
      lines, the title and the twelve-line spacer. */
  function CoverHeadText(title: string): string {
    [ImageMark] + Newlines(3) + title + Newlines(CoverNewlines)
  }

  /** The characters of the three labelled fields and the closing page break. */
  function CoverFieldsText(cover: CoverPage): string {
    "Prepared by: " + cover.preparedBy + "\n"
    + "Inventor: " + cover.inventor + "\n"
    + "Patent No: " + cover.patentNo + "\n"
    + [PageBreakMark]
  }

  /** The characters the cover inserts, in reading order. */
  function CoverText(cover: CoverPage): string {
    CoverHeadText(cover.title) + CoverFieldsText(cover)
  }

  /** A caption in 14pt followed by its value in 14pt bold and a newline. */
  function LabelValue(caption: string, value: string, index: int): (e: Emit)
    ensures Contiguous(e.reqs, index, e.next)
    ensures Inserted(e.reqs) == caption + value + "\n"
  {
    var l := AddText(caption, index, Some(Font14), false, true);
    var v := AddText(value, l.next, Some(Font14Bold), true, true);
    AddTextSplices(caption, index, Some(Font14), false, true);
    AddTextSplices(value, l.next, Some(Font14Bold), true, true);
    Then(l, v, index);
    Seq(l, v)
  }

  /** The field's four requests: the caption in 14pt over exactly the
      caption, then the value and its newline in 14pt bold over exactly
      those. */
  lemma LabelValueStyles(caption: string, value: string, index: int)
    ensures var e := LabelValue(caption, value, index);
            var v := index + |caption|;
            && |e.reqs| == 4
            && e.reqs[0] == InsertText(index, caption)
            && e.reqs[1] == UpdateTextStyle(index, v, Font14)
            && e.reqs[2] == InsertText(v, value + "\n")
            && e.reqs[3] == UpdateTextStyle(v, v + |value| + 1, Font14Bold)
  {
  }

  /** The cover's top half: the banner image, three blank lines, the
      centred title, twelve blank lines, and NORMAL_TEXT over the spacer's
      range shifted one position right. */
  function CoverHead(uri: string, title: string, index: int): (e: Emit)
    ensures Contiguous(e.reqs, index, e.next)
    ensures Inserted(e.reqs) == CoverHeadText(title)
  {
    var img := AddInlineImage(uri, index);
    var gap := AddLineBreak(img.next, 3);
    var heading := AddHeading(title, gap.next);
    var spacer := AddLineBreak(heading.next, CoverNewlines);
    var normal := Emit([UpdateParagraphStyle(spacer.next - CoverNewlines + ParagraphOffset,
                                             spacer.next + ParagraphOffset, NormalText)], spacer.next);
    NoInsertions(normal.reqs, spacer.next);
    AddLineBreakSplices(img.next, 3);
    AddLineBreakSplices(heading.next, CoverNewlines);
    Then5(img, gap, heading, spacer, normal, index);
    Seq(Seq(Seq(Seq(img, gap), heading), spacer), normal)
  }

  /** The cover's top half request by request: the image first, the twelve
      spacer newlines from the position after the title, and the NORMAL_TEXT
      restyle last. */
  lemma CoverHeadLayout(uri: string, title: string, index: int, k: nat)
    requires k < CoverNewlines
    ensures var e := CoverHead(uri, title, index);
            var b := index + 4 + |title|;
            && |e.reqs| == 19
            && e.reqs[0] == InsertInlineImage(index, uri)
            && e.reqs[6 + k] == InsertText(b + k, "\n")
            && e.reqs[18] == UpdateParagraphStyle(b + ParagraphOffset, b + CoverNewlines + ParagraphOffset, NormalText)
  {
    var img := AddInlineImage(uri, index);
    var gap := AddLineBreak(img.next, 3);
    var heading := AddHeading(title, gap.next);
    var spacer := AddLineBreak(heading.next, CoverNewlines);
    var e1 := Seq(img, gap);
    var e2 := Seq(e1, heading);
    var e3 := Seq(e2, spacer);
    assert |e1.reqs| == 4 && e1.reqs[0] == img.reqs[0];
    assert |e2.reqs| == 6 && e2.reqs[0] == e1.reqs[0];
    assert |e3.reqs| == 18 && e3.reqs[0] == e2.reqs[0] && e3.reqs[6 + k] == spacer.reqs[k];
  }

  /** The cover's bottom half: the three labelled fields and a page break. */
  function CoverFields(cover: CoverPage, index: int): (e: Emit)
    ensures Contiguous(e.reqs, index, e.next)
    ensures Inserted(e.reqs) == CoverFieldsText(cover)
  {
    var prepared := LabelValue("Prepared by: ", cover.preparedBy, index);
    var inventor := LabelValue("Inventor: ", cover.inventor, prepared.next);
    var patent := LabelValue("Patent No: ", cover.patentNo, inventor.next);
    var brk := AddPageBreak(patent.next);
    Then4(prepared, inventor, patent, brk, index);
    Seq(Seq(Seq(prepared, inventor), patent), brk)
  }

  /** The cover page, top half with the banner then bottom half. */
  function CoverSection(cover: CoverPage, index: int): (e: Emit)
    ensures Contiguous(e.reqs, index, e.next)
    ensures Inserted(e.reqs) == CoverText(cover)
  {
    var head := CoverHead(BannerUri, cover.title, index);
    var fields := CoverFields(cover, head.next);
    Then(head, fields, index);
    Seq(head, fields)
  }

  /** The cover opens with the banner; the spacer under the title is twelve
      newlines from the position after the title, and the NORMAL_TEXT
      restyle that follows them covers that range moved one position right:
      it starts on the second blank line and runs one past the last. */
  lemma CoverLayout(cover: CoverPage, index: int, k: nat)
    requires k < CoverNewlines
    ensures var reqs := CoverSection(cover, index).reqs;
            var b := index + 4 + |cover.title|;
            && |reqs| >= 19
            && reqs[0] == InsertInlineImage(index, BannerUri)
            && reqs[6 + k] == InsertText(b + k, "\n")
            && reqs[18] == UpdateParagraphStyle(b + 1, b + CoverNewlines + 1, NormalText)
  {
    var head := CoverHead(BannerUri, cover.title, index);
    var reqs := CoverSection(cover, index).reqs;
    CoverHeadLayout(BannerUri, cover.title, index, k);
    assert reqs == head.reqs + CoverFields(cover, head.next).reqs;
    assert reqs[0] == head.reqs[0] && reqs[6 + k] == head.reqs[6 + k] && reqs[18] == head.reqs[18];
  }

  // ------------------------------------------------------------- headings

  /** A section heading: the bold text and a newline at the cursor, then
      HEADING_2 over the range computed back from the advanced cursor with
      the paragraph offset. */
  function SectionHeading(text: string, index: int): (e: Emit)
    ensures |e.reqs| == 3
    ensures Contiguous(e.reqs, index, e.next) && Inserted(e.reqs) == text + "\n"
  {
    var h := AddText(text, index, Some(BoldOnly), true, true);
    AddTextSplices(text, index, Some(BoldOnly), true, true);
    var para := Emit([UpdateParagraphStyle(h.next - |text| - 1 + ParagraphOffset,
                                           h.next - 1 + ParagraphOffset, Heading2)], h.next);
    NoInsertions(para.reqs, h.next);
    Then(h, para, index);
    Seq(h, para)
  }

  /** The heading's three requests. The HEADING_2 range is the heading text
      shifted one position right: it starts on the character after the
      heading's first and ends on the heading's newline. */
  lemma SectionHeadingLayout(text: string, index: int)
    ensures var e := SectionHeading(text, index);
            && e.reqs[0] == InsertText(index, text + "\n")
            && e.reqs[1] == UpdateTextStyle(index, index + |text| + 1, BoldOnly)
            && e.reqs[2] == UpdateParagraphStyle(index + 1, index + 1 + |text|, Heading2)
            && e.reqs[2].start == e.reqs[0].loc + ParagraphOffset
            && e.reqs[2].end == e.reqs[0].loc + |e.reqs[0].text|
  {
  }

  /** A page break followed by a section heading. */
  function PagedHeading(text: string, index: int): (e: Emit)
    ensures |e.reqs| == 4
    ensures Contiguous(e.reqs, index, e.next)
    ensures Inserted(e.reqs) == [PageBreakMark] + text + "\n"
    ensures e.next == index + 2 + |text|
  {
    var brk := AddPageBreak(index);
    var h := SectionHeading(text, brk.next);
    Then(brk, h, index);
    ContiguousAdvance(h.reqs, brk.next, h.next);
    Seq(brk, h)
  }

  // ------------------------------------------------------------- abstract

  /** The abstract: heading, a 1-column 2-row table at the cursor whose
      header cell is shaded, "Abstract" written into row 0 and the abstract
      text into row 1. */
  function AbstractSection(abstractText: string, index: int): (reqs: seq<Request>)
    ensures |reqs| == 9
  {
    var h := SectionHeading(AbstractTitle, index);
    var tableAt := h.next;
    var tableStart := tableAt + 1;
    var row0 := tableStart + 3 * 1;
    var row1 := tableStart + 3 * 2 + |AbstractTitle|;
    var c0 := AddText(AbstractTitle, row0, Some(BoldOnly), false, false);
    var c1 := AddText(abstractText, row1, Some(AbstractBody), false, false);
    h.reqs + [InsertTable(tableAt, 2, 1), UpdateTableCellBackground(tableStart, 0, 0, HeaderBlue)] + c0.reqs + c1.reqs
  }

  /** Where the abstract's table and texts go: the table at the cursor after
      the heading, row 0's text 3 positions after the table start, row 1's 3
      positions after row 0's text ends, each styled over exactly its text. */
  lemma AbstractLayout(abstractText: string, index: int)
    ensures var reqs := AbstractSection(abstractText, index);
            var tableAt := index + |AbstractTitle| + 1;
            var row1 := tableAt + 7 + |AbstractTitle|;
            && reqs[..3] == SectionHeading(AbstractTitle, index).reqs
            && reqs[3] == InsertTable(tableAt, 2, 1)
            && reqs[4] == UpdateTableCellBackground(tableAt + 1, 0, 0, HeaderBlue)
            && reqs[5] == InsertText(tableAt + 4, AbstractTitle)
            && reqs[6] == UpdateTextStyle(tableAt + 4, tableAt + 4 + |AbstractTitle|, BoldOnly)
            && reqs[7] == InsertText(row1, abstractText)
            && reqs[8] == UpdateTextStyle(row1, row1 + |abstractText|, AbstractBody)
  {
    var h := SectionHeading(AbstractTitle, index);
    ContiguousAdvance(h.reqs, index, h.next);
  }

  /** The abstract's table obeys the position rule of every table here:
      it is inserted where the heading's text ends, row 0's text starts
      RowGap after the table start, and row 1's text RowGap after row 0's
      text ends (a row of this table has a single cell). */
  lemma AbstractFollowsTableRule(abstractText: string, index: int)
    ensures var reqs := AbstractSection(abstractText, index);
            && reqs[3].InsertTable? && reqs[5].InsertText? && reqs[7].InsertText?
            && reqs[3].loc == index + |Inserted(SectionHeading(AbstractTitle, index).reqs)|
            && reqs[5].text == AbstractTitle && reqs[7].text == abstractText
            && reqs[5].loc == reqs[3].loc + 1 + RowGap
            && reqs[7].loc == reqs[5].loc + |reqs[5].text| + RowGap
  {
    var h := SectionHeading(AbstractTitle, index);
    AbstractLayout(abstractText, index);
    ContiguousAdvance(h.reqs, index, h.next);
  }

  // -------------------------------------------------- classification codes

  function CodeRows(codes: seq<ClassificationCode>): (rows: seq<CellRow>)
    ensures |rows| == |codes|
    ensures forall k :: 0 <= k < |codes| ==>
              rows[k] == CellRow(codes[k].uscCode, Font10, codes[k].definition, Font10)
  {
    seq(|codes|, k requires 0 <= k < |codes| => CellRow(codes[k].uscCode, Font10, codes[k].definition, Font10))
  }

  /** Page break, heading, then a 2-column table of |codes| + 1 rows at the
      cursor: header "USC Codes" / "Definitions" on a light-blue row, one row
      per code in order. */
  function ClassificationSection(codes: seq<ClassificationCode>, index: int): (reqs: seq<Request>)
    ensures |reqs| == 4 + 7 + 4 * |codes|
  {
    var h := PagedHeading(CodesTitle, index);
    h.reqs + TwoColumnTable(h.next, "USC Codes", "Definitions", PaleHeaderBlue, CodeRows(codes))
  }

  /** The section is the paged heading followed by the table, which is
      inserted where the heading left the cursor. */
  lemma ClassificationLayout(codes: seq<ClassificationCode>, index: int)
    ensures var reqs := ClassificationSection(codes, index);
            && reqs[..4] == PagedHeading(CodesTitle, index).reqs
            && reqs[4..] == TwoColumnTable(index + 2 + |CodesTitle|, "USC Codes", "Definitions", PaleHeaderBlue, CodeRows(codes))
  {
  }

  /** Where code k and its definition are written: the running offset starts
      at the end of the "Definitions" header text and each earlier row moves
      it by |code| + |definition| + 5. */
  lemma ClassificationRowsPlaced(codes: seq<ClassificationCode>, index: int, k: nat)
    requires k < |codes|
    ensures var reqs := ClassificationSection(codes, index);
            var s := RowStart(CodeRows(codes), index + 2 + |CodesTitle| + 6 + |"USC Codes"| + |"Definitions"|, k);
            && reqs[11 + 4 * k] == InsertText(s, codes[k].uscCode)
            && reqs[11 + 4 * k + 2] == InsertText(s + |codes[k].uscCode| + 2, codes[k].definition)
  {
    var reqs := ClassificationSection(codes, index);
    var tableAt := index + 2 + |CodesTitle|;
    var table := TwoColumnTable(tableAt, "USC Codes", "Definitions", PaleHeaderBlue, CodeRows(codes));
    ClassificationLayout(codes, index);
    TableRowPlaced(tableAt, "USC Codes", "Definitions", PaleHeaderBlue, CodeRows(codes), k);
    assert reqs[11 + 4 * k] == reqs[4..][7 + 4 * k] == table[7 + 4 * k];
    assert reqs[11 + 4 * k + 2] == reqs[4..][7 + 4 * k + 2] == table[7 + 4 * k + 2];
  }

  /** The worked case: with codes A01B/Farming and G06F/Computing the table
      has 3 rows, and the second data row starts |"A01B"| + |"Farming"| + 5
      after the first. */
  lemma ClassificationExample(index: int)
    ensures var codes := [ClassificationCode("A01B", "Farming"), ClassificationCode("G06F", "Computing")];
            var reqs := ClassificationSection(codes, index);
            && reqs[4] == InsertTable(index + 2 + |CodesTitle|, 3, 2)
            && reqs[11].InsertText? && reqs[15].InsertText?
            && reqs[15].loc == reqs[11].loc + 4 + 7 + 5
  {
    var codes := [ClassificationCode("A01B", "Farming"), ClassificationCode("G06F", "Computing")];
    var cur := index + 2 + |CodesTitle| + 6 + |"USC Codes"| + |"Definitions"|;
    ClassificationLayout(codes, index);
    ClassificationRowsPlaced(codes, index, 0);
    ClassificationRowsPlaced(codes, index, 1);
    RowStep(CodeRows(codes), cur, 0);
  }

  // --------------------------------------------------------------- claims

  /** Page break, heading, the claim lines from the list start, and one
      nested-decimal numbering request over [list start, final cursor). */
  function ClaimsSection(claims: seq<Claim>, index: int): (e: Emit)
    ensures Contiguous(e.reqs, index, e.next)
    ensures Inserted(e.reqs) == [PageBreakMark] + ClaimsTitle + "\n" + Joined(Lines(claims))
  {
    var head := PagedHeading(ClaimsTitle, index);
    var body := AddClaims(claims, head.next, Some(Font10Bold));
    var bullets := Emit([CreateParagraphBullets(head.next, body.next, NumberedDecimalNested)], body.next);
    AddClaimsSplices(claims, head.next, Some(Font10Bold));
    NoInsertions(bullets.reqs, body.next);
    Then3(head, body, bullets, index);
    Seq(Seq(head, body), bullets)
  }

  /** The numbering request is last and spans the list exactly: from the
      list start after the heading to the end of the claim lines, which is
      the sum over all claims of tabs, content and newline. */
  lemma ClaimsLayout(claims: seq<Claim>, index: int)
    ensures var e := ClaimsSection(claims, index);
            var listStart := index + 2 + |ClaimsTitle|;
            && |e.reqs| >= 5
            && e.reqs[..4] == PagedHeading(ClaimsTitle, index).reqs
            && e.reqs[|e.reqs| - 1] == CreateParagraphBullets(listStart, e.next, NumberedDecimalNested)
            && e.next == listStart + LinesLength(claims)
  {
    var listStart := index + 2 + |ClaimsTitle|;
    var head := PagedHeading(ClaimsTitle, index);
    var body := AddClaims(claims, listStart, Some(Font10Bold));
    var bullets := [CreateParagraphBullets(listStart, body.next, NumberedDecimalNested)];
    assert ClaimsSection(claims, index).reqs == head.reqs + body.reqs + bullets;
    AddClaimsAdvance(claims, listStart, Some(Font10Bold));
  }

  // --------------------------------------------------- application events

  function EventRows(events: seq<ApplicationEvent>): (rows: seq<CellRow>)
    ensures |rows| == |events|
    ensures forall k :: 0 <= k < |events| ==>
              rows[k] == CellRow(FormatDate(events[k].date), Font10, events[k].status, StatusStyle(events[k].hyperlink))
  {
    seq(|events|, k requires 0 <= k < |events| =>
      CellRow(FormatDate(events[k].date), Font10, events[k].status, StatusStyle(events[k].hyperlink)))
  }

  /** Heading (no page break), then a 2-column table of |events| + 1 rows:
      header "Date" / "Status" on a blue row, one row per event. */
  function EventsSection(events: seq<ApplicationEvent>, index: int): (reqs: seq<Request>)
    ensures |reqs| == 3 + 7 + 4 * |events|
  {
    var h := SectionHeading(EventsTitle, index);
    ContiguousAdvance(h.reqs, index, h.next);
    h.reqs + TwoColumnTable(h.next, "Date", "Status", HeaderBlue, EventRows(events))
  }

  /** The section is the heading followed by the table, which is inserted
      where the heading left the cursor. */
  lemma EventsLayout(events: seq<ApplicationEvent>, index: int)
    ensures var reqs := EventsSection(events, index);
            && reqs[..3] == SectionHeading(EventsTitle, index).reqs
            && reqs[3..] == TwoColumnTable(index + 1 + |EventsTitle|, "Date", "Status", HeaderBlue, EventRows(events))
  {
    var h := SectionHeading(EventsTitle, index);
    ContiguousAdvance(h.reqs, index, h.next);
  }

  /** Event k's cells: the 10-character date in plain 10pt, then the status
      styled as a link (underlined, link colour) exactly when the event has a
      hyperlink and in muted grey otherwise. Every row is 10 + |status| + 5
      positions wide. */
  lemma EventRowStyled(events: seq<ApplicationEvent>, index: int, k: nat)
    requires k < |events|
    ensures var reqs := EventsSection(events, index);
            var date := reqs[10 + 4 * k + 1];
            var status := reqs[10 + 4 * k + 3];
            && date.UpdateTextStyle? && date.style == Font10 && date.end == date.start + 10
            && reqs[10 + 4 * k] == InsertText(date.start, FormatDate(events[k].date))
            && status.UpdateTextStyle?
            && status.style.link == events[k].hyperlink
            && (status.style.underline <==> events[k].hyperlink.Some?)
            && status.style.foreground == Some(if events[k].hyperlink.Some? then HyperlinkColor else GreyColor)
    ensures RowWidth(EventRows(events)[k]) == 10 + |events[k].status| + 5
  {
    var reqs := EventsSection(events, index);
    var tableAt := index + 1 + |EventsTitle|;
    var table := TwoColumnTable(tableAt, "Date", "Status", HeaderBlue, EventRows(events));
    EventsLayout(events, index);
    TableRowPlaced(tableAt, "Date", "Status", HeaderBlue, EventRows(events), k);
    assert reqs[10 + 4 * k] == reqs[3..][7 + 4 * k] == table[7 + 4 * k];
    assert reqs[10 + 4 * k + 1] == reqs[3..][7 + 4 * k + 1] == table[7 + 4 * k + 1];
    assert reqs[10 + 4 * k + 3] == reqs[3..][7 + 4 * k + 3] == table[7 + 4 * k + 3];
  }

  // ------------------------------------------------------ clear and resync

  /** A structural element of the body as read back: its [start, end) range. */
  datatype StructuralElement = StructuralElement(startIndex: int, endIndex: int)

  /** ClearDocumentBody: nothing to do when the body holds only its two
      implicit elements; otherwise one deletion of [1, last end - 1), which
      keeps the leading section break and the final newline. */
  function ClearRequests(content: seq<StructuralElement>): (r: Result<seq<Request>>)
    ensures |content| == 2 <==> r == Success([])
    ensures |content| == 0 <==> r.Failure?
    ensures r.Success? && r.value != [] ==>
              r.value == [DeleteContentRange(1, content[|content| - 1].endIndex - 1)]
  {
    if |content| == 2 then Success([])
    else if |content| == 0 then Failure(IndexOutOfRange)
    else Success([DeleteContentRange(1, content[|content| - 1].endIndex - 1)])
  }

  /** Clearing a body whose text runs up to the last element's end leaves
      exactly its first and last characters: an empty document. */
  lemma ClearEmptiesBody(doc: string, content: seq<StructuralElement>)
    requires |content| > 0 && |content| != 2
    requires |doc| == content[|content| - 1].endIndex && |doc| >= 2
    ensures ApplyAll(doc, ClearRequests(content).value) == Some([doc[0], doc[|doc| - 1]])
  {
    var reqs := ClearRequests(content).value;
    assert reqs[1..] == [];
    assert doc[..1] + doc[|doc| - 1..] == [doc[0], doc[|doc| - 1]];
  }

  /** The cursor after a batch: the last element's end minus one, the
      position of the body's final newline. */
  function Resync(content: seq<StructuralElement>): (r: Result<int>)
    ensures r.Success? <==> |content| > 0
    ensures r.Success? ==> r.value + 1 == content[|content| - 1].endIndex
  {
    if |content| == 0 then Failure(IndexOutOfRange)
    else Success(content[|content| - 1].endIndex - 1)
  }

  // -------------------------------------------------------------- document

  /** The four section batches, given the cursors read back between them:
      cover and abstract from the first body position, then the
      classification codes, the claims and the application events. */
  function SectionBatches(vm: SheetVM, codesAt: int, claimsAt: int, eventsAt: int): (b: seq<seq<Request>>)
    ensures |b| == 4
  {
    var cover := CoverSection(vm.coverPage, BodyStart);
    [cover.reqs + AbstractSection(vm.abstractText, cover.next),
     ClassificationSection(vm.classificationCodes, codesAt),
     ClaimsSection(vm.claims, claimsAt).reqs,
     EventsSection(vm.applicationEvents, eventsAt)]
  }

  /** The whole conversion's requests, batch by batch. `initial` is the body
      as read before clearing; `afterCover`, `afterCodes` and `afterClaims`
      are the bodies read back after the first three batches. The clearing
      batch is sent only when there is something to delete. */
  function PlanDocument(vm: SheetVM, initial: seq<StructuralElement>, afterCover: seq<StructuralElement>,
                        afterCodes: seq<StructuralElement>, afterClaims: seq<StructuralElement>): (r: Result<seq<seq<Request>>>)
    ensures r.Success? <==> |initial| > 0 && |afterCover| > 0 && |afterCodes| > 0 && |afterClaims| > 0
    ensures r.Success? ==> |r.value| == (if |initial| == 2 then 4 else 5)
  {
    var clear :- ClearRequests(initial);
    var codesAt :- Resync(afterCover);
    var claimsAt :- Resync(afterCodes);
    var eventsAt :- Resync(afterClaims);
    var sections := SectionBatches(vm, codesAt, claimsAt, eventsAt);
    if clear == [] then Success(sections) else Success([clear] + sections)
  }

  /** When the body holds only its two implicit elements no clearing batch
      is sent: the plan is the four section batches, each later one from the
      cursor read back after the previous batch. */
  lemma PlanSkipsClearing(vm: SheetVM, initial: seq<StructuralElement>, afterCover: seq<StructuralElement>,
                          afterCodes: seq<StructuralElement>, afterClaims: seq<StructuralElement>)
    requires |initial| == 2 && |afterCover| > 0 && |afterCodes| > 0 && |afterClaims| > 0
    ensures PlanDocument(vm, initial, afterCover, afterCodes, afterClaims).value
         == SectionBatches(vm, Resync(afterCover).value, Resync(afterCodes).value, Resync(afterClaims).value)
  {
  }

  /** Otherwise the clearing batch goes first, then the same four batches. */
  lemma PlanClearsFirst(vm: SheetVM, initial: seq<StructuralElement>, afterCover: seq<StructuralElement>,
                        afterCodes: seq<StructuralElement>, afterClaims: seq<StructuralElement>)
    requires |initial| > 0 && |initial| != 2 && |afterCover| > 0 && |afterCodes| > 0 && |afterClaims| > 0
    ensures PlanDocument(vm, initial, afterCover, afterCodes, afterClaims).value
         == [ClearRequests(initial).value]
            + SectionBatches(vm, Resync(afterCover).value, Resync(afterCodes).value, Resync(afterClaims).value)
  {
  }

  /** On a freshly cleared body (section break and final newline), the cover
      page's characters land between the two, in reading order. */
  lemma CoverOnEmptyBody(cover: CoverPage, sectionBreak: char)
    ensures var e := CoverSection(cover, BodyStart);
            ApplyAll([sectionBreak, '\n'], e.reqs) == Some([sectionBreak] + CoverText(cover) + "\n")
  {
    var e := CoverSection(cover, BodyStart);
    var doc := [sectionBreak, '\n'];
    ApplyContiguous(doc, e.reqs, BodyStart, e.next);
    assert doc[..1] == [sectionBreak] && doc[1..] == "\n";
  }

  /** The claims batch splices, at its start position, a page break, the
      heading line and the pre-order claim lines, and nothing else. */
  lemma ClaimsOnBody(claims: seq<Claim>, doc: string, index: int)
    requires 0 <= index <= |doc|
    ensures ApplyAll(doc, ClaimsSection(claims, index).reqs)
         == Some(doc[..index] + ([PageBreakMark] + ClaimsTitle + "\n" + Joined(Lines(claims))) + doc[index..])
  {
    var e := ClaimsSection(claims, index);
    ApplyContiguous(doc, e.reqs, index, e.next);
  }
}
