/** The Google Docs API v1 edit requests the planner emits, reduced to the
    fields the planner sets, and the named styles and colours it uses.
    Colours stay integer RGB triples (the API receives each channel divided
    by 255).
 */
module Requests {
  import opened Wrappers

  datatype Rgb = Rgb(red: int, green: int, blue: int)

  /** The header shading of the abstract and application-events tables. */
  const HeaderBlue := Rgb(159, 197, 232)
  /** The lighter header shading of the classification-codes table. */
  const PaleHeaderBlue := Rgb(207, 226, 243)
  const GreyColor := Rgb(95, 99, 104)
  const HyperlinkColor := Rgb(17, 85, 204)

  /** The fields of the SDK's TextStyle that the planner sets. */
  datatype TextStyle = TextStyle(
    fontSizePt: Option<int>,
    bold: bool,
    fontFamily: Option<string>,
    link: Option<string>,
    foreground: Option<Rgb>,
    underline: bool)

  const Plain := TextStyle(None, false, None, None, None, false)
  const BoldOnly := Plain.(bold := true)
  const Font14 := Plain.(fontSizePt := Some(14))
  const Font14Bold := Font14.(bold := true)
  const Font10 := Plain.(fontSizePt := Some(10))
  const Font10Bold := Font10.(bold := true)
  const AbstractBody := Font10.(fontFamily := Some("Roboto"))

  /** The style of an application event's status cell: a link, underlined
      and in link colour when the event has a hyperlink, muted grey otherwise. */
  function StatusStyle(hyperlink: Option<string>): (s: TextStyle)
    ensures s.link == hyperlink
    ensures s.underline <==> hyperlink.Some?
    ensures s.foreground == Some(HyperlinkColor) <==> hyperlink.Some?
    ensures s.foreground == Some(GreyColor) <==> hyperlink.None?
    ensures s.fontSizePt == Some(10) && !s.bold && s.fontFamily.None?
  {
    var hasHyperlink := hyperlink.Some?;
    Font10.(link := hyperlink,
            foreground := Some(if hasHyperlink then HyperlinkColor else GreyColor),
            underline := hasHyperlink)
  }

  datatype ParagraphStyle = ParagraphStyle(namedStyleType: string, alignment: Option<string>)

  const TitleCentered := ParagraphStyle("TITLE", Some("CENTER"))
  const NormalText := ParagraphStyle("NORMAL_TEXT", None)
  const Heading2 := ParagraphStyle("HEADING_2", None)

  const NumberedDecimalNested := "NUMBERED_DECIMAL_NESTED"

  /** One edit request; ranges are half-open [start, end) in absolute
      document positions computed by the caller. */
  datatype Request =
    | InsertText(loc: int, text: string)
    | UpdateTextStyle(start: int, end: int, style: TextStyle)
    | UpdateParagraphStyle(start: int, end: int, paragraph: ParagraphStyle)
    | InsertTable(loc: int, rows: int, columns: int)
      // UpdateTableHeadingBackground: one cell, addressed by the table's start and (column, row)
    | UpdateTableCellBackground(tableStart: int, column: int, row: int, color: Rgb)
    | InsertPageBreak(loc: int)
    | InsertInlineImage(loc: int, uri: string)
    | CreateParagraphBullets(start: int, end: int, preset: string)
    | DeleteContentRange(start: int, end: int)

  /** The requests a helper appends and the cursor value it leaves behind. */
  datatype Emit = Emit(reqs: seq<Request>, next: int)
}
