/** The domain records extracted from the spreadsheet (the view model of the
    application): cover page, classification codes, the claim forest and the
    application events.
 */
module Records {
  import opened Wrappers

  datatype CoverPage = CoverPage(
    title: string,
    preparedBy: string,
    inventor: string,
    patentNo: string)

  datatype ClassificationCode = ClassificationCode(uscCode: string, definition: string)

  /** The claim nesting level; its declaration order fixes the ordinals L1 = 0, L2 = 1, L3 = 2. */
  datatype IndentLevel = L1 | L2 | L3

  /** The integer value of `(int)level`. */
  function Ordinal(level: IndentLevel): (n: nat)
    ensures n < 3
  {
    match level
    case L1 => 0
    case L2 => 1
    case L3 => 2
  }

  /** The cast `(IndentLevel)j`: only 0, 1 and 2 name a declared level. */
  function LevelOf(j: int): (r: Option<IndentLevel>)
    ensures r.Some? <==> 0 <= j < 3
    ensures r.Some? ==> Ordinal(r.value) == j
  {
    if j == 0 then Some(L1)
    else if j == 1 then Some(L2)
    else if j == 2 then Some(L3)
    else None
  }

  /** A claim line and the claims nested under it. */
  datatype Claim = Claim(level: IndentLevel, content: string, children: seq<Claim>)

  /** A calendar date, as carried by `DateTime` (years 1 to 9999). */
  datatype Date = Date(year: int, month: int, day: int)

  predicate ValidDate(d: Date) {
    1 <= d.year <= 9999 && 1 <= d.month <= 12 && 1 <= d.day <= 31
  }

  /** The dates a `DateTime` can hold. */
  type DateTime = d: Date | ValidDate(d) witness Date(1, 1, 1)

  datatype ApplicationEvent = ApplicationEvent(date: DateTime, status: string, hyperlink: Option<string>)

  /** Everything the document planner needs from one conversion request. */
  datatype SheetVM = SheetVM(
    coverPage: CoverPage,
    abstractText: string,
    classificationCodes: seq<ClassificationCode>,
    claims: seq<Claim>,
    applicationEvents: seq<ApplicationEvent>)
}
