/** The `Convert` action: the two identifiers are pulled out of what the
    user pasted, the sheet is read, the document is written, and the page is
    rendered again with an error line when a Google API call failed.

    The API calls themselves are not modelled: each read of the sheet and
    the document write are given as their outcome, completed or throwing.
 */
module Controller {
  import opened Wrappers
  import opened IdExtraction
  import Planner
  import Records

  /** `HttpStatusCode.NotFound`. */
  const NotFoundStatus := 404

  /** The error line shown for a NotFound API error. */
  const NotFoundMessage := "Spreadsheet was not found"

  /** The exceptions that can reach the action. */
  datatype Thrown =
    | ApiError(status: int, message: string)  // GoogleApiException from a Sheets or Docs call
    | Raised(fault: Fault)                     // a fault of the parsers or the planner
    | Aggregate(inner: Thrown)                 // AggregateException from reading Task.Result
    | ArgumentNull                             // Regex.Match given a null input

  /** How one awaited step ended. */
  datatype Outcome = Done | Threw(e: Thrown)

  /** A parser's result seen as a step outcome: its fault is thrown. */
  function OutcomeOf<T>(r: Result<T>): (o: Outcome)
    ensures o.Done? <==> r.Success?
    ensures o.Threw? ==> o.e == Raised(r.error)
  {
    if r.Success? then Done else Threw(Raised(r.error))
  }

  /** The page model the action renders: the two identifiers and the error line. */
  datatype ConvertView = ConvertView(sheetId: string, docId: string, error: Option<string>)

  /** What the action produces: a rendered page, or an exception that escapes it. */
  datatype Response = Rendered(view: ConvertView) | Unhandled(e: Thrown)

  /** The first step that threw, in order, or Done when every step completed. */
  function FirstFault(steps: seq<Outcome>): (o: Outcome)
    ensures o.Done? <==> forall k :: 0 <= k < |steps| ==> steps[k].Done?
    ensures o.Threw? ==> exists k :: 0 <= k < |steps| && steps[k] == o
                                   && forall j :: 0 <= j < k ==> steps[j].Done?
  {
    if steps == [] then Done
    else if steps[0].Threw? then steps[0]
    else
      assert forall k :: 0 <= k < |steps| - 1 ==> steps[1..][k] == steps[k + 1];
      FirstFault(steps[1..])
  }

  /** `task.Result` on a finished task: a fault comes out wrapped in an
      AggregateException. */
  function ResultOf(o: Outcome): (r: Outcome)
    ensures r.Done? <==> o.Done?
    ensures r.Threw? ==> r.e == Aggregate(o.e)
  {
    match o
    case Done => Done
    case Threw(e) => Threw(Aggregate(e))
  }

  /** ExtractDataFromSheet as written: the five reads are taken through
      `.Result` in the order cover page, abstract, classification codes,
      application events, claims, so the first read that failed surfaces,
      wrapped. */
  function ExtractAsWritten(sheetReads: seq<Outcome>): (r: Outcome)
    ensures r.Done? <==> forall k :: 0 <= k < |sheetReads| ==> sheetReads[k].Done?
    ensures r.Threw? ==> exists k :: 0 <= k < |sheetReads| && sheetReads[k].Threw?
                                   && r.e == Aggregate(sheetReads[k].e)
                                   && forall j :: 0 <= j < k ==> sheetReads[j].Done?
  {
    ResultOf(FirstFault(sheetReads))
  }

  /** The extraction with each read awaited: the first failed read surfaces
      as the exception its call threw. */
  function ExtractAwaited(sheetReads: seq<Outcome>): Outcome {
    FirstFault(sheetReads)
  }

  /** The catch clause: a GoogleApiException becomes the error line (the
      fixed text for NotFound, the exception's message otherwise); any other
      exception escapes the action. */
  function Catch(sheetId: string, docId: string, outcome: Outcome): (r: Response)
    ensures r.Rendered? <==> outcome.Done? || outcome.e.ApiError?
    ensures r.Rendered? ==> r.view.sheetId == sheetId && r.view.docId == docId
    ensures r.Rendered? ==> (r.view.error.None? <==> outcome.Done?)
    ensures r.Unhandled? ==> r.e == outcome.e
  {
    match outcome
    case Done => Rendered(ConvertView(sheetId, docId, None))
    case Threw(ApiError(status, message)) =>
      Rendered(ConvertView(sheetId, docId, Some(if status == NotFoundStatus then NotFoundMessage else message)))
    case Threw(e) => Unhandled(e)
  }

  /** The action with a chosen extraction: identifiers first (a null input
      throws before anything else), then the sheet reads, then the document write,
      which is only attempted when every read completed. */
  function ConvertWith(sheetInput: Option<string>, docInput: Option<string>,
                       extracted: Outcome, create: Outcome): (r: Response)
    ensures sheetInput.None? || docInput.None? ==> r == Unhandled(ArgumentNull)
    ensures r.Rendered? ==> r.view.sheetId == ExtractId(sheetInput.value)
                            && r.view.docId == ExtractId(docInput.value)
  {
    if sheetInput.None? || docInput.None? then Unhandled(ArgumentNull)
    else
      var sheetId := ExtractId(sheetInput.value);
      var docId := ExtractId(docInput.value);
      Catch(sheetId, docId, if extracted.Done? then create else extracted)
  }

  /** `Convert(SheetId, DocId)` as written: `sheetReads` are the outcomes of the
      five sheet reads in `.Result` order, `create` that of CreateDoc. */
  function Convert(sheetInput: Option<string>, docInput: Option<string>,
                   sheetReads: seq<Outcome>, create: Outcome): (r: Response)
    ensures sheetInput.None? || docInput.None? ==> r == Unhandled(ArgumentNull)
    ensures r.Rendered? ==> r.view.sheetId == ExtractId(sheetInput.value)
                            && r.view.docId == ExtractId(docInput.value)
    ensures r.Rendered? ==> forall k :: 0 <= k < |sheetReads| ==> sheetReads[k].Done?
  {
    ConvertWith(sheetInput, docInput, ExtractAsWritten(sheetReads), create)
  }

  /** The action with the sheet reads awaited, so that their API errors reach the
      catch clause unwrapped. */
  function ConvertAwaited(sheetInput: Option<string>, docInput: Option<string>,
                          sheetReads: seq<Outcome>, create: Outcome): Response
  {
    ConvertWith(sheetInput, docInput, ExtractAwaited(sheetReads), create)
  }

  /** The error line of the rendered page for a step outcome. */
  function ErrorLine(outcome: Outcome): Option<string> {
    match outcome
    case Done => None
    case Threw(e) =>
      if e.ApiError? then Some(if e.status == NotFoundStatus then NotFoundMessage else e.message)
      else None
  }

  /** Once the sheet reads complete, the document write decides the page: no
      error line when it completes, the NotFound text or the API message when
      an API call fails, and any other exception escapes. */
  lemma ConvertMapsCreateErrors(sheet: string, doc: string, sheetReads: seq<Outcome>, create: Outcome)
    requires forall k :: 0 <= k < |sheetReads| ==> sheetReads[k].Done?
    ensures var r := Convert(Some(sheet), Some(doc), sheetReads, create);
            && (create.Done? ==> r == Rendered(ConvertView(ExtractId(sheet), ExtractId(doc), None)))
            && (create.Threw? && create.e.ApiError? && create.e.status == NotFoundStatus ==>
                  r == Rendered(ConvertView(ExtractId(sheet), ExtractId(doc), Some(NotFoundMessage))))
            && (create.Threw? && create.e.ApiError? && create.e.status != NotFoundStatus ==>
                  r == Rendered(ConvertView(ExtractId(sheet), ExtractId(doc), Some(create.e.message))))
            && (create.Threw? && !create.e.ApiError? ==> r == Unhandled(create.e))
  {
    assert FirstFault(sheetReads).Done?;
  }

  /** As written, a sheet read that fails with an API error never reaches
      the catch clause: it escapes wrapped in an AggregateException, and the
      document write is not attempted. */
  lemma ReadErrorEscapes(sheet: string, doc: string, sheetReads: seq<Outcome>, create: Outcome, k: nat)
    requires k < |sheetReads| && sheetReads[k].Threw? && sheetReads[k].e.ApiError?
    requires forall j :: 0 <= j < k ==> sheetReads[j].Done?
    ensures Convert(Some(sheet), Some(doc), sheetReads, create) == Unhandled(Aggregate(sheetReads[k].e))
  {
    FirstFaultAt(sheetReads, k);
  }

  lemma {:induction false} FirstFaultAt(steps: seq<Outcome>, k: nat)
    requires k < |steps| && steps[k].Threw?
    requires forall j :: 0 <= j < k ==> steps[j].Done?
    ensures FirstFault(steps) == steps[k]
  {
    if k > 0 {
      FirstFaultAt(steps[1..], k - 1);
    }
  }

  /** A spreadsheet that does not exist, concretely: the first read answers
      404, and the action fails instead of showing the NotFound text. */
  lemma MissingSheetExample(sheet: string, doc: string)
    ensures var sheetReads := [Threw(ApiError(NotFoundStatus, "Requested entity was not found.")), Done, Done, Done, Done];
            && Convert(Some(sheet), Some(doc), sheetReads, Done).Unhandled?
            && ConvertAwaited(Some(sheet), Some(doc), sheetReads, Done)
               == Rendered(ConvertView(ExtractId(sheet), ExtractId(doc), Some(NotFoundMessage)))
  {
    var sheetReads := [Threw(ApiError(NotFoundStatus, "Requested entity was not found.")), Done, Done, Done, Done];
    FirstFaultAt(sheetReads, 0);
  }

  /** With the sheet reads awaited, every API error of the action is reported on
      the page: the first failing step's error line is shown, whichever step
      it came from, and only non-API exceptions escape. */
  lemma ConvertAwaitedReportsApiErrors(sheet: string, doc: string, sheetReads: seq<Outcome>, create: Outcome)
    ensures var r := ConvertAwaited(Some(sheet), Some(doc), sheetReads, create);
            var failed := if FirstFault(sheetReads).Done? then create else FirstFault(sheetReads);
            && (r.Rendered? <==> failed.Done? || failed.e.ApiError?)
            && (r.Rendered? ==> r.view == ConvertView(ExtractId(sheet), ExtractId(doc), ErrorLine(failed)))
            && (r.Unhandled? ==> r.e == failed.e)
  {
  }

  /** The two versions differ only when a read fails: with every read
      completed they render the same page. */
  lemma ConvertAgreesWhenReadsComplete(sheetInput: Option<string>, docInput: Option<string>,
                                       sheetReads: seq<Outcome>, create: Outcome)
    requires forall k :: 0 <= k < |sheetReads| ==> sheetReads[k].Done?
    ensures Convert(sheetInput, docInput, sheetReads, create) == ConvertAwaited(sheetInput, docInput, sheetReads, create)
  {
    assert FirstFault(sheetReads).Done?;
  }

  /** A document whose body reads back with no structural element cannot be
      cleared: the planner's index fault is not an API error, so it escapes
      the action even though every sheet read completed. */
  lemma EmptyBodyEscapes(sheet: string, doc: string, sheetReads: seq<Outcome>, vm: Records.SheetVM,
                         afterCover: seq<Planner.StructuralElement>, afterCodes: seq<Planner.StructuralElement>,
                         afterClaims: seq<Planner.StructuralElement>)
    requires forall k :: 0 <= k < |sheetReads| ==> sheetReads[k].Done?
    ensures Convert(Some(sheet), Some(doc), sheetReads, OutcomeOf(Planner.PlanDocument(vm, [], afterCover, afterCodes, afterClaims)))
         == Unhandled(Raised(IndexOutOfRange))
  {
    assert FirstFault(sheetReads).Done?;
  }
}
