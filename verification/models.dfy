/** Records exchanged between the client scripts and the server library: pages, diff results,
    batch results and thrown errors. */
module Models {
  import opened Wrappers

  /** One PDF link of a page as the client parser collects it: its URL and its link text. */
  datatype PdfLink = PdfLink(url: string, text: string)

  /** A watched page: URL, content hash and the PDF URLs found on it (with the links they came from). */
  datatype Page = Page(url: string, hash: string, pdfUrls: seq<string>, pdfs: seq<PdfLink>)

  /** The two PDF lists of a page run in step: `pdfUrls[j] == pdfs[j].url`. */
  predicate InStep(p: Page) {
    |p.pdfs| == |p.pdfUrls| && forall j :: 0 <= j < |p.pdfUrls| ==> p.pdfUrls[j] == p.pdfs[j].url
  }

  /** The server's verdict on one page. */
  datatype DiffResult = DiffResult(
    pageUrl: string,
    pageUpdated: bool,
    pdfUpdated: bool,
    addedPdfUrls: seq<string>,
    removedPdfUrls: seq<string>,
    addedCount: int)

  /** A JavaScript `Error` value: its `name` and `message`. */
  datatype JsError = JsError(name: string, message: string)

  /** `String(error)` for an `Error` value (`Error.prototype.toString`). */
  function ErrorText(e: JsError): (t: string)
    ensures e.message == "" ==> t == e.name
    ensures e.message != "" ==> |t| == |e.name| + 2 + |e.message| && t[|e.name|..|e.name| + 2] == ": "
  {
    if e.message == "" then e.name else e.name + ": " + e.message
  }

  /** An `Error` built by `new Error(message)`. */
  function Plain(message: string): JsError {
    JsError("Error", message)
  }

  /** The result of one `runBatch` call. Durations are carried as an additive integer;
      `errors` holds the `message` of each error, the only part any reader looks at;
      `diffResults` is absent on the error paths. */
  datatype BatchResult = BatchResult(
    execId: string,
    processedPages: int,
    updatedPages: int,
    addedPdfs: int,
    duration: int,
    errors: seq<string>,
    diffResults: Option<seq<DiffResult>>)

  /** What a call into the server library does: return a result or throw. */
  datatype Reply = Returned(result: BatchResult) | Threw(error: JsError)
}
