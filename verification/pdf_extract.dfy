/**
 * `extractTextFromPDF` in app/utils/pdf.ts: it runs the PDF parser and
 * shapes the outcome as a `PDFExtractResult`, catching every error. The
 * parser is an oracle: `parsed` is how `pdfParse(buffer)` settles.
 */
module PdfExtract {
  import opened JsValues

  /** What the parser yields: the text and the page count. */
  datatype ParsedPdf = ParsedPdf(text: string, numpages: int)

  /** `PDFExtractResult`; `error` is absent on success. */
  datatype ExtractResult = ExtractResult(text: string, numPages: int, error: Option<string>)

  const ParseFailedMessage: string := "Failed to extract text from PDF"

  /** `extractTextFromPDF(buffer)`. The promise it returns never rejects:
      whatever the parser does, the result is fulfilled. */
  function ExtractTextFromPdf(parsed: Settled<ParsedPdf>): (r: Settled<ExtractResult>)
    ensures r.Fulfilled?
    ensures r.value.error.None? <==> parsed.Fulfilled?
    ensures parsed.Fulfilled? ==> r.value.text == parsed.value.text && r.value.numPages == parsed.value.numpages
    ensures parsed.Rejected? ==> r.value.text == [] && r.value.numPages == 0
    ensures parsed.Rejected? && parsed.reason.ErrorValue? ==> r.value.error == Some(parsed.reason.message)
    ensures parsed.Rejected? && parsed.reason.OtherValue? ==> r.value.error == Some(ParseFailedMessage)
  {
    match parsed
    case Fulfilled(data) => Fulfilled(ExtractResult(data.text, data.numpages, None))
    case Rejected(e) =>
      var message := if e.ErrorValue? then e.message else ParseFailedMessage;
      Fulfilled(ExtractResult([], 0, Some(message)))
  }

}
