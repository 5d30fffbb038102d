/**
 * The `GET` and `POST` handlers of app/api/extract/route.ts. `POST` checks
 * for a file and a PDF MIME type, runs `extractTextFromPDF` on the file's
 * bytes and answers with its result, or with its error when that is set.
 *
 * `form` is how `req.formData()` settles together with the `file` entry it
 * holds (a file, a text field, or nothing), `buffer` is the error `file.arrayBuffer()` throws (if any), and
 * `parsed` is how the PDF parser settles inside `extractTextFromPDF`.
 */
module ExtractRoute {
  import opened JsValues
  import opened Strings
  import opened Http
  import PdfExtract

  const PdfMarker: string := "pdf"
  const NotPdfMessage: string := "File must be a PDF"
  const ProcessFailedPrefix: string := "Failed to process PDF: "
  const HealthyStatus: string := "ok"

  /** What V8 throws for `file.type.includes('pdf')` when the entry is a
      string, whose `type` is `undefined`. */
  const NoTypeMessage: string := "Cannot read properties" + " of undefined" + " (reading 'includes')"

  /** The form holds a file whose MIME type mentions "pdf": the route goes
      on to read and parse it. */
  predicate PdfFile(form: Settled<Option<FormEntry>>)
  {
    form.Fulfilled? && form.value.Some? && form.value.value.FileEntry? && Contains(form.value.value.mimeType, PdfMarker)
  }

  /** `GET`: the health check always answers `{ status: 'ok' }`. */
  function Get(): (r: JsonResponse)
    ensures r.status == 200 && r.body == HealthBody(HealthyStatus)
  {
    JsonResponse(200, HealthBody(HealthyStatus))
  }

  /** JavaScript truthiness of an optional string: present and non-empty. */
  predicate Truthy(s: Option<string>)
  {
    s.Some? && s.value != []
  }

  /** The catch block: status 500 with the prefix and the error's message,
      or `String(error)` for a thrown non-`Error`. */
  function Failure(e: Thrown): (r: JsonResponse)
    ensures r.status == 500 && r.body.ErrorBody?
    ensures StartsWith(r.body.error, ProcessFailedPrefix)
    ensures r.body.error == ProcessFailedPrefix + (if e.ErrorValue? then e.message else e.shown)
  {
    var detail := if e.ErrorValue? then e.message else e.shown;
    StartsWithConcat(ProcessFailedPrefix, detail);
    JsonResponse(500, ErrorBody(ProcessFailedPrefix + detail))
  }

  /** `POST` */
  function Post(form: Settled<Option<FormEntry>>, buffer: Option<Thrown>,
                parsed: Settled<PdfExtract.ParsedPdf>): (r: JsonResponse)
    ensures r.status == 200 || r.status == 400 || r.status == 500
    ensures r.status == 400 <==> (form.Fulfilled? && (!Present(form.value)
      || (form.value.value.FileEntry? && !Contains(form.value.value.mimeType, PdfMarker))))
    ensures form.Fulfilled? && !Present(form.value) ==> r.body == ErrorBody(NoFileMessage)
    ensures (form.Fulfilled? && form.value.Some? && form.value.value.FileEntry?
             && !Contains(form.value.value.mimeType, PdfMarker)) ==> r.body == ErrorBody(NotPdfMessage)
    ensures form.Rejected? ==> r == Failure(form.reason)
    ensures form.Fulfilled? && Present(form.value) && form.value.value.TextEntry? ==>
      r == Failure(ErrorValue(NoTypeMessage))
    ensures PdfFile(form) ==>
      if buffer.Some? then r == Failure(buffer.value)
      else var result := PdfExtract.ExtractTextFromPdf(parsed).value;
        r.status == 500 <==> Truthy(result.error)
    ensures r.status == 500 && PdfFile(form) ==>
      buffer.Some? || r.body == ErrorBody(PdfExtract.ExtractTextFromPdf(parsed).value.error.value)
    ensures r.status == 200 ==> PdfFile(form) && r.body == ResultBody(PdfExtract.ExtractTextFromPdf(parsed).value)
    ensures r.status == 200 ==> parsed.Fulfilled? || r.body.result.error == Some([])
    ensures r.status == 500 ==> r.body.ErrorBody? && r.body.error != []
  {
    match form
    case Rejected(e) => Failure(e)
    case Fulfilled(entry) =>
      if !Present(entry) then JsonResponse(400, ErrorBody(NoFileMessage))
      else if entry.value.TextEntry? then Failure(ErrorValue(NoTypeMessage))
      else if !Contains(entry.value.mimeType, PdfMarker) then JsonResponse(400, ErrorBody(NotPdfMessage))
      else if buffer.Some? then Failure(buffer.value)
      else
        var result := PdfExtract.ExtractTextFromPdf(parsed).value;
        if Truthy(result.error) then JsonResponse(500, ErrorBody(result.error.value))
        else JsonResponse(200, ResultBody(result))
  }

  /** A text field under the name `file` is no file: the empty string is
      answered as a missing file, and any other string fails on its
      missing `type` and is answered through the catch block. */
  lemma TextFieldAnswer(text: string, buffer: Option<Thrown>, parsed: Settled<PdfExtract.ParsedPdf>)
    ensures Post(Fulfilled(Some(TextEntry(text))), buffer, parsed)
         == if text == [] then JsonResponse(400, ErrorBody(NoFileMessage))
            else JsonResponse(500, ErrorBody(ProcessFailedPrefix + NoTypeMessage))
  {
  }

  /** A parser failure with a non-empty message is answered with status 500
      and exactly that message; a thrown non-`Error` with the fixed one. */
  lemma ParseFailureIsServerError(mimeType: string, e: Thrown)
    requires Contains(mimeType, PdfMarker)
    requires e.ErrorValue? ==> e.message != []
    ensures var expected := if e.ErrorValue? then e.message else PdfExtract.ParseFailedMessage;
      Post(Fulfilled(Some(FileEntry(mimeType))), None, Rejected(e)) == JsonResponse(500, ErrorBody(expected))
  {
  }

  /** There is no emptiness check: a PDF with no text is a success. */
  lemma EmptyTextIsSuccess(mimeType: string, numpages: int)
    requires Contains(mimeType, PdfMarker)
    ensures Post(Fulfilled(Some(FileEntry(mimeType))), None, Fulfilled(PdfExtract.ParsedPdf([], numpages)))
         == JsonResponse(200, ResultBody(PdfExtract.ExtractResult([], numpages, None)))
  {
  }

  /** Any MIME type mentioning "pdf" passes the type check, and the type is
      checked only after the presence of a file. */
  lemma TypeCheckIsSubstring(prefix: string, suffix: string, parsed: Settled<PdfExtract.ParsedPdf>)
    ensures Post(Fulfilled(Some(FileEntry(prefix + PdfMarker + suffix))), None, parsed).status != 400
  {
    ContainsInfix(prefix, PdfMarker, suffix);
  }

  /** As written, a parser failure whose message is empty slips past the
      `if (result.error)` test and is answered with status 200. */
  lemma EmptyErrorMessageIsSuccess(mimeType: string)
    requires Contains(mimeType, PdfMarker)
    ensures Post(Fulfilled(Some(FileEntry(mimeType))), None, Rejected(ErrorValue([])))
         == JsonResponse(200, ResultBody(PdfExtract.ExtractResult([], 0, Some([]))))
  {
  }

  /** `POST` with the error test the route evidently intends: any error
      that `extractTextFromPDF` reports, empty or not, is a server error. */
  function PostChecked(form: Settled<Option<FormEntry>>, buffer: Option<Thrown>,
                       parsed: Settled<PdfExtract.ParsedPdf>): (r: JsonResponse)
    ensures r.status == 200 <==> PdfFile(form) && buffer.None? && parsed.Fulfilled?
    ensures r.status == 200 ==> r.body == ResultBody(PdfExtract.ExtractTextFromPdf(parsed).value)
  {
    var r := Post(form, buffer, parsed);
    if r.status == 200 && PdfExtract.ExtractTextFromPdf(parsed).value.error.Some? then
      JsonResponse(500, ErrorBody(PdfExtract.ExtractTextFromPdf(parsed).value.error.value))
    else r
  }

  /** The intended route agrees with the written one everywhere except on
      the empty parser message. */
  lemma PostCheckedAgrees(form: Settled<Option<FormEntry>>, buffer: Option<Thrown>,
                          parsed: Settled<PdfExtract.ParsedPdf>)
    requires parsed != Rejected(ErrorValue([]))
    ensures PostChecked(form, buffer, parsed) == Post(form, buffer, parsed)
  {
  }
}
