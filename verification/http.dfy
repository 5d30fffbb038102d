/**
 * What the two extraction routes see of a request and build as a response:
 * the `file` entry of the form, and `NextResponse.json(body, { status })`, whose
 * status is 200 when none is given.
 */
module Http {
  import opened JsValues
  import PdfExtract

  /** The `file` entry of the submitted form. An uploaded file matters to
      the routes only through its MIME type (`type`); the extractors read
      its bytes. A text field under the same name is a plain string, which
      the routes' `as File` cast leaves as it is. */
  datatype FormEntry = FileEntry(mimeType: string) | TextEntry(text: string)

  /** The routes' `!file` test fails: there is an entry, and it is not the
      empty string. */
  predicate Present(entry: Option<FormEntry>)
  {
    entry.Some? && (entry.value.FileEntry? || entry.value.text != [])
  }

  datatype Body =
    | ErrorBody(error: string)
    | TextBody(text: string)
    | ResultBody(result: PdfExtract.ExtractResult)
    | HealthBody(status: string)

  datatype JsonResponse = JsonResponse(status: int, body: Body)

  const NoFileMessage: string := "No file provided"
}
