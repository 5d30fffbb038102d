/**
 * The `POST` handler of app/api/extract-pdf/route.ts. It takes the `file`
 * entry of the form, stages it in a temporary file, runs `pdfToText` on it,
 * cleans the text and answers with it; every error becomes status 500 with
 * the error's message.
 *
 * `form` is how `request.formData()` settles with the `file` entry it
 * holds (a file, a text field, or nothing), `staging` is the error that reading the bytes or writing the
 * temporary file throws (if any), and `converted` is how `pdfToText`
 * settles. Removing the temporary file afterwards cannot change the
 * response: its failure is caught and only logged.
 */
module ExtractPdfRoute {
  import opened JsValues
  import opened Strings
  import opened Http
  import opened TextCleanup

  /** What `pdfToText` yields: a string, or any other value (`null`,
      `undefined`, an object). */
  datatype Converted = TextOutput(text: string) | OtherOutput

  const NoTextMessage: string := "No text could be" + " extracted from" + " the PDF file."
  const EmptyPdfMessage: string := "The PDF appears" + " to be empty or" + " contains no" + " extractable text."
  const ExtractFailedMessage: string :=
    "Failed to extract" + " text from PDF." + " The file might be" + " corrupted or in an" + " unsupported format."

  /** What V8 throws for `file.arrayBuffer()` when the entry is a string. */
  const NoArrayBufferMessage: string := "file.arrayBuffer" + " is not a function"

  /** The catch block: status 500 with the error's message, or a fixed one
      for a thrown non-`Error`. */
  function Failure(e: Thrown): (r: JsonResponse)
    ensures r.status == 500 && r.body.ErrorBody?
    ensures e.ErrorValue? ==> r.body.error == e.message
    ensures e.OtherValue? ==> r.body.error == ExtractFailedMessage
  {
    JsonResponse(500, ErrorBody(if e.ErrorValue? then e.message else ExtractFailedMessage))
  }

  /** The text `pdfToText` produced, when it produced a non-empty string
      (the route's `!text || typeof text !== 'string'` test). */
  predicate HasText(converted: Settled<Converted>)
  {
    converted.Fulfilled? && converted.value.TextOutput? && converted.value.text != []
  }

  /** `POST` */
  function Post(form: Settled<Option<FormEntry>>, staging: Option<Thrown>, converted: Settled<Converted>)
    : (r: JsonResponse)
    ensures r.status == 200 || r.status == 400 || r.status == 500
    ensures r.status == 400 <==> form.Fulfilled? && !Present(form.value)
    ensures r.status == 400 ==> r.body == ErrorBody(NoFileMessage)
    ensures form.Rejected? ==> r == Failure(form.reason)
    ensures form.Fulfilled? && Present(form.value) && form.value.value.TextEntry? ==>
      r == Failure(ErrorValue(NoArrayBufferMessage))
    ensures r.status == 200 <==> (form.Fulfilled? && form.value.Some? && form.value.value.FileEntry?
                                  && staging.None? && HasText(converted) && !AllWhitespace(converted.value.text))
    ensures r.status == 200 ==> r.body == TextBody(Clean(converted.value.text))
    ensures r.status == 200 ==> r.body.text != [] && Normalized(r.body.text)
    ensures r.status == 500 ==> r.body.ErrorBody?
  {
    match form
    case Rejected(e) => Failure(e)
    case Fulfilled(entry) =>
      if !Present(entry) then JsonResponse(400, ErrorBody(NoFileMessage))
      else if entry.value.TextEntry? then Failure(ErrorValue(NoArrayBufferMessage))
      else if staging.Some? then Failure(staging.value)
      else if converted.Rejected? then Failure(converted.reason)
      else if !HasText(converted) then Failure(ErrorValue(NoTextMessage))
      else
        var cleaned := Clean(converted.value.text);
        CleanEmptyIff(converted.value.text);
        CleanShape(converted.value.text);
        if cleaned == [] then Failure(ErrorValue(EmptyPdfMessage))
        else JsonResponse(200, TextBody(cleaned))
  }

  /** A text field under the name `file` is no file: the empty string is
      answered as a missing file, and any other string fails when its
      bytes are asked for, before anything is staged or converted. */
  lemma TextFieldAnswer(text: string, staging: Option<Thrown>, converted: Settled<Converted>)
    ensures Post(Fulfilled(Some(TextEntry(text))), staging, converted)
         == if text == [] then JsonResponse(400, ErrorBody(NoFileMessage))
            else JsonResponse(500, ErrorBody(NoArrayBufferMessage))
  {
  }

  /** No text, or a value that is not a string, is reported with the
      "No text could be extracted" message. */
  lemma NoTextReported(mimeType: string, converted: Settled<Converted>)
    requires converted.Fulfilled? && !HasText(converted)
    ensures Post(Fulfilled(Some(FileEntry(mimeType))), None, converted) == JsonResponse(500, ErrorBody(NoTextMessage))
  {
  }

  /** Text that is all whitespace is reported with the "appears to be
      empty" message, which differs from the "No text" one. */
  lemma BlankTextReported(mimeType: string, text: string)
    requires text != [] && AllWhitespace(text)
    ensures Post(Fulfilled(Some(FileEntry(mimeType))), None, Fulfilled(TextOutput(text)))
         == JsonResponse(500, ErrorBody(EmptyPdfMessage))
    ensures EmptyPdfMessage != NoTextMessage
  {
    assert Post(Fulfilled(Some(FileEntry(mimeType))), None, Fulfilled(TextOutput(text)))
        == JsonResponse(500, ErrorBody(EmptyPdfMessage)) by {
      CleanEmptyIff(text);
    }
    assert EmptyPdfMessage != NoTextMessage by {
      assert EmptyPdfMessage[0] == 'T' && NoTextMessage[0] == 'N';
    }
  }

  /** The MIME type of the file is never looked at. */
  lemma TypeNotChecked(a: string, b: string, staging: Option<Thrown>, converted: Settled<Converted>)
    ensures Post(Fulfilled(Some(FileEntry(a))), staging, converted) == Post(Fulfilled(Some(FileEntry(b))), staging, converted)
  {
  }
}
