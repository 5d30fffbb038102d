/**
 * The state and the handlers that the two generator components
 * (components/neural-letter-generator.tsx and
 * components/cover-letter-generator.tsx) share word for word: the text
 * handed on by the file upload, the resume guard, and how a settled
 * generation call updates the state.
 */
module GeneratorState {
  import opened JsValues
  import opened Strings
  import FileUpload

  datatype GenState = GenState(resumeText: string, jobDescription: string, coverLetter: string,
                               isLoading: bool, uploadedFileName: string)

  const Initial: GenState := GenState([], [], [], false, [])

  /** The toasts the components show, by kind. */
  datatype Toast =
    | ExtractionWarning
    | ResumeUploaded(fileName: string)
    | ResumeRequired
    | JobDescriptionRequired
    | Generated
    | GenerationFailed(description: string)
    | ActionRequested(action: string)

  datatype Handled = Handled(after: GenState, toast: Toast)

  /** `handleFileTextExtracted(text, fileName)`: empty text and the upload
      placeholder are refused with a warning and change nothing. */
  function HandleFileTextExtracted(s: GenState, text: string, fileName: string): (h: Handled)
    ensures text == [] || text == FileUpload.PasteSentinel ==> h == Handled(s, ExtractionWarning)
    ensures text != [] && text != FileUpload.PasteSentinel ==>
      h == Handled(s.(resumeText := text, uploadedFileName := fileName), ResumeUploaded(fileName))
  {
    if text == [] || text == FileUpload.PasteSentinel then Handled(s, ExtractionWarning)
    else Handled(s.(resumeText := text, uploadedFileName := fileName), ResumeUploaded(fileName))
  }

  /** Uploading a PDF or DOCX file leaves the generator's state as it was:
      the upload hands on the placeholder, which the generator refuses. */
  lemma PlaceholderUploadChangesNothing(s: GenState, file: FileUpload.File)
    requires file.mimeType == FileUpload.PdfType || file.mimeType == FileUpload.DocxType
    ensures var e := FileUpload.HandleFile(file).extracted.value;
      HandleFileTextExtracted(s, e.text, e.fileName) == Handled(s, ExtractionWarning)
  {
    FileUpload.PlaceholderWithoutReading(file);
  }

  /** The resume guard of `handleGenerateCoverLetter`: a resume that is
      blank or still the upload placeholder blocks generation. */
  predicate ResumeMissing(resumeText: string)
  {
    IsBlank(resumeText) || resumeText == FileUpload.PasteSentinel
  }

  /** The arguments passed to the `generateCoverLetter` server action. */
  datatype Call = Call(resumeText: string, jobDescription: string)

  /** The effects of one click on Generate: the state afterwards, the call
      made (if any), the successive values written to `isLoading`, and the
      toast shown. */
  datatype Generation = Generation(after: GenState, call: Option<Call>, loadingWrites: seq<bool>, toast: Toast)

  const UnknownErrorMessage: string := "An unknown error occurred"

  /** A blocked click: nothing changes and the toast says why. */
  function Blocked(s: GenState, why: Toast): (g: Generation)
    ensures g.after == s && g.call.None? && g.loadingWrites == []
  {
    Generation(s, None, [], why)
  }

  /** The `try`/`catch`/`finally` around the call: the letter is replaced
      only when the call returns, and loading is switched on and then off
      whatever the outcome. */
  function Settle(s: GenState, call: Call, reply: Settled<string>): (g: Generation)
    ensures g.call == Some(call) && g.loadingWrites == [true, false] && !g.after.isLoading
    ensures g.after == s.(coverLetter := g.after.coverLetter, isLoading := false)
    ensures g.after.coverLetter == (if reply.Fulfilled? then reply.value else s.coverLetter)
    ensures reply.Rejected? && reply.reason.ErrorValue? ==> g.toast == GenerationFailed(reply.reason.message)
  {
    match reply
    case Fulfilled(letter) => Generation(s.(coverLetter := letter, isLoading := false), Some(call), [true, false], Generated)
    case Rejected(e) =>
      var description := if e.ErrorValue? then e.message else UnknownErrorMessage;
      Generation(s.(isLoading := false), Some(call), [true, false], GenerationFailed(description))
  }
}
