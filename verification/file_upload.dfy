/**
 * The `FileUpload` component (components/file-upload.tsx): it accepts a
 * dropped or selected file if its MIME type is on a fixed list, then either
 * answers with a placeholder asking the user to paste their resume (PDF and
 * DOCX files, which are not read) or with the contents of a plain-text
 * file, and hands the result to `onTextExtracted`.
 *
 * A file's `text()` is an oracle: `contents` is how reading it settles.
 */
module FileUpload {
  import opened JsValues

  /** A browser `File`: its name, MIME type, size in bytes and how reading
      it as text settles. */
  datatype File = File(name: string, mimeType: string, size: nat, contents: Settled<string>)

  /** The toasts the component shows. */
  datatype Notice =
    | PdfDetected
    | DocxDetected
    | InvalidFileType
    | ExtractionError(description: string)

  /** What `onTextExtracted` receives. */
  datatype Extracted = Extracted(text: string, fileName: string)

  /** The effects of handling one file: the text handed on (if any), the
      toasts shown, and the successive values written to `isLoading`. */
  datatype Handled = Handled(extracted: Option<Extracted>, notices: seq<Notice>, loadingWrites: seq<bool>)

  const PdfType: string := "application/pdf"
  const DocxType: string := "application/vnd.openxmlformats-" + "officedocument.wordprocessingml.document"
  const TextType: string := "text/plain"

  /** The placeholder returned for PDF and DOCX files instead of their text. */
  const PasteSentinel: string :=
    "Please paste your" + " resume content in" + " the text area for" + " better results."

  const ReadFailedMessage: string := "Failed to read file content"
  const UnknownErrorMessage: string := "An unknown error occurred"

  const ValidTypes: seq<string> := [PdfType, DocxType, TextType]

  /** How reading a file settles, with the toasts shown on the way. */
  datatype Read = Read(text: Settled<string>, notices: seq<Notice>)

  /** `readFileAsText(file)` */
  function ReadFileAsText(file: File): (r: Read)
    ensures file.mimeType == PdfType ==> r == Read(Fulfilled(PasteSentinel), [PdfDetected])
    ensures file.mimeType == DocxType ==> r == Read(Fulfilled(PasteSentinel), [DocxDetected])
    ensures file.mimeType != PdfType && file.mimeType != DocxType ==>
      r.notices == [] && r.text == (if file.contents.Fulfilled? then file.contents
                                    else Rejected(ErrorValue(ReadFailedMessage)))
  {
    if file.mimeType == PdfType then Read(Fulfilled(PasteSentinel), [PdfDetected])
    else if file.mimeType == DocxType then Read(Fulfilled(PasteSentinel), [DocxDetected])
    else
      match file.contents
      case Fulfilled(text) => Read(Fulfilled(text), [])
      case Rejected(_) => Read(Rejected(ErrorValue(ReadFailedMessage)), [])
  }

  /** The description of the error toast. */
  function Describe(e: Thrown): string
  {
    if e.ErrorValue? then e.message else UnknownErrorMessage
  }

  /** `handleFile(file)` */
  function HandleFile(file: File): (h: Handled)
    ensures h.extracted.Some? ==> file.mimeType in ValidTypes && h.extracted.value.fileName == file.name
    ensures file.mimeType !in ValidTypes ==> h == Handled(None, [InvalidFileType], [])
    ensures file.mimeType in ValidTypes ==> h.loadingWrites == [true, false]
  {
    if file.mimeType !in ValidTypes then Handled(None, [InvalidFileType], [])
    else
      var read := ReadFileAsText(file);
      match read.text
      case Fulfilled(text) => Handled(Some(Extracted(text, file.name)), read.notices, [true, false])
      case Rejected(e) => Handled(None, read.notices + [ExtractionError(Describe(e))], [true, false])
  }

  /** `handleDrop` and `handleFileChange`: only the first file of the list
      is handled, and an empty list does nothing. */
  function HandleFiles(files: seq<File>): (h: Option<Handled>)
    ensures h.Some? <==> files != []
    ensures files != [] ==> h.value == HandleFile(files[0])
  {
    if files == [] then None else Some(HandleFile(files[0]))
  }

  /** A file is accepted exactly when its type is one of the three listed
      ones; whatever the outcome, loading ends switched off. */
  lemma AcceptedExactlyValidTypes(file: File)
    ensures HandleFile(file).loadingWrites != [] <==> file.mimeType in ValidTypes
    ensures HandleFile(file).loadingWrites == [] || HandleFile(file).loadingWrites[|HandleFile(file).loadingWrites| - 1] == false
    ensures file.mimeType in ValidTypes <==> (file.mimeType == PdfType || file.mimeType == DocxType || file.mimeType == TextType)
  {
  }

  /** The size of a file plays no part, whatever the label promises. */
  lemma SizeIgnored(file: File, size: nat)
    ensures HandleFile(file.(size := size)) == HandleFile(file)
  {
  }

  /** PDF and DOCX files are never read: the placeholder is handed on
      whatever the file holds. */
  lemma PlaceholderWithoutReading(file: File)
    requires file.mimeType == PdfType || file.mimeType == DocxType
    ensures HandleFile(file).extracted == Some(Extracted(PasteSentinel, file.name))
  {
    assert file.mimeType in ValidTypes;
  }

  /** A plain-text file is handed on verbatim; a read failure hands nothing
      on and shows "Failed to read file content". */
  lemma PlainTextHandedOn(file: File)
    requires file.mimeType == TextType
    ensures file.contents.Fulfilled? ==> HandleFile(file).extracted == Some(Extracted(file.contents.value, file.name))
    ensures file.contents.Rejected? ==> HandleFile(file) == Handled(None, [ExtractionError(ReadFailedMessage)], [true, false])
  {
    assert file.mimeType in ValidTypes;
    assert TextType[0] == 't' && PdfType[0] == 'a' && DocxType[0] == 'a';
  }
}
