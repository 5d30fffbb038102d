# Cover letter generator — a Dafny model of its core

The cover letter generator is a Next.js application. A user uploads or pastes a
resume, enters a job description and asks a language model for a tailored cover letter.
This project models the parts of the application that decide what happens:

- **Retry** (`withRetry`): retries an operation with exponential back-off while
  its error mentions a rate limit.
- **GeminiLetter**: the Gemini-based generator.
  - It checks the API key and the inputs and builds the prompt from the style options.
  - It calls the model under `withRetry` and rejects an empty answer.
  - It maps errors to the messages callers see.
- **OpenAILetter**: the server action that does the same through the OpenAI chat API.
  - It validates the inputs, embeds them in its prompt and returns the first choice's content.
  - It maps every failure to one of four user-facing messages.
- **PdfExtract**, **ExtractRoute**, **ExtractPdfRoute**: the PDF text extraction
  helper and the two upload routes.
  - They cover every status code and error body.
  - They cover the clean-up of extracted text, modelled in **TextCleanup**.
- **Middleware**: the redirects between the sign-in pages and the profile pages.
- **FileUpload**: the file picker's type check and how it reads a file.
- **GeneratorState**, **NeuralGenerator**, **CoverLetterGenerator**: how the two
  generator screens react to an extracted file, a job description and a
  generate click.
- **SaveLetterDialog**: the dialog that names a letter before saving it.
- **Strings** and **JsValues** hold the JavaScript semantics the rest relies on:
  - `trim`, `includes`, `startsWith`, `split` and `join`, over exactly the
    whitespace set JavaScript uses;
  - thrown values, split into `Error` instances and anything else;
  - settled promises.

Everything outside the program is a parameter:
- the model, the OpenAI backend, the PDF parser, the form data and file reads;
- the environment's API keys, and whether a user is signed in.

A call to the model that may be repeated is an oracle `op: nat -> Settled<T>`: `op(i)` is how the
(i+1)-th attempt settles. Operations that are not retried take a single settled value.
Errors travel unchanged to each generator's catch block, modelled as `Caught`, which
translates them once.

## Behaviour of the code worth knowing

- `withRetry` also waits after the last rate-limited attempt. When every attempt is rate-limited, the total wait is therefore `baseDelay * (2^maxRetries - 1)` (`Retry.AllRateLimited`).
- Any error whose message contains "rate" is retried, whatever caused it. For example, a message mentioning "generate" counts (`Retry.GenerateMentionsRate`).
- The Gemini generator has two key checks:
  - utils/ai-config.ts:3-5 throws when the module loads if `GOOGLE_API_KEY` is unset, so `generateCoverLetter` is then never reached;
  - utils/generate-cover-letter.ts:16-19 checks again on every call, and it can only fail if the environment changes after loading.
  The model covers the second check (`GeminiLetter.MissingKeyReportedFirst`).
- The file picker says "max 5MB" (components/file-upload.tsx:128) but never checks the size (`FileUpload.SizeIgnored`). It accepts exactly three MIME types.
- The PDF extraction route checks no file type at all (`ExtractPdfRoute.TypeNotChecked`). The other extraction route accepts any type that contains "pdf" (`ExtractRoute.TypeCheckIsSubstring`).
- Errors travel as message strings throughout, and the model keeps those strings.

## Model

| member | source | states |
|---|---|---|
| Retry.IsRateLimit | utils/ai-config.ts:36 | Definition: a thrown value with a string message containing "rate". `GenerateMentionsRate` and `MessagelessErrorFailsFast` state its reach. |
| Retry.RetryFrom | utils/ai-config.ts:29-47 | Definition: the loop from a given attempt, as a recursive function. `RetryFromStopsAt`, `RetryFromExhausts` and `RetryFromBounded` state its behaviour. |
| Retry.RetrySpec | utils/ai-config.ts:22-48 | Definition: `withRetry` as a recursive reference function. `WithRetry` is proved equal to it. |
| Retry.WithRetry | utils/ai-config.ts:22-48 | The retry loop agrees with the reference `RetrySpec`. It calls the operation at most `maxRetries` times and waits only after rate-limit failures. Its k-th wait is `baseDelay * 2^k`. |
| Retry.RetryFromStopsAt | utils/ai-config.ts:29-38 | When attempts `attempt..k-1` hit rate limits and attempt `k` does not, the run returns attempt `k`'s outcome. It makes `k - attempt + 1` calls and waits the doubling delays in between. |
| Retry.RetryFromExhausts | utils/ai-config.ts:29-47 | When every remaining attempt hits a rate limit, the loop runs out. The run makes all of them and waits after every one, the last included, before it ends with the last attempt's error. |
| Retry.RetryFromBounded | utils/ai-config.ts:29-47 | A run from `attempt` makes between 1 and `maxRetries - attempt` calls, or none once the budget is spent. Every call before the last hit a rate limit. A success is the last call's own result. |
| Retry.DefaultRunsAtMostThreeTimes | utils/ai-config.ts:24-25 | With the defaults (3 retries, 1000 ms) the operation runs at least once and at most three times. |
| Retry.FirstNonRateOutcomeIsFinal | utils/ai-config.ts:31-38 | The first outcome that is not a rate-limit error is returned, success or failure, after the back-off delays that preceded it. |
| Retry.SuccessIsLastCall | utils/ai-config.ts:31 | A successful run's value is the result of its last call, and that call was within the budget. |
| Retry.TwoRateLimitsThenSettles | utils/ai-config.ts:24-43 | With the defaults, two rate-limit failures followed by any other outcome yield that outcome after three calls and waits of 1000 and 2000 ms. |
| Retry.MessagelessErrorFailsFast | utils/ai-config.ts:36-38 | A thrown value without a string message is never retried: the run stops after one call. |
| Retry.GenerateMentionsRate | utils/ai-config.ts:36 | Any error message containing "rate" counts as a rate limit, whatever else it says. |
| Retry.BackoffsSum | utils/ai-config.ts:41-43 | The first n back-off delays add up to `baseDelay * (2^n - 1)`. |
| Retry.AllRateLimited | utils/ai-config.ts:29-47 | If every attempt hits a rate limit, the run makes `maxRetries` calls and ends with the last error. The total wait is `baseDelay * (2^maxRetries - 1)`. |
| Retry.NoAttemptsAllowed | utils/ai-config.ts:47 | With a non-positive `maxRetries` the operation never runs and the "Operation failed after retries" error is thrown. |
| GeminiLetter.FocusAreaNames | utils/generate-cover-letter.ts:6 | Each chosen focus area becomes its name, in the order given. |
| GeminiLetter.LengthLine | utils/generate-cover-letter.ts:36-40 | The word band for the chosen length, "300-400" when no length is chosen. |
| GeminiLetter.ToneLine | utils/generate-cover-letter.ts:29-33 | The guide sentence for the chosen tone, the conversational one when no tone is chosen. |
| GeminiLetter.FocusLineDefault | utils/generate-cover-letter.ts:109 | The focus line reads "balanced" exactly when no focus area is chosen. Otherwise it lists the chosen areas, separated by commas. |
| GeminiLetter.GuidelinesContents | utils/generate-cover-letter.ts:106-111 | The guidelines contain the length, tone and focus directives and the fixed salutation and closing. |
| GeminiLetter.GuidelinesInPrompt | utils/generate-cover-letter.ts:103-133 | Anything in the guidelines is in the prompt. |
| GeminiLetter.PromptDirectives | utils/generate-cover-letter.ts:106-111 | The prompt carries the salutation "Dear Hiring Manager,", the closing "Sincerely, [Name]" and the option-dependent directives. |
| GeminiLetter.PromptEmbedsInputs | utils/generate-cover-letter.ts:124-128 | The prompt holds the trimmed resume, and after it the trimmed job description. |
| GeminiLetter.BuildPrompt | utils/generate-cover-letter.ts:103-133 | Definition: the prompt template. `PromptDirectives`, `GuidelinesInPrompt` and `PromptEmbedsInputs` state its contents. |
| GeminiLetter.KeyConfigured | utils/generate-cover-letter.ts:16-19 | Definition: one of the two key variables is set and non-empty. `Validate` and `MissingKeyReportedFirst` use it. |
| GeminiLetter.PassesThrough | utils/generate-cover-letter.ts:158-161 | Definition: the message starts with "Gemini API Error:" or "Failed to generate", or contains "Please check" or "Please revise". `TranslateError` states its role. |
| GeminiLetter.TranslateError | utils/generate-cover-letter.ts:150-167 | The catch block always throws an `Error`. The result is the key-configuration message exactly when an `Error` mentions the unconfigured key. Any other `Error` on the pass-through list is rethrown unchanged. Everything else, including every non-`Error`, becomes the generic message. |
| GeminiLetter.TranslateErrorIdempotent | utils/generate-cover-letter.ts:150-167 | Translating an already translated error changes nothing. |
| GeminiLetter.MissingInputBecomesGeneric | utils/generate-cover-letter.ts:24-26 | The missing-input error does not pass the filter: callers see the generic message instead. |
| GeminiLetter.EmptyResponsePassesThrough | utils/generate-cover-letter.ts:145-147 | The empty-response error starts with "Failed to generate" and reaches the caller unchanged. |
| GeminiLetter.AfterModel | utils/generate-cover-letter.ts:142-149 | The model's text is returned exactly when it is not blank. A blank text becomes the empty-response error. A failure of the call, or of `text()`, is passed on unchanged. |
| GeminiLetter.CallModel | utils/generate-cover-letter.ts:137-149 | The model is called one to three times with the built request. A returned letter is non-blank and is the text of the last call's response. |
| GeminiLetter.Validate | utils/generate-cover-letter.ts:16-26 | Validation passes exactly when a key is configured and both inputs are non-blank, and yields the trimmed inputs. Otherwise it throws the key error if no key is set, else the missing-input error. |
| GeminiLetter.Caught | utils/generate-cover-letter.ts:150-167 | A result passes the catch block unchanged. Every failure leaves as its translation by `TranslateError`. |
| GeminiLetter.Generate | utils/generate-cover-letter.ts:10-168 | A letter is returned only after a model call with the trimmed inputs, a configured key and non-blank inputs. The letter is non-blank and was returned by the last call. There are at most three calls. Every failure is an `Error`. Which `Error` it is is stated by `MissingKeyReportedFirst`, `BlankInputNeverCallsModel` and `ModelFailureReachesCaller`. |
| GeminiLetter.MissingKeyReportedFirst | utils/generate-cover-letter.ts:16-19 | Without an API key the user sees the key-configuration message whatever the inputs, and the model is never called. |
| GeminiLetter.BlankInputNeverCallsModel | utils/generate-cover-letter.ts:21-26 | With a key but a blank resume or job description, the model is never called and the generic message is thrown. |
| GeminiLetter.ValidInputReachesModel | utils/generate-cover-letter.ts:21-26 | Valid inputs go to the model as trimmed text with the given options. |
| GeminiLetter.SuccessCameFromModel | utils/generate-cover-letter.ts:137-149 | A returned letter implies a configured key and non-blank inputs. It is exactly what the retried model call produced. |
| GeminiLetter.BlankAnswerRejected | utils/generate-cover-letter.ts:145-147 | A blank first answer makes the call fail with "Failed to generate cover letter: Empty response from API". |
| GeminiLetter.ModelFailureReachesCaller | utils/generate-cover-letter.ts:137-167 | With valid inputs, the caller sees the translation of any error `withRetry` rethrew or `text()` threw. A blank answer reaches the caller as the empty-response message. |
| GeminiLetter.RecoversAfterTwoRateLimits | utils/generate-cover-letter.ts:137-149 | Two rate-limited attempts followed by a good answer return that answer after three calls and waits of 1000 and 2000 ms. |
| OpenAILetter.ActionMessagesDistinct | actions/generate-cover-letter.ts:84-98 | The four user-facing failure messages are pairwise different. |
| OpenAILetter.TranslateError | actions/generate-cover-letter.ts:84-98 | Every failure becomes one of four messages. The messages are checked in order: "401", then "429", then "500" in the error's message. Anything else, including a non-`Error`, gets the generic message. |
| OpenAILetter.InternalErrorsCollapse | actions/generate-cover-letter.ts:15-17 | The action's own missing-input and empty-response errors reach the user as the generic message. |
| OpenAILetter.MissingChoiceCollapses | actions/generate-cover-letter.ts:75 | The error raised when the completion has no choices also becomes the generic message. |
| OpenAILetter.FormatRequirementsContents | actions/generate-cover-letter.ts:50-54 | The format requirements ask for 300-400 words, the hiring-manager salutation, the "Sincerely" closing and no date. |
| OpenAILetter.BuildPrompt | actions/generate-cover-letter.ts:22-59 | Definition: the prompt template. `PromptFormat` and `PromptEmbedsInputs` state its contents. |
| OpenAILetter.FormatInPrompt | actions/generate-cover-letter.ts:22-59 | Anything in the format requirements is in the prompt. |
| OpenAILetter.PromptFormat | actions/generate-cover-letter.ts:50-54 | The prompt carries each format requirement. |
| OpenAILetter.PromptEmbedsInputs | actions/generate-cover-letter.ts:25-29 | The prompt holds the trimmed resume, and after it the trimmed job description. |
| OpenAILetter.AfterBackend | actions/generate-cover-letter.ts:75-83 | The first choice's content is returned exactly when it exists and is not blank. Otherwise the failure is a missing choice, an empty response, or the backend's own error. |
| OpenAILetter.Caught | actions/generate-cover-letter.ts:84-98 | A letter passes the catch block unchanged. A failure leaves as `TranslateError` of the caught error, so as one of the four messages. |
| OpenAILetter.Generate | actions/generate-cover-letter.ts:10-98 | The backend is asked exactly when both inputs are non-blank, with the trimmed inputs. A returned letter is the non-blank first choice. Every failure is one of the four messages. `BackendFailureReachesCaller` and `NoAnswerBecomesGeneric` state which one. |
| OpenAILetter.BackendFailureReachesCaller | actions/generate-cover-letter.ts:63-98 | With valid inputs, a failed request reaches the caller as `TranslateError` of the backend's error. |
| OpenAILetter.NoAnswerBecomesGeneric | actions/generate-cover-letter.ts:75-98 | With valid inputs, a missing first choice, or a null or blank answer, reaches the caller as the generic message. |
| OpenAILetter.BlankInputMakesNoCall | actions/generate-cover-letter.ts:12-17 | A blank input means no backend request and the generic message. |
| OpenAILetter.AnswerReturnedUnchanged | actions/generate-cover-letter.ts:75-83 | A non-blank first choice is returned exactly as the backend sent it. |
| OpenAILetter.BlankAnswerBecomesGeneric | actions/generate-cover-letter.ts:79-81 | A missing or blank first choice reaches the user as the generic message. |
| TextCleanup.ReplaceBreakRuns | app/api/extract-pdf/route.ts:44 | Definition: every maximal run of three or more line-break characters becomes two newlines. `BreakStepHasNoEffect` states its effect on the result. |
| TextCleanup.ReplaceWhitespaceRuns | app/api/extract-pdf/route.ts:45 | Definition: every maximal whitespace run becomes one space. `WhitespaceRunsSqueeze` relates it to the one-pass machine. |
| TextCleanup.Clean | app/api/extract-pdf/route.ts:42-46 | Definition: trim, both replacements, trim again. The lemmas below state its properties. |
| TextCleanup.CleanIsTidy | app/api/extract-pdf/route.ts:42-46 | The clean-up pipeline equals a single pass that keeps the words and puts one space between neighbours. |
| TextCleanup.CleanShape | app/api/extract-pdf/route.ts:42-46 | Cleaned text has no leading or trailing whitespace and no line breaks. Every whitespace character in it is a single space between two words. |
| TextCleanup.BreakStepHasNoEffect | app/api/extract-pdf/route.ts:44-45 | Replacing runs of three or more line breaks changes nothing in the final result: the whitespace squeeze that follows absorbs it. |
| TextCleanup.CleanIdempotent | app/api/extract-pdf/route.ts:42-46 | Cleaning cleaned text changes nothing. |
| TextCleanup.CleanKeepsNonWhitespace | app/api/extract-pdf/route.ts:42-46 | Cleaning keeps every non-whitespace character, in order. |
| TextCleanup.CleanEmptyIff | app/api/extract-pdf/route.ts:42-50 | Cleaning yields the empty string exactly when the text is all whitespace. |
| PdfExtract.ExtractTextFromPdf | app/utils/pdf.ts:15-35 | The helper never rejects. On a successful parse it reports the text and page count with no error. On a failure it reports empty text, zero pages and the error's message, or the fixed parse-failure message for a non-`Error`. |
| ExtractRoute.Get | app/api/extract/route.ts:6-8 | The health check answers 200 with its fixed status body. |
| ExtractRoute.Failure | app/api/extract/route.ts:32-38 | An unexpected failure answers 500 with "Failed to process PDF: " followed by the error's message, or by `String(error)` for a non-`Error`. |
| ExtractRoute.Post | app/api/extract/route.ts:10-39 | The route answers 200, 400 or 500. It answers 400 exactly when the form has no `file` entry or an empty text one ("No file provided"), or a file whose type does not mention "pdf" ("File must be a PDF"). A non-empty text entry has no `type`, so it fails in the catch block, as does a failing form or buffer read. For a PDF, the answer is 500 exactly when the extraction's `error` is truthy, with that error as the body. Otherwise it is 200 with the extraction result. |
| ExtractRoute.TextFieldAnswer | app/api/extract/route.ts:13-21 | A text field named `file` answers 400 "No file provided" when empty. Otherwise it answers 500 with the prefixed message of the `TypeError` raised by reading `includes` of an undefined `type`. |
| ExtractRoute.ParseFailureIsServerError | app/api/extract/route.ts:24-29 | A parser failure with a non-empty message answers 500 with that message. |
| ExtractRoute.EmptyTextIsSuccess | app/api/extract/route.ts:24-31 | A PDF that parses to empty text is still a success. |
| ExtractRoute.TypeCheckIsSubstring | app/api/extract/route.ts:19-21 | Any type containing "pdf" passes the type check. |
| ExtractRoute.EmptyErrorMessageIsSuccess | app/api/extract/route.ts:27-29 | A parser error with an empty message answers 200 with the failed result. |
| ExtractRoute.PostChecked | app/api/extract/route.ts:10-39 | The route with the error test made explicit answers 200 exactly when a PDF file was parsed successfully. |
| ExtractRoute.PostCheckedAgrees | app/api/extract/route.ts:27-29 | The corrected route agrees with the original on every input except a parser error with an empty message. |
| ExtractPdfRoute.Failure | app/api/extract-pdf/route.ts:61-70 | A failure answers 500 with the error's message, or the generic extraction message for a non-`Error`. |
| ExtractPdfRoute.Post | app/api/extract-pdf/route.ts:12-71 | A missing entry, or an empty text entry, is exactly the 400 case. A non-empty text entry fails when its bytes are read. A 200 comes exactly when the file was staged and converted to text that is not all whitespace. Its body is the cleaned text, non-empty and single-spaced. |
| ExtractPdfRoute.TextFieldAnswer | app/api/extract-pdf/route.ts:15-29 | A text field named `file` answers 400 "No file provided" when empty. Otherwise it answers 500 with the `TypeError` message for calling `arrayBuffer` on a string, whatever staging and conversion would have done. |
| ExtractPdfRoute.NoTextReported | app/api/extract-pdf/route.ts:37-39 | A conversion without text answers 500 with the no-text message. |
| ExtractPdfRoute.BlankTextReported | app/api/extract-pdf/route.ts:48-50 | Text that is all whitespace answers 500 with the empty-PDF message. That message differs from the no-text message. |
| ExtractPdfRoute.TypeNotChecked | app/api/extract-pdf/route.ts:15-22 | This route ignores the file's type: two files with different types get the same answer. |
| Middleware.Decide | middleware.ts:15-32 | A redirect happens exactly in two cases. A signed-in user on an `/auth` page goes home. A signed-out user on a `/profile` page goes to sign-up. |
| Middleware.NoRedirectLoop | middleware.ts:15-32 | Following a redirect never leads to a second redirect. |
| Middleware.StaysWhereAllowed | middleware.ts:15-32 | Signed-in users are never redirected from profile pages, and signed-out users are never redirected from auth pages. |
| Middleware.RawPrefixMatch | middleware.ts:15-22 | The match is a raw prefix test: any path that starts with "/auth" counts. |
| FileUpload.ReadFileAsText | components/file-upload.tsx:45-71 | PDF and Word files are not read: each gives the paste placeholder and its notice. Any other file yields its text, or the read-failure error. |
| FileUpload.HandleFile | components/file-upload.tsx:73-102 | A file of another type is refused with the invalid-type notice and no loading change. An accepted file sets loading on, then off. Extracted text carries the file's name. |
| FileUpload.HandleFiles | components/file-upload.tsx:29-42 | A drop or selection handles its first file and does nothing when no file is given. |
| FileUpload.AcceptedExactlyValidTypes | components/file-upload.tsx:74-87 | Loading is touched exactly for the three accepted types, and it always ends off. |
| FileUpload.SizeIgnored | components/file-upload.tsx:73-102 | The file's size plays no part. |
| FileUpload.PlaceholderWithoutReading | components/file-upload.tsx:47-62 | A PDF or Word file hands on the paste placeholder under its own name. |
| FileUpload.PlainTextHandedOn | components/file-upload.tsx:65-70 | A plain-text file hands on its contents. A failed read is reported as an extraction error. |
| GeneratorState.HandleFileTextExtracted | components/neural-letter-generator.tsx:29-45 | Empty text or the paste placeholder leaves the state alone and warns. Any other text becomes the resume, under the file's name. |
| GeneratorState.PlaceholderUploadChangesNothing | components/neural-letter-generator.tsx:29-45 | Uploading a PDF or Word file leaves the generator's state unchanged. |
| GeneratorState.Blocked | components/neural-letter-generator.tsx:48-65 | A refused generate click changes no state, makes no call and does not touch loading. |
| GeneratorState.Settle | components/neural-letter-generator.tsx:67-86 | A generate call sets loading on, then off. It replaces the letter only on success and reports a failure's message. |
| NeuralGenerator.HandleGenerate | components/neural-letter-generator.tsx:47-87 | The action is called exactly when a resume is present and the job description is not blank, with the trimmed job description. After a call, the letter is the action's reply when it succeeded and is unchanged when it failed. |
| NeuralGenerator.GenerateWithAction | components/neural-letter-generator.tsx:47-87 | Definition: the generate click with the OpenAI action behind it. `GeneratedLetterIsNonBlank` states its results. |
| NeuralGenerator.GeneratedLetterIsNonBlank | components/neural-letter-generator.tsx:70-83 | With the OpenAI action behind it, a new letter is never blank and every failure shown is one of the action's four messages. |
| NeuralGenerator.SubmitJobDescription | components/neural-letter-generator.tsx:98-109 | Blank text is ignored. Other text is stored trimmed, with a toast exactly when an action label is given. |
| NeuralGenerator.SubmitIdempotent | components/neural-letter-generator.tsx:98-109 | Submitting the stored job description again changes nothing. |
| NeuralGenerator.SubmittedTextIsSent | components/neural-letter-generator.tsx:47-109 | A submitted job description reaches the action trimmed. |
| NeuralGenerator.Paragraphs | components/neural-letter-generator.tsx:290 | A non-empty letter splits into at least one paragraph. Each paragraph but the last ends at the first blank line after its start. The last contains no blank line. |
| NeuralGenerator.ParagraphsRejoin | components/neural-letter-generator.tsx:290 | The displayed paragraphs, joined by blank lines, are the letter. |
| CoverLetterGenerator.HandleGenerate | components/cover-letter-generator.tsx:40-81 | Like the neural screen, but the job description is sent as typed, without trimming. After a call, the letter is the reply on success and unchanged on failure. |
| CoverLetterGenerator.SameRequestAsNeural | components/cover-letter-generator.tsx:52-64 | Both screens call the action in the same cases. The action builds the same request from either, since it trims its inputs itself. |
| SaveLetterDialog.HandleSave | components/ui/save-letter-dialog.tsx:26-32 | A blank name does nothing. Any other name is saved trimmed, and the dialog is then cleared and closed. |
| SaveLetterDialog.OnKeyDown | components/ui/save-letter-dialog.tsx:59-63 | Enter saves; any other key does nothing. |
| SaveLetterDialog.DisabledExactlyWhenNoOp | components/ui/save-letter-dialog.tsx:68 | The Save button is disabled exactly when saving would do nothing. |
| SaveLetterDialog.SavedNameIsTrimmed | components/ui/save-letter-dialog.tsx:26-32 | A saved name is non-empty and has no surrounding whitespace. |
| SaveLetterDialog.SecondSaveIsNoOp | components/ui/save-letter-dialog.tsx:26-32 | After a save the dialog is cleared, so saving again does nothing. |
| Strings.Trim | utils/generate-cover-letter.ts:21-22 | `trim()` removes leading and trailing whitespace only. It yields the empty string exactly for all-whitespace input. |
| Strings.TrimIdempotent | utils/generate-cover-letter.ts:21-22 | Trimming twice is trimming once. |
| Strings.Split | components/neural-letter-generator.tsx:290 | `split` cuts from the left: every part but the last ends where the separator first occurs, and the last part holds no separator. |
| Strings.SplitFromCuts | components/neural-letter-generator.tsx:290 | The scan behind `split` cuts at the leftmost occurrence each time, given that no occurrence starts in the text collected so far. |
| Strings.Join | components/neural-letter-generator.tsx:290 | Definition: `join`, the inverse of `Split` by `JoinSplit`. |
| Strings.JoinSplit | components/neural-letter-generator.tsx:290 | Splitting on a non-empty separator and joining with it gives the original string. |

## Left out

- The network and file system are not modelled. Each is represented by the value it settles to:
  - calls to the model and to the OpenAI backend;
  - the temporary file the PDF route writes;
  - `pdf-parse` and `pdf-to-text`;
  - reading a form or a file.
- The temporary file's clean-up in the PDF route's `finally` block is not modelled. It only logs on failure and does not change the answer.
- The wait between retries is recorded as a list of delays, not slept. The clock is left out.
- Console logging is left out, as are toast texts. Toasts are reduced to the kind of notice and the message they carry.
- The exemplar letters, the applicant background and the phrase transformations are long fixed blocks of the Gemini prompt. Each is represented by its heading line. The prompt is a pure function of the trimmed inputs and the options, so equal requests give equal prompts by construction.
- GeminiLetter.Env: the per-call key check of utils/generate-cover-letter.ts:16-19 is modelled on its own. The module-load check of utils/ai-config.ts:3-5 is left out, so states in which `GOOGLE_API_KEY` was unset at load time are not excluded.
- Model names, temperatures and token limits are configuration passed to the backend. They do not affect the control flow modelled here.
- Throwing `null` or `undefined` is not modelled. Reading `.message` from it would itself throw inside `withRetry`'s catch block; the model treats every thrown value as one that has properties.
- Retry.WithRetry: `maxRetries` and `baseDelay` are whole numbers. Fractional arguments, which JavaScript would accept, are not modelled.
- Retry.WithRetry: a thrown object whose `message` is neither a string nor missing is treated as having no message, so it is rethrown after one call. In JavaScript, `message.includes` would run the non-string's own method:
  - a number makes the catch block throw a `TypeError`;
  - an array containing "rate" is retried.
- Next.js redacts thrown errors from server actions in production builds; the model shows the message the action throws.
- The session lookup in the middleware and its path matcher are not modelled. The model starts from whether a user is signed in and the request path.
- Sign-in and sign-up forms, the saved-letters pages and the Supabase calls behind saving are not modelled. They sit outside the generation flow.
  - This includes the save handler of the neural generator.
- The Word-document branch of the file picker does not read the file. It returns the same placeholder as the PDF branch, with its own "DOCX detected" notice, and both are modelled.
- A callback that throws inside the file picker's `onTextExtracted` is not modelled. The generator screens' handlers never throw.

## Findings

| source | as written | input that shows it | evidently intended | confidence | as-written member | corrected member |
|---|---|---|---|---|---|---|
| app/api/extract/route.ts:27-29 | The route fails the request only when the extraction result's `error` is truthy. An empty error message is falsy, so a parse failure whose `Error` has message `""` is answered 200. | `pdfParse` rejecting with `new Error("")` for a file of type `application/pdf`: the body is `{text: "", numPages: 0, error: ""}` with status 200. | Any failed parse answers 500. | not executed; low (a parser seldom throws an empty message) | ExtractRoute.EmptyErrorMessageIsSuccess | ExtractRoute.PostChecked |

`ExtractRoute.PostCheckedAgrees` proves the corrected route differs from the original only on that input.
