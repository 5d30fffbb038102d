/**
 * `generateCoverLetter` in actions/generate-cover-letter.ts: the OpenAI-backed
 * server action. It trims and validates the two inputs, renders a fixed
 * prompt around them, makes one chat-completion request, rejects a blank
 * answer, and rethrows every error it catches as one of four messages,
 * chosen by the status code the error's message mentions.
 *
 * The chat-completion request is an oracle: `reply` is how the single
 * `openai.chat.completions.create` call settles.
 */
module OpenAILetter {
  import opened JsValues
  import opened Strings
  import opened LetterMessages

  /** The `choices` of a completion, each with its `message.content`
      (`None` for a null content). */
  datatype Completion = Completion(choices: seq<Option<string>>)

  /** The trimmed, non-blank inputs the prompt is rendered from. */
  datatype Request = Request(resume: string, jobDescription: string)

  /** One call of the action: how it settled, and the request it sent to
      the backend, if it got that far. */
  datatype Run = Run(outcome: Settled<string>, request: Option<Request>)

  const AuthMessage: string := "API authentication" + " failed. Please" + " check your API key."
  const RateLimitMessage: string := "API rate limit" + " exceeded. Please" + " try again later."
  const ServerErrorMessage: string := "API server error." + " Please try" + " again later."

  const AuthCode: string := "401"
  const RateLimitCode: string := "429"
  const ServerErrorCode: string := "500"

  /** What V8 throws for `completion.choices[0].message` when there is no
      first choice. */
  const NoChoiceMessage: string := "Cannot read properties" + " of undefined" + " (reading 'message')"

  /** The four messages the action can throw. */
  predicate IsActionMessage(m: string)
  {
    m == AuthMessage || m == RateLimitMessage || m == ServerErrorMessage || m == GenericMessage
  }

  lemma ActionMessagesDistinct()
    ensures AuthMessage != RateLimitMessage && AuthMessage != ServerErrorMessage && AuthMessage != GenericMessage
    ensures RateLimitMessage != ServerErrorMessage && RateLimitMessage != GenericMessage
    ensures ServerErrorMessage != GenericMessage
  {
    assert AuthMessage[4] == 'a' && RateLimitMessage[4] == 'r' && ServerErrorMessage[4] == 's';
    assert GenericMessage[0] == 'F' && AuthMessage[0] == 'A' && RateLimitMessage[0] == 'A' && ServerErrorMessage[0] == 'A';
  }

  /** The catch block: an `Error` whose message mentions 401, 429 or 500
      (checked in that order) gets the matching message; anything else,
      including a thrown non-`Error`, gets the generic one. */
  function TranslateError(e: Thrown): (r: Thrown)
    ensures r.ErrorValue? && IsActionMessage(r.message)
    ensures r.message == AuthMessage <==> e.ErrorValue? && Contains(e.message, AuthCode)
    ensures r.message == RateLimitMessage <==>
      e.ErrorValue? && !Contains(e.message, AuthCode) && Contains(e.message, RateLimitCode)
    ensures r.message == ServerErrorMessage <==>
      e.ErrorValue? && !Contains(e.message, AuthCode) && !Contains(e.message, RateLimitCode)
      && Contains(e.message, ServerErrorCode)
    ensures e.OtherValue? ==> r.message == GenericMessage
  {
    ActionMessagesDistinct();
    if e.ErrorValue? && Contains(e.message, AuthCode) then ErrorValue(AuthMessage)
    else if e.ErrorValue? && Contains(e.message, RateLimitCode) then ErrorValue(RateLimitMessage)
    else if e.ErrorValue? && Contains(e.message, ServerErrorCode) then ErrorValue(ServerErrorMessage)
    else ErrorValue(GenericMessage)
  }

  /** A message that avoids the digits 4 and 5 mentions none of the three
      status codes. */
  lemma NoCodeWithoutDigits(m: string, cs: string)
    requires Avoids(m, cs) && '4' in cs && '5' in cs
    ensures !Contains(m, AuthCode) && !Contains(m, RateLimitCode) && !Contains(m, ServerErrorCode)
  {
    AvoidedCharExcludes(m, cs, AuthCode, 0);
    AvoidedCharExcludes(m, cs, RateLimitCode, 0);
    AvoidedCharExcludes(m, cs, ServerErrorCode, 0);
  }

  /** The validation error and the empty-response error both reach the
      caller as the generic message, as does the generic message itself. */
  lemma InternalErrorsCollapse()
    ensures TranslateError(ErrorValue(MissingInputMessage)) == ErrorValue(GenericMessage)
    ensures TranslateError(ErrorValue(EmptyResponseMessage)) == ErrorValue(GenericMessage)
    ensures TranslateError(ErrorValue(GenericMessage)) == ErrorValue(GenericMessage)
  {
    MissingInputCharacters();
    EmptyResponseCharacters();
    GenericCharacters();
    NoCodeWithoutDigits(MissingInputMessage, "kP45");
    NoCodeWithoutDigits(EmptyResponseMessage, "k45");
    NoCodeWithoutDigits(GenericMessage, "k45");
  }

  /** A missing first choice surfaces as the generic message. */
  lemma MissingChoiceCollapses()
    ensures TranslateError(ErrorValue(NoChoiceMessage)) == ErrorValue(GenericMessage)
  {
    assert Avoids(NoChoiceMessage, "45");
    NoCodeWithoutDigits(NoChoiceMessage, "45");
  }

  const PromptOpening: string :=
    "\nYou are a professional cover letter writer. Your task is to create a highly personalized "
    + "cover letter that specifically matches the candidate's resume with the job requirements.\n\n"
    + "Resume Content (Use this information to personalize the letter):\n"

  const JobHeading: string := "\n\nJob Description:\n"

  const AnalysisSteps: string :=
    "\n\nInstructions:\n"
    + "1. Carefully analyze the resume to extract:\n"
    + "   - Specific skills and technologies\n"
    + "   - Work experience and achievements\n"
    + "   - Educational background\n"
    + "   - Any certifications or relevant qualifications\n\n"
    + "2. Analyze the job description to identify:\n"
    + "   - Key requirements and responsibilities\n"
    + "   - Required skills and qualifications\n"
    + "   - Company values and culture indicators\n\n"
    + "3. Create a personalized cover letter that:\n"
    + "   - Directly references specific experiences from the resume\n"
    + "   - Shows clear connections between past achievements and job requirements\n"
    + "   - Uses concrete examples from the resume to demonstrate qualifications\n"
    + "   - Maintains a professional yet engaging tone\n"
    + "   - Demonstrates genuine interest in the role\n\n"

  const WordBand: string := "300-400"
  const SalutationName: string := "\"Hiring Manager\""
  const ClosingWord: string := "\"Sincerely,\""
  const NoDate: string := "Do not include the current date"

  const WordsLine: string := "   - Keep the letter concise (" + WordBand + " words)\n"
  const SalutationLine: string := "   - Use " + SalutationName + " as the salutation\n"
  const ClosingLine: string :=
    "   - Include a proper closing with " + ClosingWord + " followed by a placeholder for the candidate's name\n"
  const NoDateLine: string := "   - " + NoDate + "\n"

  const FormatRequirements: string :=
    "4. Format Requirements:\n" + WordsLine + SalutationLine + ClosingLine + NoDateLine

  const PromptClosing: string :=
    "\nImportant: The cover letter must specifically reference actual experiences and qualifications "
    + "from the provided resume. Do not generate generic content.\n\n"
    + "Please provide only the cover letter text without any additional commentary.\n"

  const PromptTail: string := AnalysisSteps + FormatRequirements + PromptClosing

  /** The prompt, filled with the request. */
  function BuildPrompt(req: Request): string
  {
    PromptOpening + req.resume + JobHeading + req.jobDescription + PromptTail
  }

  /** The four format requirements occur in their block. */
  lemma FormatRequirementsContents()
    ensures Contains(FormatRequirements, WordBand) && Contains(FormatRequirements, SalutationName)
    ensures Contains(FormatRequirements, ClosingWord) && Contains(FormatRequirements, NoDate)
  {
    var h := "4. Format Requirements:\n";
    ContainsInfix("   - Keep the letter concise (", WordBand, " words)\n");
    ContainsInRight(h, WordsLine, WordBand);
    ContainsInLeft(h + WordsLine, SalutationLine, WordBand);
    ContainsInLeft(h + WordsLine + SalutationLine, ClosingLine, WordBand);
    ContainsInLeft(h + WordsLine + SalutationLine + ClosingLine, NoDateLine, WordBand);
    ContainsInfix("   - Use ", SalutationName, " as the salutation\n");
    ContainsInRight(h + WordsLine, SalutationLine, SalutationName);
    ContainsInLeft(h + WordsLine + SalutationLine, ClosingLine, SalutationName);
    ContainsInLeft(h + WordsLine + SalutationLine + ClosingLine, NoDateLine, SalutationName);
    ContainsInfix("   - Include a proper closing with ", ClosingWord,
                  " followed by a placeholder for the candidate's name\n");
    ContainsInRight(h + WordsLine + SalutationLine, ClosingLine, ClosingWord);
    ContainsInLeft(h + WordsLine + SalutationLine + ClosingLine, NoDateLine, ClosingWord);
    ContainsInfix("   - ", NoDate, "\n");
    ContainsInRight(h + WordsLine + SalutationLine + ClosingLine, NoDateLine, NoDate);
  }

  /** Whatever the format block contains, the prompt contains. */
  lemma FormatInPrompt(req: Request, sub: string)
    requires Contains(FormatRequirements, sub)
    ensures Contains(BuildPrompt(req), sub)
  {
    ContainsInRight(AnalysisSteps, FormatRequirements, sub);
    ContainsInLeft(AnalysisSteps + FormatRequirements, PromptClosing, sub);
    ContainsInRight(PromptOpening + req.resume + JobHeading + req.jobDescription, PromptTail, sub);
  }

  /** The prompt always asks for 300-400 words, the "Hiring Manager"
      salutation, the "Sincerely," closing and no date. */
  lemma PromptFormat(req: Request)
    ensures var p := BuildPrompt(req);
      && Contains(p, WordBand) && Contains(p, SalutationName)
      && Contains(p, ClosingWord) && Contains(p, NoDate)
  {
    FormatRequirementsContents();
    FormatInPrompt(req, WordBand);
    FormatInPrompt(req, SalutationName);
    FormatInPrompt(req, ClosingWord);
    FormatInPrompt(req, NoDate);
  }

  /** The prompt carries the resume and the job description verbatim, the
      resume first. */
  lemma PromptEmbedsInputs(req: Request)
    ensures Precedes(BuildPrompt(req), req.resume, req.jobDescription)
  {
    InOrder(PromptOpening, req.resume, JobHeading, req.jobDescription, PromptTail);
  }

  /** What the body of the `try` block settles to once the backend has
      answered, before the catch block translates an error: the backend's
      error, the `TypeError` of reading a missing first choice, or the
      empty-response error for null or blank content. */
  function AfterBackend(reply: Settled<Completion>): (r: Settled<string>)
    ensures r.Fulfilled? <==> (reply.Fulfilled? && |reply.value.choices| > 0
      && reply.value.choices[0].Some? && !IsBlank(reply.value.choices[0].value))
    ensures r.Fulfilled? ==> r.value == reply.value.choices[0].value
    ensures reply.Rejected? ==> r == Rejected(reply.reason)
    ensures reply.Fulfilled? && reply.value.choices == [] ==> r == Rejected(ErrorValue(NoChoiceMessage))
    ensures reply.Fulfilled? && reply.value.choices != [] && r.Rejected? ==>
      r == Rejected(ErrorValue(EmptyResponseMessage))
  {
    match reply
    case Rejected(e) => Rejected(e)
    case Fulfilled(completion) =>
      if completion.choices == [] then Rejected(ErrorValue(NoChoiceMessage))
      else
        var content := completion.choices[0];
        if content.None? || IsBlank(content.value) then Rejected(ErrorValue(EmptyResponseMessage))
        else Fulfilled(content.value)
  }

  /** The catch block around the whole action: a success is kept, an error
      is translated. */
  function Caught(s: Settled<string>): (r: Settled<string>)
    ensures r.Fulfilled? <==> s.Fulfilled?
    ensures r.Fulfilled? ==> r == s
    ensures r.Rejected? ==> r.reason.ErrorValue? && IsActionMessage(r.reason.message)
    ensures s.Rejected? ==> r == Rejected(TranslateError(s.reason))
  {
    match s
    case Fulfilled(_) => s
    case Rejected(e) => Rejected(TranslateError(e))
  }

  /** `generateCoverLetter(resumeText, jobDescription)` */
  function Generate(resumeText: string, jobDescription: string, reply: Settled<Completion>): (run: Run)
    ensures run.request.Some? <==> !IsBlank(resumeText) && !IsBlank(jobDescription)
    ensures run.request.Some? ==> run.request.value == Request(Trim(resumeText), Trim(jobDescription))
    ensures run.outcome.Rejected? ==> run.outcome.reason.ErrorValue? && IsActionMessage(run.outcome.reason.message)
    ensures run.outcome.Fulfilled? ==> !IsBlank(run.outcome.value) && run.request.Some?
    ensures run.outcome.Fulfilled? ==> run.outcome == AfterBackend(reply)
  {
    var resume := Trim(resumeText);
    var job := Trim(jobDescription);
    var tried :=
      if resume == [] || job == [] then Run(Rejected(ErrorValue(MissingInputMessage)), None)
      else Run(AfterBackend(reply), Some(Request(resume, job)));
    tried.(outcome := Caught(tried.outcome))
  }

  /** With valid inputs, a failed request reaches the caller as the
      translation of the backend's error. */
  lemma BackendFailureReachesCaller(resumeText: string, jobDescription: string, reply: Settled<Completion>)
    requires !IsBlank(resumeText) && !IsBlank(jobDescription)
    requires reply.Rejected?
    ensures Generate(resumeText, jobDescription, reply).outcome == Rejected(TranslateError(reply.reason))
  {
  }

  /** With valid inputs, a missing first choice or a null or blank answer
      reaches the caller as the generic message. */
  lemma NoAnswerBecomesGeneric(resumeText: string, jobDescription: string, reply: Settled<Completion>)
    requires !IsBlank(resumeText) && !IsBlank(jobDescription)
    requires reply.Fulfilled? && AfterBackend(reply).Rejected?
    ensures Generate(resumeText, jobDescription, reply).outcome == Rejected(ErrorValue(GenericMessage))
  {
    InternalErrorsCollapse();
    MissingChoiceCollapses();
  }

  /** Blank inputs make no request and surface as the generic message. */
  lemma BlankInputMakesNoCall(resumeText: string, jobDescription: string, reply: Settled<Completion>)
    requires IsBlank(resumeText) || IsBlank(jobDescription)
    ensures Generate(resumeText, jobDescription, reply) == Run(Rejected(ErrorValue(GenericMessage)), None)
  {
    InternalErrorsCollapse();
  }

  /** A non-blank answer is returned exactly as the backend sent it. */
  lemma AnswerReturnedUnchanged(resumeText: string, jobDescription: string, letter: string,
                                rest: seq<Option<string>>)
    requires !IsBlank(resumeText) && !IsBlank(jobDescription) && !IsBlank(letter)
    ensures Generate(resumeText, jobDescription, Fulfilled(Completion([Some(letter)] + rest))).outcome
         == Fulfilled(letter)
  {
  }

  /** A blank or null answer surfaces as the generic message, not as the
      empty-response error the action raises internally. */
  lemma BlankAnswerBecomesGeneric(resumeText: string, jobDescription: string, content: Option<string>,
                                  rest: seq<Option<string>>)
    requires !IsBlank(resumeText) && !IsBlank(jobDescription)
    requires content.None? || IsBlank(content.value)
    ensures Generate(resumeText, jobDescription, Fulfilled(Completion([content] + rest))).outcome
         == Rejected(ErrorValue(GenericMessage))
  {
    InternalErrorsCollapse();
  }
}
