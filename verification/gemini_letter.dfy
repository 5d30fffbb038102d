/**
 * `generateCoverLetter` in utils/generate-cover-letter.ts: the Gemini-backed
 * generator. It checks that an API key is configured, trims and validates
 * the two inputs, renders the prompt from the style options, calls the model
 * through `withRetry` with its defaults, rejects a blank answer, and
 * translates every error it catches through a fixed table.
 *
 * The model is an oracle: `op(i)` is how the (i+1)-th `generateContent`
 * call settles, and a settled response carries how its `text()` accessor
 * settles.
 */
module GeminiLetter {
  import opened JsValues
  import opened Strings
  import opened LetterMessages
  import Retry

  datatype Tone = Formal | Conversational | Technical
  datatype FocusArea = TechnicalFocus | Leadership | Creativity | Growth
  datatype Length = Concise | Standard | Detailed

  /** `CoverLetterOptions`: every field may be absent. */
  datatype Options = Options(tone: Option<Tone>, focusAreas: Option<seq<FocusArea>>, length: Option<Length>)

  const NoOptions: Options := Options(None, None, None)

  /** The environment variables `NEXT_PUBLIC_GOOGLE_API_KEY` and
      `GOOGLE_API_KEY`; `None` when unset. */
  datatype Env = Env(publicKey: Option<string>, serverKey: Option<string>)

  /** A settled `generateContent` call: its `response.text()` may itself
      throw. */
  datatype Response = Response(text: Settled<string>)

  /** One call of the generator: how it settled, the request whose prompt
      it sent (if it reached the model), and what `withRetry` did. */
  datatype Run = Run(outcome: Settled<string>, request: Option<Request>, calls: nat, delays: seq<int>)

  const ConversationalGuide: string := "Maintain professional but approachable tone."
  const StandardWordCount: string := "300-400"
  const BalancedFocus: string := "balanced"
  const Salutation: string := "Dear Hiring Manager,"
  const Closing: string := "Sincerely, [Name]"

  function ToneGuide(t: Tone): string
  {
    match t
    case Formal => "Use formal language and traditional business writing style."
    case Conversational => ConversationalGuide
    case Technical => "Emphasize technical expertise and use industry-specific terminology."
  }

  function WordCountGuide(l: Length): string
  {
    match l
    case Concise => "250-300"
    case Standard => StandardWordCount
    case Detailed => "400-450"
  }

  function FocusAreaName(f: FocusArea): (name: string)
    ensures name != []
  {
    match f
    case TechnicalFocus => "technical"
    case Leadership => "leadership"
    case Creativity => "creativity"
    case Growth => "growth"
  }

  function FocusAreaNames(fs: seq<FocusArea>): (names: seq<string>)
    ensures |names| == |fs|
    ensures forall i :: 0 <= i < |fs| ==> names[i] == FocusAreaName(fs[i])
  {
    if fs == [] then [] else [FocusAreaName(fs[0])] + FocusAreaNames(fs[1..])
  }

  /** The word-count band of the prompt; the standard band when no length
      is given. */
  function LengthLine(o: Options): (band: string)
    ensures o.length.None? ==> band == StandardWordCount
    ensures o.length.Some? ==> band == WordCountGuide(o.length.value)
  {
    if o.length.Some? then WordCountGuide(o.length.value) else WordCountGuide(Standard)
  }

  /** The tone guidance of the prompt; the conversational one when no tone
      is given. */
  function ToneLine(o: Options): (guide: string)
    ensures o.tone.None? ==> guide == ConversationalGuide
    ensures o.tone.Some? ==> guide == ToneGuide(o.tone.value)
  {
    if o.tone.Some? then ToneGuide(o.tone.value) else ToneGuide(Conversational)
  }

  /** The focus areas joined by commas, or "balanced" when there are none. */
  function FocusLine(o: Options): string
  {
    var joined := if o.focusAreas.Some? then Join(FocusAreaNames(o.focusAreas.value), ", ") else [];
    if joined == [] then BalancedFocus else joined
  }

  /** The focus line is "balanced" exactly when no focus area is given;
      otherwise it lists the areas, comma-separated, in the order given. */
  lemma FocusLineDefault(o: Options)
    ensures FocusLine(o) == BalancedFocus <==> (o.focusAreas.None? || o.focusAreas.value == [])
    ensures o.focusAreas.Some? && o.focusAreas.value != [] ==>
      FocusLine(o) == Join(FocusAreaNames(o.focusAreas.value), ", ")
  {
    if o.focusAreas.Some? && o.focusAreas.value != [] {
      var names := FocusAreaNames(o.focusAreas.value);
      JoinOfNamesStartsWithFirst(names);
      assert FocusLine(o) != BalancedFocus by {
        var first := names[0];
        assert FocusLine(o)[..|first|] == first;
        FocusAreaNamesDiffer(o.focusAreas.value[0]);
      }
    }
  }

  /** A non-empty list of names joins to a string that begins with the first
      name. */
  lemma {:induction false} JoinOfNamesStartsWithFirst(names: seq<string>)
    requires names != []
    ensures |names[0]| <= |Join(names, ", ")| && Join(names, ", ")[..|names[0]|] == names[0]
  {
    if |names| > 1 {
      assert Join(names, ", ") == names[0] + (", " + Join(names[1..], ", "));
    }
  }

  /** No focus-area name begins with the word "balanced". */
  lemma FocusAreaNamesDiffer(f: FocusArea)
    ensures var n := FocusAreaName(f);
      |n| > |BalancedFocus| || (|n| <= |BalancedFocus| && BalancedFocus[..|n|] != n)
  {
    var n := FocusAreaName(f);
    assert n[0] != 'b';
  }

  const PromptIntro: string :=
    "\nYou are a top-tier AI cover letter generator for CS students. Given a resume and job description, "
    + "write a personalized, highly technical cover letter for a Software/CS-related role. "
    + "Study the exemplar cover letters carefully and follow their patterns.\n\nGuidelines:\n"

  const OutputRequirements: string :=
    "\nOutput Requirements:\n"
    + "- Mention the company and role in the first paragraph\n"
    + "- Highlight 1\U{2013}2 technical projects or internships\n"
    + "- Quantify impact wherever possible (metrics, scale, improvement)\n"
    + "- Reference relevant skills/tools from resume + job description\n"
    + "- End with a confident, eager closing\n\n"

  /** The three long fixed blocks of the prompt (applicant context,
      exemplar letters, phrase transformations), represented by their
      heading lines. */
  const CsContext: string := "\nAPPLICANT CONTEXT:\n"
  const ExemplarCoverLetters: string := "\nEXEMPLAR COVER LETTERS FROM TOP TECH COMPANIES:\n"
  const ExampleTransformations: string := "\nTRANSFORM BASIC RESPONSES INTO ELITE ONES:\n"

  const PromptOutro: string :=
    "Use precise technical terminology and tailor everything to the role. "
    + "Do not include commentary or extra text\U{2014}only return the final cover letter.\n"

  /** The directive lines of the prompt's guidelines. */
  function LengthDirective(o: Options): string
  {
    "- Length: " + LengthLine(o) + " words\n"
  }

  function ToneDirective(o: Options): string
  {
    "- Tone: " + ToneLine(o) + "\n"
  }

  function FocusDirective(o: Options): string
  {
    "- Focus: " + FocusLine(o) + "\n"
  }

  const SalutationDirective: string := "- Salutation: \"" + Salutation + "\"\n"
  const ClosingDirective: string := "- Closing: \"" + Closing + "\"\n"

  /** The style directives, with the fixed salutation and closing lines. */
  function Guidelines(o: Options): string
  {
    LengthDirective(o) + ToneDirective(o) + FocusDirective(o) + SalutationDirective + ClosingDirective
  }

  /** Everything before the resume: the task, the guidelines, the output
      requirements, the background and the exemplars. */
  function PromptHead(o: Options): string
  {
    PromptIntro + Guidelines(o) + OutputRequirements + CsContext + "\n\n" + ExemplarCoverLetters
    + ResumeHeading
  }

  const ResumeHeading: string := "\n\nResume:\n"
  const JobHeading: string := "\n\nJob Description:\n"
  const PromptTail: string := "\n\n" + ExampleTransformations + "\n\n" + PromptOutro

  /** What the generator has validated and the prompt is rendered from: the
      trimmed, non-blank resume and job description, and the options. */
  datatype Request = Request(resume: string, jobDescription: string, options: Options)

  /** The prompt template, filled with the request. */
  function BuildPrompt(req: Request): string
  {
    PromptHead(req.options) + req.resume + JobHeading + req.jobDescription + PromptTail
  }

  /** Each directive line of the guidelines, and the salutation and
      closing, occur in them. */
  lemma GuidelinesContents(o: Options)
    ensures var g := Guidelines(o);
      && Contains(g, LengthDirective(o)) && Contains(g, ToneDirective(o)) && Contains(g, FocusDirective(o))
      && Contains(g, Salutation) && Contains(g, Closing)
  {
    var g := Guidelines(o);
    ContainsEachOfFive(LengthDirective(o), ToneDirective(o), FocusDirective(o), SalutationDirective, ClosingDirective);
    ContainsInfix("- Salutation: \"", Salutation, "\"\n");
    ContainsTransitive(g, SalutationDirective, Salutation);
    ContainsInfix("- Closing: \"", Closing, "\"\n");
    ContainsTransitive(g, ClosingDirective, Closing);
  }

  /** Whatever the guidelines contain, the prompt contains. */
  lemma GuidelinesInPrompt(req: Request, sub: string)
    requires Contains(Guidelines(req.options), sub)
    ensures Contains(BuildPrompt(req), sub)
  {
    ContainsInSecondOfSeven(PromptIntro, Guidelines(req.options), OutputRequirements, CsContext,
                            "\n\n", ExemplarCoverLetters, ResumeHeading, sub);
    ContainsInFirstOfFive(PromptHead(req.options), req.resume, JobHeading, req.jobDescription,
                          PromptTail, sub);
  }

  /** The prompt always asks for the "Dear Hiring Manager," salutation and
      the "Sincerely, [Name]" closing, and states the word-count band, tone
      and focus resolved from the options. */
  lemma PromptDirectives(req: Request)
    ensures var p := BuildPrompt(req);
      && Contains(p, Salutation) && Contains(p, Closing)
      && Contains(p, LengthDirective(req.options))
      && Contains(p, ToneDirective(req.options))
      && Contains(p, FocusDirective(req.options))
  {
    var o := req.options;
    GuidelinesContents(o);
    GuidelinesInPrompt(req, Salutation);
    GuidelinesInPrompt(req, Closing);
    GuidelinesInPrompt(req, LengthDirective(o));
    GuidelinesInPrompt(req, ToneDirective(o));
    GuidelinesInPrompt(req, FocusDirective(o));
  }

  /** The prompt carries the resume and the job description verbatim, the
      resume section first. */
  lemma PromptEmbedsInputs(req: Request)
    ensures Precedes(BuildPrompt(req), req.resume, req.jobDescription)
  {
    InOrder(PromptHead(req.options), req.resume, JobHeading, req.jobDescription, PromptTail);
  }

  /** `NEXT_PUBLIC_GOOGLE_API_KEY || GOOGLE_API_KEY` is truthy: an unset or
      empty variable does not count. */
  predicate KeyConfigured(env: Env)
  {
    (env.publicKey.Some? && env.publicKey.value != []) || (env.serverKey.Some? && env.serverKey.value != [])
  }

  /** Thrown at the start when no key is configured. */
  const KeyNotConfigured: string := "API key is not configured"
  const KeyMissingMessage: string := "Google " + KeyNotConfigured
  /** What a missing key surfaces as. */
  const KeyMessage: string := "Google " + KeyNotConfigured + ". Please check your environment variables."
  const GeminiErrorPrefix: string := "Gemini API Error:"
  const PleaseCheck: string := "Please check"
  const PleaseRevise: string := "Please revise"

  /** The messages the catch block rethrows unchanged. */
  predicate PassesThrough(message: string)
  {
    || StartsWith(message, GeminiErrorPrefix)
    || StartsWith(message, FailedToGenerate)
    || Contains(message, PleaseCheck)
    || Contains(message, PleaseRevise)
  }

  /** The catch block: what an error caught anywhere in the generator is
      turned into. An `Error` mentioning the unconfigured key becomes the
      key message; any other `Error` on the pass-through list is rethrown
      as it is; everything else becomes the generic message. */
  function TranslateError(e: Thrown): (r: Thrown)
    ensures r.ErrorValue?
    ensures r == ErrorValue(KeyMessage) <==> e.ErrorValue? && Contains(e.message, KeyNotConfigured)
    ensures e.ErrorValue? && !Contains(e.message, KeyNotConfigured) && PassesThrough(e.message) ==> r == e
    ensures e.OtherValue? || (!Contains(e.message, KeyNotConfigured) && !PassesThrough(e.message)) ==>
      r == ErrorValue(GenericMessage)
  {
    KeyMessageNamesKey();
    if e.ErrorValue? && Contains(e.message, KeyNotConfigured) then ErrorValue(KeyMessage)
    else if e.ErrorValue? && PassesThrough(e.message) then e
    else ErrorValue(GenericMessage)
  }

  /** The key message mentions the unconfigured key, and the generic
      message does not read like it. */
  lemma KeyMessageNamesKey()
    ensures Contains(KeyMessage, KeyNotConfigured)
    ensures KeyMessage != GenericMessage
  {
    ContainsInfix("Google ", KeyNotConfigured, ". Please check your environment variables.");
    GenericCharacters();
    assert KeyMessage[7] == 'A' && KeyMessage[11] == 'k';
    assert GenericMessage[11] != 'k';
  }

  /** Translating a translated error changes nothing: every message the
      table produces is one it passes through or maps to itself. */
  lemma TranslateErrorIdempotent(e: Thrown)
    ensures TranslateError(TranslateError(e)) == TranslateError(e)
  {
    var r := TranslateError(e);
    if r == ErrorValue(KeyMessage) {
      ContainsInfix("Google ", KeyNotConfigured, ". Please check your environment variables.");
    } else if r == ErrorValue(GenericMessage) {
      MessagePrefixes();
      GenericCharacters();
      AvoidedCharExcludes(GenericMessage, "k45", KeyNotConfigured, 4);
    }
  }

  /** The error a blank input raises is not on the pass-through list, so the
      caller sees the generic message. */
  lemma MissingInputBecomesGeneric()
    ensures TranslateError(ErrorValue(MissingInputMessage)) == ErrorValue(GenericMessage)
  {
    MissingInputCharacters();
    AvoidedCharExcludes(MissingInputMessage, "kP45", KeyNotConfigured, 4);
    AvoidedCharExcludes(MissingInputMessage, "kP45", PleaseCheck, 0);
    AvoidedCharExcludes(MissingInputMessage, "kP45", PleaseRevise, 0);
  }

  /** The empty-response error starts with "Failed to generate" and passes
      through unchanged. */
  lemma EmptyResponsePassesThrough()
    ensures TranslateError(ErrorValue(EmptyResponseMessage)) == ErrorValue(EmptyResponseMessage)
  {
    MessagePrefixes();
    EmptyResponseCharacters();
    AvoidedCharExcludes(EmptyResponseMessage, "k45", KeyNotConfigured, 4);
  }

  /** What the body of the `try` block settles to once `withRetry` has
      settled, before the catch block translates an error: the error
      `withRetry` rethrew, the error `response.text()` threw, or the
      empty-response error for a blank text. */
  function AfterModel(settled: Settled<Response>): (r: Settled<string>)
    ensures r.Fulfilled? ==> !IsBlank(r.value) && settled == Fulfilled(Response(Fulfilled(r.value)))
    ensures settled.Rejected? ==> r == Rejected(settled.reason)
    ensures settled.Fulfilled? && settled.value.text.Fulfilled? ==>
      (r.Rejected? <==> IsBlank(settled.value.text.value))
    ensures settled.Fulfilled? && settled.value.text.Fulfilled? && r.Rejected? ==>
      r.reason == ErrorValue(EmptyResponseMessage)
    ensures settled.Fulfilled? && settled.value.text.Rejected? ==> r == Rejected(settled.value.text.reason)
  {
    match settled
    case Rejected(e) => Rejected(e)
    case Fulfilled(response) =>
      match response.text
      case Rejected(e) => Rejected(e)
      case Fulfilled(text) =>
        if IsBlank(text) then Rejected(ErrorValue(EmptyResponseMessage))
        else Fulfilled(text)
  }

  /** A successful run returns the text of the response to its last call. */
  predicate AnsweredBy(run: Run, op: Retry.Operation<Response>)
  {
    run.outcome.Fulfilled? ==>
      (1 <= run.calls && op(run.calls - 1) == Fulfilled(Response(Fulfilled(run.outcome.value))))
  }

  /** The model call once the inputs are validated: `withRetry` around
      `generateContent`, then the response checks. At least one call is
      made, and a success is the text of the last call's response. */
  function CallModel(req: Request, op: Retry.Operation<Response>): (run: Run)
    ensures run.request == Some(req)
    ensures 1 <= run.calls <= Retry.DefaultMaxRetries
    ensures run.outcome.Fulfilled? ==> !IsBlank(run.outcome.value)
    ensures AnsweredBy(run, op)
  {
    var retried := Retry.RetrySpec(op, Retry.DefaultMaxRetries, Retry.DefaultBaseDelay);
    RetriedModelAnswers(op, Some(req));
    Run(AfterModel(retried.outcome), Some(req), retried.calls, retried.delays)
  }

  /** `withRetry` with the defaults around the model: one to three calls,
      and a success after the response checks is the last call's text. */
  lemma RetriedModelAnswers(op: Retry.Operation<Response>, request: Option<Request>)
    ensures var retried := Retry.RetrySpec(op, Retry.DefaultMaxRetries, Retry.DefaultBaseDelay);
      && 1 <= retried.calls <= Retry.DefaultMaxRetries
      && AnsweredBy(Run(AfterModel(retried.outcome), request, retried.calls, retried.delays), op)
  {
    var retried := Retry.RetrySpec(op, Retry.DefaultMaxRetries, Retry.DefaultBaseDelay);
    Retry.DefaultRunsAtMostThreeTimes(op);
    Retry.SuccessIsLastCall(op, Retry.DefaultMaxRetries, Retry.DefaultBaseDelay);
    var outcome := AfterModel(retried.outcome);
    assert outcome.Fulfilled? ==> retried.outcome == Fulfilled(Response(Fulfilled(outcome.value)));
  }

  /** The checks before the model is called: the key first, then the
      trimmed inputs. A failed check throws. */
  function Validate(env: Env, resumeText: string, jobDescription: string, o: Options): (r: Settled<Request>)
    ensures r.Fulfilled? <==> KeyConfigured(env) && !IsBlank(resumeText) && !IsBlank(jobDescription)
    ensures r.Fulfilled? ==> r.value == Request(Trim(resumeText), Trim(jobDescription), o)
    ensures r.Rejected? ==>
      r.reason == ErrorValue(if KeyConfigured(env) then MissingInputMessage else KeyMissingMessage)
  {
    if !KeyConfigured(env) then
      Rejected(ErrorValue(KeyMissingMessage))
    else
      var resume := Trim(resumeText);
      var job := Trim(jobDescription);
      if resume == [] || job == [] then
        Rejected(ErrorValue(MissingInputMessage))
      else
        Fulfilled(Request(resume, job, o))
  }

  /** The catch block around the whole generator: a success is kept, an
      error is translated. */
  function Caught(s: Settled<string>): (r: Settled<string>)
    ensures r.Fulfilled? <==> s.Fulfilled?
    ensures r.Fulfilled? ==> r == s
    ensures s.Rejected? ==> r.Rejected? && r.reason == TranslateError(s.reason)
    ensures r.Rejected? ==> r.reason.ErrorValue?
  {
    match s
    case Fulfilled(_) => s
    case Rejected(e) => Rejected(TranslateError(e))
  }

  /** `generateCoverLetter(resumeText, jobDescription, options)` */
  function Generate(env: Env, resumeText: string, jobDescription: string, o: Options,
                    op: Retry.Operation<Response>): (run: Run)
    ensures run.outcome.Rejected? ==> run.outcome.reason.ErrorValue?
    ensures run.outcome.Fulfilled? ==> !IsBlank(run.outcome.value)
    ensures run.calls <= Retry.DefaultMaxRetries
    ensures run.request.None? <==> run.calls == 0
    ensures run.outcome.Fulfilled? ==> run.request.Some?
    ensures AnsweredBy(run, op)
    ensures run.request.Some? ==> var req := run.request.value;
      && req.resume == Trim(resumeText) && req.jobDescription == Trim(jobDescription) && req.options == o
      && !IsBlank(resumeText) && !IsBlank(jobDescription) && KeyConfigured(env)
  {
    var tried := match Validate(env, resumeText, jobDescription, o)
      case Rejected(e) => Run(Rejected(e), None, 0, [])
      case Fulfilled(req) => CallModel(req, op);
    tried.(outcome := Caught(tried.outcome))
  }

  /** A missing key is reported before the inputs are looked at, even when
      they are blank, and the model is never called. */
  lemma MissingKeyReportedFirst(env: Env, resumeText: string, jobDescription: string, o: Options,
                                op: Retry.Operation<Response>)
    requires !KeyConfigured(env)
    ensures Generate(env, resumeText, jobDescription, o, op)
         == Run(Rejected(ErrorValue(KeyMessage)), None, 0, [])
  {
    ContainsInfix("Google ", KeyNotConfigured, []);
    assert KeyMissingMessage == "Google " + KeyNotConfigured + [];
  }

  /** Blank inputs never reach `withRetry` or the model, and surface as the
      generic message. */
  lemma BlankInputNeverCallsModel(env: Env, resumeText: string, jobDescription: string, o: Options,
                                  op: Retry.Operation<Response>)
    requires KeyConfigured(env)
    requires IsBlank(resumeText) || IsBlank(jobDescription)
    ensures Generate(env, resumeText, jobDescription, o, op)
         == Run(Rejected(ErrorValue(GenericMessage)), None, 0, [])
  {
    MissingInputBecomesGeneric();
  }

  /** With a key configured and both inputs non-blank, the generator is
      the model call on the trimmed inputs, with its error translated. */
  lemma ValidInputReachesModel(env: Env, resumeText: string, jobDescription: string, o: Options,
                               op: Retry.Operation<Response>)
    requires KeyConfigured(env) && !IsBlank(resumeText) && !IsBlank(jobDescription)
    ensures var called := CallModel(Request(Trim(resumeText), Trim(jobDescription), o), op);
      Generate(env, resumeText, jobDescription, o, op) == called.(outcome := Caught(called.outcome))
  {
  }

  /** Only validated inputs can succeed: a success had a key and non-blank
      inputs, and came from the model call on the trimmed inputs. */
  lemma SuccessCameFromModel(env: Env, resumeText: string, jobDescription: string, o: Options,
                             op: Retry.Operation<Response>)
    requires Generate(env, resumeText, jobDescription, o, op).outcome.Fulfilled?
    ensures KeyConfigured(env) && !IsBlank(resumeText) && !IsBlank(jobDescription)
    ensures Generate(env, resumeText, jobDescription, o, op)
         == CallModel(Request(Trim(resumeText), Trim(jobDescription), o), op)
  {
    assert Generate(env, resumeText, jobDescription, o, op).request.Some?;
    ValidInputReachesModel(env, resumeText, jobDescription, o, op);
    var called := CallModel(Request(Trim(resumeText), Trim(jobDescription), o), op);
    assert Caught(called.outcome) == called.outcome;
  }

  /** A blank answer from the model surfaces as the empty-response error. */
  lemma BlankAnswerRejected(env: Env, resumeText: string, jobDescription: string, o: Options,
                            op: Retry.Operation<Response>, answer: string)
    requires KeyConfigured(env) && !IsBlank(resumeText) && !IsBlank(jobDescription)
    requires op(0) == Fulfilled(Response(Fulfilled(answer))) && IsBlank(answer)
    ensures Generate(env, resumeText, jobDescription, o, op).outcome
         == Rejected(ErrorValue(EmptyResponseMessage))
  {
    Retry.FirstNonRateOutcomeIsFinal(op, Retry.DefaultMaxRetries, Retry.DefaultBaseDelay, 0);
    EmptyResponsePassesThrough();
  }

  /** Once the inputs are valid, every failure of the model call reaches
      the caller through the catch block: an error `withRetry` rethrew or
      `text()` threw is translated, and a blank answer keeps the
      empty-response message. */
  lemma ModelFailureReachesCaller(env: Env, resumeText: string, jobDescription: string, o: Options,
                                  op: Retry.Operation<Response>)
    requires KeyConfigured(env) && !IsBlank(resumeText) && !IsBlank(jobDescription)
    ensures var settled := Retry.RetrySpec(op, Retry.DefaultMaxRetries, Retry.DefaultBaseDelay).outcome;
      var outcome := Generate(env, resumeText, jobDescription, o, op).outcome;
      && (settled.Rejected? ==> outcome == Rejected(TranslateError(settled.reason)))
      && (settled.Fulfilled? && settled.value.text.Rejected? ==>
            outcome == Rejected(TranslateError(settled.value.text.reason)))
      && (settled.Fulfilled? && settled.value.text.Fulfilled? && IsBlank(settled.value.text.value) ==>
            outcome == Rejected(ErrorValue(EmptyResponseMessage)))
  {
    ValidInputReachesModel(env, resumeText, jobDescription, o, op);
    EmptyResponsePassesThrough();
  }

  /** Two rate-limit failures followed by a success: the letter is returned
      after exactly three calls, having slept 1000 ms and then 2000 ms. */
  lemma RecoversAfterTwoRateLimits(env: Env, resumeText: string, jobDescription: string, o: Options,
                                   op: Retry.Operation<Response>, letter: string)
    requires KeyConfigured(env) && !IsBlank(resumeText) && !IsBlank(jobDescription)
    requires Retry.IsRetried(op(0)) && Retry.IsRetried(op(1))
    requires op(2) == Fulfilled(Response(Fulfilled(letter))) && !IsBlank(letter)
    ensures var run := Generate(env, resumeText, jobDescription, o, op);
      && run.outcome == Fulfilled(letter)
      && run.calls == 3
      && run.delays == [1000, 2000]
  {
    ValidInputReachesModel(env, resumeText, jobDescription, o, op);
    Retry.TwoRateLimitsThenSettles(op);
  }
}
