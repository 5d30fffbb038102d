/**
 * The `NeuralLetterGenerator` component
 * (components/neural-letter-generator.tsx): its Generate handler, which
 * sends the job description trimmed, the job-description submit handler,
 * and the split of the letter into displayed paragraphs.
 *
 * `reply` is how the `generateCoverLetter` server action settles.
 */
module NeuralGenerator {
  import opened JsValues
  import opened Strings
  import opened GeneratorState
  import OpenAILetter

  /** `handleGenerateCoverLetter()` */
  function HandleGenerate(s: GenState, reply: Settled<string>): (g: Generation)
    ensures g.call.Some? <==> !ResumeMissing(s.resumeText) && !IsBlank(s.jobDescription)
    ensures g.call.Some? ==> g.call.value == Call(s.resumeText, Trim(s.jobDescription))
    ensures ResumeMissing(s.resumeText) ==> g.toast == ResumeRequired
    ensures g.call.None? ==> g.after == s && g.loadingWrites == []
    ensures g.call.Some? ==> !g.after.isLoading && g.loadingWrites == [true, false]
    ensures g.after.coverLetter != s.coverLetter ==> g.call.Some? && reply == Fulfilled(g.after.coverLetter)
    ensures g.call.Some? ==> g.after.coverLetter == (if reply.Fulfilled? then reply.value else s.coverLetter)
    ensures g.after == s.(coverLetter := g.after.coverLetter, isLoading := g.after.isLoading)
  {
    if ResumeMissing(s.resumeText) then Blocked(s, ResumeRequired)
    else
      var job := Trim(s.jobDescription);
      if job == [] then Blocked(s, JobDescriptionRequired)
      else Settle(s, Call(s.resumeText, job), reply)
  }

  /** The Generate handler wired to the server action: the reply is how the
      action settles on the arguments the handler passes. */
  function GenerateWithAction(s: GenState, backend: Settled<OpenAILetter.Completion>): Generation
  {
    var reply := OpenAILetter.Generate(s.resumeText, Trim(s.jobDescription), backend).outcome;
    HandleGenerate(s, reply)
  }

  /** Against the real action, a generated letter is never blank, and a
      failure toast shows one of the action's four messages. */
  lemma GeneratedLetterIsNonBlank(s: GenState, backend: Settled<OpenAILetter.Completion>)
    ensures var g := GenerateWithAction(s, backend);
      && (g.after.coverLetter != s.coverLetter ==> !IsBlank(g.after.coverLetter))
      && (g.toast.GenerationFailed? && g.call.Some? ==> OpenAILetter.IsActionMessage(g.toast.description))
  {
  }

  /** `handleJobDescriptionSubmit(text, action)`: the trimmed text is
      stored when it is not empty; a non-empty action also shows a toast. */
  function SubmitJobDescription(s: GenState, text: string, action: Option<string>): (r: (GenState, Option<Toast>))
    ensures IsBlank(text) ==> r == (s, None)
    ensures !IsBlank(text) ==> r.0 == s.(jobDescription := Trim(text))
    ensures r.1.Some? <==> !IsBlank(text) && action.Some? && action.value != []
  {
    var trimmed := Trim(text);
    if trimmed == [] then (s, None)
    else
      var toast := if action.Some? && action.value != [] then Some(ActionRequested(action.value)) else None;
      (s.(jobDescription := trimmed), toast)
  }

  /** Submitting the stored job description again changes nothing. */
  lemma SubmitIdempotent(s: GenState, text: string)
    requires !IsBlank(text)
    ensures var once := SubmitJobDescription(s, text, None).0;
      SubmitJobDescription(once, once.jobDescription, None).0 == once
  {
    TrimIdempotent(text);
  }

  /** After a non-blank submission, Generate sends exactly the submitted
      text, trimmed. */
  lemma SubmittedTextIsSent(s: GenState, text: string, reply: Settled<string>)
    requires !IsBlank(text) && !ResumeMissing(s.resumeText)
    ensures var g := HandleGenerate(SubmitJobDescription(s, text, None).0, reply);
      g.call == Some(Call(s.resumeText, Trim(text)))
  {
    TrimIdempotent(text);
  }

  const ParagraphBreak: string := "\n\n"

  /** The displayed paragraphs: the letter cut at every blank line, from
      the left, shown only for a non-empty letter. */
  function Paragraphs(letter: string): (ps: seq<string>)
    ensures letter != [] <==> ps != []
    ensures forall k | 0 <= k < |ps| - 1 :: CutAtFirst(ps[k], ParagraphBreak)
    ensures ps != [] ==> !Contains(ps[|ps| - 1], ParagraphBreak)
  {
    if letter == [] then [] else Split(letter, ParagraphBreak)
  }

  /** Joining the displayed paragraphs with a blank line gives back the
      letter: the display loses no text. */
  lemma ParagraphsRejoin(letter: string)
    ensures Join(Paragraphs(letter), ParagraphBreak) == letter
  {
    if letter != [] {
      JoinSplit(letter, ParagraphBreak);
    }
  }
}
