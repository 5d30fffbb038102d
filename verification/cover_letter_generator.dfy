/**
 * The `CoverLetterGenerator` component
 * (components/cover-letter-generator.tsx): its Generate handler, which
 * checks the job description trimmed but sends it as typed.
 *
 * `reply` is how the `generateCoverLetter` server action settles.
 */
module CoverLetterGenerator {
  import opened JsValues
  import opened Strings
  import opened GeneratorState
  import OpenAILetter
  import NeuralGenerator

  /** `handleGenerateCoverLetter()` */
  function HandleGenerate(s: GenState, reply: Settled<string>): (g: Generation)
    ensures g.call.Some? <==> !ResumeMissing(s.resumeText) && !IsBlank(s.jobDescription)
    ensures g.call.Some? ==> g.call.value == Call(s.resumeText, s.jobDescription)
    ensures ResumeMissing(s.resumeText) ==> g.toast == ResumeRequired
    ensures g.call.None? ==> g.after == s && g.loadingWrites == []
    ensures g.call.Some? ==> !g.after.isLoading && g.loadingWrites == [true, false]
    ensures g.after.coverLetter != s.coverLetter ==> g.call.Some? && reply == Fulfilled(g.after.coverLetter)
    ensures g.call.Some? ==> g.after.coverLetter == (if reply.Fulfilled? then reply.value else s.coverLetter)
    ensures g.after == s.(coverLetter := g.after.coverLetter, isLoading := g.after.isLoading)
  {
    if ResumeMissing(s.resumeText) then Blocked(s, ResumeRequired)
    else if IsBlank(s.jobDescription) then Blocked(s, JobDescriptionRequired)
    else Settle(s, Call(s.resumeText, s.jobDescription), reply)
  }

  /** The two components gate the same states, and although only the
      neural one trims the job description before sending it, the server
      action trims again, so both produce the same request. */
  lemma SameRequestAsNeural(s: GenState, reply: Settled<string>, backend: Settled<OpenAILetter.Completion>)
    ensures HandleGenerate(s, reply).call.Some? <==> NeuralGenerator.HandleGenerate(s, reply).call.Some?
    ensures HandleGenerate(s, reply).call.Some? ==>
      var mine := HandleGenerate(s, reply).call.value;
      var theirs := NeuralGenerator.HandleGenerate(s, reply).call.value;
      OpenAILetter.Generate(mine.resumeText, mine.jobDescription, backend).request
        == OpenAILetter.Generate(theirs.resumeText, theirs.jobDescription, backend).request
  {
    TrimIdempotent(s.jobDescription);
  }
}
