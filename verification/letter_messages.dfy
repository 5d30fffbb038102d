/**
 * Messages that both cover-letter generators (utils/generate-cover-letter.ts
 * and actions/generate-cover-letter.ts) throw with the same wording.
 *
 * The longer messages are written in short pieces, which keeps the
 * character lemmas below cheap to verify; the values are unchanged.
 */
module LetterMessages {
  import opened Strings

  const FailedToGenerate: string := "Failed to generate"

  /** Thrown when the trimmed resume or job description is empty. */
  const MissingInputMessage: string := "Resume text and" + " job description" + " are required"

  /** Thrown when the backend answers with no text or only whitespace. */
  const EmptyResponseMessage: string := FailedToGenerate + " cover letter:" + " Empty response" + " from API"

  /** The message every error without a more specific translation becomes. */
  const GenericMessage: string := FailedToGenerate + " cover letter." + " Please try again."

  /** Characters the messages lack. The error tables use them to show that
      a message mentions neither the API key, nor a status code, nor
      "Please". */
  lemma MissingInputCharacters()
    ensures Avoids(MissingInputMessage, "kP45")
    ensures MissingInputMessage[0] == 'R'
  {
  }

  lemma EmptyResponseCharacters()
    ensures Avoids(EmptyResponseMessage, "k45")
  {
  }

  lemma GenericCharacters()
    ensures Avoids(GenericMessage, "k45")
  {
  }

  lemma MessagePrefixes()
    ensures StartsWith(EmptyResponseMessage, FailedToGenerate)
    ensures StartsWith(GenericMessage, FailedToGenerate)
  {
    StartsWithConcat(FailedToGenerate, " cover letter:" + " Empty response" + " from API");
    assert EmptyResponseMessage == FailedToGenerate + (" cover letter:" + " Empty response" + " from API");
    StartsWithConcat(FailedToGenerate, " cover letter." + " Please try again.");
    assert GenericMessage == FailedToGenerate + (" cover letter." + " Please try again.");
  }
}
