/** Choosing the reply to a command (poddy.py, `get_gemini_response`):
    the language model's text, or one of two fixed apologies. */
module Responder {
  import opened Options

  /** What the language-model call produced. */
  datatype Generation =
    | CallFailed                                  // `generate_content` raised
    | Responded(parts: nat, text: Option<string>) // a response with this many parts;
                                                  // `text` is None when reading the
                                                  // response's text raised

  /** Said when the response carries no parts (for example, it was blocked). */
  const NoContentApology: string := "Üzgünüm, buna uygun bir yanıt oluşturamadım."

  /** Said when talking to the language model raised an exception. */
  const ServiceApology: string := "Üzgünüm, yapay zeka ile konuşurken bir sorun oluştu."

  /** The reply for one language-model outcome. */
  function Respond(g: Generation): (r: string)
    ensures g.CallFailed? ==> r == ServiceApology
    ensures g.Responded? && g.parts == 0 ==> r == NoContentApology
    ensures g.Responded? && g.parts > 0 && g.text.None? ==> r == ServiceApology
    ensures g.Responded? && g.parts > 0 && g.text.Some? ==> r == g.text.value
  {
    match g
    case CallFailed => ServiceApology
    case Responded(parts, text) =>
      if parts > 0 then text.GetOr(ServiceApology) else NoContentApology
  }

  /** The two apologies are distinct, non-empty texts. */
  lemma ApologiesAreDistinctAndNonEmpty()
    ensures NoContentApology != [] && ServiceApology != []
    ensures NoContentApology != ServiceApology
  {
    assert NoContentApology[0] == 'Ü' && NoContentApology[9] == 'b';
    assert ServiceApology[9] == 'y';
  }

  /** The reply is empty in exactly one case: the model answered with parts
      whose text is empty. Every failure yields a non-empty apology. */
  lemma RespondEmptyIff(g: Generation)
    ensures Respond(g) == [] <==> g.Responded? && g.parts > 0 && g.text == Some([])
  {
    ApologiesAreDistinctAndNonEmpty();
  }

  /** Every reply is one of exactly three kinds: the model's own text, the
      no-content apology, or the service apology. */
  lemma RespondHasThreeOutcomes(g: Generation)
    ensures || (g.Responded? && g.parts > 0 && g.text.Some? && Respond(g) == g.text.value)
            || Respond(g) == NoContentApology
            || Respond(g) == ServiceApology
  {
  }
}
