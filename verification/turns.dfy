/** The conversation loop (poddy.py, the `__main__` block): greet, then
    repeat turns of listen, exit check, respond and speak until a command
    contains an exit phrase. The loop is modelled as a fold over a finite
    sequence of per-turn collaborator outcomes. */
module TurnController {
  import opened Options
  import opened Effects
  import opened Text
  import opened Transcriber
  import opened Responder
  import opened Synthesizer
  import opened TurnLoop

  const Greeting: string := "Merhaba, ben sizin sesli asistanınızım. Nasıl yardımcı olabilirim?"
  const Farewell: string := "Görüşmek üzere, kendinize iyi bakın!"

  /** Spoken when the reply to a command is empty. */
  const NoReplyFallback: string := "Üzgünüm, bir yanıt alamadım."

  /** A command containing any of these, anywhere, ends the conversation. */
  const ExitPhrases: seq<string> := ["güle güle", "hoşça kal", "kapat", "çıkış", "bitir"]

  /** The collaborator outcomes of one turn. `speech` serves the one speak
      call the turn makes: the farewell or the reply. */
  datatype TurnInput = TurnInput(
    capture: Capture,
    recognition: Recognition,
    generation: Generation,
    speech: SpeakWorld)

  /** The command a turn listened for. */
  function HeardCommand(t: TurnInput): Option<string> {
    Listen(t.capture, t.recognition).command
  }

  /** The truthiness test on the command: present and non-empty. */
  predicate IsCommand(c: Option<string>) {
    c.Some? && c.value != []
  }

  predicate ExitRequested(command: string) {
    ContainsAny(command, ExitPhrases)
  }

  /** The text spoken for a reply: the reply itself, or the fallback when
      the reply is empty. */
  function ReplyText(reply: string): (r: string)
    ensures r != []
    ensures reply != [] ==> r == reply
    ensures reply == [] ==> r == NoReplyFallback
  {
    if reply != [] then reply else NoReplyFallback
  }

  /** One turn of the loop. */
  function Turn(t: TurnInput): (r: TurnResult)
    ensures r.exit <==> IsCommand(HeardCommand(t)) && ExitRequested(HeardCommand(t).value)
  {
    var heard := Listen(t.capture, t.recognition);
    if !IsCommand(heard.command) then
      TurnResult(heard.trace, false)
    else
      var command := heard.command.value;
      if ExitRequested(command) then
        TurnResult(heard.trace + Speak(Farewell, t.speech), true)
      else
        var reply := ReplyText(Respond(t.generation));
        TurnResult(heard.trace + [GenerationRequested(command)] + Speak(reply, t.speech), false)
  }

  /** Each turn takes one of three transitions: no command, and nothing is
      generated or spoken; an exit phrase, and only the farewell is spoken
      before the loop stops; otherwise the command goes to the model and
      exactly one non-empty text is spoken — the reply when it is non-empty. */
  lemma TurnTransitions(t: TurnInput)
    ensures !IsCommand(HeardCommand(t)) ==>
              && !Turn(t).exit
              && Turn(t).trace == Listen(t.capture, t.recognition).trace
              && SpokenTexts(Turn(t).trace) == []
    ensures IsCommand(HeardCommand(t)) && ExitRequested(HeardCommand(t).value) ==>
              && Turn(t).exit
              && SpokenTexts(Turn(t).trace) == [Farewell]
              && forall e :: e in Turn(t).trace ==> !e.GenerationRequested?
    ensures IsCommand(HeardCommand(t)) && !ExitRequested(HeardCommand(t).value) ==>
              && !Turn(t).exit
              && GenerationRequested(HeardCommand(t).value) in Turn(t).trace
              && |SpokenTexts(Turn(t).trace)| == 1
              && SpokenTexts(Turn(t).trace)[0] != []
              && (Respond(t.generation) != [] ==> SpokenTexts(Turn(t).trace) == [Respond(t.generation)])
              && (Respond(t.generation) == [] ==> SpokenTexts(Turn(t).trace) == [NoReplyFallback])
  {
    var heard := Listen(t.capture, t.recognition);
    NoSpokenTexts(heard.trace);
    if IsCommand(heard.command) {
      var command := heard.command.value;
      if ExitRequested(command) {
        SpokenTextsAppend(heard.trace, Speak(Farewell, t.speech));
        SpeakSpokenTexts(Farewell, t.speech);
        SpeakNeverGenerates(Farewell, t.speech);
      } else {
        var reply := ReplyText(Respond(t.generation));
        SpokenTextsAppend(heard.trace + [GenerationRequested(command)], Speak(reply, t.speech));
        SpokenTextsAppend(heard.trace, [GenerationRequested(command)]);
        NoSpokenTexts([GenerationRequested(command)]);
        SpeakSpokenTexts(reply, t.speech);
      }
    }
  }


  /** A capture timeout or capture error ends the turn at once: recognition
      is not attempted, nothing is spoken, and the loop goes on listening. */
  lemma CaptureFailureRelistens(t: TurnInput)
    requires !t.capture.Captured?
    ensures Turn(t) == TurnResult([], false)
  {
  }

  /** Whether a turn ends the loop depends only on the command: the model's
      answer and every speech, file and playback outcome are irrelevant. */
  lemma TurnExitIgnoresOutcomes(t: TurnInput, g: Generation, s: SpeakWorld)
    ensures Turn(t.(generation := g, speech := s)).exit == Turn(t).exit
  {
    assert HeardCommand(t.(generation := g, speech := s)) == HeardCommand(t);
  }

  /** The exit check is a substring test against every phrase of the list. */
  lemma ExitRequestedIff(command: string)
    ensures ExitRequested(command) <==> exists w :: w in ExitPhrases && IsSubstring(w, command)
  {
    ContainsAnyIff(command, ExitPhrases);
  }

  /** The exit check does not depend on the order of the phrase list. */
  lemma ExitCheckOrderIndependent(command: string, phrases: seq<string>)
    requires forall w :: w in phrases <==> w in ExitPhrases
    ensures ContainsAny(command, phrases) == ExitRequested(command)
  {
    ContainsAnyOrderIndependent(command, phrases, ExitPhrases);
  }

  /** With audio captured and recognised, the turn ends the loop exactly
      when the lower-cased transcript is non-empty and holds an exit phrase;
      the capitalisation of the transcript plays no part. */
  lemma TranscriptExit(audio: Bytes, transcript: string, g: Generation, s: SpeakWorld)
    ensures Turn(TurnInput(Captured(audio), Recognised(transcript), g, s)).exit <==>
            Lower(transcript) != [] && ExitRequested(Lower(transcript))
  {
  }

  /** Lower-casing this transcript gives a command that opens with the
      second exit phrase. */
  lemma LowerOpensWithPhrase(transcript: string)
    requires transcript == "Hoşça kal, görüşürüz"
    ensures MatchesAt(ExitPhrases[1], Lower(transcript), 0)
  {
    var command := Lower(transcript);
    forall i | 0 <= i < 9
      ensures command[i] == ExitPhrases[1][i]
    {
    }
  }

  /** A capitalised transcript with the phrase embedded in a longer
      sentence still ends the conversation, once it is lower-cased. */
  lemma ExitPhraseInsideCommand(transcript: string, g: Generation, s: SpeakWorld)
    requires transcript == "Hoşça kal, görüşürüz"
    ensures Turn(TurnInput(Captured([]), Recognised(transcript), g, s)).exit
  {
    LowerOpensWithPhrase(transcript);
    ExitRequestedIff(Lower(transcript));
    TranscriptExit([], transcript, g, s);
  }

  /** The loop ends exactly when some command is non-empty and contains an
      exit phrase; a failure anywhere else in a turn never ends it. */
  lemma LoopEndsOnlyOnExitPhrase(turns: seq<TurnInput>)
    ensures Loop(Turn, turns).exited <==>
            exists i :: 0 <= i < |turns| && IsCommand(HeardCommand(turns[i]))
                                          && ExitRequested(HeardCommand(turns[i]).value)
  {
    LoopExitedIff(Turn, turns);
    if Loop(Turn, turns).exited {
      var i :| 0 <= i < |turns| && Turn(turns[i]).exit;
      assert IsCommand(HeardCommand(turns[i]));
    }
  }

  /** The whole session: the greeting is spoken, then the loop runs. */
  function Session(greeting: SpeakWorld, turns: seq<TurnInput>): (r: LoopResult)
    ensures |SpokenTexts(r.trace)| >= 1 && SpokenTexts(r.trace)[0] == Greeting
    ensures r.exited == Loop(Turn, turns).exited && r.used == Loop(Turn, turns).used
    ensures SpokenTexts(r.trace) == [Greeting] + SpokenTexts(Loop(Turn, turns).trace)
  {
    var loop := Loop(Turn, turns);
    SpeakSpokenTexts(Greeting, greeting);
    SpokenTextsAppend(Speak(Greeting, greeting), loop.trace);
    LoopResult(Speak(Greeting, greeting) + loop.trace, loop.exited, loop.used)
  }
}
