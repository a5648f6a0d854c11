# Poddy voice assistant: the turn-taking core in Dafny

Poddy is a Turkish-speaking voice assistant. It listens on the microphone and
sends the utterance to Google speech-to-text. The lower-cased transcript goes
to Gemini, and the reply is spoken through ElevenLabs text-to-speech and
`playsound`. It repeats until a command contains an exit phrase. This project
models the control logic of `poddy.py`. Every external service becomes a
value describing its outcome. Each routine becomes a pure function that
returns the trace of effects it performs.

- `options.dfy` (`Options`): the optional value standing for Python's `None`.
- `effects.dfy` (`Effects`): bytes, temporary-file paths, and the `Event`s a trace is made of.
- `text.dfy` (`Text`): lower-casing and the substring test `word in command`.
- `transcriber.dfy` (`Transcriber`): `listen_for_command`, capture and recognition outcomes mapped to no command or a lower-cased command.
- `responder.dfy` (`Responder`): `get_gemini_response`, a three-way decision between the model's text and two fixed apologies.
- `synthesizer.dfy` (`Synthesizer`): `speak_with_elevenlabs`. It covers draining the chunk stream, the temporary file, playback, the settle delay and clean-up. It also holds a lifecycle automaton for the temporary file. That automaton is an independent reference that every speak trace is proved to follow.
- `loop.dfy` (`TurnLoop`): the `while True` loop as a fold over per-turn outcomes, and the same loop written with `break`. The fold takes the turn as a function parameter, so its facts hold whatever a turn does.
- `turns.dfy` (`TurnController`): one turn of the loop, with the exit-phrase check, and the session. The session speaks the greeting and then runs the fold with that turn.

The speak routine returns `None` on every path, so `Speak` returns only its
effect trace. An exception caught by the routine's `except` clause appears as
the `Reported` event. The clean-up step appears as `FileDeleted` or
`CleanupWarning`. Because `Speak` is total and has no error result, no
failure inside it reaches the loop. For the modelled outcomes, `Loop` is proved to go on after every turn that
did not hear an exit phrase, whatever failed during that turn.

## Model

| member | source | states |
|---|---|---|
| Text.LowerChar | poddy.py:67 | a capital maps to a different, non-capital character; every other character is kept |
| Text.Lower | poddy.py:67 | lower-casing keeps the length and maps each character on its own |
| Text.LowerNormalises | poddy.py:67 | the lower-cased text has no capital left, and lower-casing it again changes nothing |
| Text.LowerFixesLowerCase | poddy.py:67 | a text with no capitals is its own lower-case form |
| Text.Occurs | poddy.py:185 | the empty phrase occurs in every command, as with Python's `in`, and a phrase longer than the command never occurs in it |
| Text.ContainsAny | poddy.py:185 | the scan over the phrase list succeeds exactly when some phrase of the list occurs in the command |
| Text.OccursIff | poddy.py:185 | the left-to-right substring scan succeeds exactly when the phrase sits at some position of the command |
| Text.ContainsAnyIff | poddy.py:185 | `any(word in command ...)` holds exactly when some phrase of the list is a substring of the command |
| Text.ContainsAnyOrderIndependent | poddy.py:185 | two phrase lists with the same members give the same answer for every command |
| Transcriber.Listen | poddy.py:49-76 | a capture timeout or capture error gives no command and no recognition request; after a capture recognition is requested once; a command is returned exactly when recognition succeeded, and it is the lower-cased transcript with no capital left |
| Transcriber.ListenedCommandIsNormal | poddy.py:63-67 | a returned command is a fixed point of lower-casing |
| Effects.SpokenTexts | poddy.py:103-121 | each listed text is the text of a synthesis request in the trace, and every request's text is listed |
| Effects.SpokenTextsCount | poddy.py:103-121 | one text is listed per synthesis request, so the list has as many entries as the trace has requests |
| Responder.Respond | poddy.py:79-100 | decision table: a raised call gives the service apology; a response without parts gives the no-content apology; a response with parts gives its text, or the service apology when reading the text raised |
| Responder.ApologiesAreDistinctAndNonEmpty | poddy.py:90-100 | the two apology texts are non-empty and differ |
| Responder.RespondEmptyIff | poddy.py:85-100 | the reply is empty exactly when the model answered with parts whose text is empty; no failure gives an empty reply |
| Responder.RespondHasThreeOutcomes | poddy.py:85-100 | every reply is the model's own text, the no-content apology or the service apology |
| Synthesizer.Drain | poddy.py:123-126 | draining the stream chunk by chunk yields the chunks joined in arrival order |
| Synthesizer.ConcatAppend | poddy.py:125 | joining the stream split anywhere equals joining the two parts and appending them |
| Synthesizer.ChunkInPlace | poddy.py:125 | each chunk appears in the buffer right after the bytes of the chunks before it, so nothing is dropped or reordered |
| Synthesizer.ConcatEmptyIff | poddy.py:125-130 | the buffer is empty exactly when every chunk is empty |
| Synthesizer.Concat | poddy.py:125 | the joined buffer holds exactly as many bytes as all the chunks together |
| Synthesizer.AfterRequest | poddy.py:123-142 | after the synthesis request no further synthesis or generation is requested; a written file holds exactly the drained non-empty buffer, and a played file was written with it |
| Synthesizer.Payload | poddy.py:113-125 | a buffer is handed on exactly when the synthesis call returned and the stream was drained without raising, and that buffer is the chunks joined in order |
| Synthesizer.RecordedPath | poddy.py:109-137 | the path is recorded exactly when a non-empty buffer reached the file step and the file was both created and written; it is then the created file's path |
| Synthesizer.StoreAndPlay | poddy.py:132-143 | from the file step on, nothing more is requested from synthesis or the model; whatever is written is the given buffer, and only a file written with it is played |
| Synthesizer.Attempt | poddy.py:110-146 | the main block opens with the one synthesis request for the text and requests nothing from synthesis or the model after it |
| Synthesizer.Cleanup | poddy.py:149-158 | deletion is attempted exactly when the path was recorded and the file still exists, and it emits one event; success is a deletion, `PermissionError` becomes a lock warning, any other error becomes a warning, and nothing escapes |
| Synthesizer.Speak | poddy.py:103-158 | the trace is empty exactly for the empty text; otherwise it starts with the synthesis request for that text |
| Synthesizer.SpeakRun | poddy.py:109-158 | a speak trace ends with the file released exactly when the path was recorded and the file still existed; otherwise it ends where the main block left the lifecycle |
| Synthesizer.AttemptRun | poddy.py:109-146 | the main block leaves the file lifecycle in a stage decided by the outcomes: no file, an orphaned file after a write failure, a failed call with the path recorded, or a finished playback |
| Synthesizer.SpeakFollowsLifecycle | poddy.py:109-158 | every speak trace follows the lifecycle automaton; it ends with the file orphaned exactly when writing failed, released exactly when the path was recorded and the file still existed, and still pending exactly when the path was recorded but the file was gone |
| Synthesizer.SpeakReportsIff | poddy.py:110-146 | an exception is reported exactly when the text is non-empty and either synthesis or draining raised, or a non-empty buffer was drained and it did not end in a stored file whose playback returned |
| Synthesizer.SpeakSettlesBeforeRelease | poddy.py:139-153 | on the normal path with a file, nothing is reported, the settle delay occurs, and the lifecycle reaches release only through the finished stage, so the delay follows playback and precedes deletion |
| Synthesizer.SpeakSettlesIff | poddy.py:139-143 | the settle delay happens exactly when a non-empty buffer was stored in the file and playback returned; after a playback error there is no delay |
| Synthesizer.SpeakEmptyPayload | poddy.py:128-130 | when every chunk is empty, the trace is the synthesis request alone: no file, no playback |
| Synthesizer.SpeakWritesDrainedBuffer | poddy.py:125-140 | the file receives exactly the drained, non-empty buffer, and only a file that received it is played |
| Synthesizer.SpeakSpokenTexts | poddy.py:103-121 | a speak call requests synthesis of its own text exactly once, and of nothing for the empty text |
| Synthesizer.SpeakNeverGenerates | poddy.py:103-158 | a speak call never contacts the language model |
| TurnController.ReplyText | poddy.py:193-198 | the text spoken for a reply is never empty; it is the reply whenever the reply is non-empty, and exactly "Üzgünüm, bir yanıt alamadım." when the reply is empty |
| TurnController.Turn | poddy.py:181-198 | a turn ends the loop exactly when it heard a non-empty command that contains an exit phrase |
| TurnController.IsCommand | poddy.py:183 | the test `if command:` holds exactly for a present, non-empty command |
| TurnController.ExitRequested | poddy.py:185 | the exit check is the phrase scan over the five exit phrases of the source, in their order |
| TurnController.TurnTransitions | poddy.py:181-204 | three transitions only: no command, so nothing is generated or spoken; an exit phrase, so only the farewell is spoken and no generation is requested at all; otherwise the command is sent to the model and exactly one text is spoken: the reply itself when it is non-empty, the fixed fallback text when it is empty |
| TurnController.CaptureFailureRelistens | poddy.py:53-61 | a capture timeout or error produces no effect at all and the turn does not end the loop |
| TurnController.TurnExitIgnoresOutcomes | poddy.py:183-198 | whether a turn ends the loop does not depend on the model's answer or on any synthesis, file or playback outcome |
| TurnController.ExitRequestedIff | poddy.py:185 | the exit check holds exactly when one of the five exit phrases is a substring of the command |
| TurnController.ExitCheckOrderIndependent | poddy.py:185 | any list holding the same phrases as the exit list gives the same exit decision |
| TurnController.ExitPhraseInsideCommand | poddy.py:181-188 | the recognised transcript "Hoşça kal, görüşürüz" is lower-cased and then ends the conversation, although the phrase is capitalised and followed by more words |
| TurnController.TranscriptExit | poddy.py:181-188 | after a capture and a successful recognition, the turn ends the loop exactly when the lower-cased transcript is non-empty and holds an exit phrase, so capitalisation never hides a phrase |
| TurnLoop.Loop | poddy.py:180-204 | the loop stops right after the first turn that asks to exit and only then; without such a turn it uses every turn |
| TurnLoop.LoopExitedIff | poddy.py:180-188 | the loop breaks out exactly when some turn asks to exit |
| TurnLoop.LoopTrace | poddy.py:180-204 | the loop's effects are the effects of the turns it used, in order |
| TurnLoop.RunLoop | poddy.py:180-204 | the loop written with `break` computes the same trace, exit flag and turn count as the fold |
| TurnController.LoopEndsOnlyOnExitPhrase | poddy.py:180-188 | with the assistant's turn, the loop ends exactly when some command is non-empty and contains an exit phrase |
| TurnController.Session | poddy.py:176-204 | the greeting is the first text spoken, every text after it is one the loop spoke, in the loop's order, and the session ends exactly as the loop does |

## Behaviour kept as the code has it

These points are easy to misread in the code; the model keeps them as written.

- `speak_with_elevenlabs` returns `None` on every path; its effect trace is the observable result.
- The path is recorded only after `fp.write` returns (poddy.py:136-137). A failed write therefore leaves the temporary file on disk. That is the `Orphaned` stage, and `SpeakFollowsLifecycle` characterises it.
- The 0.2-second settle delay runs only when playback returns normally (poddy.py:140-142). After a playback error, deletion is attempted without it.
- A response that has parts but empty text yields the empty reply (poddy.py:85-88). `Respond` does not always return a non-empty string. The loop's fallback text covers this case (`ReplyText`).
- A failed transcription is ignored silently and the loop listens again (poddy.py:200-204).

## Left out

- Startup (poddy.py:13-44): loading `.env`, checking the API keys, creating the clients and the `sys.exit(1)` paths. These are environment plumbing.
- Microphone handling (poddy.py:51, 164-174): the context manager and the ambient-noise calibration. These are hardware I/O; a capture is only an outcome value. `with microphone as source:` at poddy.py:51 sits outside the `try` that starts at poddy.py:53, and the loop body at poddy.py:180-204 has no handler. An error raised while opening the microphone therefore escapes `listen_for_command` and the loop, and ends the program without an exit phrase. The model has no outcome for that error.
- The collaborators' internals: `recognize_google`, `generate_content`, `client.generate` and `playsound` are foreign calls, reduced to their outcome sets. Their fixed parameters are not modelled: the `tr-TR` language, the `eleven_multilingual_v2` model, the voice id, and the capture timeout and phrase limit.
- An exception raised while reading `response.parts` is folded into `CallFailed`, because both reach the same `except` branch.
- Console output is not modelled, except the report of a caught exception (the `Reported` event). It is informational only.
- The length of `time.sleep(0.2)`: the delay is the `Settled` event.
- Exceptions that do not derive from `Exception`, such as a keyboard interrupt, are not modelled. The code does not catch them.
- The `while True` loop runs over a finite sequence of per-turn outcomes. Running out of that sequence only bounds the model. The program has no such exit.
- Text.Lower: does not model all of Python's `str.lower`. It maps ASCII capitals, the Latin-1 capitals and the Turkish capitals G-breve and S-cedilla. Every other character is kept. This includes dotted capital I, which Python expands to two code points.
