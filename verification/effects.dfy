/** The observable effects of the voice assistant. Every external service
    is reduced to an outcome value; what the assistant does with those
    services is recorded as a trace of events. */
module Effects {

  newtype byte = x: int | 0 <= x < 256

  /** Audio bytes, as streamed by the speech-synthesis service. */
  type Bytes = seq<byte>

  /** A path produced by the platform's temporary-file generator. Such a
      path is never empty, so the truthiness test on it in the clean-up
      code succeeds exactly when the path has been recorded. */
  type Path = s: string | s != [] witness "/tmp/tmp.mp3"

  /** Why deleting the temporary file failed. */
  datatype DeleteFailure = Locked | OtherFailure

  datatype Event =
    | RecognitionRequested                    // the captured audio is sent to speech-to-text
    | GenerationRequested(prompt: string)     // the command is sent to the language model
    | SynthesisRequested(text: string)        // the text is sent to text-to-speech
    | FileCreated(path: Path)                 // a named temporary file now exists on disk
    | FileWritten(path: Path, data: Bytes)    // the audio buffer was written to it
    | PlaybackStarted(path: Path)             // the player was handed the file
    | Settled                                 // the short delay after playback
    | Reported                                // an exception was caught and reported
    | FileDeleted(path: Path)                 // the temporary file was removed
    | CleanupWarning(path: Path, cause: DeleteFailure)  // removal failed and was downgraded

  /** The texts handed to speech synthesis, in trace order: each listed
      text is the text of a request in the trace, and every request's text
      is listed. */
  function SpokenTexts(trace: seq<Event>): (r: seq<string>)
    ensures forall k :: 0 <= k < |r| ==> SynthesisRequested(r[k]) in trace
    ensures forall i :: 0 <= i < |trace| && trace[i].SynthesisRequested? ==> trace[i].text in r
  {
    if trace == [] then []
    else (if trace[0].SynthesisRequested? then [trace[0].text] else []) + SpokenTexts(trace[1..])
  }

  /** The number of synthesis requests in a trace, counted from its end. */
  function RequestCount(trace: seq<Event>): nat
  {
    if trace == [] then 0
    else RequestCount(trace[..|trace| - 1]) + (if trace[|trace| - 1].SynthesisRequested? then 1 else 0)
  }

  /** One text is listed per synthesis request: no request is merged with
      another or listed twice. */
  lemma {:induction false} SpokenTextsCount(trace: seq<Event>)
    ensures |SpokenTexts(trace)| == RequestCount(trace)
    decreases |trace|
  {
    if trace != [] {
      var init := trace[..|trace| - 1];
      var last := trace[|trace| - 1];
      assert trace == init + [last];
      SpokenTextsAppend(init, [last]);
      SpokenTextsCount(init);
      assert [last][1..] == [];
    }
  }

  /** Spoken texts of a trace split in two are those of its halves. */
  lemma {:induction false} SpokenTextsAppend(a: seq<Event>, b: seq<Event>)
    ensures SpokenTexts(a + b) == SpokenTexts(a) + SpokenTexts(b)
    decreases |a|
  {
    if a == [] {
      assert a + b == b;
    } else {
      assert (a + b)[0] == a[0];
      assert (a + b)[1..] == a[1..] + b;
      SpokenTextsAppend(a[1..], b);
    }
  }

  /** The traces of successive steps, one after the other. */
  function Flatten(traces: seq<seq<Event>>): (r: seq<Event>)
  {
    if traces == [] then [] else traces[0] + Flatten(traces[1..])
  }

}
