/** Listening for one command: capture an utterance from the microphone,
    send it to speech-to-text, and normalise the outcome to either no
    command or a lower-cased command (poddy.py, `listen_for_command`). */
module Transcriber {
  import opened Options
  import opened Effects
  import opened Text

  /** What the microphone capture returned. */
  datatype Capture =
    | CaptureTimeout             // nobody spoke within the capture timeout
    | CaptureFailed              // any other error while capturing
    | Captured(audio: Bytes)     // an utterance was recorded

  /** What the speech-to-text service returned for a captured utterance. */
  datatype Recognition =
    | Recognised(transcript: string)
    | UnknownValue               // the speech was not understood
    | RequestError               // the service could not be reached
    | OtherError                 // any other failure during recognition

  /** The events of one listening step and the command it yields. */
  datatype Heard = Heard(trace: seq<Event>, command: Option<string>)

  /** Listens once. `recognition` is what the service would answer for the
      captured audio; it is consulted only when something was captured. */
  function Listen(capture: Capture, recognition: Recognition): (r: Heard)
    ensures !capture.Captured? ==> r.trace == [] && r.command == None
    ensures capture.Captured? ==> r.trace == [RecognitionRequested]
    ensures r.command.Some? <==> capture.Captured? && recognition.Recognised?
    ensures r.command.Some? ==> r.command.value == Lower(recognition.transcript)
                                && IsLowerCase(r.command.value)
  {
    match capture
    case CaptureTimeout => Heard([], None)
    case CaptureFailed => Heard([], None)
    case Captured(_) =>
      var command :=
        match recognition
        case Recognised(t) => (LowerNormalises(t); Some(Lower(t)))
        case UnknownValue => None
        case RequestError => None
        case OtherError => None;
      Heard([RecognitionRequested], command)
  }

  /** A command that came back from listening is already normalised:
      lower-casing it again changes nothing. */
  lemma ListenedCommandIsNormal(capture: Capture, recognition: Recognition)
    requires Listen(capture, recognition).command.Some?
    ensures Lower(Listen(capture, recognition).command.value) == Listen(capture, recognition).command.value
  {
    LowerFixesLowerCase(Listen(capture, recognition).command.value);
  }
}
