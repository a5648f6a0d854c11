/** Speaking a text (poddy.py, `speak_with_elevenlabs`): request streamed
    synthesis, drain the stream into one buffer, store it in a named
    temporary file, play the file, wait briefly, and delete the file in the
    clean-up step. The routine returns nothing; its trace of effects is the
    whole observable outcome. */
module Synthesizer {
  import opened Options
  import opened Effects

  /** What the text-to-speech call produced. */
  datatype Synthesis =
    | RequestFailed                                  // the call itself raised
    | Streamed(chunks: seq<Bytes>, interrupted: bool) // the chunks that arrived, in
                                                      // order; `interrupted` when the
                                                      // stream raised after them

  /** What creating and writing the named temporary file did. */
  datatype TempFile =
    | CreateFailed              // no file was created
    | WriteFailed(path: Path)   // the file exists, but writing to it raised
    | CloseFailed(path: Path)   // written and its path recorded; closing raised
    | Stored(path: Path)        // written, path recorded and closed

  datatype Playback = Played | PlaybackFailed

  datatype Removal = Removed | PermissionDenied | RemoveFailed

  /** The outcomes of every collaborator one call of Speak may consult. */
  datatype SpeakWorld = SpeakWorld(
    synthesis: Synthesis,
    file: TempFile,
    playback: Playback,
    stillExists: bool,   // the file is still on disk when clean-up runs
    removal: Removal)

  /** The chunks joined in arrival order: everything before the last
      chunk, then the last chunk. */
  function Concat(chunks: seq<Bytes>): (r: Bytes)
    ensures |r| == TotalSize(chunks)
  {
    if chunks == [] then [] else Concat(chunks[..|chunks| - 1]) + chunks[|chunks| - 1]
  }

  /** The number of bytes in all the chunks together. */
  function TotalSize(chunks: seq<Bytes>): nat
  {
    if chunks == [] then 0 else TotalSize(chunks[..|chunks| - 1]) + |chunks[|chunks| - 1]|
  }

  /** Draining the stream one chunk at a time builds the joined buffer. */
  method Drain(chunks: seq<Bytes>) returns (buffer: Bytes)
    ensures buffer == Concat(chunks)
  {
    buffer := [];
    var i := 0;
    while i < |chunks|
      invariant 0 <= i <= |chunks|
      invariant buffer == Concat(chunks[..i])
    {
      assert chunks[..i + 1][..i] == chunks[..i];
      buffer := buffer + chunks[i];
      i := i + 1;
    }
    assert chunks[..|chunks|] == chunks;
  }

  /** Joining distributes over splitting the stream anywhere. */
  lemma {:induction false} ConcatAppend(a: seq<Bytes>, b: seq<Bytes>)
    ensures Concat(a + b) == Concat(a) + Concat(b)
    decreases |b|
  {
    if b == [] {
      assert a + b == a;
    } else {
      var b' := b[..|b| - 1];
      assert (a + b)[..|a + b| - 1] == a + b';
      ConcatAppend(a, b');
    }
  }

  /** Nothing is dropped or reordered: chunk `i` sits in the buffer right
      after the bytes of the chunks that arrived before it. */
  lemma ChunkInPlace(chunks: seq<Bytes>, i: nat)
    requires i < |chunks|
    ensures var off := |Concat(chunks[..i])|;
            off + |chunks[i]| <= |Concat(chunks)|
            && Concat(chunks)[off..off + |chunks[i]|] == chunks[i]
  {
    assert chunks == chunks[..i] + [chunks[i]] + chunks[i + 1..];
    ConcatAppend(chunks[..i] + [chunks[i]], chunks[i + 1..]);
    ConcatAppend(chunks[..i], [chunks[i]]);
    assert Concat([chunks[i]]) == Concat([]) + chunks[i];
  }

  /** The joined buffer is empty exactly when every chunk is empty. */
  lemma {:induction false} ConcatEmptyIff(chunks: seq<Bytes>)
    ensures Concat(chunks) == [] <==> forall i :: 0 <= i < |chunks| ==> chunks[i] == []
    decreases |chunks|
  {
    if chunks != [] {
      var init := chunks[..|chunks| - 1];
      ConcatEmptyIff(init);
      assert forall i :: 0 <= i < |init| ==> init[i] == chunks[i];
    }
  }

  /** The buffer the synthesis step hands on, or None when it raised. */
  function Payload(s: Synthesis): (r: Option<Bytes>)
    ensures r.Some? <==> s.Streamed? && !s.interrupted
    ensures r.Some? ==> r.value == Concat(s.chunks)
  {
    match s
    case RequestFailed => None
    case Streamed(chunks, interrupted) => if interrupted then None else Some(Concat(chunks))
  }

  /** The speak call gets as far as creating the temporary file: the text
      is non-empty and a non-empty buffer was drained. */
  predicate ReachesFile(text: string, w: SpeakWorld) {
    text != [] && Payload(w.synthesis).Some? && Payload(w.synthesis).value != []
  }

  /** The path the speak call has recorded when its main block ends. */
  function RecordedPath(text: string, w: SpeakWorld): (r: Option<Path>)
    ensures r.Some? <==> ReachesFile(text, w) && !w.file.CreateFailed? && !w.file.WriteFailed?
    ensures r.Some? ==> r.value == w.file.path
  {
    if !ReachesFile(text, w) then None
    else match w.file
      case CreateFailed => None
      case WriteFailed(_) => None
      case CloseFailed(p) => Some(p)
      case Stored(p) => Some(p)
  }

  /** No synthesis or generation is requested in these events. */
  predicate Quiet(t: seq<Event>) {
    forall i :: 0 <= i < |t| ==> !t[i].SynthesisRequested? && !t[i].GenerationRequested?
  }

  /** The events from creating the temporary file on, for a non-empty
      buffer: create, write, record the path, play, and settle. */
  function StoreAndPlay(data: Bytes, file: TempFile, playback: Playback): (r: seq<Event>)
    ensures Quiet(r)
    ensures forall i :: 0 <= i < |r| && r[i].FileWritten? ==> r[i].data == data
    ensures forall i :: 0 <= i < |r| && r[i].PlaybackStarted? ==> FileWritten(r[i].path, data) in r
  {
    match file
    case CreateFailed => [Reported]
    case WriteFailed(p) => [FileCreated(p)] + [Reported]
    case CloseFailed(p) => [FileCreated(p)] + ([FileWritten(p, data)] + [Reported])
    case Stored(p) =>
      [FileCreated(p)] + ([FileWritten(p, data)] + ([PlaybackStarted(p)]
      + (if playback.Played? then [Settled] else [Reported])))
  }

  /** The events after the synthesis request: draining the stream, and the
      early return on an empty buffer. */
  function AfterRequest(s: Synthesis, file: TempFile, playback: Playback): (r: seq<Event>)
    ensures Quiet(r)
    ensures forall i :: 0 <= i < |r| && r[i].FileWritten? ==> Payload(s) == Some(r[i].data) && r[i].data != []
    ensures forall i :: 0 <= i < |r| && r[i].PlaybackStarted? ==> Payload(s).Some? && FileWritten(r[i].path, Payload(s).value) in r
  {
    match Payload(s)
    case None => [Reported]
    case Some(data) => if data == [] then [] else StoreAndPlay(data, file, playback)
  }

  /** The events of the main block of a speak call with a non-empty text,
      up to the point where it returns or raises. */
  function Attempt(text: string, w: SpeakWorld): (r: seq<Event>)
    ensures |r| >= 1 && r[0] == SynthesisRequested(text) && Quiet(r[1..])
  {
    [SynthesisRequested(text)] + AfterRequest(w.synthesis, w.file, w.playback)
  }

  /** The clean-up step: delete the file if its path was recorded and it is
      still there; a failed deletion becomes a warning and never escapes. */
  function Cleanup(path: Option<Path>, stillExists: bool, removal: Removal): (r: seq<Event>)
    ensures r != [] <==> path.Some? && stillExists
    ensures r != [] ==> |r| == 1 && (r[0] == FileDeleted(path.value) <==> removal.Removed?)
    ensures r != [] && !removal.Removed? ==> r[0].CleanupWarning? && r[0].path == path.value
    ensures r != [] ==> (r[0].CleanupWarning? && r[0].cause == Locked <==> removal.PermissionDenied?)
  {
    if path.Some? && stillExists then
      match removal
      case Removed => [FileDeleted(path.value)]
      case PermissionDenied => [CleanupWarning(path.value, Locked)]
      case RemoveFailed => [CleanupWarning(path.value, OtherFailure)]
    else []
  }

  /** Speaking a text: nothing at all for the empty text; otherwise the main
      block followed by the clean-up step, which runs on every exit path. */
  function Speak(text: string, w: SpeakWorld): (r: seq<Event>)
    ensures text == [] <==> r == []
    ensures text != [] ==> r[0] == SynthesisRequested(text)
  {
    if text == [] then []
    else Attempt(text, w) + Cleanup(RecordedPath(text, w), w.stillExists, w.removal)
  }

  // ----- The temporary file's lifecycle, as an independent reference -----

  /** Where one speak call stands with respect to its temporary file. */
  datatype Stage =
    | Idle                  // nothing requested
    | Requested             // synthesis requested, no file yet
    | Abandoned             // an exception ended the call before any file existed
    | Created(path: Path)   // the file exists but holds no audio
    | Orphaned(path: Path)  // an exception ended the call before the path was recorded
    | Written(path: Path)   // the file holds the audio and its path is recorded
    | Playing(path: Path)   // the player has the file
    | Finished(path: Path)  // playback returned and the settle delay passed
    | Failed(path: Path)    // an exception ended the call with the path recorded
    | Released(path: Path)  // deletion was attempted: done, or downgraded to a warning
    | Rejected              // an event out of order

  /** The permitted transitions. Release is allowed only once the call is
      over — after the settle delay or after a reported exception — and
      only for the file this call created. */
  function Step(st: Stage, e: Event): Stage {
    match st
    case Idle => if e.SynthesisRequested? then Requested else Rejected
    case Requested =>
      if e.FileCreated? then Created(e.path)
      else if e.Reported? then Abandoned
      else Rejected
    case Created(p) =>
      if e.FileWritten? && e.path == p then Written(p)
      else if e.Reported? then Orphaned(p)
      else Rejected
    case Written(p) =>
      if e == PlaybackStarted(p) then Playing(p)
      else if e.Reported? then Failed(p)
      else Rejected
    case Playing(p) =>
      if e.Settled? then Finished(p)
      else if e.Reported? then Failed(p)
      else Rejected
    case Finished(p) => if ReleasesPath(e, p) then Released(p) else Rejected
    case Failed(p) => if ReleasesPath(e, p) then Released(p) else Rejected
    case _ => Rejected
  }

  /** The event is the deletion attempt for `p`. */
  predicate ReleasesPath(e: Event, p: Path) {
    e == FileDeleted(p) || (e.CleanupWarning? && e.path == p)
  }

  /** Runs a trace through the lifecycle from `st`. */
  function Run(st: Stage, trace: seq<Event>): Stage
    decreases |trace|
  {
    if trace == [] then st else Run(Step(st, trace[0]), trace[1..])
  }

  lemma {:induction false} RunAppend(st: Stage, a: seq<Event>, b: seq<Event>)
    ensures Run(st, a + b) == Run(Run(st, a), b)
    decreases |a|
  {
    if a == [] {
      assert a + b == b;
    } else {
      assert (a + b)[0] == a[0];
      assert (a + b)[1..] == a[1..] + b;
      RunAppend(Step(st, a[0]), a[1..], b);
    }
  }

  lemma RunCons(st: Stage, e: Event, t: seq<Event>)
    ensures Run(st, [e] + t) == Run(Step(st, e), t)
  {
    assert ([e] + t)[0] == e;
    assert ([e] + t)[1..] == t;
  }

  /** Where the main block of a speak call leaves the lifecycle. */
  function AttemptStage(text: string, w: SpeakWorld): Stage
  {
    if text == [] then Idle
    else match Payload(w.synthesis)
      case None => Abandoned
      case Some(data) => if data == [] then Requested else StoreStage(w.file, w.playback)
  }

  function StoreStage(file: TempFile, playback: Playback): Stage
  {
    match file
    case CreateFailed => Abandoned
    case WriteFailed(p) => Orphaned(p)
    case CloseFailed(p) => Failed(p)
    case Stored(p) => if playback.Played? then Finished(p) else Failed(p)
  }

  lemma StoreRun(data: Bytes, file: TempFile, playback: Playback)
    ensures Run(Requested, StoreAndPlay(data, file, playback)) == StoreStage(file, playback)
  {
    match file
    case CreateFailed =>
      RunCons(Requested, Reported, []);
    case WriteFailed(p) =>
      RunCons(Requested, FileCreated(p), [Reported]);
      RunCons(Created(p), Reported, []);
    case CloseFailed(p) =>
      RunCons(Requested, FileCreated(p), [FileWritten(p, data)] + [Reported]);
      RunCons(Created(p), FileWritten(p, data), [Reported]);
      RunCons(Written(p), Reported, []);
    case Stored(p) =>
      var last := if playback.Played? then Settled else Reported;
      RunCons(Requested, FileCreated(p), [FileWritten(p, data)] + ([PlaybackStarted(p)] + [last]));
      RunCons(Created(p), FileWritten(p, data), [PlaybackStarted(p)] + [last]);
      RunCons(Written(p), PlaybackStarted(p), [last]);
      RunCons(Playing(p), last, []);
  }

  lemma AttemptRun(text: string, w: SpeakWorld)
    requires text != []
    ensures Run(Idle, Attempt(text, w)) == AttemptStage(text, w)
  {
    RunCons(Idle, SynthesisRequested(text), AfterRequest(w.synthesis, w.file, w.playback));
    match Payload(w.synthesis)
    case None =>
      RunCons(Requested, Reported, []);
    case Some(data) =>
      if data != [] {
        StoreRun(data, w.file, w.playback);
      }
  }

  /** Running a whole speak trace: the main block, then the clean-up. */
  lemma SpeakRun(text: string, w: SpeakWorld)
    requires text != []
    ensures Run(Idle, Speak(text, w)) ==
            if RecordedPath(text, w).Some? && w.stillExists then Released(RecordedPath(text, w).value)
            else AttemptStage(text, w)
  {
    var c := Cleanup(RecordedPath(text, w), w.stillExists, w.removal);
    RunAppend(Idle, Attempt(text, w), c);
    AttemptRun(text, w);
    if c != [] {
      assert c == [c[0]] + [];
      RunCons(AttemptStage(text, w), c[0], []);
    }
  }

  /** The speak trace follows the lifecycle, and where it ends is decided
      by the collaborators: no file for the empty text or an early failure,
      an orphaned file exactly when writing failed, a released file exactly
      when the path was recorded and the file was still there. */
  lemma SpeakFollowsLifecycle(text: string, w: SpeakWorld)
    ensures Run(Idle, Speak(text, w)) != Rejected
    ensures Run(Idle, Speak(text, w)) == Idle <==> text == []
    ensures Run(Idle, Speak(text, w)).Orphaned? <==> ReachesFile(text, w) && w.file.WriteFailed?
    ensures Run(Idle, Speak(text, w)).Released? <==> RecordedPath(text, w).Some? && w.stillExists
    ensures (Run(Idle, Speak(text, w)).Finished? || Run(Idle, Speak(text, w)).Failed?)
            <==> RecordedPath(text, w).Some? && !w.stillExists
  {
    if text != [] {
      SpeakRun(text, w);
    }
  }

  /** An exception is reported exactly when the call does not take the
      normal path; the normal paths are the empty text, the empty payload,
      and a stored file whose playback returned. */
  lemma SpeakReportsIff(text: string, w: SpeakWorld)
    ensures Reported in Speak(text, w) <==>
            text != [] && (Payload(w.synthesis).None? ||
                           (ReachesFile(text, w) && !(w.file.Stored? && w.playback.Played?)))
  {
  }

  /** On the normal path with a file no exception is reported, so the
      lifecycle reaches release only through Finished: the settle delay
      follows playback and precedes the deletion attempt. */
  lemma SpeakSettlesBeforeRelease(text: string, w: SpeakWorld)
    requires ReachesFile(text, w) && w.file.Stored? && w.playback.Played?
    ensures Reported !in Speak(text, w)
    ensures Settled in Speak(text, w)
    ensures Run(Idle, Speak(text, w)) == if w.stillExists then Released(w.file.path) else Finished(w.file.path)
  {
    SpeakRun(text, w);
  }

  /** The settle delay happens exactly on the normal path with a file: a
      stored file whose playback returned. */
  lemma SpeakSettlesIff(text: string, w: SpeakWorld)
    ensures Settled in Speak(text, w) <==> ReachesFile(text, w) && w.file.Stored? && w.playback.Played?
  {
  }

  /** A speak call with an empty drained payload (every chunk empty)
      requests synthesis and stops: no file, no playback, no report. */
  lemma SpeakEmptyPayload(text: string, w: SpeakWorld)
    requires text != [] && w.synthesis.Streamed? && !w.synthesis.interrupted
    requires forall i :: 0 <= i < |w.synthesis.chunks| ==> w.synthesis.chunks[i] == []
    ensures Speak(text, w) == [SynthesisRequested(text)]
  {
    ConcatEmptyIff(w.synthesis.chunks);
  }

  /** The file receives exactly the drained stream, and only a file that
      received it is played. */
  lemma SpeakWritesDrainedBuffer(text: string, w: SpeakWorld, p: Path, data: Bytes)
    ensures FileWritten(p, data) in Speak(text, w) ==>
            w.synthesis.Streamed? && data == Concat(w.synthesis.chunks) && data != []
    ensures PlaybackStarted(p) in Speak(text, w) ==>
            FileWritten(p, Concat(w.synthesis.chunks)) in Speak(text, w)
  {
  }

  /** Exactly the given text is spoken, once, unless it is empty. */
  lemma SpeakSpokenTexts(text: string, w: SpeakWorld)
    ensures SpokenTexts(Speak(text, w)) == if text == [] then [] else [text]
  {
    if text != [] {
      var rest := AfterRequest(w.synthesis, w.file, w.playback);
      var c := Cleanup(RecordedPath(text, w), w.stillExists, w.removal);
      SpokenTextsAppend([SynthesisRequested(text)] + rest, c);
      SpokenTextsAppend([SynthesisRequested(text)], rest);
      NoSpokenTexts(rest);
      NoSpokenTexts(c);
    }
  }

  /** A speak call never contacts the language model. */
  lemma SpeakNeverGenerates(text: string, w: SpeakWorld)
    ensures forall e :: e in Speak(text, w) ==> !e.GenerationRequested?
  {
  }

  lemma {:induction false} NoSpokenTexts(t: seq<Event>)
    requires forall i :: 0 <= i < |t| ==> !t[i].SynthesisRequested?
    ensures SpokenTexts(t) == []
    decreases |t|
  {
    if t != [] {
      NoSpokenTexts(t[1..]);
    }
  }
}
