/** The playback state machine of the frame extractor, as values: one function per operation
    of the `VideoFrameExtractor` class, each taking the whole state before the call to the
    whole state after it. The class in module FrameExtractor is proved against these. */
module Playback {
  import opened MediaType
  import opened ProgressBar

  datatype Option<T> = None | Some(value: T)

  /** An extracted frame: an opaque image reference (the server sends URL paths). */
  type Frame = string

  /** A file handed over by the file picker or by a drop: its name and declared media type. */
  datatype VideoFile = VideoFile(name: string, mediaType: string)

  /** The browser's handle for a repeating timer (the value `setInterval` returns). */
  type Handle = nat

  /** Everything the playback operations read or write.
      - `videoFile`, `frames`, `index`, `isPlaying`, `playInterval`: the class's own fields
        (`videoFile`, `extractedFrames`, `currentFrameIndex`, `isPlaying`, `playInterval`);
      - `playBtnDisabled`, `pauseBtnDisabled`: the `disabled` flags of the two buttons;
      - `progress`: the width of the progress bar, in per cent;
      - `live`: the intervals the browser is still running, `nextHandle`: the handle it will
        give out next;
      - `pendingUploads`: upload requests sent whose response has not been handled yet.
      The index is not bounded by the frame count: an upload can replace the frames by a
      shorter sequence and keep the index. */
  datatype Extractor = Extractor(
    videoFile: Option<VideoFile>,
    frames: seq<Frame>,
    index: nat,
    isPlaying: bool,
    playInterval: Option<Handle>,
    live: set<Handle>,
    nextHandle: Handle,
    playBtnDisabled: bool,
    pauseBtnDisabled: bool,
    progress: real,
    pendingUploads: nat)

  /** The state after the constructor: no file, no frames, index 0, not playing, no timer.
      The buttons and the bar start as the page's markup has them. */
  function Initial(playDisabled: bool, pauseDisabled: bool, width: real): (s: Extractor)
    ensures s.frames == [] && s.index == 0 && !s.isPlaying && s.live == {}
    ensures s.playInterval == None && s.videoFile == None && s.pendingUploads == 0
    ensures s.playBtnDisabled == playDisabled && s.pauseBtnDisabled == pauseDisabled
    ensures s.progress == width
  {
    Extractor(None, [], 0, false, None, {}, 0, playDisabled, pauseDisabled, width, 0)
  }

  /** The intervals `clearInterval(this.playInterval)` stops: only the handle stored last. */
  function Stored(s: Extractor): (h: set<Handle>)
    ensures |h| <= 1
    ensures s.playInterval.Some? ==> h == {s.playInterval.value}
    ensures s.playInterval.None? ==> h == {}
  {
    match s.playInterval
    case None => {}
    case Some(handle) => {handle}
  }

  /** The discipline the page keeps as long as `playFrames` runs only from an enabled play
      button: exactly one interval runs while playing, it is the stored one, and while it
      runs play is disabled and pause enabled. Every running handle was given out before
      `nextHandle`, so the next one is new. */
  ghost predicate Disciplined(s: Extractor)
  {
    && (forall h :: h in s.live ==> h < s.nextHandle)
    && (s.isPlaying <==> s.live != {})
    && (s.live != {} ==>
          s.live == Stored(s) && s.playBtnDisabled && !s.pauseBtnDisabled)
  }

  /** `playFrames`. Nothing happens without frames. Otherwise playback is marked as running,
      play is disabled and pause enabled, an index at or past the end restarts at 0, and a
      new interval is started and stored. There is no re-entry guard: an interval already
      running keeps running. */
  function Play(s: Extractor): (t: Extractor)
    ensures |s.frames| == 0 ==> t == s
    ensures |s.frames| > 0 ==>
      && t.isPlaying && t.playBtnDisabled && !t.pauseBtnDisabled
      && t.index == (if s.index >= |s.frames| then 0 else s.index)
      && t.playInterval == Some(s.nextHandle) && t.live == s.live + {s.nextHandle}
      && t.nextHandle > s.nextHandle
    ensures t.frames == s.frames && t.progress == s.progress && t.videoFile == s.videoFile
    ensures t.pendingUploads == s.pendingUploads
    ensures t.index < |t.frames| || t == s
  {
    if |s.frames| == 0 then s
    else
      s.(isPlaying := true,
         playBtnDisabled := true,
         pauseBtnDisabled := false,
         index := if s.index >= |s.frames| then 0 else s.index,
         playInterval := Some(s.nextHandle),
         live := s.live + {s.nextHandle},
         nextHandle := s.nextHandle + 1)
  }

  /** `pauseFrames`: playback stops, play is enabled, pause disabled, and the stored interval
      is cleared; frames, index and progress stay as they were. */
  function Pause(s: Extractor): (t: Extractor)
    ensures !t.isPlaying && !t.playBtnDisabled && t.pauseBtnDisabled
    ensures t.live == s.live - Stored(s) && t.live <= s.live
    ensures t.frames == s.frames && t.index == s.index && t.progress == s.progress
    ensures t.playInterval == s.playInterval && t.nextHandle == s.nextHandle
    ensures t.videoFile == s.videoFile && t.pendingUploads == s.pendingUploads
  {
    s.(isPlaying := false,
       playBtnDisabled := false,
       pauseBtnDisabled := true,
       live := s.live - Stored(s))
  }

  /** One firing of the interval callback. Before the last frame has been passed, the bar
      shows the index BEFORE the step and the index moves on by one; once the index has
      reached the end, the callback pauses. The environment only fires it while some
      interval is live. */
  function Tick(s: Extractor): (t: Extractor)
    requires s.live != {}
    ensures s.index < |s.frames| ==>
      && t.index == s.index + 1
      && t.progress == Progress(s.index, |s.frames|) && t.progress < 100.0
      && t.isPlaying == s.isPlaying && t.live == s.live
    ensures s.index >= |s.frames| ==> t == Pause(s)
    ensures t.index <= |s.frames| || t.index == s.index
    ensures s.index < |s.frames| ==>
      && t.playBtnDisabled == s.playBtnDisabled && t.pauseBtnDisabled == s.pauseBtnDisabled
      && t.playInterval == s.playInterval && t.nextHandle == s.nextHandle
    ensures t.frames == s.frames && t.videoFile == s.videoFile
    ensures t.pendingUploads == s.pendingUploads
  {
    if s.index < |s.frames| then
      s.(progress := Progress(s.index, |s.frames|), index := s.index + 1)
    else
      Pause(s)
  }

  /** `skipFrame`: moves on by exactly one frame and updates the bar, unless there are no
      frames or the index is already at or past the last frame; never touches playback. */
  function Skip(s: Extractor): (t: Extractor)
    ensures (t.index == s.index + 1) <==> (0 < |s.frames| && s.index < |s.frames| - 1)
    ensures t.index != s.index ==>
      && t.index == s.index + 1 && t.index <= |s.frames| - 1
      && t.progress == Progress(t.index, |s.frames|) && t.progress < 100.0
    ensures t.index == s.index ==> t == s
    ensures t.isPlaying == s.isPlaying && t.live == s.live && t.frames == s.frames
    ensures t.playBtnDisabled == s.playBtnDisabled && t.pauseBtnDisabled == s.pauseBtnDisabled
    ensures t.playInterval == s.playInterval && t.nextHandle == s.nextHandle
    ensures t.videoFile == s.videoFile && t.pendingUploads == s.pendingUploads
  {
    if |s.frames| == 0 then s
    else if s.index < |s.frames| - 1 then
      s.(index := s.index + 1, progress := Progress(s.index + 1, |s.frames|))
    else s
  }

  /** `reset`: forget the file and the frames, index and bar to zero, playback stopped,
      play enabled, pause disabled, stored interval cleared. Upload requests already sent
      are not cancelled. */
  function Reset(s: Extractor): (t: Extractor)
    ensures t.frames == [] && t.index == 0 && t.progress == 0.0 && t.videoFile == None
    ensures !t.isPlaying && !t.playBtnDisabled && t.pauseBtnDisabled
    ensures t.live == s.live - Stored(s)
    ensures t.playInterval == s.playInterval && t.nextHandle == s.nextHandle
    ensures t.pendingUploads == s.pendingUploads
  {
    s.(videoFile := None,
       frames := [],
       index := 0,
       isPlaying := false,
       live := s.live - Stored(s),
       progress := 0.0,
       playBtnDisabled := false,
       pauseBtnDisabled := true)
  }

  /** The result of an operation that may raise error notifications: the new state and the
      messages shown, in order. */
  datatype Step = Step(next: Extractor, raised: seq<string>)

  const InvalidSelection: string := "Please select a valid video file."
  const InvalidDrop: string := "Please drop a valid video file."
  const NothingToExport: string := "No frames to export"

  /** The guard of both the file picker and the drop handler: a file is present and its
      media type starts with "video/". */
  predicate Acceptable(file: Option<VideoFile>)
  {
    file.Some? && IsVideo(file.value.mediaType)
  }

  /** `handleFileSelect`: an acceptable file is remembered and its upload request is sent;
      anything else raises one error and changes nothing. */
  function Select(s: Extractor, file: Option<VideoFile>): (r: Step)
    ensures Acceptable(file) ==>
      && r.raised == []
      && r.next == s.(videoFile := file, pendingUploads := s.pendingUploads + 1)
    ensures !Acceptable(file) ==> r.next == s && r.raised == [InvalidSelection]
  {
    if Acceptable(file) then
      Step(s.(videoFile := file, pendingUploads := s.pendingUploads + 1), [])
    else
      Step(s, [InvalidSelection])
  }

  /** The drop handler: an acceptable file is handed to `handleFileSelect` (whose own check
      then passes); anything else raises the drop's own error and changes nothing. */
  function Drop(s: Extractor, file: Option<VideoFile>): (r: Step)
    ensures Acceptable(file) ==> r == Select(s, file) && r.raised == []
    ensures !Acceptable(file) ==> r.next == s && r.raised == [InvalidDrop]
  {
    if Acceptable(file) then Select(s, file) else Step(s, [InvalidDrop])
  }

  /** How an upload exchange ended: a success response carrying a frame list, a response
      whose status is not a success, or an exception (transport failure, unreadable body)
      with its message. */
  datatype UploadOutcome = Received(frames: seq<Frame>) | NotOk | Threw(message: string)

  /** The message `uploadVideo` shows for a failed exchange. */
  function UploadError(outcome: UploadOutcome): (m: string)
    requires !outcome.Received?
    ensures StartsWith(m, "Error uploading video: ")
    ensures outcome.NotOk? ==> m == "Error uploading video: Upload failed"
    ensures outcome.Threw? ==> m[|"Error uploading video: "|..] == outcome.message
  {
    "Error uploading video: " + (if outcome.NotOk? then "Upload failed" else outcome.message)
  }

  /** The continuation of `uploadVideo` once its response is in: a success replaces the
      frames wholesale by the received list; a failure keeps them and raises one error.
      Neither touches the index, playback, the buttons, the bar or the timers. */
  function CompleteUpload(s: Extractor, outcome: UploadOutcome): (r: Step)
    requires s.pendingUploads > 0
    ensures r.next.pendingUploads == s.pendingUploads - 1
    ensures outcome.Received? ==> r.next.frames == outcome.frames && r.raised == []
    ensures !outcome.Received? ==> r.next.frames == s.frames && r.raised == [UploadError(outcome)]
    ensures r.next.index == s.index && r.next.isPlaying == s.isPlaying
    ensures r.next.live == s.live && r.next.playInterval == s.playInterval
    ensures r.next.playBtnDisabled == s.playBtnDisabled && r.next.pauseBtnDisabled == s.pauseBtnDisabled
    ensures r.next.progress == s.progress && r.next.videoFile == s.videoFile
    ensures r.next.nextHandle == s.nextHandle
  {
    var s' := s.(pendingUploads := s.pendingUploads - 1);
    match outcome
    case Received(frames) => Step(s'.(frames := frames), [])
    case _ => Step(s', [UploadError(outcome)])
  }

  /** How an export exchange ended: a success response with the archive, a response whose
      status is not a success, or an exception with its message. */
  datatype ExportOutcome = Archive | ExportNotOk | ExportThrew(message: string)

  /** The request body `exportFrames` sends, if it sends one: exactly the current frames,
      and nothing at all when there are none. */
  function ExportRequest(s: Extractor): (body: Option<seq<Frame>>)
    ensures body.None? <==> |s.frames| == 0
    ensures body.Some? ==> body.value == s.frames
  {
    if |s.frames| == 0 then None else Some(s.frames)
  }

  /** The message `exportFrames` shows for a failed exchange. */
  function ExportError(outcome: ExportOutcome): (m: string)
    requires !outcome.Archive?
    ensures StartsWith(m, "Error exporting frames: ")
    ensures outcome.ExportNotOk? ==> m == "Error exporting frames: Export failed"
    ensures outcome.ExportThrew? ==> m[|"Error exporting frames: "|..] == outcome.message
  {
    "Error exporting frames: " + (if outcome.ExportNotOk? then "Export failed" else outcome.message)
  }

  /** The notifications `exportFrames` raises: "No frames to export" without frames (the
      outcome plays no part, as no request is made), nothing for an archive, one export
      error otherwise. */
  function ExportErrors(s: Extractor, outcome: ExportOutcome): (raised: seq<string>)
    ensures |s.frames| == 0 ==> raised == [NothingToExport]
    ensures |s.frames| > 0 && outcome.Archive? ==> raised == []
    ensures |s.frames| > 0 && !outcome.Archive? ==> raised == [ExportError(outcome)]
  {
    if |s.frames| == 0 then [NothingToExport]
    else if outcome.Archive? then []
    else [ExportError(outcome)]
  }

  // ---------------------------------------------------------------------------------
  // Properties of single operations

  /** Pausing twice is pausing once. */
  lemma PauseIdempotent(s: Extractor)
    ensures Pause(Pause(s)) == Pause(s)
  {
  }

  /** Whatever came before, under the page's discipline a reset leaves no interval running
      and the controller in its idle state. */
  lemma ResetStopsEverything(s: Extractor)
    requires Disciplined(s)
    ensures Reset(s).live == {} && Disciplined(Reset(s))
  {
  }

  /** Resetting twice is resetting once, from any state at all. */
  lemma ResetIdempotent(s: Extractor)
    ensures Reset(Reset(s)) == Reset(s)
  {
  }

  /** Every operation reachable from the page keeps the discipline; play only from an
      enabled play button. */
  lemma DisciplinePreserved(s: Extractor, file: Option<VideoFile>, outcome: UploadOutcome)
    requires Disciplined(s)
    ensures !s.playBtnDisabled ==> Disciplined(Play(s))
    ensures Disciplined(Pause(s)) && Disciplined(Skip(s)) && Disciplined(Reset(s))
    ensures s.live != {} ==> Disciplined(Tick(s))
    ensures Disciplined(Select(s, file).next) && Disciplined(Drop(s, file).next)
    ensures s.pendingUploads > 0 ==> Disciplined(CompleteUpload(s, outcome).next)
  {
    if !s.playBtnDisabled && |s.frames| > 0 {
      assert s.live == {};
      assert Play(s).live == {s.nextHandle} == Stored(Play(s));
    }
  }

  /** Under the discipline at most one interval is ever running, so playback never runs at
      double speed. */
  lemma DisciplinedSingleInterval(s: Extractor)
    requires Disciplined(s)
    ensures |s.live| <= 1
    ensures s.live != {} ==> s.isPlaying && s.playInterval.Some? && s.live == {s.playInterval.value}
  {
  }

  /** Without the disabled play button, `playFrames` is not re-entrant: a second call
      starts a second interval, and the pause that follows stops only the second one, so
      ticks keep firing while the controller says it is paused. */
  lemma ReentrantPlayLeaksInterval(s: Extractor)
    requires Disciplined(s) && !s.isPlaying && |s.frames| > 0
    ensures |Play(Play(s)).live| == 2
    ensures var t := Pause(Play(Play(s)));
      !t.isPlaying && t.live == {s.nextHandle}
  {
    assert s.live == {};
    assert Play(Play(s)).live == {s.nextHandle, s.nextHandle + 1};
  }

  /** A successful upload keeps the index, so it can leave the index past the end of the
      new, shorter sequence, and a running interval keeps running over the new frames. */
  lemma UploadCanStrandIndex(s: Extractor, frames: seq<Frame>)
    requires s.pendingUploads > 0 && s.index > |frames|
    ensures var t := CompleteUpload(s, Received(frames)).next;
      t.index > |t.frames| && t.live == s.live && t.isPlaying == s.isPlaying
  {
  }

  /** A stranded index is harmless: a tick pauses, a skip does nothing, and play restarts
      from the first frame. */
  lemma StrandedIndexRecovers(s: Extractor)
    requires s.index > |s.frames|
    ensures s.live != {} ==> Tick(s) == Pause(s)
    ensures Skip(s) == s
    ensures |s.frames| > 0 ==> Play(s).index == 0
  {
  }

  /** No operation that moves the index takes an index within the frames past their end;
      only an upload can break this bound. */
  lemma IndexWithinFrames(s: Extractor)
    requires s.index <= |s.frames|
    ensures Play(s).index <= |s.frames| && Pause(s).index <= |s.frames|
    ensures Skip(s).index <= |s.frames| && Reset(s).index == 0
    ensures s.live != {} ==> Tick(s).index <= |s.frames|
  {
  }
}
