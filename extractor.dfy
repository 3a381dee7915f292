/** The `VideoFrameExtractor` object with the page stripped away: its fields, the two button
    flags, the progress bar's width, and the browser's timers, updated in place by methods
    that mirror the class's own. Each method is proved to leave the object in the state the
    matching function of module Playback computes from the state before it. */
module FrameExtractor {
  import opened ProgressBar
  import opened Playback

  class VideoFrameExtractor {
    var videoFile: Option<VideoFile>
    var extractedFrames: seq<Frame>
    var currentFrameIndex: nat
    var isPlaying: bool
    var playInterval: Option<Handle>
    var playBtnDisabled: bool
    var pauseBtnDisabled: bool
    var progress: real

    // The browser's side: the intervals still running, the handle `setInterval` gives out
    // next, and the upload requests sent whose responses have not been handled.
    var liveIntervals: set<Handle>
    var nextHandle: Handle
    var pendingUploads: nat

    /** Every error notification shown so far, oldest first. */
    ghost var errors: seq<string>

    /** The object's state as a value. */
    function State(): Extractor
      reads this
    {
      Extractor(videoFile, extractedFrames, currentFrameIndex, isPlaying, playInterval,
                liveIntervals, nextHandle, playBtnDisabled, pauseBtnDisabled, progress,
                pendingUploads)
    }

    /** At most one interval runs, and it runs exactly while playing. */
    ghost predicate Valid()
      reads this
    {
      Disciplined(State())
    }

    /** The constructor; the buttons and the bar start as the page's markup has them. */
    constructor (playDisabled: bool, pauseDisabled: bool, width: real)
      ensures Valid()
      ensures State() == Initial(playDisabled, pauseDisabled, width) && errors == []
    {
      videoFile := None;
      extractedFrames := [];
      currentFrameIndex := 0;
      isPlaying := false;
      playInterval := None;
      playBtnDisabled, pauseBtnDisabled := playDisabled, pauseDisabled;
      progress := width;
      liveIntervals, nextHandle, pendingUploads := {}, 0, 0;
      errors := [];
    }

    /** `showError`: the notification is recorded; its display and fading are not modelled. */
    ghost method ShowError(message: string)
      modifies this`errors
      ensures errors == old(errors) + [message]
    {
      errors := errors + [message];
    }

    /** The browser's `setInterval`: a new handle, not among those running, starts running. */
    method SetInterval() returns (h: Handle)
      requires forall g :: g in liveIntervals ==> g < nextHandle
      modifies this`liveIntervals, this`nextHandle
      ensures h == old(nextHandle) && nextHandle == h + 1
      ensures h !in old(liveIntervals)
      ensures liveIntervals == old(liveIntervals) + {h}
      ensures forall g :: g in liveIntervals ==> g < nextHandle
    {
      h := nextHandle;
      nextHandle := nextHandle + 1;
      liveIntervals := liveIntervals + {h};
    }

    /** The browser's `clearInterval`: the given interval, if any, stops. */
    method ClearInterval(handle: Option<Handle>)
      modifies this`liveIntervals
      ensures liveIntervals == old(liveIntervals) - (if handle.Some? then {handle.value} else {})
    {
      if handle.Some? {
        liveIntervals := liveIntervals - {handle.value};
      }
    }

    /** `updateProgress`: the bar shows the current index as a share of the frames. */
    method UpdateProgress()
      requires |extractedFrames| > 0
      modifies this`progress
      ensures progress == Progress(currentFrameIndex, |extractedFrames|)
    {
      progress := (currentFrameIndex as real / |extractedFrames| as real) * 100.0;
    }

    /** `playFrames`, reachable only from the play button, which the page disables while
        playing. */
    method PlayFrames()
      requires Valid() && !playBtnDisabled
      modifies this
      ensures Valid()
      ensures State() == Play(old(State())) && errors == old(errors)
    {
      if |extractedFrames| == 0 {
        return;
      }
      isPlaying := true;
      playBtnDisabled := true;
      pauseBtnDisabled := false;
      if currentFrameIndex >= |extractedFrames| {
        currentFrameIndex := 0;
      }
      var h := SetInterval();
      playInterval := Some(h);
    }

    /** The interval callback, fired by the browser while an interval is running. */
    method Tick()
      requires Valid() && liveIntervals != {}
      modifies this
      ensures Valid()
      ensures State() == Playback.Tick(old(State())) && errors == old(errors)
    {
      if currentFrameIndex < |extractedFrames| {
        UpdateProgress();
        currentFrameIndex := currentFrameIndex + 1;
      } else {
        PauseFrames();
      }
    }

    /** `pauseFrames`. */
    method PauseFrames()
      requires Valid()
      modifies this
      ensures Valid()
      ensures State() == Pause(old(State())) && errors == old(errors)
    {
      isPlaying := false;
      playBtnDisabled := false;
      pauseBtnDisabled := true;
      ClearInterval(playInterval);
    }

    /** `skipFrame`. */
    method SkipFrame()
      requires Valid()
      modifies this
      ensures Valid()
      ensures State() == Skip(old(State())) && errors == old(errors)
    {
      if |extractedFrames| == 0 {
        return;
      }
      if currentFrameIndex < |extractedFrames| - 1 {
        currentFrameIndex := currentFrameIndex + 1;
        UpdateProgress();
      }
    }

    /** `reset`. */
    method Reset()
      requires Valid()
      modifies this
      ensures Valid() && liveIntervals == {}
      ensures State() == Playback.Reset(old(State())) && errors == old(errors)
    {
      videoFile := None;
      extractedFrames := [];
      currentFrameIndex := 0;
      isPlaying := false;
      ClearInterval(playInterval);
      progress := 0.0;
      playBtnDisabled := false;
      pauseBtnDisabled := true;
    }

    /** The first half of `uploadVideo`: the request carrying the file is sent; the object
        waits for its response. */
    method UploadVideo(file: VideoFile)
      modifies this`pendingUploads
      ensures pendingUploads == old(pendingUploads) + 1
    {
      pendingUploads := pendingUploads + 1;
    }

    /** `handleFileSelect`, given the file the picker holds (if any); returns the file whose
        upload it started, if it started one. */
    method HandleFileSelect(file: Option<VideoFile>) returns (uploaded: Option<VideoFile>)
      requires Valid()
      modifies this
      ensures Valid()
      ensures uploaded == (if Acceptable(file) then file else None)
      ensures State() == Select(old(State()), file).next
      ensures errors == old(errors) + Select(old(State()), file).raised
    {
      if file.Some? && MediaType.StartsWith(file.value.mediaType, MediaType.VideoPrefix) {
        videoFile := file;
        UploadVideo(file.value);
        uploaded := file;
      } else {
        ShowError(InvalidSelection);
        uploaded := None;
      }
    }

    /** The drop handler, given the first dropped file (if any). */
    method HandleDrop(file: Option<VideoFile>) returns (uploaded: Option<VideoFile>)
      requires Valid()
      modifies this
      ensures Valid()
      ensures uploaded == (if Acceptable(file) then file else None)
      ensures State() == Drop(old(State()), file).next
      ensures errors == old(errors) + Drop(old(State()), file).raised
    {
      if file.Some? && MediaType.StartsWith(file.value.mediaType, MediaType.VideoPrefix) {
        uploaded := HandleFileSelect(file);
      } else {
        ShowError(InvalidDrop);
        uploaded := None;
      }
    }

    /** The second half of `uploadVideo`, run when the response to one of the pending
        requests has come in (or the exchange threw). */
    method CompleteUpload(outcome: UploadOutcome)
      requires Valid() && pendingUploads > 0
      modifies this
      ensures Valid()
      ensures State() == Playback.CompleteUpload(old(State()), outcome).next
      ensures errors == old(errors) + Playback.CompleteUpload(old(State()), outcome).raised
    {
      pendingUploads := pendingUploads - 1;
      match outcome
      case Received(frames) =>
        extractedFrames := frames;
      case _ =>
        ShowError(UploadError(outcome));
    }

    /** `exportFrames`: returns the request body it sends, if it sends one; `outcome` is how
        that exchange ends. The download of the archive is not modelled. */
    method ExportFrames(outcome: ExportOutcome) returns (body: Option<seq<Frame>>)
      requires Valid()
      modifies this`errors
      ensures Valid()
      ensures body == ExportRequest(State())
      ensures errors == old(errors) + ExportErrors(State(), outcome)
    {
      if |extractedFrames| == 0 {
        ShowError(NothingToExport);
        return None;
      }
      body := Some(extractedFrames);
      if !outcome.Archive? {
        ShowError(ExportError(outcome));
      }
    }
  }

  /** A session as the page drives it: choose a file, receive three frames, play them
      through, and reset. */
  method Session(f: VideoFile, a: Frame, b: Frame, c: Frame)
    requires MediaType.IsVideo(f.mediaType)
  {
    var x := new VideoFrameExtractor(false, true, 0.0);
    var sent := x.HandleFileSelect(Some(f));
    assert sent == Some(f) && x.pendingUploads == 1;
    x.CompleteUpload(Received([a, b, c]));
    assert x.extractedFrames == [a, b, c] && x.currentFrameIndex == 0 && x.errors == [];
    x.PlayFrames();
    x.Tick(); x.Tick(); x.Tick();
    assert x.currentFrameIndex == 3 && x.isPlaying;
    x.Tick();
    assert !x.isPlaying && x.liveIntervals == {} && x.progress == Progress(2, 3);
    var body := x.ExportFrames(Archive);
    assert body == Some([a, b, c]) && x.errors == [];
    x.Reset();
    assert x.extractedFrames == [] && x.currentFrameIndex == 0 && x.progress == 0.0;
    body := x.ExportFrames(Archive);
    assert body == None && x.errors == [NothingToExport];
  }
}
