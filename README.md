# Frame-playback controller of the video frame extractor

The browser client of the frame extractor lets a user pick or drop a video file and upload it. The server answers with a list of extracted frame images. The client then plays those frames as a timeline, skips through them, and can ask the server for a zip of the frames. This project models the client's `VideoFrameExtractor` object (`script.js`) without its page. It keeps:

- the object's fields: `videoFile`, `extractedFrames`, `currentFrameIndex`, `isPlaying` and `playInterval`;
- the `disabled` flags of the play and pause buttons;
- the width of the progress bar;
- the browser's repeating timers, as a set of live handles, and the upload requests still awaiting a response;
- the error notifications shown so far, as a ghost log.

The model has two layers:

- `Playback` (playback.dfy) is the state machine as values. The datatype `Extractor` holds the whole state. There is one function per operation (`Play`, `Pause`, `Tick`, `Skip`, `Reset`, `Select`, `Drop`, `CompleteUpload`, `ExportRequest`/`ExportErrors`), each with what changes and what stays. Lemmas relate the operations to one another.
- `FrameExtractor.VideoFrameExtractor` (extractor.dfy) is the object itself: a class with mutable fields whose methods mirror the JavaScript methods. The public operations are `PlayFrames`, `Tick`, `PauseFrames`, `SkipFrame`, `Reset`, `HandleFileSelect`, `HandleDrop`, `CompleteUpload` and `ExportFrames`. Each is proved to produce exactly the state its `Playback` function computes. The constructor establishes the object invariant `Valid()` and each public operation keeps it: while playing, exactly one interval runs, it is the stored one, play is disabled and pause enabled.

Smaller modules:

- `MediaType` (media_type.dfy): the `startsWith('video/')` guard.
- `ProgressBar` (progress.dfy): the progress formula, as an exact `real`.
- `Timeline` (timeline.dfy): `Run(s, k)`, the state after the interval has had `k` chances to fire, with the properties of a whole playback pass.

Time is not modelled. One firing of the interval callback is the method `Tick`, which the environment may call while an interval is live. Network exchanges are also explicit:

- An upload is split into two methods. Sending the request is `HandleFileSelect`/`HandleDrop` via `UploadVideo`. Handling the response is `CompleteUpload(outcome)`. Playback can therefore interleave with an upload in flight.
- An export is one method, `ExportFrames(outcome)`. It returns the request body it sends, and its outcome only adds notifications.

The initial button flags and bar width come from the page markup, so they are constructor parameters.

What the code does, where the intended design says otherwise (the model follows the code):

- A successful upload replaces `extractedFrames` wholesale. It does not reset `currentFrameIndex`, it does not stop a running interval, and it does not touch the buttons. The index can therefore end up past the end of a shorter new sequence (`UploadCanStrandIndex`). Every later operation copes with that: a tick pauses, a skip does nothing, play restarts at 0 (`StrandedIndexRecovers`).
- A tick computes the progress BEFORE incrementing the index. After a full pass over N frames, the bar shows (N - 1) * 100 / N, never 100. For three frames that is 200/3 (`FullPass`, `ThreeFrameScenario`).
- `playFrames` has no re-entry guard. A second call starts a second interval, and the following pause stops only the one stored last (`ReentrantPlayLeaksInterval`). The only protection is the disabled play button. `PlayFrames` therefore requires `!playBtnDisabled`: its sole caller is that button's click listener, and a disabled button delivers no click.
- `reset` is never called by the page. It is modelled as a public operation. It does not cancel upload requests already in flight.

## Model

| member | source | states |
|---|---|---|
| `MediaType.StartsWith` | script.js:68 | the test holds exactly when the prefix is no longer than the string and equals its first characters |
| `MediaType.IsVideoIff` | script.js:68 | the file guard accepts exactly the media types of the form "video/" followed by anything |
| `MediaType.RejectedTypes` | script.js:55 | the guard is case-sensitive and needs the slash: "video/mp4" passes; "Video/mp4", "video", "" and "image/png" do not |
| `ProgressBar.Progress` | script.js:117-120 | progress is non-negative, below 100 exactly while the index is below the frame count, exactly 100 when they are equal, and exactly 0 when the index is 0 |
| `ProgressBar.ProgressTimesLength` | script.js:118 | progress times the frame count equals index times 100: it is the index as a percentage of the count |
| `ProgressBar.ProgressStrictlyIncreasing` | script.js:117-119 | a larger index always gives a strictly larger progress |
| `Playback.Initial` | script.js:2-8 | the constructed state has no file, no frames, index 0, is not playing, stores no interval, runs no interval and has no upload pending; the button flags and the bar are exactly the given markup values |
| `Playback.Stored` | script.js:148 | `clearInterval(this.playInterval)` stops at most one interval: the stored handle, or none when nothing was ever stored |
| `Playback.Play` | script.js:122-142 | with no frames nothing changes; otherwise playing, play disabled, pause enabled, the index reset to 0 exactly when it was at or past the end, and a new interval stored and added to the running ones; frames, bar and uploads unchanged; afterwards the index lies within the frames |
| `Playback.Pause` | script.js:144-149 | not playing, play enabled, pause disabled, only the stored interval removed from the running ones; frames, index, bar, stored handle and uploads unchanged |
| `Playback.Tick` | script.js:133-141 | before the end, the index grows by exactly one and the bar shows the OLD index's progress, below 100, with playback, both button flags, the stored handle, the running intervals and the handle counter unchanged; at or past the end, the tick equals a pause; it never takes the index past the frame count unless the index was already there |
| `Playback.Skip` | script.js:151-159 | the index grows by one if and only if there are frames and it is before the last one; the new index is at most length - 1 and the bar shows its progress, below 100; otherwise nothing changes; playback, both button flags, the stored handle, the running intervals, the handle counter, the frames, the file and the pending uploads are never touched |
| `Playback.Reset` | script.js:221-233 | whatever the prior state: no frames, no file, index 0, bar 0, not playing, play enabled, pause disabled, the stored interval stopped; the stored handle, the handle counter and the pending uploads unchanged |
| `Playback.Select` | script.js:66-75 | an acceptable file (present, media type "video/...") is stored and one upload request is sent with no error; anything else changes nothing and raises exactly "Please select a valid video file." |
| `Playback.Drop` | script.js:53-63 | an acceptable dropped file behaves exactly as selecting it; anything else changes nothing and raises exactly "Please drop a valid video file." |
| `Playback.UploadError` | script.js:90-98 | a failed upload's message starts with "Error uploading video: "; for a non-success status it is exactly "Error uploading video: Upload failed"; for an exception, the rest is the exception's message |
| `Playback.CompleteUpload` | script.js:89-99 | one pending request is settled; a success replaces the frames by exactly the received list and raises nothing; a failure keeps the frames and raises exactly one upload error; neither changes the index, playback, buttons, bar, file, the stored handle, the running intervals or the handle counter |
| `Playback.ExportRequest` | script.js:171-184 | no request is sent exactly when there are no frames; a request sent carries exactly the current frames |
| `Playback.ExportError` | script.js:186-198 | a failed export's message starts "Error exporting frames: "; a non-ok response gives exactly "Error exporting frames: Export failed"; a thrown error's message follows the prefix unchanged |
| `Playback.ExportErrors` | script.js:171-199 | no frames raises exactly "No frames to export" whatever the exchange would have done; with frames, an archive raises nothing and any failure raises exactly its one `ExportError` message |
| `Playback.PauseIdempotent` | script.js:144-149 | pausing twice gives the same state as pausing once |
| `Playback.ResetStopsEverything` | script.js:221-233 | under the page's discipline, a reset leaves no interval running and keeps the discipline |
| `Playback.ResetIdempotent` | script.js:221-233 | from any state, resetting twice is resetting once |
| `Playback.DisciplinePreserved` | script.js:122-149 | play from an enabled button, pause, tick, skip, reset, select, drop and upload completion all keep "playing exactly while one interval, the stored one, runs, with play disabled and pause enabled, and every running handle below the counter" |
| `Playback.DisciplinedSingleInterval` | script.js:125-133 | under the discipline at most one interval runs, and when one runs it is the stored one and the controller is playing |
| `Playback.ReentrantPlayLeaksInterval` | script.js:133-148 | without the button guard, two plays start two intervals, and the pause that follows leaves the first one running while the controller reports not playing |
| `Playback.UploadCanStrandIndex` | script.js:93 | a successful upload of a sequence shorter than the index leaves the index past its end and the timers and playback flag as they were |
| `Playback.StrandedIndexRecovers` | script.js:122-159 | with the index past the end, a tick is a pause, a skip is a no-op, and play restarts at index 0 |
| `Playback.IndexWithinFrames` | script.js:122-159 | play, pause, tick and skip keep an index that lies within the frames within them; reset sets it to 0 |
| `Timeline.RunAdvances` | script.js:133-141 | while playing within the frames, k periods advance the index by exactly k, with the bar showing the progress of index + k - 1 and nothing else changed |
| `Timeline.RunStaysWithinFrames` | script.js:133-141 | from an index within the frames, any number of periods keeps the index within them, the frames unchanged and the discipline intact |
| `Timeline.RunStopped` | script.js:139 | once no interval runs, further periods change nothing |
| `Timeline.Run` | script.js:133-141 | k periods with one callback per period while an interval runs (the program's behaviour when at most one runs): frames, file, pending uploads and handle counter never change, no interval starts, and with none running nothing changes |
| `Timeline.RunMovesOnePerPeriod` | script.js:133-141 | under the discipline (a single running interval), over k periods the index never decreases and grows by at most k |
| `Timeline.ReentrantDoubleSpeed` | script.js:122-141 | without the button guard, two plays leave two intervals running, and their two callbacks in one period move the index by two |
| `Timeline.FullPass` | script.js:122-149 | playing N > 0 frames from the start: after N periods the index is N and playback runs; the next period pauses and stops the only interval, leaving the index at N and the bar at (N - 1) * 100 / N < 100 for good |
| `Timeline.ThreeFrameScenario` | script.js:122-149 | with three frames the index goes 1, 2, 3 over three periods; the fourth pauses at index 3 with the bar at 200/3 and no interval running |
| `Timeline.SkipAfterPass` | script.js:151-159 | after a full pass over five frames the index is 5, and one or five skips leave the state unchanged |
| `FrameExtractor.VideoFrameExtractor.constructor` | script.js:2-8 | the new object is in the initial state with an empty error log and satisfies the invariant |
| `FrameExtractor.VideoFrameExtractor.ShowError` | script.js:202-219 | the message is appended to the error log |
| `FrameExtractor.VideoFrameExtractor.SetInterval` | script.js:133 | the next handle is returned; it was not running before and now is; every running handle stays below the counter |
| `FrameExtractor.VideoFrameExtractor.ClearInterval` | script.js:148 | the given interval, if any, stops running; no other does |
| `FrameExtractor.VideoFrameExtractor.UpdateProgress` | script.js:117-120 | the bar shows the current index's progress |
| `FrameExtractor.VideoFrameExtractor.PlayFrames` | script.js:122-142 | the new state is `Playback.Play` of the old; the invariant is kept; no error |
| `FrameExtractor.VideoFrameExtractor.Tick` | script.js:133-141 | the new state is `Playback.Tick` of the old; the invariant is kept; no error |
| `FrameExtractor.VideoFrameExtractor.PauseFrames` | script.js:144-149 | the new state is `Playback.Pause` of the old; the invariant is kept; no error |
| `FrameExtractor.VideoFrameExtractor.SkipFrame` | script.js:151-159 | the new state is `Playback.Skip` of the old; the invariant is kept; no error |
| `FrameExtractor.VideoFrameExtractor.Reset` | script.js:221-233 | the new state is `Playback.Reset` of the old; no interval runs afterwards; no error |
| `FrameExtractor.VideoFrameExtractor.UploadVideo` | script.js:77-88 | exactly one more upload request is pending |
| `FrameExtractor.VideoFrameExtractor.HandleFileSelect` | script.js:66-75 | the state and the error log are those of `Playback.Select`; the file is uploaded exactly when it is acceptable |
| `FrameExtractor.VideoFrameExtractor.HandleDrop` | script.js:53-63 | the state and the error log are those of `Playback.Drop`; the file is uploaded exactly when it is acceptable |
| `FrameExtractor.VideoFrameExtractor.CompleteUpload` | script.js:89-99 | the state and the error log are those of `Playback.CompleteUpload` |
| `FrameExtractor.VideoFrameExtractor.ExportFrames` | script.js:171-200 | the body sent is `Playback.ExportRequest` of the state; the errors added are `Playback.ExportErrors`; nothing else changes |

## Left out

- The server (`app.py`) is not part of this model. That covers its Flask routes, OpenCV frame decoding, the background extraction thread racing with `/upload`, and the shell `zip` call. The server has no `/export` route, so against it every export ends in `ExportNotOk`. The model leaves the outcome open.
- Request construction and response decoding (`FormData`, `fetch`, JSON parsing) are reduced to the outcomes `Received(frames)`, `NotOk` and `Threw(message)`. A success response without a `frames` list is not modelled: the code would store `undefined` as the frames.
- Downloading the archive (`Blob`, object URL create/revoke, the temporary link) is reduced to the outcome `Archive`. An exception thrown after the object URL is created is not distinguished from other export failures.
- The page is not modelled: element lookup and event wiring, drag styling, the thumbnails built by `displayFrames`, `scrollToCurrentFrame`, the frame-counter text, the file-info text, the "Processing video..." placeholder and the injected CSS.
- The notification's display, its fade after 3000 ms and its removal 300 ms later are not modelled. A notification is only an entry in the ghost error log.
- Real time is not modelled: the 200 ms period is not represented. The interval callback is `Tick`, one call per firing. Floating-point progress and the CSS width string are replaced by an exact `real`.
- FrameExtractor.VideoFrameExtractor.PlayFrames: requires an enabled play button. The object's invariant (a single interval) is only kept on that path. A second call while playing is captured on values only, by `Playback.ReentrantPlayLeaksInterval`.
- FrameExtractor.VideoFrameExtractor.ExportFrames: adds the failure notification when called, whereas the code raises it only after the awaited response (script.js:178-198), so its order among other notifications is not modelled.
- Timeline.Run: fires one callback per period, which is the program's behaviour only while at most one interval runs. With several live intervals the browser fires one callback each; `Timeline.ReentrantDoubleSpeed` states that case with explicit `Tick`s.
- ProgressBar.Progress: requires at least one frame. Every call site has one, so the code's 0 / 0 case never arises.
