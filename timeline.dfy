/** Playback over time: the state after the interval has had k chances to fire. */
module Timeline {
  import opened ProgressBar
  import opened Playback

  /** The state after k periods of the interval, starting from s: one callback per period
      while an interval is live, none once none is. This is the program's behaviour only
      on states where at most one interval runs, which `Disciplined` guarantees
      (`DisciplinedSingleInterval`); with two live intervals the browser fires two
      callbacks per period (see `ReentrantDoubleSpeed`). */
  function Run(s: Extractor, k: nat): (t: Extractor)
    ensures t.frames == s.frames && t.videoFile == s.videoFile
    ensures t.pendingUploads == s.pendingUploads && t.nextHandle == s.nextHandle
    ensures s.live == {} ==> t == s
    ensures t.live <= s.live
    decreases k
  {
    if k == 0 then s
    else
      var r := Run(s, k - 1);
      if r.live == {} then r else Tick(r)
  }

  /** While the pass has not reached the end, every period moves the index on by exactly
      one, the bar shows the index of the period before, and playback keeps running. */
  lemma {:induction false} RunAdvances(s: Extractor, k: nat)
    requires Disciplined(s) && s.isPlaying
    requires s.index + k <= |s.frames|
    ensures Run(s, k) == if k == 0 then s
                         else s.(index := s.index + k, progress := Progress(s.index + k - 1, |s.frames|))
  {
    if k > 0 {
      RunAdvances(s, k - 1);
      var r := Run(s, k - 1);
      assert r.live == s.live != {};
      assert r.index == s.index + k - 1 < |r.frames|;
    }
  }

  /** The index never leaves [0, length] while playback runs over frames it started within. */
  lemma {:induction false} RunStaysWithinFrames(s: Extractor, k: nat)
    requires Disciplined(s) && s.index <= |s.frames|
    ensures Disciplined(Run(s, k)) && Run(s, k).index <= |s.frames|
    ensures Run(s, k).frames == s.frames
  {
    if k > 0 {
      RunStaysWithinFrames(s, k - 1);
      var r := Run(s, k - 1);
      if r.live != {} {
        DisciplinePreserved(r, None, NotOk);
      }
    }
  }

  /** Once nothing is live, later periods change nothing. */
  lemma {:induction false} RunStopped(s: Extractor, k: nat, j: nat)
    requires Run(s, k).live == {}
    ensures Run(s, k + j) == Run(s, k)
  {
    if j > 0 {
      RunStopped(s, k, j - 1);
    }
  }

  /** A whole pass: play from the start (or from past the end) over N > 0 frames. After N
      periods the index is N and playback still runs; in period N + 1 the callback pauses,
      which stops the only interval; the bar then shows (N - 1) * 100 / N, short of 100,
      and no later period changes anything. */
  lemma FullPass(s: Extractor, j: nat)
    requires Disciplined(s) && !s.playBtnDisabled && |s.frames| > 0
    requires s.index == 0 || s.index >= |s.frames|
    ensures var n := |s.frames|; var p := Play(s);
      && Run(p, n).index == n && Run(p, n).isPlaying
      && Run(p, n + 1 + j) == Pause(Run(p, n))
      && Run(p, n + 1 + j).index == n && !Run(p, n + 1 + j).isPlaying
      && Run(p, n + 1 + j).live == {}
      && Run(p, n + 1 + j).progress == Progress(n - 1, n) < 100.0
  {
    var n, p := |s.frames|, Play(s);
    DisciplinePreserved(s, None, NotOk);
    assert p.index == 0 && p.isPlaying;
    RunAdvances(p, n);
    var r := Run(p, n);
    assert r.live == p.live == {s.nextHandle} == Stored(r);
    assert Run(p, n + 1) == Pause(r);
    RunStopped(p, n + 1, j);
  }

  /** Under the discipline, time alone never moves the index backwards, and moves it by
      at most one frame per period: the single running interval never plays at double
      speed. */
  lemma {:induction false} RunMovesOnePerPeriod(s: Extractor, k: nat)
    requires Disciplined(s)
    ensures s.index <= Run(s, k).index <= s.index + k
  {
    if k > 0 {
      RunMovesOnePerPeriod(s, k - 1);
    }
  }

  /** Without the button guard the bound above fails in the program: after two plays two
      intervals run, and the two callbacks of one period move the index by two. */
  lemma ReentrantDoubleSpeed(s: Extractor)
    requires Disciplined(s) && !s.isPlaying && |s.frames| >= 2 && s.index == 0
    ensures var p := Play(Play(s));
      && |p.live| == 2 && p.index == 0
      && Tick(Tick(p)).index == 2 && Tick(Tick(p)).isPlaying
  {
    Playback.ReentrantPlayLeaksInterval(s);
  }

  /** Three frames, play from the start: the index goes 0, 1, 2, 3 over three periods, and
      the fourth pauses with the index at 3 and the bar at 200 / 3 per cent. */
  lemma ThreeFrameScenario(s: Extractor)
    requires Disciplined(s) && !s.playBtnDisabled && |s.frames| == 3 && s.index == 0
    ensures var p := Play(s);
      && Run(p, 1).index == 1 && Run(p, 2).index == 2 && Run(p, 3).index == 3
      && Run(p, 4).index == 3 && !Run(p, 4).isPlaying && Run(p, 4).live == {}
      && Run(p, 4).progress == 200.0 / 3.0
  {
    var p := Play(s);
    DisciplinePreserved(s, None, NotOk);
    RunAdvances(p, 1);
    RunAdvances(p, 2);
    FullPass(s, 0);
  }

  /** Five frames played through to the end, then skipped five times: no skip moves the
      index, which stays at 5 where the pass left it. */
  lemma SkipAfterPass(s: Extractor)
    requires Disciplined(s) && !s.playBtnDisabled && |s.frames| == 5 && s.index == 0
    ensures var e := Run(Play(s), 6);
      && e.index == 5 && Skip(e) == e && Skip(Skip(Skip(Skip(Skip(e))))) == e
  {
    FullPass(s, 0);
  }
}
