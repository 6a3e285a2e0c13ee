/**
 * The dashboard's session state and the three operations that change it: choosing a
 * file, extracting the preview gallery, and running the analysis.
 *
 * The browser side is abstracted: whether the video element is mounted is a parameter,
 * the object URL for a file is a parameter, and seeking plus capturing at each sample
 * time is given as the list of frames that sampling yields (an empty data URI is a
 * failed capture). The classifier is an oracle.
 */
module Session {
  import opened Options
  import opened Flow
  import opened Records
  import opened Analysis

  /** Number of frames in the preview gallery. */
  const PreviewFrameCount: nat := 12

  /** What one publication of analysis progress shows: completed iterations and the results so far. */
  datatype Snapshot = Snapshot(completed: nat, results: seq<AnalysisResult>)

  /**
   * What an analysis run has published after `n` iterations: the reset to no results and
   * no progress, then, for each iteration, its count and the results accumulated so far.
   */
  function Publications(samples: seq<VideoFrame>, outcomes: seq<Outcome>, n: nat): (p: seq<Snapshot>)
    requires n <= |samples| && |outcomes| == |samples|
    ensures |p| == n + 1
  {
    if n == 0 then [Snapshot(0, [])]
    else Publications(samples, outcomes, n - 1) + [Snapshot(n, Analyzed(samples, outcomes, n))]
  }

  /**
   * A run first publishes empty results with progress 0; after iteration k it publishes
   * k + 1 completed iterations and exactly the results of those iterations.
   */
  lemma {:induction false} PublicationsAt(samples: seq<VideoFrame>, outcomes: seq<Outcome>, n: nat, k: nat)
    requires k <= n <= |samples| && |outcomes| == |samples|
    ensures Publications(samples, outcomes, n)[0] == Snapshot(0, [])
    ensures Publications(samples, outcomes, n)[k] == Snapshot(k, Analyzed(samples, outcomes, k))
  {
    if 0 < n {
      PublicationsAt(samples, outcomes, n - 1, if k < n then k else 0);
    }
  }

  /**
   * One iteration of the analysis loop: with no previous capture the frame becomes the
   * baseline; otherwise the pair (previous, current) is sent to the classifier and, if
   * the call succeeds, its verdict is recorded (a failed call records nothing).
   */
  method AnalyzeFrame(analyzed: seq<AnalysisResult>, previousFrameUri: string, ghost calls: seq<Request>,
                      i: nat, frame: VideoFrame, outcome: Outcome)
    returns (next: seq<AnalysisResult>, ghost issued: seq<Request>)
    ensures Step(LoopState(analyzed, previousFrameUri, calls), i, frame, outcome) == LoopState(next, frame.dataUri, calls + issued)
  {
    var currentFrameUri := frame.dataUri;
    if previousFrameUri != "" {
      var req := Request(previousFrameUri, currentFrameUri, i);
      issued := [req];
      match outcome
      case Ok(out) =>
        next := analyzed + [Classified(i, frame, out)];
      case Fail =>
        // the failure is logged and the frame is skipped
        next := analyzed;
    } else {
      next := analyzed + [Baseline(currentFrameUri)];
      issued := [];
    }
  }

  class Dashboard {
    var videoFile: Option<string>
    var videoUrl: Option<string>
    var isAnalyzing: bool
    var isExtracting: bool
    var results: seq<AnalysisResult>
    var previewFrames: seq<VideoFrame>
    /** Completed analysis iterations (the progress bar shows it as a percentage of `FrameCount`). */
    var progress: nat

    /** Every (progress, results) pair the analysis has published, oldest first. */
    ghost var analysisLog: seq<Snapshot>
    /** Every classifier call made, oldest first. */
    ghost var requests: seq<Request>

    /**
     * The invariant every handler keeps: progress never exceeds the iteration count, there
     * are never more results than completed iterations, and the gallery is empty or full.
     */
    ghost predicate Valid()
      reads this
    {
      && progress <= FrameCount
      && |results| <= progress
      && (previewFrames == [] || |previewFrames| == PreviewFrameCount)
    }

    /** JavaScript truthiness of the video URL. */
    predicate HasVideoUrl()
      reads this
    {
      videoUrl.Some? && videoUrl.value != ""
    }

    constructor ()
      ensures Valid()
      ensures videoFile == None && videoUrl == None
      ensures !isAnalyzing && !isExtracting
      ensures results == [] && previewFrames == [] && progress == 0
      ensures analysisLog == [] && requests == []
    {
      videoFile := None;
      videoUrl := None;
      isAnalyzing := false;
      isExtracting := false;
      results := [];
      previewFrames := [];
      progress := 0;
      analysisLog := [];
      requests := [];
    }

    /**
     * Choosing a file stores it with its object URL and clears results, preview and
     * progress; it does not touch the analysing or extracting flags. No file: no change.
     */
    method HandleFileUpload(file: Option<string>, objectUrl: string)
      requires Valid()
      modifies this
      ensures Valid()
      ensures file.None? ==> unchanged(this)
      ensures file.Some? ==>
        && videoFile == file && videoUrl == Some(objectUrl)
        && results == [] && previewFrames == [] && progress == 0
        && isAnalyzing == old(isAnalyzing) && isExtracting == old(isExtracting)
        && analysisLog == old(analysisLog) && requests == old(requests)
    {
      if file.Some? {
        videoFile := file;
        videoUrl := Some(objectUrl);
        results := [];
        previewFrames := [];
        progress := 0;
      }
    }

    /**
     * Fills the preview gallery with the frames sampled at 12 evenly spaced times, in
     * order. Does nothing without a mounted video and a URL, or while an extraction is
     * already under way.
     */
    method ExtractPreviewFrames(videoMounted: bool, samples: seq<VideoFrame>)
      requires Valid()
      requires |samples| == PreviewFrameCount
      modifies this
      ensures Valid()
      ensures !videoMounted || !old(HasVideoUrl()) || old(isExtracting) ==> unchanged(this)
      ensures videoMounted && old(HasVideoUrl()) && !old(isExtracting) ==>
        && previewFrames == samples && |previewFrames| == PreviewFrameCount
        && !isExtracting
        && videoFile == old(videoFile) && videoUrl == old(videoUrl)
        && results == old(results) && progress == old(progress) && isAnalyzing == old(isAnalyzing)
        && analysisLog == old(analysisLog) && requests == old(requests)
    {
      if !videoMounted || !HasVideoUrl() || isExtracting {
        return;
      }
      isExtracting := true;
      var frames: seq<VideoFrame> := [];
      var i := 0;
      while i < PreviewFrameCount
        invariant 0 <= i <= PreviewFrameCount
        invariant frames == samples[..i]
      {
        frames := frames + [VideoFrame(samples[i].timestamp, samples[i].dataUri)];
        i := i + 1;
      }
      previewFrames := frames;
      isExtracting := false;
    }

    /**
     * Runs the analysis when a video is mounted and has a URL; otherwise does nothing.
     * A run raises the analysing flag, clears results and progress, runs the loop and
     * ends with the final results, full progress and the flag lowered. The values the
     * loop publishes to `results` and `progress` along the way (the reset, then one
     * snapshot per iteration) are appended to `analysisLog`, its classifier calls to
     * `requests`.
     */
    method RunAnalysis(videoMounted: bool, samples: seq<VideoFrame>, outcomes: seq<Outcome>)
      requires Valid()
      requires |samples| == FrameCount && |outcomes| == FrameCount
      modifies this
      ensures Valid()
      ensures !videoMounted || !old(HasVideoUrl()) ==> unchanged(this)
      ensures videoMounted && old(HasVideoUrl()) ==>
        && results == Analyzed(samples, outcomes, FrameCount)
        && progress == FrameCount && !isAnalyzing
        && requests == old(requests) + Requests(samples, FrameCount)
        && analysisLog == old(analysisLog) + Publications(samples, outcomes, FrameCount)
        && videoFile == old(videoFile) && videoUrl == old(videoUrl)
        && previewFrames == old(previewFrames) && isExtracting == old(isExtracting)
    {
      if !videoMounted || !HasVideoUrl() {
        return;
      }
      isAnalyzing := true;
      results := [];
      progress := 0;
      var analyzed, calls, published := AnalysisLoop(samples, outcomes);
      results := analyzed;
      progress := FrameCount;
      requests := requests + calls;
      analysisLog := analysisLog + published;
      isAnalyzing := false;
    }
  }

  /**
   * The analysis loop over `FrameCount` sampled frames. Its results and its classifier
   * calls are those `Analysis.Analyzed` and `Analysis.Requests` describe, and what it
   * publishes is the reset followed by, after each iteration, the iteration count and
   * the results accumulated so far.
   */
  method AnalysisLoop(samples: seq<VideoFrame>, outcomes: seq<Outcome>)
    returns (analyzed: seq<AnalysisResult>, ghost calls: seq<Request>, ghost published: seq<Snapshot>)
    requires |samples| == FrameCount && |outcomes| == FrameCount
    ensures analyzed == Analyzed(samples, outcomes, FrameCount) && |analyzed| <= FrameCount
    ensures calls == Requests(samples, FrameCount)
    ensures published == Publications(samples, outcomes, FrameCount)
  {
    published := [Snapshot(0, [])];
    calls := [];
    analyzed := [];
    var previousFrameUri := "";
    var i := 0;
    while i < FrameCount
      invariant 0 <= i <= FrameCount
      invariant Iterate(samples, outcomes, i) == LoopState(analyzed, previousFrameUri, calls)
      invariant published == Publications(samples, outcomes, i)
    {
      ghost var issued;
      analyzed, issued := AnalyzeFrame(analyzed, previousFrameUri, calls, i, samples[i], outcomes[i]);
      previousFrameUri := samples[i].dataUri;
      calls := calls + issued;
      IterateMatches(samples, outcomes, i + 1);
      published := published + [Snapshot(i + 1, analyzed)];
      i := i + 1;
    }
    IterateMatches(samples, outcomes, FrameCount);
    AnalyzedLength(samples, outcomes, FrameCount);
  }
}
