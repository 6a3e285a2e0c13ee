# Temporal Vision dashboard: a Dafny model

This project models the core of the Temporal Vision dashboard. The dashboard lets a user
choose a video, samples frames from it in the browser, and sends each pair of consecutive
frames to a remote classifier. The classifier labels the transition Normal, Frame Drop or
Frame Merge, with a confidence and a rationale. The page keeps the results in its session
state and draws summary counts, a confidence chart and a ball trajectory from them.

The modules are:

- `Options`: the `Option` type.
- `Flow`: the classifier's interface, as declared by the input and output schemas of the
  `detectMotionInconsistencies` flow. It holds the request, the output (the label is one of
  three literals, the confidence lies in [0, 1]) and the outcome of a call (`Ok(output)` or
  `Fail`). The classifier itself is an oracle: a run is given the outcome of each
  iteration's call, `outcomes[i]`.
- `Records`: the page's `AnalysisResult` and `VideoFrame` records.
- `Analysis`: the analysis loop as a specification over values.
  - `Step` and `Iterate` follow the loop body and its variables.
  - `Analyzed` and `Requests` state the same thing against the samples: each iteration
    contributes a baseline, a classified result or nothing, and issues one call or none.
  - `IterateMatches` proves the two agree.
  - The lemmas prove what the loop promises: which results appear, which calls are made
    and in which order.
- `Views`: the values the page derives from the results on each render. These are the
  summary counters, the chart series, the trajectory and its overlay lines.
- `Session`: the page state as a class `Dashboard`, with the three handlers that change it:
  `HandleFileUpload`, `ExtractPreviewFrames` and `RunAnalysis`.
  - `RunAnalysis` runs the imperative loop `AnalysisLoop`, which is proved against
    `Analyzed`, `Requests` and `Publications`.
  - The ghost fields `analysisLog` and `requests` record what a run publishes to the view
    and which classifier calls it makes.

Browser effects are parameters:

- Whether the `<video>` element is mounted (`videoMounted`).
- The object URL created for a file (`objectUrl`).
- The frames that seeking and capturing yield at each sample time (`samples`). An empty
  data URI is a capture that failed, since the page's capture helper returns `""` when the
  canvas or its context is missing.

The baseline test in the loop checks only that the previous capture is non-empty. The model
follows the code here, and this has consequences:

- A run whose captures all succeed yields the baseline and then frame numbers that
  strictly increase (`AllCapturedOrdered`).
- A failed capture makes the following sample a fresh baseline with frame number 0 and
  timestamp "0.000". So frame numbers are not increasing in general (`GapRestartsBaseline`).
  A strictly increasing frame order is therefore proved only for the case where every
  capture succeeds.

The flow's declared output schema has no `ballTracking` field. A classified result
carries whatever optional ball record arrives with the answer, modelled as an `Option`.

## Model

| member | source | states |
|---|---|---|
| Analysis.Baseline | src/app/dashboard/page.tsx:142-151 | the result recorded without a call: frame number 0, label Normal, confidence 1, a ball record with detection off, and the current capture as its image |
| Analysis.IterateMatches | src/app/dashboard/page.tsx:111-157 | after n iterations the loop's variables are exactly the results and calls stated against the samples, and the previous capture is sample n - 1 (none before the first) |
| Analysis.StepEffect | src/app/dashboard/page.tsx:122-154 | an iteration appends the baseline exactly when the previous capture is empty; it calls the classifier exactly when the previous capture is non-empty; it appends one result exactly when the previous capture is empty or the call succeeds |
| Analysis.AnalyzedLength | src/app/dashboard/page.tsx:114-157 | n iterations record at most n results and make at most n calls |
| Analysis.FrameNumbersBelow | src/app/dashboard/page.tsx:127-131 | every result recorded in the first n iterations has a frame number below n |
| Analysis.AppendOnly | src/app/dashboard/page.tsx:130-156 | results and calls are only appended: the state after m iterations is a prefix of the state after n >= m |
| Analysis.FirstIsBaseline | src/app/dashboard/page.tsx:112-151 | the first result of any run is the baseline of the first sample |
| Analysis.ZeroIsBaseline | src/app/dashboard/page.tsx:127-151 | every result with frame number 0 is a baseline |
| Analysis.ContributionShape | src/app/dashboard/page.tsx:122-152 | what iteration i >= 1 appends has frame number 0 or i; it holds a result for frame i exactly when the call succeeds, and that result is the classifier's answer |
| Analysis.ClassifiedIff | src/app/dashboard/page.tsx:122-141 | a result with frame number i >= 1 exists after n > i iterations iff the previous capture was non-empty and the call succeeded, and that result carries the classifier's answer; a failed call leaves no result |
| Analysis.RequestsArePairs | src/app/dashboard/page.tsx:122-128 | every call is about the immediately preceding and the current capture, with the current iteration as frame number, and is made only after a non-empty capture |
| Analysis.RequestsComplete | src/app/dashboard/page.tsx:122-128 | every iteration whose previous capture is non-empty makes its call |
| Analysis.RequestsAscending | src/app/dashboard/page.tsx:114-128 | calls are made in strictly ascending frame order, so no pair is sent twice |
| Analysis.CapturedAscending | src/app/dashboard/page.tsx:114-157 | when every capture succeeds, frame numbers strictly increase along the results |
| Analysis.AllCapturedOrdered | src/app/dashboard/page.tsx:114-157 | when every capture succeeds, the results start with the baseline, frame numbers strictly increase, and only the first has frame number 0 |
| Analysis.AllCapturedCalls | src/app/dashboard/page.tsx:122-128 | when every capture succeeds, n iterations make n - 1 calls, one per consecutive pair |
| Analysis.AllSucceed | src/app/dashboard/page.tsx:114-157 | when every capture and every call succeeds, n iterations give exactly n results: the baseline, then the answer for each frame i at position i |
| Analysis.GapRestartsBaseline | src/app/dashboard/page.tsx:120-154 | with captures "a", "", "b" and successful calls, the frame numbers recorded are 0, 1 and then a new baseline with 0 |
| Views.LabelCountsPartition | src/app/dashboard/page.tsx:164-166 | the three label counts add up to the number of results |
| Views.BallHitsBounded | src/app/dashboard/page.tsx:167 | the ball-hit count never exceeds the number of results |
| Views.CountLabelPositive | src/app/dashboard/page.tsx:164-166 | a label present in the results is counted at least once |
| Views.CountLabelZeroIff | src/app/dashboard/page.tsx:164-166 | a label counter is zero exactly when no result carries that label |
| Views.BallHitsZeroIff | src/app/dashboard/page.tsx:167 | the ball-hit counter is zero exactly when no result has a detected ball |
| Views.StatsOf | src/app/dashboard/page.tsx:162-168 | the summary counters: total is the number of results, drops, merges and normal count their own label, ball hits count results with a detected ball; normal + drops + merges equals the total, and ball hits are at most the total |
| Views.ChartData | src/app/dashboard/page.tsx:170-173 | one chart point per result, in order, with the result's frame number and its confidence times 100, which lies in [0, 100] |
| Views.TrajectoryIsSubsequence | src/app/dashboard/page.tsx:175-177 | the trajectory is an order-preserving subsequence of the results: each point comes from a result with detection on and both coordinates, taken at strictly increasing positions, and every such result contributes its point |
| Views.TrajectoryWithinBallHits | src/app/dashboard/page.tsx:167-177 | the trajectory has no more points than there are ball hits |
| Views.RenderedAllPresent | src/app/dashboard/page.tsx:229-245 | a list with no absent elements renders every element, in order |
| Views.OverlaySegments | src/app/dashboard/page.tsx:229-245 | with more than one point, there are exactly one fewer lines than points, each joining consecutive points and chaining end to end from the first point to the last; otherwise there are none |
| Session.Publications | src/app/dashboard/page.tsx:103-156 | a run publishes one more snapshot than it has iterations |
| Session.PublicationsAt | src/app/dashboard/page.tsx:103-156 | a run first publishes empty results with progress 0; after iteration k it publishes k completed iterations and exactly the results of the first k iterations |
| Session.AnalyzeFrame | src/app/dashboard/page.tsx:120-154 | one loop iteration computes the loop state `Analysis.Step` specifies |
| Session.AnalysisLoop | src/app/dashboard/page.tsx:111-157 | the loop's results are `Analysis.Analyzed`, with at most `FrameCount` of them; its calls are `Analysis.Requests`; its publications are `Publications` |
| Session.Dashboard.constructor | src/app/dashboard/page.tsx:38-44 | the initial state: no file or URL, both flags off, no results, no preview, progress 0 |
| Session.Dashboard.HandleFileUpload | src/app/dashboard/page.tsx:48-57 | choosing a file stores it and its URL and clears results, preview and progress; the flags are untouched; with no file nothing changes |
| Session.Dashboard.ExtractPreviewFrames | src/app/dashboard/page.tsx:70-98 | without a mounted video, without a URL, or while an extraction runs, nothing changes; otherwise the preview becomes the 12 sampled frames in order and the extracting flag ends off (every seek assumed to succeed); the invariant `Valid` (progress at most 10, results at most progress, preview empty or 12 frames) is kept |
| Session.Dashboard.RunAnalysis | src/app/dashboard/page.tsx:100-160 | without a mounted video or a URL nothing changes; otherwise the results become those of the analysis, progress is complete, the analysing flag ends off, and the run's calls and published snapshots are recorded; preview, file and URL are untouched (every seek assumed to succeed); the invariant `Valid` is kept |

## Left out

- Media plumbing. The following are not modelled:
  - seeking, the `seeked` and `loadedmetadata` events, and the unbounded wait for metadata (page.tsx:75-79);
  - drawing to the canvas and JPEG encoding.
  What `captureFrame` returns at each sample time is an input (`samples`).
- Floating point. The sample interval, the `toFixed` timestamps and the progress
  percentage are not modelled. Sample timestamps are given as strings, and a classified
  result takes its sample's timestamp.
- Session.Dashboard.RunAnalysis: every seek is assumed to succeed. The handler reads the
  video duration without waiting for metadata (page.tsx:107, unlike page.tsx:75-79). A
  duration of NaN or Infinity makes the first seek time NaN, and assigning it throws. The
  handler has no try/finally, so it aborts with `isAnalyzing` still set and the Run button
  disabled for good, since choosing a new file does not reset the flag. The model does not
  capture this abort; its contract says the flag always ends off.
- Session.Dashboard.ExtractPreviewFrames: every seek is assumed to succeed. With an
  infinite duration a seek throws (page.tsx:87), the handler aborts before page.tsx:97,
  and `isExtracting` stays set, so no later extraction runs. The model does not capture
  this abort; its contract says the flag always ends off.
- Session.Dashboard.RunAnalysis: `progress` counts completed iterations rather than the
  percentage `((i + 1) / 10) * 100`.
- Views.ChartData: the chart value is `confidence * 100` as an exact real, with no floating-point rounding.
- Session.Dashboard.RunAnalysis: the values that `results` and `progress` take between
  iterations are recorded as snapshots in `analysisLog`. The fields themselves hold the
  values from before the loop and after it.
- The classifier's internals (the prompt, the Genkit flow and the model) are not modelled. A call's outcome is an oracle input, and a rejection is `Fail`. The error log line written on a failure is not modelled.
- Concurrency. The following are not modelled:
  - a second `RunAnalysis` or an extraction interleaving with a running analysis on the same video element;
  - stale closures over state.
  Each handler is modelled as running to completion.
- Disabling the Run Analysis button while an analysis runs, and the rest of the JSX
  rendering (badges, tabs, gallery, circles, styling).
- The object URL for a file is a parameter, and it is never revoked, as in the source.
