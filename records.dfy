/** The records the dashboard keeps in its session state. */
module Records {
  import opened Options
  import opened Flow

  /** One classified frame, as shown in the report. */
  datatype AnalysisResult = AnalysisResult(
    frameNumber: nat,
    timestamp: string,
    classification: Classification,
    confidence: Confidence,
    reasoning: string,
    frameDataUri: string,
    ballTracking: Option<BallTracking>)

  /**
   * A sampled frame: its formatted time and the captured data URI.
   * The empty data URI stands for a capture that failed.
   */
  datatype VideoFrame = VideoFrame(timestamp: string, dataUri: string)
}
