/**
 * The interface of the remote classifier (`detectMotionInconsistencies`).
 * Only its declared input and output schemas are modelled; the classifier itself
 * is an oracle, given as the outcome each successive call has.
 */
module Flow {
  import opened Options

  /** The three literals the output schema allows for `classification`. */
  datatype Classification = Normal | FrameDrop | FrameMerge

  /** The output schema bounds `confidence` to [0, 1]. */
  type Confidence = c: real | 0.0 <= c <= 1.0

  /** The optional ball record carried by a result: a detection flag and, possibly, two coordinates. */
  datatype BallTracking = BallTracking(isDetected: bool, x: Option<real>, y: Option<real>)

  /** The input schema: two frame data URIs and a non-negative integer frame number. */
  datatype Request = Request(previousFrameDataUri: string, currentFrameDataUri: string, frameNumber: nat)

  /**
   * A schema-conforming answer. The declared output schema has no `ballTracking` field,
   * so whatever optional ball record arrives with the answer is carried as it is.
   */
  datatype Output = Output(
    classification: Classification,
    confidence: Confidence,
    reasoning: string,
    ballTracking: Option<BallTracking>)

  /** A call either resolves with a conforming output or rejects (transport, schema or model error). */
  datatype Outcome = Ok(output: Output) | Fail
}
