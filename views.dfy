/**
 * The views the dashboard derives from its results on every render: summary counts,
 * the confidence chart series, the ball trajectory and the overlay lines joining it.
 * All are pure functions of the results list.
 */
module Views {
  import opened Options
  import opened Flow
  import opened Records

  /** The summary counters shown beside the player. */
  datatype Stats = Stats(total: nat, drops: nat, merges: nat, normal: nat, ballHits: nat)

  /** Number of results carrying label `c` (a filter on the label, then its length). */
  function CountLabel(rs: seq<AnalysisResult>, c: Classification): nat
  {
    if rs == [] then 0
    else CountLabel(rs[..|rs| - 1], c) + (if rs[|rs| - 1].classification == c then 1 else 0)
  }

  /** Whether a result has a ball record whose detection flag is set. */
  predicate BallDetected(r: AnalysisResult)
  {
    r.ballTracking.Some? && r.ballTracking.value.isDetected
  }

  /** Number of results with a detected ball. */
  function CountBallHits(rs: seq<AnalysisResult>): nat
  {
    if rs == [] then 0
    else CountBallHits(rs[..|rs| - 1]) + (if BallDetected(rs[|rs| - 1]) then 1 else 0)
  }

  /** The three label counts partition the results, since a label is one of three literals. */
  lemma {:induction false} LabelCountsPartition(rs: seq<AnalysisResult>)
    ensures CountLabel(rs, Normal) + CountLabel(rs, FrameDrop) + CountLabel(rs, FrameMerge) == |rs|
  {
    if rs != [] {
      LabelCountsPartition(rs[..|rs| - 1]);
    }
  }

  /** No more ball hits than results. */
  lemma {:induction false} BallHitsBounded(rs: seq<AnalysisResult>)
    ensures CountBallHits(rs) <= |rs|
  {
    if rs != [] {
      BallHitsBounded(rs[..|rs| - 1]);
    }
  }

  /** A label that occurs in the results is counted at least once. */
  lemma {:induction false} CountLabelPositive(rs: seq<AnalysisResult>, k: nat)
    requires k < |rs|
    ensures CountLabel(rs, rs[k].classification) >= 1
  {
    if k < |rs| - 1 {
      CountLabelPositive(rs[..|rs| - 1], k);
    }
  }

  /** A label is counted zero times exactly when no result carries it. */
  lemma {:induction false} CountLabelZeroIff(rs: seq<AnalysisResult>, c: Classification)
    ensures CountLabel(rs, c) == 0 <==> forall k :: 0 <= k < |rs| ==> rs[k].classification != c
  {
    if rs != [] {
      CountLabelZeroIff(rs[..|rs| - 1], c);
      assert forall k :: 0 <= k < |rs| - 1 ==> rs[..|rs| - 1][k] == rs[k];
    }
  }

  /** No ball hits exactly when no result has a detected ball. */
  lemma {:induction false} BallHitsZeroIff(rs: seq<AnalysisResult>)
    ensures CountBallHits(rs) == 0 <==> forall k :: 0 <= k < |rs| ==> !BallDetected(rs[k])
  {
    if rs != [] {
      BallHitsZeroIff(rs[..|rs| - 1]);
      assert forall k :: 0 <= k < |rs| - 1 ==> rs[..|rs| - 1][k] == rs[k];
    }
  }

  /**
   * The summary counters: each label counter counts that label, the ball counter counts
   * detected balls, and together the label counters account for every result.
   */
  function StatsOf(rs: seq<AnalysisResult>): (s: Stats)
    ensures s.total == |rs|
    ensures s.drops == CountLabel(rs, FrameDrop) && s.merges == CountLabel(rs, FrameMerge)
    ensures s.normal == CountLabel(rs, Normal) && s.ballHits == CountBallHits(rs)
    ensures s.normal + s.drops + s.merges == s.total
    ensures s.ballHits <= s.total
  {
    LabelCountsPartition(rs);
    BallHitsBounded(rs);
    Stats(|rs|, CountLabel(rs, FrameDrop), CountLabel(rs, FrameMerge), CountLabel(rs, Normal), CountBallHits(rs))
  }

  /** One point of the confidence chart: the frame number and the confidence as a percentage. */
  datatype ChartPoint = ChartPoint(frame: nat, confidence: real)

  /**
   * The chart series: one point per result, in the same order, carrying the result's
   * frame number and its confidence as a percentage, so every value lies in [0, 100].
   */
  function ChartData(rs: seq<AnalysisResult>): (r: seq<ChartPoint>)
    ensures |r| == |rs|
    ensures forall k :: 0 <= k < |r| ==>
      && r[k].frame == rs[k].frameNumber
      && r[k].confidence == rs[k].confidence * 100.0
      && 0.0 <= r[k].confidence <= 100.0
  {
    seq(|rs|, k requires 0 <= k < |rs| => ChartPoint(rs[k].frameNumber, rs[k].confidence * 100.0))
  }

  /** A point of the ball's path: its normalised coordinates and the frame it was seen in. */
  datatype Point = Point(x: real, y: real, frame: nat)

  /** Whether a result contributes a trajectory point: ball detected and both coordinates defined. */
  predicate OnTrajectory(r: AnalysisResult)
  {
    BallDetected(r) && r.ballTracking.value.x.Some? && r.ballTracking.value.y.Some?
  }

  function PointOf(r: AnalysisResult): Point
    requires OnTrajectory(r)
  {
    Point(r.ballTracking.value.x.value, r.ballTracking.value.y.value, r.frameNumber)
  }

  /** The trajectory: the results that pass `OnTrajectory`, mapped to their points. */
  function TrajectoryPoints(rs: seq<AnalysisResult>): seq<Point>
  {
    if rs == [] then []
    else
      var last := rs[|rs| - 1];
      TrajectoryPoints(rs[..|rs| - 1]) + (if OnTrajectory(last) then [PointOf(last)] else [])
  }

  /** The positions in `rs` of the results the trajectory keeps. */
  function TrajectoryIndices(rs: seq<AnalysisResult>): seq<nat>
  {
    if rs == [] then []
    else TrajectoryIndices(rs[..|rs| - 1]) + (if OnTrajectory(rs[|rs| - 1]) then [|rs| - 1] else [])
  }

  /**
   * The trajectory is an order-preserving subsequence of the results: its k-th point
   * comes from the result at a strictly increasing position, and every result with a
   * detected ball and both coordinates contributes its point.
   */
  lemma {:induction false} TrajectoryIsSubsequence(rs: seq<AnalysisResult>)
    ensures var idx := TrajectoryIndices(rs);
      |idx| == |TrajectoryPoints(rs)|
      && (forall k :: 0 <= k < |idx| ==>
            idx[k] < |rs| && OnTrajectory(rs[idx[k]]) && TrajectoryPoints(rs)[k] == PointOf(rs[idx[k]]))
      && (forall k, l :: 0 <= k < l < |idx| ==> idx[k] < idx[l])
      && (forall i :: 0 <= i < |rs| && OnTrajectory(rs[i]) ==> i in idx)
  {
    if rs != [] {
      var init := rs[..|rs| - 1];
      TrajectoryIsSubsequence(init);
      var idx := TrajectoryIndices(rs);
      var pre := TrajectoryIndices(init);
      assert forall k :: 0 <= k < |pre| ==> idx[k] == pre[k] && rs[pre[k]] == init[pre[k]];
      forall i | 0 <= i < |rs| && OnTrajectory(rs[i])
        ensures i in idx
      {
        if i < |rs| - 1 {
          assert rs[i] == init[i];
          assert i in pre;
        } else {
          assert idx[|pre|] == i;
        }
      }
    }
  }

  /** The trajectory never has more points than there are ball hits. */
  lemma {:induction false} TrajectoryWithinBallHits(rs: seq<AnalysisResult>)
    ensures |TrajectoryPoints(rs)| <= CountBallHits(rs)
  {
    if rs != [] {
      TrajectoryWithinBallHits(rs[..|rs| - 1]);
    }
  }

  /** A dashed overlay line between two consecutive trajectory points. */
  datatype Segment = Segment(from: Point, to: Point)

  /** What a list of optional elements renders to: absent elements render nothing. */
  function Rendered<T>(xs: seq<Option<T>>): seq<T>
  {
    if xs == [] then []
    else (match xs[0] case None => [] case Some(v) => [v]) + Rendered(xs[1..])
  }

  /** A list with no absent elements renders every element, in order. */
  lemma {:induction false} RenderedAllPresent<T>(xs: seq<Option<T>>)
    requires forall k :: 0 <= k < |xs| ==> xs[k].Some?
    ensures |Rendered(xs)| == |xs|
    ensures forall k :: 0 <= k < |xs| ==> Rendered(xs)[k] == xs[k].value
  {
    if xs != [] {
      RenderedAllPresent(xs[1..]);
    }
  }

  /**
   * The overlay lines: only when there are at least two points, each point but the
   * first yields a line from its predecessor, and the first yields nothing. So there
   * are |ps| - 1 lines that join up end to end, from the first point to the last.
   */
  function OverlaySegments(ps: seq<Point>): (r: seq<Segment>)
    ensures |r| == if |ps| > 1 then |ps| - 1 else 0
    ensures forall k :: 0 <= k < |r| ==> r[k] == Segment(ps[k], ps[k + 1])
    ensures forall k :: 0 <= k < |r| - 1 ==> r[k].to == r[k + 1].from
    ensures |r| > 0 ==> r[0].from == ps[0] && r[|r| - 1].to == ps[|ps| - 1]
  {
    if |ps| > 1 then
      var lines := seq(|ps|, idx requires 0 <= idx < |ps| =>
        if idx == 0 then None else Some(Segment(ps[idx - 1], ps[idx])));
      assert Rendered(lines) == Rendered(lines[1..]);
      RenderedAllPresent(lines[1..]);
      Rendered(lines)
    else []
  }
}
