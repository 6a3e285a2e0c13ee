/**
 * The bookkeeping of the dashboard's analysis loop, as a specification over values.
 *
 * The loop visits `FrameCount` samples in ascending order. It carries the results
 * accumulated so far and the previous capture. When the previous capture is empty
 * (always so at the first sample) it records a hard-wired baseline result and does
 * not call the classifier; otherwise it asks the classifier about the pair
 * (previous, current) and records a result only when the call succeeds. Either way
 * the current capture becomes the previous one.
 */
module Analysis {
  import opened Options
  import opened Flow
  import opened Records

  /** Number of samples the analysis visits. */
  const FrameCount: nat := 10

  /** The result recorded, without asking the classifier, for a frame that has no usable predecessor. */
  function Baseline(uri: string): (r: AnalysisResult)
    ensures r.frameNumber == 0 && r.classification == Normal && r.confidence == 1.0
    ensures r.ballTracking.Some? && !r.ballTracking.value.isDetected
    ensures r.frameDataUri == uri
  {
    AnalysisResult(0, "0.000", Normal, 1.0, "Baseline frame.", uri, Some(BallTracking(false, None, None)))
  }

  /** The result recorded for sample `i` when the classifier answered `out`. */
  function Classified(i: nat, frame: VideoFrame, out: Output): AnalysisResult
  {
    AnalysisResult(i, frame.timestamp, out.classification, out.confidence, out.reasoning,
                   frame.dataUri, out.ballTracking)
  }

  /** The loop's variables: accumulated results, the previous capture, and (for reasoning) the calls issued. */
  datatype LoopState = LoopState(analyzed: seq<AnalysisResult>, previousFrameUri: string, requests: seq<Request>)

  /** One iteration of the loop, for sample `i`. */
  function Step(s: LoopState, i: nat, frame: VideoFrame, outcome: Outcome): LoopState
  {
    if s.previousFrameUri != "" then
      var req := Request(s.previousFrameUri, frame.dataUri, i);
      var analyzed := match outcome
        case Ok(out) => s.analyzed + [Classified(i, frame, out)]
        case Fail => s.analyzed;
      LoopState(analyzed, frame.dataUri, s.requests + [req])
    else
      LoopState(s.analyzed + [Baseline(frame.dataUri)], frame.dataUri, s.requests)
  }

  /** The capture an iteration compares against: none before the first sample, else the preceding one. */
  function PreviousCapture(samples: seq<VideoFrame>, i: nat): string
    requires i <= |samples|
  {
    if i == 0 then "" else samples[i - 1].dataUri
  }

  /** The classifier request for the pair that ends at sample `i`. */
  function PairRequest(samples: seq<VideoFrame>, i: nat): Request
    requires i < |samples|
  {
    Request(PreviousCapture(samples, i), samples[i].dataUri, i)
  }

  /** The loop state after the first `n` iterations. */
  function Iterate(samples: seq<VideoFrame>, outcomes: seq<Outcome>, n: nat): LoopState
    requires |outcomes| == |samples|
    requires n <= |samples|
  {
    if n == 0 then LoopState([], "", [])
    else Step(Iterate(samples, outcomes, n - 1), n - 1, samples[n - 1], outcomes[n - 1])
  }

  /** Whether the pair ending at sample `i` is sent to the classifier and the call succeeds. */
  predicate Succeeds(samples: seq<VideoFrame>, outcomes: seq<Outcome>, i: nat)
    requires |outcomes| == |samples|
    requires i < |samples|
  {
    PreviousCapture(samples, i) != "" && outcomes[i].Ok?
  }

  /** What iteration `i` appends to the results: this depends only on samples `i - 1`, `i` and the oracle. */
  function Contribution(samples: seq<VideoFrame>, outcomes: seq<Outcome>, i: nat): seq<AnalysisResult>
    requires |outcomes| == |samples|
    requires i < |samples|
  {
    if PreviousCapture(samples, i) == "" then [Baseline(samples[i].dataUri)]
    else match outcomes[i]
      case Ok(out) => [Classified(i, samples[i], out)]
      case Fail => []
  }

  /** The classifier calls iteration `i` issues: one about the preceding and current captures, or none. */
  function Calls(samples: seq<VideoFrame>, i: nat): seq<Request>
    requires i < |samples|
  {
    if PreviousCapture(samples, i) == "" then [] else [PairRequest(samples, i)]
  }

  /** The results of the first `n` iterations, stated against the samples: each iteration's contribution in turn. */
  function Analyzed(samples: seq<VideoFrame>, outcomes: seq<Outcome>, n: nat): seq<AnalysisResult>
    requires |outcomes| == |samples|
    requires n <= |samples|
  {
    if n == 0 then [] else Analyzed(samples, outcomes, n - 1) + Contribution(samples, outcomes, n - 1)
  }

  /** The classifier calls of the first `n` iterations; they do not depend on the classifier's answers. */
  function Requests(samples: seq<VideoFrame>, n: nat): seq<Request>
    requires n <= |samples|
  {
    if n == 0 then [] else Requests(samples, n - 1) + Calls(samples, n - 1)
  }

  /**
   * The loop's variables after `n` iterations are the results and calls stated against
   * the samples, and the previous capture is sample `n - 1` (none before the first).
   */
  lemma {:induction false} IterateMatches(samples: seq<VideoFrame>, outcomes: seq<Outcome>, n: nat)
    requires |outcomes| == |samples|
    requires n <= |samples|
    ensures Iterate(samples, outcomes, n)
      == LoopState(Analyzed(samples, outcomes, n), PreviousCapture(samples, n), Requests(samples, n))
  {
    if n > 0 {
      IterateMatches(samples, outcomes, n - 1);
    }
  }

  /**
   * One iteration: after an empty previous capture the baseline is appended and the
   * classifier is not called; otherwise the pair is classified and exactly one result is
   * appended if the call succeeds, none if it fails.
   */
  lemma StepEffect(samples: seq<VideoFrame>, outcomes: seq<Outcome>, i: nat)
    requires |outcomes| == |samples|
    requires i < |samples|
    ensures Contribution(samples, outcomes, i) == [Baseline(samples[i].dataUri)] <==> PreviousCapture(samples, i) == ""
    ensures Calls(samples, i) == [] <==> PreviousCapture(samples, i) == ""
    ensures |Contribution(samples, outcomes, i)| == 1 <==> PreviousCapture(samples, i) == "" || Succeeds(samples, outcomes, i)
  {
  }

  /** At most one result and at most one call per iteration. */
  lemma {:induction false} AnalyzedLength(samples: seq<VideoFrame>, outcomes: seq<Outcome>, n: nat)
    requires |outcomes| == |samples|
    requires n <= |samples|
    ensures |Analyzed(samples, outcomes, n)| <= n && |Requests(samples, n)| <= n
  {
    if n > 0 {
      AnalyzedLength(samples, outcomes, n - 1);
    }
  }

  /** Every result recorded in the first `n` iterations carries a frame number below `n`. */
  lemma {:induction false} FrameNumbersBelow(samples: seq<VideoFrame>, outcomes: seq<Outcome>, n: nat)
    requires |outcomes| == |samples|
    requires n <= |samples|
    ensures forall r :: r in Analyzed(samples, outcomes, n) ==> r.frameNumber < n
  {
    if n > 0 {
      FrameNumbersBelow(samples, outcomes, n - 1);
    }
  }

  /** Results and calls are only ever appended: earlier states are prefixes of later ones. */
  lemma {:induction false} AppendOnly(samples: seq<VideoFrame>, outcomes: seq<Outcome>, m: nat, n: nat)
    requires |outcomes| == |samples|
    requires m <= n <= |samples|
    ensures Analyzed(samples, outcomes, m) <= Analyzed(samples, outcomes, n)
    ensures Requests(samples, m) <= Requests(samples, n)
    decreases n - m
  {
    if m < n {
      AppendOnly(samples, outcomes, m, n - 1);
      assert Analyzed(samples, outcomes, n) == Analyzed(samples, outcomes, n - 1) + Contribution(samples, outcomes, n - 1);
      assert Requests(samples, n) == Requests(samples, n - 1) + Calls(samples, n - 1);
    }
  }

  /** The first recorded result is always the baseline of the first sample, whatever that capture is. */
  lemma {:induction false} FirstIsBaseline(samples: seq<VideoFrame>, outcomes: seq<Outcome>, n: nat)
    requires |outcomes| == |samples|
    requires 1 <= n <= |samples|
    ensures |Analyzed(samples, outcomes, n)| >= 1
    ensures Analyzed(samples, outcomes, n)[0] == Baseline(samples[0].dataUri)
  {
    AppendOnly(samples, outcomes, 1, n);
  }

  /** Every recorded result with frame number 0 is a baseline. */
  lemma {:induction false} ZeroIsBaseline(samples: seq<VideoFrame>, outcomes: seq<Outcome>, n: nat)
    requires |outcomes| == |samples|
    requires n <= |samples|
    ensures forall r :: r in Analyzed(samples, outcomes, n) && r.frameNumber == 0 ==>
      r == Baseline(r.frameDataUri)
  {
    if n > 0 {
      ZeroIsBaseline(samples, outcomes, n - 1);
    }
  }

  /**
   * What iteration `i >= 1` appends carries frame number 0 (a baseline) or `i`, and
   * holds a result with frame number `i` exactly when the call succeeds, namely the answer.
   */
  lemma ContributionShape(samples: seq<VideoFrame>, outcomes: seq<Outcome>, i: nat)
    requires |outcomes| == |samples|
    requires 1 <= i < |samples|
    ensures forall r :: r in Contribution(samples, outcomes, i) ==> r.frameNumber == 0 || r.frameNumber == i
    ensures (exists r :: r in Contribution(samples, outcomes, i) && r.frameNumber == i) <==> Succeeds(samples, outcomes, i)
    ensures forall r :: r in Contribution(samples, outcomes, i) && r.frameNumber == i ==>
      r == Classified(i, samples[i], outcomes[i].output)
  {
    if Succeeds(samples, outcomes, i) {
      assert Contribution(samples, outcomes, i)[0].frameNumber == i;
    }
  }

  /**
   * A result with frame number `i >= 1` is present after `n > i` iterations exactly when
   * the pair ending at sample `i` was classified successfully, and it then holds that answer.
   * A failed call leaves no trace, and later iterations are unaffected.
   */
  lemma {:induction false} ClassifiedIff(samples: seq<VideoFrame>, outcomes: seq<Outcome>, n: nat, i: nat)
    requires |outcomes| == |samples|
    requires 1 <= i < n <= |samples|
    ensures (exists r :: r in Analyzed(samples, outcomes, n) && r.frameNumber == i)
      <==> Succeeds(samples, outcomes, i)
    ensures forall r :: r in Analyzed(samples, outcomes, n) && r.frameNumber == i ==>
      r == Classified(i, samples[i], outcomes[i].output)
  {
    ContributionShape(samples, outcomes, n - 1);
    if i < n - 1 {
      ClassifiedIff(samples, outcomes, n - 1, i);
    } else {
      FrameNumbersBelow(samples, outcomes, n - 1);
    }
  }

  /**
   * Every classifier call is about the immediately preceding sample and the current one,
   * for an iteration whose previous capture is non-empty; so it is never made for a baseline.
   */
  lemma {:induction false} RequestsArePairs(samples: seq<VideoFrame>, n: nat)
    requires n <= |samples|
    ensures forall req :: req in Requests(samples, n) ==>
      1 <= req.frameNumber < n && PreviousCapture(samples, req.frameNumber) != ""
      && req == PairRequest(samples, req.frameNumber)
  {
    if n > 0 {
      RequestsArePairs(samples, n - 1);
      var p := Requests(samples, n - 1);
      assert Requests(samples, n) == p + Calls(samples, n - 1);
      forall req | req in Requests(samples, n)
        ensures 1 <= req.frameNumber < n && PreviousCapture(samples, req.frameNumber) != ""
        ensures req == PairRequest(samples, req.frameNumber)
      {
        if req !in p {
          assert req == PairRequest(samples, n - 1);
        }
      }
    }
  }

  /** Every iteration whose previous capture is non-empty calls the classifier. */
  lemma {:induction false} RequestsComplete(samples: seq<VideoFrame>, n: nat)
    requires n <= |samples|
    ensures forall i :: 0 <= i < n && PreviousCapture(samples, i) != "" ==>
      PairRequest(samples, i) in Requests(samples, n)
  {
    if n > 0 {
      RequestsComplete(samples, n - 1);
      var p := Requests(samples, n - 1);
      var q := Requests(samples, n);
      forall i | 0 <= i < n && PreviousCapture(samples, i) != ""
        ensures PairRequest(samples, i) in q
      {
        if i < n - 1 {
          assert PairRequest(samples, i) in p;
        } else {
          assert q[|p|] == PairRequest(samples, i);
        }
      }
    }
  }

  /** Calls are issued in strictly ascending frame order, so no pair is asked about twice. */
  lemma {:induction false} RequestsAscending(samples: seq<VideoFrame>, n: nat)
    requires n <= |samples|
    ensures forall k, l :: 0 <= k < l < |Requests(samples, n)| ==>
      Requests(samples, n)[k].frameNumber < Requests(samples, n)[l].frameNumber
  {
    if n > 0 {
      RequestsAscending(samples, n - 1);
      RequestsArePairs(samples, n - 1);
      var q := Requests(samples, n);
      var p := Requests(samples, n - 1);
      assert q == p + Calls(samples, n - 1);
      forall k, l | 0 <= k < l < |q|
        ensures q[k].frameNumber < q[l].frameNumber
      {
        if l < |p| {
          assert q[k] == p[k] && q[l] == p[l];
        } else {
          assert q[k] == p[k] && p[k] in p;
          assert q[l] == PairRequest(samples, n - 1);
        }
      }
    }
  }

  /** When every capture succeeds, frame numbers strictly increase along the results. */
  lemma {:induction false} CapturedAscending(samples: seq<VideoFrame>, outcomes: seq<Outcome>, n: nat)
    requires |outcomes| == |samples|
    requires n <= |samples|
    requires forall i :: 0 <= i < |samples| ==> samples[i].dataUri != ""
    ensures forall k, l :: 0 <= k < l < |Analyzed(samples, outcomes, n)| ==>
      Analyzed(samples, outcomes, n)[k].frameNumber < Analyzed(samples, outcomes, n)[l].frameNumber
  {
    if n > 1 {
      CapturedAscending(samples, outcomes, n - 1);
      FrameNumbersBelow(samples, outcomes, n - 1);
      var s := Analyzed(samples, outcomes, n - 1);
      var added := Contribution(samples, outcomes, n - 1);
      var rs := Analyzed(samples, outcomes, n);
      assert PreviousCapture(samples, n - 1) != "";
      assert forall r :: r in added ==> r.frameNumber == n - 1;
      assert rs == s + added;
      forall k, l | 0 <= k < l < |rs|
        ensures rs[k].frameNumber < rs[l].frameNumber
      {
        if l >= |s| {
          assert rs[k] in s && rs[l] in added;
        } else {
          assert rs[k] == s[k] && rs[l] == s[l];
        }
      }
    }
  }

  /**
   * When every capture succeeds: the run starts with the baseline, frame numbers strictly
   * increase, and only the first result has frame number 0.
   */
  lemma AllCapturedOrdered(samples: seq<VideoFrame>, outcomes: seq<Outcome>, n: nat)
    requires |outcomes| == |samples|
    requires 1 <= n <= |samples|
    requires forall i :: 0 <= i < |samples| ==> samples[i].dataUri != ""
    ensures var rs := Analyzed(samples, outcomes, n);
      |rs| >= 1 && rs[0] == Baseline(samples[0].dataUri)
      && (forall k, l :: 0 <= k < l < |rs| ==> rs[k].frameNumber < rs[l].frameNumber)
      && (forall k :: 1 <= k < |rs| ==> rs[k].frameNumber != 0)
  {
    FirstIsBaseline(samples, outcomes, n);
    CapturedAscending(samples, outcomes, n);
    var rs := Analyzed(samples, outcomes, n);
    forall k | 1 <= k < |rs|
      ensures rs[k].frameNumber != 0
    {
      assert rs[0].frameNumber < rs[k].frameNumber;
    }
  }

  /** When every capture succeeds, the classifier sees every consecutive pair: `n - 1` calls in `n` iterations. */
  lemma {:induction false} AllCapturedCalls(samples: seq<VideoFrame>, n: nat)
    requires 1 <= n <= |samples|
    requires forall i :: 0 <= i < |samples| ==> samples[i].dataUri != ""
    ensures |Requests(samples, n)| == n - 1
  {
    if n > 1 {
      AllCapturedCalls(samples, n - 1);
      assert PreviousCapture(samples, n - 1) != "";
    }
  }

  /**
   * When every capture succeeds and every classifier call succeeds, each sample yields
   * exactly one result, in order: the baseline first, then the classifier's answers.
   */
  lemma {:induction false} AllSucceed(samples: seq<VideoFrame>, outcomes: seq<Outcome>, n: nat)
    requires |outcomes| == |samples|
    requires n <= |samples|
    requires forall i :: 0 <= i < |samples| ==> samples[i].dataUri != ""
    requires forall i :: 1 <= i < |samples| ==> outcomes[i].Ok?
    ensures var rs := Analyzed(samples, outcomes, n);
      |rs| == n
      && (n >= 1 ==> rs[0] == Baseline(samples[0].dataUri))
      && forall i :: 1 <= i < n ==> rs[i] == Classified(i, samples[i], outcomes[i].output)
  {
    if n > 0 {
      AllSucceed(samples, outcomes, n - 1);
      var s := Analyzed(samples, outcomes, n - 1);
      var rs := Analyzed(samples, outcomes, n);
      var added := Contribution(samples, outcomes, n - 1);
      assert |added| == 1 && (n - 1 >= 1 ==> added[0] == Classified(n - 1, samples[n - 1], outcomes[n - 1].output));
      forall i | 1 <= i < n
        ensures rs[i] == Classified(i, samples[i], outcomes[i].output)
      {
        if i < n - 1 {
          assert rs[i] == s[i];
        }
      }
    }
  }

  /**
   * A failed capture makes the next sample a baseline again, recorded with frame number 0:
   * with captures "a", "", "b" and classifier calls that all succeed, the frame numbers
   * recorded are 0, 1, 0, not an increasing sequence.
   */
  lemma GapRestartsBaseline(out: Output)
    ensures var samples := [VideoFrame("t0", "a"), VideoFrame("t1", ""), VideoFrame("t2", "b")];
      var rs := Iterate(samples, [Ok(out), Ok(out), Ok(out)], 3).analyzed;
      |rs| == 3 && rs[0].frameNumber == 0 && rs[1].frameNumber == 1 && rs[2] == Baseline("b")
  {
    var samples := [VideoFrame("t0", "a"), VideoFrame("t1", ""), VideoFrame("t2", "b")];
    var outcomes := [Ok(out), Ok(out), Ok(out)];
    assert Iterate(samples, outcomes, 1).analyzed == [Baseline("a")];
    assert Iterate(samples, outcomes, 2).analyzed == [Baseline("a"), Classified(1, samples[1], out)];
  }
}
