/**
 * approach3_iterative_refinement.py: every unprocessed box gathers the
 * same-label boxes that overlap it, the group is refined for a bounded number
 * of rounds by a median-absolute-deviation outlier filter, and the mean of
 * what survives is scored by a stability formula.
 */
module IterativeRefinement {
  import opened Stats
  import opened Geometry
  import opened Annotations

  /**
   * find_similar_boxes over candidates k < upTo: the indices, in increasing
   * order, of the boxes with the target's label whose IoU with the target
   * beats the threshold (the target's own index included when it qualifies).
   */
  function SimilarUpTo(target: Box, targetLabel: int, boxes: seq<Box>, labels: seq<int>,
                       threshold: real, upTo: nat): (r: seq<nat>)
    requires |boxes| == |labels| && upTo <= |boxes|
    ensures StrictlyIncreasing(r)
    ensures forall p :: 0 <= p < |r| ==> r[p] < upTo
    ensures forall k :: k in r <==> 0 <= k < upTo && labels[k] == targetLabel && Iou(target, boxes[k]) > threshold
  {
    if upTo == 0 then []
    else
      var k := upTo - 1;
      var earlier := SimilarUpTo(target, targetLabel, boxes, labels, threshold, k);
      earlier + (if labels[k] == targetLabel && Iou(target, boxes[k]) > threshold then [k] else [])
  }

  /** The group of seed i: find_similar_boxes(boxes[i], labels[i], ...). */
  function SimilarTo(boxes: seq<Box>, labels: seq<int>, i: nat, threshold: real): seq<nat>
    requires |boxes| == |labels| && i < |boxes|
  {
    SimilarUpTo(boxes[i], labels[i], boxes, labels, threshold, |boxes|)
  }

  /** find_similar_boxes: one pass over all boxes, appending each match. */
  method FindSimilarBoxes(target: Box, targetLabel: int, boxes: seq<Box>, labels: seq<int>, threshold: real)
    returns (similar: seq<nat>)
    requires |boxes| == |labels|
    ensures similar == SimilarUpTo(target, targetLabel, boxes, labels, threshold, |boxes|)
  {
    similar := [];
    for k := 0 to |boxes|
      invariant similar == SimilarUpTo(target, targetLabel, boxes, labels, threshold, k)
    {
      var hit := false;
      if labels[k] == targetLabel {
        var iou := Iou(target, boxes[k]);
        hit := iou > threshold;
      }
      SimilarUpToStep(target, targetLabel, boxes, labels, threshold, k, hit);
      if hit {
        similar := similar + [k];
      }
    }
  }

  lemma SimilarUpToStep(target: Box, targetLabel: int, boxes: seq<Box>, labels: seq<int>, threshold: real,
                        k: nat, hit: bool)
    requires |boxes| == |labels| && k < |boxes|
    requires hit <==> labels[k] == targetLabel && Iou(target, boxes[k]) > threshold
    ensures SimilarUpTo(target, targetLabel, boxes, labels, threshold, k + 1)
         == SimilarUpTo(target, targetLabel, boxes, labels, threshold, k) + (if hit then [k] else [])
  {
  }

  /** A seed box of zero width or zero height matches nothing, not even itself. */
  lemma DegenerateSeedHasNoGroup(boxes: seq<Box>, labels: seq<int>, i: nat, threshold: real)
    requires |boxes| == |labels| && i < |boxes| && threshold >= 0.0
    requires boxes[i].x1 == boxes[i].x2 || boxes[i].y1 == boxes[i].y2
    ensures SimilarTo(boxes, labels, i, threshold) == []
  {
    forall k | 0 <= k < |boxes|
      ensures Iou(boxes[i], boxes[k]) == 0.0
    {
      IouWithDegenerate(boxes[i], boxes[k]);
    }
    NoMatchNoGroup(boxes[i], labels[i], boxes, labels, threshold, |boxes|);
  }

  /** With no candidate beating the threshold below upTo, the group is empty. */
  lemma NoMatchNoGroup(target: Box, targetLabel: int, boxes: seq<Box>, labels: seq<int>,
                         threshold: real, upTo: nat)
    requires |boxes| == |labels| && upTo <= |boxes|
    requires forall k :: 0 <= k < upTo ==> Iou(target, boxes[k]) <= threshold
    ensures SimilarUpTo(target, targetLabel, boxes, labels, threshold, upTo) == []
  {
  }

  /** The MAD that replaces a zero median absolute deviation. */
  const MadFloor: real := 0.000001

  /** The outlier cut-off iterative_refinement passes to remove_outliers_mad. */
  const RefinementCutoff: real := 2.5

  /** The 1e-6 added to the initial variance in the convergence ratio. */
  const ConvergenceEpsilon: real := 0.000001

  /** |x - m| for every element x. */
  function AbsDeviations(xs: seq<real>, m: real): (r: seq<real>)
    ensures |r| == |xs|
    ensures forall k :: 0 <= k < |xs| ==> r[k] == Abs(xs[k] - m) && r[k] >= 0.0
  {
    seq(|xs|, k requires 0 <= k < |xs| => Abs(xs[k] - m))
  }

  /** np.median(boxes, axis=0), one column at a time. */
  function AxisMedian(bs: seq<Box>, axis: nat): real
    requires |bs| > 0 && axis < 4
  {
    Median(Axis(bs, axis))
  }

  /** The median absolute deviation of one column, with 0 replaced by MadFloor. */
  function AxisMad(bs: seq<Box>, axis: nat): (d: real)
    requires |bs| > 0 && axis < 4
    ensures d > 0.0
  {
    var devs := AbsDeviations(Axis(bs, axis), AxisMedian(bs, axis));
    MedianWithin(devs, 0.0, MaxOf(devs));
    var mad := Median(devs);
    if mad == 0.0 then MadFloor else mad
  }

  /** |v - median| / MAD for one coordinate of box b. */
  function Deviation(bs: seq<Box>, b: Box, axis: nat): (d: real)
    requires |bs| > 0 && axis < 4
    ensures d >= 0.0
  {
    var distance := Abs(Coord(b, axis) - AxisMedian(bs, axis));
    var mad := AxisMad(bs, axis);
    QuotientNonNegative(distance, mad);
    distance / mad
  }

  lemma QuotientNonNegative(x: real, d: real)
    requires x >= 0.0 && d > 0.0
    ensures x / d >= 0.0
  {
    DivideBounds(0.0, x, d);
  }

  /** np.max(deviations, axis=1): the largest of the four deviations of box k. */
  function MaxDeviation(bs: seq<Box>, k: nat): (d: real)
    requires k < |bs|
    ensures Deviation(bs, bs[k], 0) <= d && Deviation(bs, bs[k], 1) <= d
    ensures Deviation(bs, bs[k], 2) <= d && Deviation(bs, bs[k], 3) <= d
    ensures d == Deviation(bs, bs[k], 0) || d == Deviation(bs, bs[k], 1) ||
            d == Deviation(bs, bs[k], 2) || d == Deviation(bs, bs[k], 3)
  {
    var d0, d1, d2, d3 := Deviation(bs, bs[k], 0), Deviation(bs, bs[k], 1), Deviation(bs, bs[k], 2), Deviation(bs, bs[k], 3);
    Max(Max(Max(d0, d1), d2), d3)
  }

  /** The mask max_deviation < threshold, one flag per row. */
  function InlierMask(bs: seq<Box>, threshold: real): (mask: seq<bool>)
    ensures |mask| == |bs|
  {
    seq(|bs|, k requires 0 <= k < |bs| => MaxDeviation(bs, k) < threshold)
  }

  /** Row k is flagged exactly when its largest deviation is below the threshold. */
  lemma InlierMaskExact(bs: seq<Box>, threshold: real)
    ensures forall k :: 0 <= k < |bs| ==> (InlierMask(bs, threshold)[k] <==> MaxDeviation(bs, k) < threshold)
  {
  }

  /** np.where(mask)[0] over the flags below upTo: the positions of the set flags. */
  function TrueIndices(mask: seq<bool>, upTo: nat): (r: seq<nat>)
    requires upTo <= |mask|
    ensures forall p :: 0 <= p < |r| ==> r[p] < upTo
  {
    if upTo == 0 then []
    else
      var k := upTo - 1;
      TrueIndices(mask, k) + (if mask[k] then [k] else [])
  }

  /** The positions come in increasing order. */
  lemma {:induction false} TrueIndicesIncreasing(mask: seq<bool>, upTo: nat)
    requires upTo <= |mask|
    ensures StrictlyIncreasing(TrueIndices(mask, upTo))
  {
    if upTo > 0 {
      var k := upTo - 1;
      TrueIndicesIncreasing(mask, k);
      var earlier := TrueIndices(mask, k);
      var tail: seq<nat> := if mask[k] then [k] else [];
      assert TrueIndices(mask, upTo) == earlier + tail;
      assert forall p :: 0 <= p < |earlier| ==> earlier[p] < k;
    }
  }

  /** A position below upTo is listed exactly when its flag is set. */
  lemma {:induction false} TrueIndicesExact(mask: seq<bool>, upTo: nat)
    requires upTo <= |mask|
    ensures forall k :: k in TrueIndices(mask, upTo) <==> 0 <= k < upTo && mask[k]
  {
    if upTo > 0 {
      var k := upTo - 1;
      TrueIndicesExact(mask, k);
      var earlier := TrueIndices(mask, k);
      assert TrueIndices(mask, upTo) == earlier + (if mask[k] then [k] else []);
    }
  }

  /** 0, 1, ..., n - 1. */
  function Range(n: nat): (r: seq<nat>)
    ensures |r| == n
    ensures forall k :: 0 <= k < n ==> r[k] == k
  {
    if n == 0 then [] else Range(n - 1) + [n - 1]
  }

  /**
   * remove_outliers_mad: with two boxes or fewer every index is kept;
   * otherwise the indices whose largest per-coordinate deviation from the
   * median, in units of the (floored) MAD, is below the threshold, and [0]
   * when that leaves nothing.
   */
  function RemoveOutliersMad(bs: seq<Box>, threshold: real): (r: seq<nat>)
    ensures |bs| <= 2 ==> r == Range(|bs|)
    ensures |bs| > 0 ==> |r| > 0
    ensures forall p :: 0 <= p < |r| ==> r[p] < |bs|
  {
    if |bs| <= 2 then Range(|bs|)
    else
      var inliers := TrueIndices(InlierMask(bs, threshold), |bs|);
      if inliers == [] then [0] else inliers
  }

  /**
   * With more than two boxes the filter keeps exactly the boxes whose largest
   * deviation is below the threshold, or just box 0 when no box is.
   */
  lemma RemoveOutliersMadExact(bs: seq<Box>, threshold: real)
    requires |bs| > 2
    ensures (forall k :: 0 <= k < |bs| ==> (k in RemoveOutliersMad(bs, threshold) <==> MaxDeviation(bs, k) < threshold)) ||
            (RemoveOutliersMad(bs, threshold) == [0] && forall k :: 0 <= k < |bs| ==> MaxDeviation(bs, k) >= threshold)
  {
    TrueIndicesExact(InlierMask(bs, threshold), |bs|);
    InlierMaskExact(bs, threshold);
  }

  /** The kept indices are increasing, so the filter keeps no more indices than there are boxes. */
  lemma RemoveOutliersMadShrinks(bs: seq<Box>, threshold: real)
    ensures StrictlyIncreasing(RemoveOutliersMad(bs, threshold))
    ensures |RemoveOutliersMad(bs, threshold)| <= |bs|
  {
    var r := RemoveOutliersMad(bs, threshold);
    if |bs| > 2 {
      TrueIndicesIncreasing(InlierMask(bs, threshold), |bs|);
    }
    StrictlyIncreasingBound(r, |bs|);
  }

  /** The state of the refinement loop: current_boxes and iteration_history. */
  datatype Refined = Refined(current: seq<Box>, history: seq<seq<Box>>)

  /** One round of the loop body: current_boxes filtered by the MAD rule. */
  function RefineStep(current: seq<Box>): (next: seq<Box>)
    ensures |current| > 0 ==> 0 < |next| <= |current|
  {
    RemoveOutliersMadShrinks(current, RefinementCutoff);
    Gather(current, RemoveOutliersMad(current, RefinementCutoff))
  }

  /**
   * The remaining `rounds` rounds of the loop: filter, stop as soon as at
   * most one box is left (without recording it), otherwise record the
   * survivors and go on. A round that removes nothing does not stop the loop.
   */
  function RefineRounds(current: seq<Box>, history: seq<seq<Box>>, rounds: nat): Refined
    decreases rounds
  {
    if rounds == 0 then Refined(current, history)
    else
      var next := RefineStep(current);
      if |next| <= 1 then Refined(next, history)
      else RefineRounds(next, history + [next], rounds - 1)
  }

  /** The whole loop for one group: start from the group, history [group]. */
  function Refine(group: seq<Box>, maxIterations: nat): Refined
  {
    RefineRounds(group, [group], maxIterations)
  }

  /** Every recorded round holds more than one box. */
  ghost predicate RecordedCrowded(history: seq<seq<Box>>, from: nat)
  {
    forall h :: from <= h < |history| ==> |history[h]| > 1
  }

  /** The remaining rounds neither grow nor empty the boxes, and record at most one entry per round. */
  lemma {:induction false} RefineRoundsSizes(current: seq<Box>, history: seq<seq<Box>>, rounds: nat)
    requires |current| > 0
    ensures 0 < |RefineRounds(current, history, rounds).current| <= |current|
    ensures |history| <= |RefineRounds(current, history, rounds).history| <= |history| + rounds
    decreases rounds
  {
    if rounds > 0 {
      var next := RefineStep(current);
      assert 0 < |next| <= |current|;
      if |next| > 1 {
        var longer := history + [next];
        RefineRoundsSizes(next, longer, rounds - 1);
        var r := RefineRounds(next, longer, rounds - 1);
        assert RefineRounds(current, history, rounds) == r;
        assert 0 < |r.current| <= |next|;
        assert |longer| <= |r.history| <= |longer| + rounds - 1;
      }
    }
  }

  /** The remaining rounds only append to the history, and every appended round holds more than one box. */
  lemma {:induction false} RefineRoundsHistory(current: seq<Box>, history: seq<seq<Box>>, rounds: nat)
    ensures var r := RefineRounds(current, history, rounds);
      history <= r.history && RecordedCrowded(r.history, |history|)
    decreases rounds
  {
    if rounds == 0 {
      assert RefineRounds(current, history, rounds) == Refined(current, history);
    } else {
      var next := RefineStep(current);
      if |next| <= 1 {
        assert RefineRounds(current, history, rounds) == Refined(next, history);
      } else {
        var longer := history + [next];
        RefineRoundsHistory(next, longer, rounds - 1);
        var r := RefineRounds(next, longer, rounds - 1);
        assert RefineRounds(current, history, rounds) == r;
        CrowdedExtend(history, next, r.history);
      }
    }
  }

  /** A history that extends history + [next], with next crowded, extends history and stays crowded past it. */
  lemma CrowdedExtend(history: seq<seq<Box>>, next: seq<Box>, extended: seq<seq<Box>>)
    requires |next| > 1
    requires history + [next] <= extended && RecordedCrowded(extended, |history| + 1)
    ensures history <= extended && RecordedCrowded(extended, |history|)
  {
    assert extended[|history|] == (history + [next])[|history|] == next;
    assert history == extended[..|history|];
  }

  /**
   * The refinement of a non-empty group never grows it, never empties it,
   * records at most maxIterations + 1 rounds, and starts its history with
   * the group itself.
   */
  lemma RefineBounds(group: seq<Box>, maxIterations: nat)
    requires |group| > 0
    ensures var r := Refine(group, maxIterations);
      0 < |r.current| <= |group| &&
      0 < |r.history| <= maxIterations + 1 &&
      r.history[0] == group &&
      forall h :: 0 <= h < |r.history| ==> |r.history[h]| > 0
  {
    RefineRoundsSizes(group, [group], maxIterations);
    RefineRoundsHistory(group, [group], maxIterations);
  }

  /**
   * The loop stops early only on one box or none, so a run that still holds
   * more than one box recorded every one of its rounds.
   */
  lemma {:induction false} CrowdedRecordsEveryRound(current: seq<Box>, history: seq<seq<Box>>, rounds: nat)
    ensures var r := RefineRounds(current, history, rounds);
      |r.current| > 1 ==> |r.history| == |history| + rounds
    decreases rounds
  {
    if rounds > 0 {
      var next := RefineStep(current);
      if |next| > 1 {
        var longer := history + [next];
        CrowdedRecordsEveryRound(next, longer, rounds - 1);
        var r := RefineRounds(next, longer, rounds - 1);
        assert RefineRounds(current, history, rounds) == r;
        assert |r.current| > 1 ==> |r.history| == |longer| + rounds - 1;
      }
    }
  }

  /**
   * A round that removes nothing does not stop the loop: when the group of at
   * least two boxes comes out of the loop whole, or with more than one box,
   * the history holds maxIterations + 1 entries.
   */
  lemma StableRoundsRecorded(group: seq<Box>, maxIterations: nat)
    requires |group| > 1
    ensures var r := Refine(group, maxIterations);
      (|r.current| > 1 ==> |r.history| == maxIterations + 1) &&
      (|r.current| == |group| ==> |r.history| == maxIterations + 1)
  {
    CrowdedRecordsEveryRound(group, [group], maxIterations);
  }

  /** A round that removes no box gives back the same boxes, records them and goes on. */
  lemma StableStep(current: seq<Box>, history: seq<seq<Box>>, rounds: nat)
    requires |current| > 1 && |RefineStep(current)| == |current| && rounds > 0
    ensures RefineRounds(current, history, rounds) == RefineRounds(current, history + [current], rounds - 1)
  {
    var kept := RemoveOutliersMad(current, RefinementCutoff);
    RemoveOutliersMadShrinks(current, RefinementCutoff);
    IncreasingFullIsIdentity(kept, |current|);
    assert RefineStep(current) == current;
  }

  /**
   * When the loop stops on a single survivor, the last recorded round is not
   * what the group ends with: iteration_history[-1] differs from current_boxes.
   */
  lemma BreakLeavesHistoryBehind(group: seq<Box>, maxIterations: nat)
    requires |group| > 1
    ensures var r := Refine(group, maxIterations);
      |r.current| <= 1 ==> forall h :: 0 <= h < |r.history| ==> r.history[h] != r.current
  {
    RefineRoundsSizes(group, [group], maxIterations);
    RefineRoundsHistory(group, [group], maxIterations);
  }

  /** The refinement loop of iterative_refinement, on the boxes of one group. */
  method RefineGroup(group: seq<Box>, maxIterations: nat) returns (current: seq<Box>, history: seq<seq<Box>>)
    ensures Refined(current, history) == Refine(group, maxIterations)
  {
    current := group;
    history := [group];
    for iteration := 0 to maxIterations
      invariant RefineRounds(current, history, maxIterations - iteration) == Refine(group, maxIterations)
    {
      var inliers := RemoveOutliersMad(current, RefinementCutoff);
      current := Gather(current, inliers);
      if |current| <= 1 {
        break;
      }
      history := history + [current];
    }
  }

  /**
   * The convergence term: 0.5 with a single recorded round, otherwise one
   * minus the ratio of the last round's variance to the first's (plus 1e-6),
   * clamped to [0, 1].
   */
  function Convergence(history: seq<seq<Box>>): (c: real)
    requires |history| > 0 && forall h :: 0 <= h < |history| ==> |history[h]| > 0
    ensures 0.0 <= c <= 1.0
    ensures |history| == 1 ==> c == 0.5
    ensures |history| > 1 && BoxVariance(history[|history| - 1]) == 0.0 ==> c == 1.0
  {
    if |history| > 1 then ConvergenceFrom(BoxVariance(history[0]), BoxVariance(history[|history| - 1]))
    else 0.5
  }

  /** 1 - final / (initial + 1e-6), clamped to [0, 1]; a final variance of 0 gives 1. */
  function ConvergenceFrom(initialVar: real, finalVar: real): (c: real)
    requires initialVar >= 0.0 && finalVar >= 0.0
    ensures 0.0 <= c <= 1.0
    ensures finalVar == 0.0 ==> c == 1.0
  {
    DivideBounds(0.0, finalVar, initialVar + ConvergenceEpsilon);
    Max(0.0, Min(1.0, 1.0 - finalVar / (initialVar + ConvergenceEpsilon)))
  }

  /** retention_rate: the fraction of the group that survived refinement. */
  function RetentionRate(nFinal: nat, nBoxes: nat): (r: real)
    requires nBoxes > 0
    ensures 0 < nFinal <= nBoxes ==> 0.0 < r <= 1.0
    ensures nFinal == nBoxes ==> r == 1.0
  {
    var r := (nFinal as real) / (nBoxes as real);
    if 0 < nFinal <= nBoxes then
      RatioInUnit(nFinal as real, nBoxes as real);
      r
    else r
  }

  lemma RatioInUnit(a: real, b: real)
    requires 0.0 < a <= b
    ensures 0.0 < a / b <= 1.0
  {
    DivideBounds(a, b, b);
    assert (a / b) * b == a;
  }

  /** The combined stability score: group size, retention, low variance, convergence. */
  function Stability(nBoxes: nat, retention: real, variance: real, convergence: real): (s: real)
    ensures 0.0 < retention <= 1.0 && variance >= 0.0 && 0.0 <= convergence <= 1.0 ==> 0.0 <= s <= 1.0
  {
    0.4 * Min(1.0, (nBoxes as real) / 5.0) + 0.3 * retention +
    0.2 * (1.0 - Min(1.0, variance * 10.0)) + 0.1 * convergence
  }

  /** A higher retention rate never lowers the stability score. */
  lemma StabilityMonotoneInRetention(nBoxes: nat, r1: real, r2: real, variance: real, convergence: real)
    requires r1 <= r2
    ensures Stability(nBoxes, r1, variance, convergence) <= Stability(nBoxes, r2, variance, convergence)
  {
  }

  /**
   * What iterative_refinement appends for one non-empty group: the mean of
   * the surviving boxes, their stability score and the seed's label.
   */
  function RefineOutcome(group: seq<Box>, classId: int, maxIterations: nat): (r: Fused)
    requires |group| > 0
    ensures r.classId == classId
    ensures 0.0 <= r.score <= 1.0
  {
    var refined := Refine(group, maxIterations);
    RefineBounds(group, maxIterations);
    var current := refined.current;
    var retention := RetentionRate(|current|, |group|);
    var variance := if |current| > 1 then BoxVariance(current) else 0.0;
    var convergence := Convergence(refined.history);
    assert 0.0 < retention <= 1.0 && variance >= 0.0 && 0.0 <= convergence <= 1.0;
    var stability := Stability(|group|, retention, variance, convergence);
    Fused(MeanBox(current), stability, classId)
  }

  /** A group of one box keeps it and scores 0.4 * 0.2 + 0.3 + 0.2 + 0.1 * 0.5 = 0.63. */
  lemma LoneBoxScore(b: Box, classId: int, maxIterations: nat)
    ensures RefineOutcome([b], classId, maxIterations) == Fused(b, 0.63, classId)
  {
    var refined := Refine([b], maxIterations);
    if maxIterations > 0 {
      assert RemoveOutliersMad([b], RefinementCutoff) == [0];
      assert RefineStep([b]) == [b];
    }
    assert refined == Refined([b], [[b]]);
  }

  /** The outcome of seed i: the refinement of its group. */
  function SeedOutcome(boxes: seq<Box>, labels: seq<int>, i: nat, threshold: real, maxIterations: nat): (r: Fused)
    requires |boxes| == |labels| && i < |boxes| && SimilarTo(boxes, labels, i, threshold) != []
    ensures r.classId == labels[i] && 0.0 <= r.score <= 1.0
  {
    RefineOutcome(Gather(boxes, SimilarTo(boxes, labels, i, threshold)), labels[i], maxIterations)
  }

  /** Index k lies in the group of some seed listed before position `count`. */
  ghost predicate Covered(boxes: seq<Box>, labels: seq<int>, seeds: seq<nat>, threshold: real, k: nat)
    requires |boxes| == |labels| && forall t :: 0 <= t < |seeds| ==> seeds[t] < |boxes|
  {
    exists t :: 0 <= t < |seeds| && k in SimilarTo(boxes, labels, seeds[t], threshold)
  }

  /** Index k lies in the group of a seed smaller than k's own position i. */
  ghost predicate CoveredBefore(boxes: seq<Box>, labels: seq<int>, seeds: seq<nat>, threshold: real, i: nat)
    requires |boxes| == |labels| && forall t :: 0 <= t < |seeds| ==> seeds[t] < |boxes|
  {
    exists t :: 0 <= t < |seeds| && seeds[t] < i && i in SimilarTo(boxes, labels, seeds[t], threshold)
  }

  /**
   * The seeds of iterative_refinement, scanned up to `upTo`: in increasing
   * order, and an index is a seed exactly when its group is non-empty and no
   * smaller seed's group has already marked it processed.
   */
  ghost predicate SeedsUpTo(boxes: seq<Box>, labels: seq<int>, seeds: seq<nat>, threshold: real, upTo: nat)
    requires |boxes| == |labels| && upTo <= |boxes|
  {
    StrictlyIncreasing(seeds) && (forall t :: 0 <= t < |seeds| ==> seeds[t] < upTo) &&
    (forall i :: 0 <= i < upTo ==>
       (i in seeds <==> SimilarTo(boxes, labels, i, threshold) != [] &&
                        !CoveredBefore(boxes, labels, seeds, threshold, i)))
  }

  /** The outcome of every seed, in seed order. */
  function Outcomes(boxes: seq<Box>, labels: seq<int>, seeds: seq<nat>, threshold: real, maxIterations: nat): (r: seq<Fused>)
    requires |boxes| == |labels|
    requires forall t :: 0 <= t < |seeds| ==> seeds[t] < |boxes| && SimilarTo(boxes, labels, seeds[t], threshold) != []
    ensures |r| == |seeds|
    ensures forall t :: 0 <= t < |seeds| ==> r[t] == SeedOutcome(boxes, labels, seeds[t], threshold, maxIterations)
  {
    seq(|seeds|, t requires 0 <= t < |seeds| => SeedOutcome(boxes, labels, seeds[t], threshold, maxIterations))
  }

  lemma OutcomesSnoc(boxes: seq<Box>, labels: seq<int>, seeds: seq<nat>, threshold: real, maxIterations: nat, s: nat)
    requires |boxes| == |labels| && s < |boxes| && SimilarTo(boxes, labels, s, threshold) != []
    requires forall t :: 0 <= t < |seeds| ==> seeds[t] < |boxes| && SimilarTo(boxes, labels, seeds[t], threshold) != []
    ensures Outcomes(boxes, labels, seeds + [s], threshold, maxIterations)
         == Outcomes(boxes, labels, seeds, threshold, maxIterations) + [SeedOutcome(boxes, labels, s, threshold, maxIterations)]
  {
    var longer := seeds + [s];
    assert longer[|seeds|] == s;
    assert forall t :: 0 <= t < |seeds| ==> longer[t] == seeds[t];
  }

  lemma CoveredAppend(boxes: seq<Box>, labels: seq<int>, seeds: seq<nat>, threshold: real, s: nat, k: nat)
    requires |boxes| == |labels| && s < |boxes| && forall t :: 0 <= t < |seeds| ==> seeds[t] < |boxes|
    ensures Covered(boxes, labels, seeds + [s], threshold, k) <==>
            Covered(boxes, labels, seeds, threshold, k) || k in SimilarTo(boxes, labels, s, threshold)
  {
    var longer := seeds + [s];
    assert longer[|seeds|] == s;
    assert forall t :: 0 <= t < |seeds| ==> longer[t] == seeds[t];
  }

  /** With every seed below i, being covered is being covered before i. */
  lemma CoveredIsBefore(boxes: seq<Box>, labels: seq<int>, seeds: seq<nat>, threshold: real, i: nat)
    requires |boxes| == |labels| && forall t :: 0 <= t < |seeds| ==> seeds[t] < i <= |boxes|
    ensures Covered(boxes, labels, seeds, threshold, i) <==> CoveredBefore(boxes, labels, seeds, threshold, i)
  {
  }

  /** A seed s placed after position i' does not change whether i' was covered before. */
  lemma CoveredBeforeAppend(boxes: seq<Box>, labels: seq<int>, seeds: seq<nat>, threshold: real, s: nat, i': nat)
    requires |boxes| == |labels| && s < |boxes| && forall t :: 0 <= t < |seeds| ==> seeds[t] < |boxes|
    requires i' <= s
    ensures CoveredBefore(boxes, labels, seeds + [s], threshold, i') <==> CoveredBefore(boxes, labels, seeds, threshold, i')
  {
    var next := seeds + [s];
    if CoveredBefore(boxes, labels, next, threshold, i') {
      var t :| 0 <= t < |next| && next[t] < i' && i' in SimilarTo(boxes, labels, next[t], threshold);
      assert t < |seeds| && next[t] == seeds[t];
    }
    if CoveredBefore(boxes, labels, seeds, threshold, i') {
      var t :| 0 <= t < |seeds| && seeds[t] < i' && i' in SimilarTo(boxes, labels, seeds[t], threshold);
      assert next[t] == seeds[t];
    }
  }

  /** Passing over index i (no group, or already processed) extends the seed characterisation to i. */
  lemma SkipStep(boxes: seq<Box>, labels: seq<int>, seeds: seq<nat>, threshold: real, i: nat)
    requires |boxes| == |labels| && i < |boxes|
    requires SeedsUpTo(boxes, labels, seeds, threshold, i)
    requires SimilarTo(boxes, labels, i, threshold) == [] || CoveredBefore(boxes, labels, seeds, threshold, i)
    ensures SeedsUpTo(boxes, labels, seeds, threshold, i + 1)
  {
  }

  /** Making index i a seed extends the seed characterisation to i. */
  lemma SeedStep(boxes: seq<Box>, labels: seq<int>, seeds: seq<nat>, threshold: real, i: nat)
    requires |boxes| == |labels| && i < |boxes|
    requires SeedsUpTo(boxes, labels, seeds, threshold, i)
    requires SimilarTo(boxes, labels, i, threshold) != [] && !CoveredBefore(boxes, labels, seeds, threshold, i)
    ensures SeedsUpTo(boxes, labels, seeds + [i], threshold, i + 1)
  {
    var next := seeds + [i];
    forall i' | 0 <= i' <= i
      ensures CoveredBefore(boxes, labels, next, threshold, i') <==> CoveredBefore(boxes, labels, seeds, threshold, i')
    {
      CoveredBeforeAppend(boxes, labels, seeds, threshold, i, i');
    }
  }

  /** The scan below `upTo` has found exactly `seeds`, and `outs` holds their outcomes. */
  ghost predicate Scanned(boxes: seq<Box>, labels: seq<int>, seeds: seq<nat>, threshold: real, maxIterations: nat,
                          upTo: nat, outs: seq<Fused>)
    requires |boxes| == |labels| && upTo <= |boxes|
  {
    SeedsUpTo(boxes, labels, seeds, threshold, upTo) &&
    (forall t :: 0 <= t < |seeds| ==> SimilarTo(boxes, labels, seeds[t], threshold) != []) &&
    outs == Outcomes(boxes, labels, seeds, threshold, maxIterations)
  }

  lemma ScanSeed(boxes: seq<Box>, labels: seq<int>, seeds: seq<nat>, threshold: real, maxIterations: nat,
                 i: nat, outs: seq<Fused>, outcome: Fused)
    requires |boxes| == |labels| && i < |boxes|
    requires Scanned(boxes, labels, seeds, threshold, maxIterations, i, outs)
    requires SimilarTo(boxes, labels, i, threshold) != [] && !CoveredBefore(boxes, labels, seeds, threshold, i)
    requires outcome == SeedOutcome(boxes, labels, i, threshold, maxIterations)
    ensures Scanned(boxes, labels, seeds + [i], threshold, maxIterations, i + 1, outs + [outcome])
  {
    SeedStep(boxes, labels, seeds, threshold, i);
    OutcomesSnoc(boxes, labels, seeds, threshold, maxIterations, i);
  }

  /** for idx in similar_indices: processed[idx] = True */
  method MarkProcessed(processed: array<bool>, group: seq<nat>)
    requires forall p :: 0 <= p < |group| ==> group[p] < processed.Length
    modifies processed
    ensures forall k :: 0 <= k < processed.Length ==> (processed[k] <==> old(processed[k]) || k in group)
  {
    for p := 0 to |group|
      invariant forall k :: 0 <= k < processed.Length ==> (processed[k] <==> old(processed[k]) || k in group[..p])
    {
      processed[group[p]] := true;
      assert group[..p + 1] == group[..p] + [group[p]];
    }
    assert group[..|group|] == group;
  }

  /** Marking seed i's group processed: the processed flags now mark the groups of seeds + [i]. */
  method MarkGroup(boxes: seq<Box>, labels: seq<int>, threshold: real, i: nat, similar: seq<nat>,
                   processed: array<bool>, ghost seeds: seq<nat>)
    requires |boxes| == |labels| == processed.Length && i < |boxes|
    requires forall t :: 0 <= t < |seeds| ==> seeds[t] < |boxes|
    requires similar == SimilarTo(boxes, labels, i, threshold)
    requires forall k :: 0 <= k < processed.Length ==> (processed[k] <==> Covered(boxes, labels, seeds, threshold, k))
    modifies processed
    ensures forall k :: 0 <= k < processed.Length ==> (processed[k] <==> Covered(boxes, labels, seeds + [i], threshold, k))
  {
    MarkProcessed(processed, similar);
    forall k | 0 <= k < processed.Length
      ensures processed[k] <==> Covered(boxes, labels, seeds + [i], threshold, k)
    {
      CoveredAppend(boxes, labels, seeds, threshold, i, k);
    }
  }

  /**
   * The body of iterative_refinement for one seed with a non-empty group:
   * refine the group, then take the mean of the survivors and score them.
   */
  method RefineSeed(boxes: seq<Box>, labels: seq<int>, i: nat, similar: seq<nat>, threshold: real, maxIterations: nat)
    returns (finalBox: Box, stability: real)
    requires |boxes| == |labels| && i < |boxes|
    requires similar == SimilarTo(boxes, labels, i, threshold) && similar != []
    ensures Fused(finalBox, stability, labels[i]) == SeedOutcome(boxes, labels, i, threshold, maxIterations)
    ensures 0.0 <= stability <= 1.0
  {
    var group := Gather(boxes, similar);
    finalBox, stability := RefineAndScore(group, labels[i], maxIterations);
  }

  /** Refine one gathered group, then take the mean of the survivors and score them. */
  method RefineAndScore(group: seq<Box>, classId: int, maxIterations: nat) returns (finalBox: Box, stability: real)
    requires |group| > 0
    ensures Fused(finalBox, stability, classId) == RefineOutcome(group, classId, maxIterations)
  {
    var currentBoxes, history := RefineGroup(group, maxIterations);
    RefineBounds(group, maxIterations);
    finalBox := MeanBox(currentBoxes);
    var nBoxes, nFinal := |group|, |currentBoxes|;
    var retention := RetentionRate(nFinal, nBoxes);
    var variance := if nFinal > 1 then BoxVariance(currentBoxes) else 0.0;
    var convergence := Convergence(history);
    stability := Stability(nBoxes, retention, variance, convergence);
  }

  /** The processed flags mark exactly the boxes in the group of some seed. */
  ghost predicate MarksCovered(flags: seq<bool>, boxes: seq<Box>, labels: seq<int>, seeds: seq<nat>, threshold: real)
    requires |boxes| == |labels| == |flags| && forall t :: 0 <= t < |seeds| ==> seeds[t] < |boxes|
  {
    forall k :: 0 <= k < |flags| ==> (flags[k] <==> Covered(boxes, labels, seeds, threshold, k))
  }

  /**
   * One pass of the loop of iterative_refinement at index i: a processed box
   * or a box with an empty group is passed over; otherwise its group is
   * marked processed and its refinement outcome is appended.
   */
  method ScanIndex(boxes: seq<Box>, labels: seq<int>, threshold: real, maxIterations: nat, i: nat,
                   processed: array<bool>, refinedBoxes: seq<Box>, stabilityScores: seq<real>, refinedLabels: seq<int>,
                   ghost seeds: seq<nat>)
    returns (refinedBoxes': seq<Box>, stabilityScores': seq<real>, refinedLabels': seq<int>, ghost seeds': seq<nat>)
    requires |boxes| == |labels| == processed.Length && i < |boxes|
    requires |refinedBoxes| == |stabilityScores| == |refinedLabels| == |seeds|
    requires Scanned(boxes, labels, seeds, threshold, maxIterations, i, Zip3(refinedBoxes, stabilityScores, refinedLabels))
    requires MarksCovered(processed[..], boxes, labels, seeds, threshold)
    modifies processed
    ensures |refinedBoxes'| == |stabilityScores'| == |refinedLabels'| == |seeds'|
    ensures Scanned(boxes, labels, seeds', threshold, maxIterations, i + 1, Zip3(refinedBoxes', stabilityScores', refinedLabels'))
    ensures MarksCovered(processed[..], boxes, labels, seeds', threshold)
  {
    refinedBoxes', stabilityScores', refinedLabels', seeds' := refinedBoxes, stabilityScores, refinedLabels, seeds;
    CoveredIsBefore(boxes, labels, seeds, threshold, i);
    assert processed[..][i] == processed[i];
    if processed[i] {
      SkipStep(boxes, labels, seeds, threshold, i);
      return;
    }
    var similar := FindSimilarBoxes(boxes[i], labels[i], boxes, labels, threshold);
    if similar == [] {
      SkipStep(boxes, labels, seeds, threshold, i);
      return;
    }
    MarkGroup(boxes, labels, threshold, i, similar, processed, seeds);
    var finalBox, stability := RefineSeed(boxes, labels, i, similar, threshold, maxIterations);
    var outcome := Fused(finalBox, stability, labels[i]);
    ScanSeed(boxes, labels, seeds, threshold, maxIterations, i, Zip3(refinedBoxes, stabilityScores, refinedLabels), outcome);
    Zip3Snoc(refinedBoxes, stabilityScores, refinedLabels, outcome);
    refinedBoxes' := refinedBoxes + [finalBox];
    stabilityScores' := stabilityScores + [stability];
    refinedLabels' := refinedLabels + [labels[i]];
    seeds' := seeds + [i];
  }

  /**
   * iterative_refinement: scan the boxes in order; an unprocessed box with a
   * non-empty group of similar boxes marks the whole group processed and
   * yields the refinement outcome of that group. Groups may overlap.
   */
  method IterativeRefinementScan(boxes: seq<Box>, labels: seq<int>, threshold: real, maxIterations: nat)
    returns (refinedBoxes: seq<Box>, stabilityScores: seq<real>, refinedLabels: seq<int>, ghost seeds: seq<nat>)
    requires |boxes| == |labels|
    ensures |refinedBoxes| == |stabilityScores| == |refinedLabels| == |seeds|
    ensures SeedsUpTo(boxes, labels, seeds, threshold, |boxes|)
    ensures forall t :: 0 <= t < |seeds| ==> SimilarTo(boxes, labels, seeds[t], threshold) != []
    ensures Zip3(refinedBoxes, stabilityScores, refinedLabels) == Outcomes(boxes, labels, seeds, threshold, maxIterations)
  {
    var n := |boxes|;
    var processed := new bool[n](_ => false);
    refinedBoxes, stabilityScores, refinedLabels, seeds := [], [], [], [];
    for i := 0 to n
      invariant |refinedBoxes| == |stabilityScores| == |refinedLabels| == |seeds|
      invariant Scanned(boxes, labels, seeds, threshold, maxIterations, i, Zip3(refinedBoxes, stabilityScores, refinedLabels))
      invariant MarksCovered(processed[..], boxes, labels, seeds, threshold)
    {
      refinedBoxes, stabilityScores, refinedLabels, seeds :=
        ScanIndex(boxes, labels, threshold, maxIterations, i, processed, refinedBoxes, stabilityScores, refinedLabels, seeds);
    }
  }

  /** A box of zero width or height never seeds a group, so it yields no output. */
  lemma DegenerateNeverSeeds(boxes: seq<Box>, labels: seq<int>, seeds: seq<nat>, threshold: real, i: nat)
    requires |boxes| == |labels| && i < |boxes| && threshold >= 0.0
    requires SeedsUpTo(boxes, labels, seeds, threshold, |boxes|)
    requires boxes[i].x1 == boxes[i].x2 || boxes[i].y1 == boxes[i].y2
    ensures i !in seeds
  {
    DegenerateSeedHasNoGroup(boxes, labels, i, threshold);
  }

  /**
   * process_with_iterative_refinement on in-memory annotation sets: flatten
   * them, run the refinement scan, and keep, in seed order, the outcomes whose
   * stability reaches minStability; with no box at all the lists are empty.
   */
  method ProcessWithIterativeRefinement(sets: seq<AnnotationSet>, iouThreshold: real, minStability: real,
                                        maxIterations: nat)
    returns (filteredBoxes: seq<Box>, filteredScores: seq<real>, filteredLabels: seq<int>, ghost seeds: seq<nat>)
    requires forall k :: 0 <= k < |sets| ==> Parallel(sets[k])
    ensures |filteredBoxes| == |filteredScores| == |filteredLabels|
    ensures |FlatBoxes(sets)| == |FlatLabels(sets)|
    ensures FlatBoxes(sets) == [] ==> filteredBoxes == [] && seeds == []
    ensures SeedsUpTo(FlatBoxes(sets), FlatLabels(sets), seeds, iouThreshold, |FlatBoxes(sets)|)
    ensures forall t :: 0 <= t < |seeds| ==> SimilarTo(FlatBoxes(sets), FlatLabels(sets), seeds[t], iouThreshold) != []
    ensures Zip3(filteredBoxes, filteredScores, filteredLabels)
         == KeepAtLeast(Outcomes(FlatBoxes(sets), FlatLabels(sets), seeds, iouThreshold, maxIterations), minStability)
  {
    var allBoxes := FlatBoxes(sets);
    var allLabels := FlatLabels(sets);
    FlatParallel(sets);
    if allBoxes == [] {
      return [], [], [], [];
    }
    var refinedBoxes, stabilityScores, refinedLabels, found :=
      IterativeRefinementScan(allBoxes, allLabels, iouThreshold, maxIterations);
    seeds := found;
    filteredBoxes, filteredScores, filteredLabels :=
      FilterAtLeast(refinedBoxes, stabilityScores, refinedLabels, minStability);
  }
}
