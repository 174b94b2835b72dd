/**
 * approach1_wbf_confidence.py: every box is scored by its redundancy, that
 * is by how many boxes of the same class overlap it and how strongly, and
 * the flat score list is cut back into one list per annotator for the
 * weighted-boxes-fusion call.
 */
module WbfConfidence {
  import opened Stats
  import opened Geometry
  import opened Annotations

  /** The IoU threshold process_with_wbf scores redundancy with (the scorer's default). */
  const RedundancyThreshold: real := 0.5

  /**
   * The score of one box from the IoUs of its partners: 0.3 for a box with no
   * partner, otherwise 0.5 + min(k, 5) / 10 + 0.3 * mean + 0.1 * max, capped at 1.
   */
  function RedundancyScore(overlaps: seq<real>): (s: real)
    ensures overlaps == [] ==> s == 0.3
    ensures overlaps != [] && (forall k :: 0 <= k < |overlaps| ==> overlaps[k] >= 0.0) ==> 0.6 <= s <= 1.0
  {
    if |overlaps| > 0 then
      var count := |overlaps|;
      var capped := if count <= 5 then count else 5;
      var raw := 0.5 + (capped as real) / 10.0 + Mean(overlaps) * 0.3 + MaxOf(overlaps) * 0.1;
      if forall k :: 0 <= k < |overlaps| ==> overlaps[k] >= 0.0 then
        MeanAtLeast(overlaps, 0.0);
        Min(1.0, raw)
      else Min(1.0, raw)
    else 0.3
  }

  /** The redundancy score of box i. */
  function Redundancy(boxes: seq<Box>, labels: seq<int>, i: nat, threshold: real): real
    requires |boxes| == |labels| && i < |boxes|
  {
    RedundancyScore(Overlaps(boxes, labels, i, threshold))
  }

  /**
   * A box scores exactly 0.3 when no other box of its class beats the
   * threshold against it, and between 0.6 and 1 otherwise; so 0.3 marks
   * exactly the isolated boxes.
   */
  lemma RedundancyIsolation(boxes: seq<Box>, labels: seq<int>, i: nat, threshold: real)
    requires |boxes| == |labels| && i < |boxes|
    ensures (forall j :: 0 <= j < |boxes| ==> !IsPartner(boxes, labels, i, j, threshold)) ==>
              Redundancy(boxes, labels, i, threshold) == 0.3
    ensures (exists j :: 0 <= j < |boxes| && IsPartner(boxes, labels, i, j, threshold)) ==>
              0.6 <= Redundancy(boxes, labels, i, threshold) <= 1.0
  {
    OverlapsEmptyIff(boxes, labels, i, threshold, |boxes|);
  }

  /**
   * The score of box i depends only on box i and the boxes of its class:
   * boxes of other classes may change freely.
   */
  lemma RedundancyLocal(boxes: seq<Box>, labels: seq<int>, boxes': seq<Box>, labels': seq<int>, i: nat, threshold: real)
    requires |boxes| == |labels| == |boxes'| == |labels'| && i < |boxes|
    requires AgreeAround(boxes, labels, boxes', labels', i)
    ensures Redundancy(boxes, labels, i, threshold) == Redundancy(boxes', labels', i, threshold)
  {
    OverlapsLocal(boxes, labels, boxes', labels', i, threshold, |boxes|);
  }

  /** Every box's redundancy score, in box order. */
  function Redundancies(boxes: seq<Box>, labels: seq<int>, threshold: real): (r: seq<real>)
    requires |boxes| == |labels|
    ensures |r| == |boxes|
    ensures forall i :: 0 <= i < |boxes| ==> r[i] == Redundancy(boxes, labels, i, threshold)
  {
    seq(|boxes|, i requires 0 <= i < |boxes| => Redundancy(boxes, labels, i, threshold))
  }

  /** The inner loop of calculate_confidence_from_redundancy: the overlaps list of box i. */
  method CollectOverlaps(boxes: seq<Box>, labels: seq<int>, i: nat, threshold: real) returns (overlaps: seq<real>)
    requires |boxes| == |labels| && i < |boxes|
    ensures overlaps == Overlaps(boxes, labels, i, threshold)
  {
    overlaps := [];
    for j := 0 to |boxes|
      invariant overlaps == OverlapsUpTo(boxes, labels, i, threshold, j)
    {
      if i != j && labels[i] == labels[j] {
        var iou := Iou(boxes[i], boxes[j]);
        if iou > threshold {
          overlaps := overlaps + [iou];
        }
      }
    }
  }

  /**
   * calculate_confidence_from_redundancy: for each box, collect the IoUs of
   * the other same-label boxes that beat the threshold, then score them.
   */
  method ConfidenceFromRedundancy(boxes: seq<Box>, labels: seq<int>, threshold: real) returns (scores: seq<real>)
    requires |boxes| == |labels|
    ensures scores == Redundancies(boxes, labels, threshold)
  {
    ghost var all := Redundancies(boxes, labels, threshold);
    scores := [];
    for i := 0 to |boxes|
      invariant scores == all[..i]
    {
      var score := ScoreBox(boxes, labels, i, threshold);
      assert all[..i + 1] == all[..i] + [score];
      scores := scores + [score];
    }
    assert all[..|boxes|] == all;
  }

  /** One pass of calculate_confidence_from_redundancy: collect box i's overlaps and score them. */
  method ScoreBox(boxes: seq<Box>, labels: seq<int>, i: nat, threshold: real) returns (score: real)
    requires |boxes| == |labels| && i < |boxes|
    ensures score == Redundancy(boxes, labels, i, threshold)
  {
    var overlaps := CollectOverlaps(boxes, labels, i, threshold);
    score := RedundancyScore(overlaps);
  }

  /** The reading loop of process_with_wbf: keep the annotators that have boxes. */
  method DropEmptyAnnotators(sets: seq<AnnotationSet>) returns (allBoxes: seq<seq<Box>>, allLabels: seq<seq<int>>)
    ensures allBoxes == BoxLists(NonEmptySets(sets)) && allLabels == LabelLists(NonEmptySets(sets))
  {
    ghost var kept: seq<AnnotationSet> := [];
    allBoxes, allLabels := [], [];
    for k := 0 to |sets|
      invariant kept == NonEmptySets(sets[..k])
      invariant allBoxes == BoxLists(kept) && allLabels == LabelLists(kept)
    {
      NonEmptySetsStep(sets, k);
      if sets[k].boxes != [] {
        ListsSnoc(kept, sets[k]);
        allBoxes := allBoxes + [sets[k].boxes];
        allLabels := allLabels + [sets[k].labels];
        kept := kept + [sets[k]];
      }
    }
    assert sets[..|sets|] == sets;
  }

  /**
   * The redistribution loop of process_with_wbf: cut the flat score list into
   * consecutive slices, one per annotator, as long as its box list.
   */
  method RedistributeScores(allBoxes: seq<seq<Box>>, flatScores: seq<real>) returns (allScores: seq<seq<real>>)
    requires |flatScores| == TotalLength(allBoxes)
    ensures Tiles(allScores, allBoxes, flatScores)
  {
    var idx := 0;
    allScores := [];
    for k := 0 to |allBoxes|
      invariant idx == TotalLength(allBoxes[..k]) && idx <= |flatScores|
      invariant Tiles(allScores, allBoxes[..k], flatScores[..idx])
    {
      TotalLengthPrefix(allBoxes, k);
      var n := |allBoxes[k]|;
      TileStep(allScores, allBoxes, flatScores, idx, k);
      allScores := allScores + [flatScores[idx..idx + n]];
      idx := idx + n;
    }
    assert allBoxes[..|allBoxes|] == allBoxes;
    if |allBoxes| > 0 {
      TotalLengthPrefix(allBoxes, |allBoxes| - 1);
    }
    assert flatScores[..idx] == flatScores;
  }

  /**
   * process_with_wbf up to the fusion call: keep the annotators that have
   * boxes, score the flattened boxes by redundancy, and cut the flat score
   * list back into one list per kept annotator with a running offset. The
   * result is what weighted_boxes_fusion receives.
   */
  method ProcessWithWbf(sets: seq<AnnotationSet>)
    returns (allBoxes: seq<seq<Box>>, allScores: seq<seq<real>>, allLabels: seq<seq<int>>)
    requires forall k :: 0 <= k < |sets| ==> Parallel(sets[k])
    ensures allBoxes == BoxLists(NonEmptySets(sets)) && allLabels == LabelLists(NonEmptySets(sets))
    ensures forall k :: 0 <= k < |allBoxes| ==> allBoxes[k] != []
    ensures |FlatBoxes(sets)| == |FlatLabels(sets)|
    ensures Tiles(allScores, allBoxes, Redundancies(FlatBoxes(sets), FlatLabels(sets), RedundancyThreshold))
  {
    allBoxes, allLabels := DropEmptyAnnotators(sets);
    ghost var kept := NonEmptySets(sets);
    NonEmptySetsFlatten(sets);
    FlatParallel(sets);
    if allBoxes == [] {
      assert FlatBoxes(sets) == FlatBoxes(kept) == [];
      return [], [], [];
    }
    var flatBoxes := Concat(allBoxes);
    var flatLabels := Concat(allLabels);
    assert flatBoxes == FlatBoxes(kept) && flatLabels == FlatLabels(kept);
    var confidence := ConfidenceFromRedundancy(flatBoxes, flatLabels, RedundancyThreshold);
    ConcatLength(allBoxes);
    allScores := RedistributeScores(allBoxes, confidence);
  }
}
