/**
 * kiro_wbf.py: the centre/size parsing of each annotation line, the
 * redundancy scorer (overlap count and mean IoU, with an uncapped count),
 * the in-place redistribution of the flat scores into the per-annotator
 * score lists handed to weighted-boxes fusion, and the conversion of fused
 * boxes back to centre/size entries.
 */
module KiroWbf {
  import opened Stats
  import opened Geometry
  import opened Annotations
  import WbfConfidence

  /** The IoU threshold process_annotations_with_wbf scores redundancy with. */
  const ScoreThreshold: real := 0.5

  /** The uniform initial score 1.0 that every parsed box receives. */
  function InitialScores(n: nat): (s: seq<real>)
    ensures |s| == n && forall k :: 0 <= k < n ==> s[k] == 1.0
  {
    seq(n, k => 1.0)
  }

  /** The initial score lists, one list of ones per annotator. */
  function InitialLists(allBoxes: seq<seq<Box>>): (r: seq<seq<real>>)
    ensures |r| == |allBoxes| && forall k :: 0 <= k < |allBoxes| ==> r[k] == InitialScores(|allBoxes[k]|)
  {
    seq(|allBoxes|, k requires 0 <= k < |allBoxes| => InitialScores(|allBoxes[k]|))
  }

  lemma InitialListsSnoc(allBoxes: seq<seq<Box>>, boxes: seq<Box>)
    ensures InitialLists(allBoxes + [boxes]) == InitialLists(allBoxes) + [InitialScores(|boxes|)]
  {
  }

  /** Every annotation file, parsed. */
  function ParseAll(files: seq<seq<Record>>): (sets: seq<AnnotationSet>)
    ensures |sets| == |files|
    ensures forall k :: 0 <= k < |files| ==> sets[k] == ParseRecords(files[k]) && Parallel(sets[k])
  {
    seq(|files|, k requires 0 <= k < |files| => ParseRecords(files[k]))
  }

  /**
   * The score of assign_confidence_scores from the number of partners and
   * the sum of their IoUs: 0.3 without partners, otherwise
   * min(1, 0.5 + 0.1 * count + 0.3 * average), the count not capped.
   */
  function KiroScore(count: nat, total: real): (s: real)
    ensures count == 0 ==> s == 0.3
    ensures count > 0 && total >= 0.0 ==> 0.6 <= s <= 1.0
  {
    if count > 0 then
      var average := total / (count as real);
      if total >= 0.0 then
        DivideBounds(0.0, total, count as real);
        Min(1.0, 0.5 + (count as real) * 0.1 + average * 0.3)
      else Min(1.0, 0.5 + (count as real) * 0.1 + average * 0.3)
    else 0.3
  }

  /** The score of box i: its partner count and the sum of its partners' IoUs. */
  function KiroRedundancy(boxes: seq<Box>, labels: seq<int>, i: nat, threshold: real): real
    requires |boxes| == |labels| && i < |boxes|
  {
    var overlaps := Overlaps(boxes, labels, i, threshold);
    KiroScore(|overlaps|, Sum(overlaps))
  }

  function KiroRedundancies(boxes: seq<Box>, labels: seq<int>, threshold: real): (r: seq<real>)
    requires |boxes| == |labels|
    ensures |r| == |boxes|
    ensures forall i :: 0 <= i < |boxes| ==> r[i] == KiroRedundancy(boxes, labels, i, threshold)
  {
    seq(|boxes|, i requires 0 <= i < |boxes| => KiroRedundancy(boxes, labels, i, threshold))
  }

  /** Exactly the boxes without a same-label partner score 0.3; the others lie in [0.6, 1]. */
  lemma KiroIsolation(boxes: seq<Box>, labels: seq<int>, i: nat, threshold: real)
    requires |boxes| == |labels| && i < |boxes|
    ensures (forall j :: 0 <= j < |boxes| ==> !IsPartner(boxes, labels, i, j, threshold)) ==>
              KiroRedundancy(boxes, labels, i, threshold) == 0.3
    ensures (exists j :: 0 <= j < |boxes| && IsPartner(boxes, labels, i, j, threshold)) ==>
              0.6 <= KiroRedundancy(boxes, labels, i, threshold) <= 1.0
  {
    var overlaps := Overlaps(boxes, labels, i, threshold);
    OverlapsEmptyIff(boxes, labels, i, threshold, |boxes|);
    SumAtLeast(overlaps, 0.0);
  }

  /**
   * The count is not capped: five or more partners alone push the raw score
   * to 1, so such a box always scores exactly 1.
   */
  lemma KiroManyPartnersSaturate(boxes: seq<Box>, labels: seq<int>, i: nat, threshold: real)
    requires |boxes| == |labels| && i < |boxes|
    requires |Overlaps(boxes, labels, i, threshold)| >= 5
    ensures KiroRedundancy(boxes, labels, i, threshold) == 1.0
  {
    var overlaps := Overlaps(boxes, labels, i, threshold);
    SumAtLeast(overlaps, 0.0);
    DivideBounds(0.0, Sum(overlaps), |overlaps| as real);
  }

  /**
   * With at most five partners the two redundancy scorers differ only by the
   * 0.1 * max term of approach 1, so this score never exceeds that one.
   */
  lemma KiroAtMostApproach1(boxes: seq<Box>, labels: seq<int>, i: nat, threshold: real)
    requires |boxes| == |labels| && i < |boxes|
    requires |Overlaps(boxes, labels, i, threshold)| <= 5
    ensures KiroRedundancy(boxes, labels, i, threshold) <= WbfConfidence.Redundancy(boxes, labels, i, threshold)
  {
    var overlaps := Overlaps(boxes, labels, i, threshold);
    if |overlaps| > 0 {
      var m := MaxOf(overlaps);
      assert m in overlaps;
      assert m >= 0.0;
    }
  }

  /** The inner loop of assign_confidence_scores: partner count and IoU total of box i. */
  method CountOverlaps(boxes: seq<Box>, labels: seq<int>, i: nat, threshold: real) returns (count: nat, total: real)
    requires |boxes| == |labels| && i < |boxes|
    ensures count == |Overlaps(boxes, labels, i, threshold)|
    ensures total == Sum(Overlaps(boxes, labels, i, threshold))
  {
    count, total := 0, 0.0;
    for j := 0 to |boxes|
      invariant count == |OverlapsUpTo(boxes, labels, i, threshold, j)|
      invariant total == Sum(OverlapsUpTo(boxes, labels, i, threshold, j))
    {
      ghost var before := OverlapsUpTo(boxes, labels, i, threshold, j);
      if i != j && labels[i] == labels[j] {
        var iou := Iou(boxes[i], boxes[j]);
        if iou > threshold {
          assert OverlapsUpTo(boxes, labels, i, threshold, j + 1) == before + [iou];
          assert (before + [iou])[..|before|] == before;
          count := count + 1;
          total := total + iou;
        } else {
          assert OverlapsUpTo(boxes, labels, i, threshold, j + 1) == before;
        }
      } else {
        assert OverlapsUpTo(boxes, labels, i, threshold, j + 1) == before;
      }
    }
  }

  /**
   * assign_confidence_scores: start from a score array of ones and overwrite
   * every entry with the redundancy score of its box.
   */
  method AssignConfidenceScores(boxes: seq<Box>, labels: seq<int>, threshold: real) returns (scores: seq<real>)
    requires |boxes| == |labels|
    ensures scores == KiroRedundancies(boxes, labels, threshold)
  {
    var n := |boxes|;
    var s := new real[n](_ => 1.0);
    for i := 0 to n
      invariant forall k :: 0 <= k < i ==> s[k] == KiroRedundancy(boxes, labels, k, threshold)
    {
      var count, total := CountOverlaps(boxes, labels, i, threshold);
      if count > 0 {
        var average := total / (count as real);
        s[i] := Min(1.0, 0.5 + (count as real) * 0.1 + average * 0.3);
      } else {
        s[i] := 0.3;
      }
    }
    scores := s[..];
  }

  /**
   * The reading loop of process_annotations_with_wbf: parse every file and
   * keep, with their initial scores, the annotators that have boxes.
   */
  method ReadNonEmpty(files: seq<seq<Record>>)
    returns (allBoxes: seq<seq<Box>>, allScores: seq<seq<real>>, allLabels: seq<seq<int>>)
    ensures allBoxes == BoxLists(NonEmptySets(ParseAll(files))) && allLabels == LabelLists(NonEmptySets(ParseAll(files)))
    ensures allScores == InitialLists(allBoxes)
  {
    ghost var sets := ParseAll(files);
    ghost var kept: seq<AnnotationSet> := [];
    allBoxes, allScores, allLabels := [], [], [];
    for k := 0 to |files|
      invariant kept == NonEmptySets(sets[..k])
      invariant allBoxes == BoxLists(kept) && allLabels == LabelLists(kept)
      invariant allScores == InitialLists(allBoxes)
    {
      var parsed := ParseRecords(files[k]);
      assert parsed == sets[k];
      NonEmptySetsStep(sets, k);
      if parsed.boxes != [] {
        ListsSnoc(kept, parsed);
        InitialListsSnoc(allBoxes, parsed.boxes);
        allBoxes := allBoxes + [parsed.boxes];
        allScores := allScores + [InitialScores(|parsed.boxes|)];
        allLabels := allLabels + [parsed.labels];
        kept := kept + [parsed];
      }
    }
    assert sets[..|files|] == sets;
  }

  /**
   * The redistribution loop of process_annotations_with_wbf: overwrite each
   * annotator's score list, in place, with the next slice of the flat scores.
   */
  method RedistributeInPlace(allBoxes: seq<seq<Box>>, allScores: seq<seq<real>>, flatScores: seq<real>)
    returns (updated: seq<seq<real>>)
    requires |allScores| == |allBoxes| && |flatScores| == TotalLength(allBoxes)
    ensures Tiles(updated, allBoxes, flatScores)
  {
    updated := allScores;
    var idx := 0;
    for i := 0 to |allBoxes|
      invariant |updated| == |allBoxes|
      invariant idx == TotalLength(allBoxes[..i]) && idx <= |flatScores|
      invariant Tiles(updated[..i], allBoxes[..i], flatScores[..idx])
    {
      TotalLengthPrefix(allBoxes, i);
      var n := |allBoxes[i]|;
      TileStep(updated[..i], allBoxes, flatScores, idx, i);
      updated := updated[i := flatScores[idx..idx + n]];
      assert updated[..i + 1] == updated[..i] + [flatScores[idx..idx + n]];
      idx := idx + n;
    }
    assert allBoxes[..|allBoxes|] == allBoxes;
    assert updated[..|allBoxes|] == updated;
    if |allBoxes| > 0 {
      TotalLengthPrefix(allBoxes, |allBoxes| - 1);
    }
    assert flatScores[..idx] == flatScores;
  }

  /** The flattening loop of process_annotations_with_wbf: extend one list by each per-annotator list. */
  method Flatten<T>(lists: seq<seq<T>>) returns (flat: seq<T>)
    ensures flat == Concat(lists)
  {
    flat := [];
    for k := 0 to |lists|
      invariant flat == Concat(lists[..k])
    {
      assert lists[..k + 1][..k] == lists[..k];
      flat := flat + lists[k];
    }
    assert lists[..|lists|] == lists;
  }

  /**
   * process_annotations_with_wbf up to the fusion call: read the files, keep
   * the annotators with boxes, score the flattened boxes, and replace each
   * annotator's initial scores by its slice of the flat scores. The result is
   * what weighted_boxes_fusion receives.
   */
  method ProcessAnnotationsWithWbf(files: seq<seq<Record>>)
    returns (allBoxes: seq<seq<Box>>, allScores: seq<seq<real>>, allLabels: seq<seq<int>>)
    ensures allBoxes == BoxLists(NonEmptySets(ParseAll(files))) && allLabels == LabelLists(NonEmptySets(ParseAll(files)))
    ensures forall k :: 0 <= k < |allBoxes| ==> allBoxes[k] != []
    ensures |FlatBoxes(ParseAll(files))| == |FlatLabels(ParseAll(files))|
    ensures Tiles(allScores, allBoxes,
                  KiroRedundancies(FlatBoxes(ParseAll(files)), FlatLabels(ParseAll(files)), ScoreThreshold))
  {
    ghost var sets := ParseAll(files);
    allBoxes, allScores, allLabels := ReadNonEmpty(files);
    ghost var kept := NonEmptySets(sets);
    NonEmptySetsFlatten(sets);
    FlatParallel(sets);
    if allBoxes == [] {
      assert FlatBoxes(sets) == FlatBoxes(kept) == [];
      return [], [], [];
    }
    var flatBoxes := Flatten(allBoxes);
    var flatLabels := Flatten(allLabels);
    assert flatBoxes == FlatBoxes(kept) && flatLabels == FlatLabels(kept);
    var confidence := AssignConfidenceScores(flatBoxes, flatLabels, ScoreThreshold);
    ConcatLength(allBoxes);
    allScores := RedistributeInPlace(allBoxes, allScores, confidence);
  }

  /**
   * The arithmetic of convert_to_yolo_format: centre at the midpoint of the
   * corners, size from their differences.
   */
  function MidpointToYolo(b: Box): (y: Yolo)
    ensures y == CornersToYolo(b)
    ensures YoloToCorners(y) == b
  {
    Yolo((b.x1 + b.x2) / 2.0, (b.y1 + b.y2) / 2.0, b.x2 - b.x1, b.y2 - b.y1)
  }

  /**
   * convert_to_yolo_format: one entry per (box, label) pair of zip(boxes,
   * labels), which stops at the shorter list.
   */
  method ConvertToYoloFormat(boxes: seq<Box>, labels: seq<int>) returns (entries: seq<Record>)
    ensures |entries| == if |boxes| <= |labels| then |boxes| else |labels|
    ensures forall k :: 0 <= k < |entries| ==> entries[k] == Record(labels[k], MidpointToYolo(boxes[k]))
  {
    var n := if |boxes| <= |labels| then |boxes| else |labels|;
    entries := [];
    for k := 0 to n
      invariant |entries| == k
      invariant forall t :: 0 <= t < k ==> entries[t] == Record(labels[t], MidpointToYolo(boxes[t]))
    {
      entries := entries + [Record(labels[k], MidpointToYolo(boxes[k]))];
    }
  }

  /** Writing boxes out as centre/size entries and parsing them back returns the boxes and labels. */
  lemma ConvertThenParse(boxes: seq<Box>, labels: seq<int>, entries: seq<Record>)
    requires |boxes| == |labels| == |entries|
    requires forall k :: 0 <= k < |entries| ==> entries[k] == Record(labels[k], MidpointToYolo(boxes[k]))
    ensures ParseRecords(entries) == AnnotationSet(boxes, labels)
  {
  }
}
