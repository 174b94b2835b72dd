/**
 * What the fusion scripts share around the geometry: one annotator's parsed
 * boxes, the flattening of all annotators into one list, the tiling of a
 * flat list back into per-annotator slices, the fused (box, score, label)
 * triple with its minimum-score filter, the shape of a clustering, and the
 * list of same-label partners that the redundancy scorers read.
 */
module Annotations {
  import opened Stats
  import opened Geometry

  /** One annotator's boxes and class labels, as the readers return them: two parallel lists. */
  datatype AnnotationSet = AnnotationSet(boxes: seq<Box>, labels: seq<int>)

  predicate Parallel(a: AnnotationSet)
  {
    |a.boxes| == |a.labels|
  }

  /** Concatenation of lists in order (Python's repeated `extend`). */
  function Concat<T>(xss: seq<seq<T>>): seq<T>
  {
    if |xss| == 0 then [] else Concat(xss[..|xss| - 1]) + xss[|xss| - 1]
  }

  function TotalLength<T>(xss: seq<seq<T>>): nat
  {
    if |xss| == 0 then 0 else TotalLength(xss[..|xss| - 1]) + |xss[|xss| - 1]|
  }

  lemma {:induction false} ConcatLength<T>(xss: seq<seq<T>>)
    ensures |Concat(xss)| == TotalLength(xss)
  {
    if |xss| > 0 {
      ConcatLength(xss[..|xss| - 1]);
    }
  }

  /** Lists of equal lengths, pairwise, have equal total lengths. */
  lemma {:induction false} TotalLengthSame<T, U>(xss: seq<seq<T>>, yss: seq<seq<U>>)
    requires |xss| == |yss|
    requires forall k :: 0 <= k < |xss| ==> |xss[k]| == |yss[k]|
    ensures TotalLength(xss) == TotalLength(yss)
  {
    if |xss| > 0 {
      TotalLengthSame(xss[..|xss| - 1], yss[..|yss| - 1]);
    }
  }

  /** The total length of a prefix grows by the next list's length and never exceeds the total. */
  lemma {:induction false} TotalLengthPrefix<T>(xss: seq<seq<T>>, i: nat)
    requires i < |xss|
    ensures TotalLength(xss[..i + 1]) == TotalLength(xss[..i]) + |xss[i]|
    ensures TotalLength(xss[..i + 1]) <= TotalLength(xss)
    decreases |xss|
  {
    assert xss[..i + 1][..i] == xss[..i];
    if i + 1 < |xss| {
      TotalLengthPrefix(xss[..|xss| - 1], i);
      assert xss[..|xss| - 1][..i + 1] == xss[..i + 1];
      assert xss[..|xss| - 1][..i] == xss[..i];
    } else {
      assert xss[..i + 1] == xss;
    }
  }

  /** The boxes of all annotators, flattened in annotator order. */
  function FlatBoxes(sets: seq<AnnotationSet>): seq<Box>
  {
    Concat(seq(|sets|, k requires 0 <= k < |sets| => sets[k].boxes))
  }

  function FlatLabels(sets: seq<AnnotationSet>): seq<int>
  {
    Concat(seq(|sets|, k requires 0 <= k < |sets| => sets[k].labels))
  }

  /** Flattening parallel annotation sets gives parallel lists. */
  lemma FlatParallel(sets: seq<AnnotationSet>)
    requires forall k :: 0 <= k < |sets| ==> Parallel(sets[k])
    ensures |FlatBoxes(sets)| == |FlatLabels(sets)|
  {
    var bs := seq(|sets|, k requires 0 <= k < |sets| => sets[k].boxes);
    var ls := seq(|sets|, k requires 0 <= k < |sets| => sets[k].labels);
    ConcatLength(bs);
    ConcatLength(ls);
    TotalLengthSame(bs, ls);
  }

  /** Appending one set appends its boxes and labels to the flattening. */
  lemma FlatSnoc(sets: seq<AnnotationSet>, a: AnnotationSet)
    ensures FlatBoxes(sets + [a]) == FlatBoxes(sets) + a.boxes
    ensures FlatLabels(sets + [a]) == FlatLabels(sets) + a.labels
  {
    var longer := sets + [a];
    assert seq(|longer|, k requires 0 <= k < |longer| => longer[k].boxes)[..|sets|]
        == seq(|sets|, k requires 0 <= k < |sets| => sets[k].boxes);
    assert seq(|longer|, k requires 0 <= k < |longer| => longer[k].labels)[..|sets|]
        == seq(|sets|, k requires 0 <= k < |sets| => sets[k].labels);
  }

  /** The annotators that contributed at least one box (`if boxes:`), in order. */
  function NonEmptySets(sets: seq<AnnotationSet>): (r: seq<AnnotationSet>)
    ensures |r| <= |sets|
    ensures forall k :: 0 <= k < |r| ==> r[k].boxes != []
    ensures forall a :: a in r <==> a in sets && a.boxes != []
  {
    if |sets| == 0 then []
    else
      var last := sets[|sets| - 1];
      assert sets == sets[..|sets| - 1] + [last];
      NonEmptySets(sets[..|sets| - 1]) + (if last.boxes != [] then [last] else [])
  }

  lemma NonEmptySetsStep(sets: seq<AnnotationSet>, i: nat)
    requires i < |sets|
    ensures NonEmptySets(sets[..i + 1]) == NonEmptySets(sets[..i]) + (if sets[i].boxes != [] then [sets[i]] else [])
  {
    assert sets[..i + 1][..i] == sets[..i];
  }

  /** Dropping the annotators without boxes leaves the flattened lists unchanged. */
  lemma {:induction false} NonEmptySetsFlatten(sets: seq<AnnotationSet>)
    requires forall k :: 0 <= k < |sets| ==> Parallel(sets[k])
    ensures FlatBoxes(NonEmptySets(sets)) == FlatBoxes(sets)
    ensures FlatLabels(NonEmptySets(sets)) == FlatLabels(sets)
  {
    if |sets| > 0 {
      var init, last := sets[..|sets| - 1], sets[|sets| - 1];
      assert sets == init + [last];
      var kept := NonEmptySets(init);
      NonEmptySetsFlatten(init);
      FlatSnoc(init, last);
      if last.boxes != [] {
        assert NonEmptySets(sets) == kept + [last];
        FlatSnoc(kept, last);
      } else {
        assert NonEmptySets(sets) == kept;
        assert last.labels == [];
        assert FlatBoxes(sets) == FlatBoxes(init) + [];
        assert FlatLabels(sets) == FlatLabels(init) + [];
      }
    }
  }

  /** The boxes of each set, one list per set (all_boxes). */
  function BoxLists(sets: seq<AnnotationSet>): (r: seq<seq<Box>>)
    ensures |r| == |sets| && forall k :: 0 <= k < |sets| ==> r[k] == sets[k].boxes
  {
    seq(|sets|, k requires 0 <= k < |sets| => sets[k].boxes)
  }

  function LabelLists(sets: seq<AnnotationSet>): (r: seq<seq<int>>)
    ensures |r| == |sets| && forall k :: 0 <= k < |sets| ==> r[k] == sets[k].labels
  {
    seq(|sets|, k requires 0 <= k < |sets| => sets[k].labels)
  }

  lemma ListsSnoc(sets: seq<AnnotationSet>, a: AnnotationSet)
    ensures BoxLists(sets + [a]) == BoxLists(sets) + [a.boxes]
    ensures LabelLists(sets + [a]) == LabelLists(sets) + [a.labels]
  {
  }

  /**
   * The per-annotator score lists cut from a flat score list: one slice per
   * annotator, as long as its box list, and the slices read in order give
   * back the flat list.
   */
  ghost predicate Tiles(slices: seq<seq<real>>, groups: seq<seq<Box>>, flat: seq<real>)
  {
    |slices| == |groups| && (forall k :: 0 <= k < |groups| ==> |slices[k]| == |groups[k]|) &&
    Concat(slices) == flat
  }

  /** One more slice taken at the running offset extends the tiling. */
  lemma TileStep(slices: seq<seq<real>>, groups: seq<seq<Box>>, flat: seq<real>, idx: nat, k: nat)
    requires k < |groups| && |slices| == k
    requires |flat| == TotalLength(groups)
    requires idx == TotalLength(groups[..k])
    requires idx + |groups[k]| <= |flat|
    requires Tiles(slices, groups[..k], flat[..idx])
    ensures Tiles(slices + [flat[idx..idx + |groups[k]|]], groups[..k + 1], flat[..idx + |groups[k]|])
  {
    TotalLengthPrefix(groups, k);
    var next := slices + [flat[idx..idx + |groups[k]|]];
    assert next[..|slices|] == slices;
    assert flat[..idx + |groups[k]|] == flat[..idx] + flat[idx..idx + |groups[k]|];
  }

  /** A consensus output: a box, its score and its class label. */
  datatype Fused = Fused(box: Box, score: real, classId: int)

  /** The three parallel output lists of a fusion, read as one list of triples. */
  function Zip3(boxes: seq<Box>, scores: seq<real>, labels: seq<int>): (r: seq<Fused>)
    requires |boxes| == |scores| == |labels|
    ensures |r| == |boxes|
    ensures forall k :: 0 <= k < |r| ==> r[k] == Fused(boxes[k], scores[k], labels[k])
  {
    seq(|boxes|, k requires 0 <= k < |boxes| => Fused(boxes[k], scores[k], labels[k]))
  }

  /** Appending one entry to each list appends its triple. */
  lemma Zip3Snoc(boxes: seq<Box>, scores: seq<real>, labels: seq<int>, f: Fused)
    requires |boxes| == |scores| == |labels|
    ensures Zip3(boxes + [f.box], scores + [f.score], labels + [f.classId]) == Zip3(boxes, scores, labels) + [f]
  {
  }

  /**
   * The minimum-score filter `if score >= min: append`: the outputs whose
   * score reaches `minScore`, in their original order.
   */
  function KeepAtLeast(fs: seq<Fused>, minScore: real): (r: seq<Fused>)
    ensures |r| <= |fs|
  {
    if |fs| == 0 then []
    else
      var last := fs[|fs| - 1];
      KeepAtLeast(fs[..|fs| - 1], minScore) + (if last.score >= minScore then [last] else [])
  }

  /** Every kept output reaches the minimum, and an output is kept exactly when it does. */
  lemma {:induction false} KeepAtLeastExact(fs: seq<Fused>, minScore: real)
    ensures forall k :: 0 <= k < |KeepAtLeast(fs, minScore)| ==> KeepAtLeast(fs, minScore)[k].score >= minScore
    ensures forall f :: f in KeepAtLeast(fs, minScore) <==> f in fs && f.score >= minScore
  {
    if |fs| > 0 {
      var init := fs[..|fs| - 1];
      KeepAtLeastExact(init, minScore);
      assert fs == init + [fs[|fs| - 1]];
    }
  }

  /** Keeping a prefix and then the next element's verdict is keeping the longer prefix. */
  lemma KeepAtLeastStep(fs: seq<Fused>, i: nat, minScore: real)
    requires i < |fs|
    ensures KeepAtLeast(fs[..i + 1], minScore)
         == KeepAtLeast(fs[..i], minScore) + (if fs[i].score >= minScore then [fs[i]] else [])
  {
    assert fs[..i + 1][..i] == fs[..i];
  }

  /**
   * The minimum-score loop over three parallel output lists: append each
   * entry whose score reaches minScore, keeping the order.
   */
  method FilterAtLeast(boxes: seq<Box>, scores: seq<real>, labels: seq<int>, minScore: real)
    returns (keptBoxes: seq<Box>, keptScores: seq<real>, keptLabels: seq<int>)
    requires |boxes| == |scores| == |labels|
    ensures |keptBoxes| == |keptScores| == |keptLabels|
    ensures Zip3(keptBoxes, keptScores, keptLabels) == KeepAtLeast(Zip3(boxes, scores, labels), minScore)
  {
    ghost var all := Zip3(boxes, scores, labels);
    keptBoxes, keptScores, keptLabels := [], [], [];
    for k := 0 to |boxes|
      invariant |keptBoxes| == |keptScores| == |keptLabels|
      invariant Zip3(keptBoxes, keptScores, keptLabels) == KeepAtLeast(all[..k], minScore)
    {
      if scores[k] >= minScore {
        FilterKeeps(keptBoxes, keptScores, keptLabels, all, k, all[k], minScore);
        keptBoxes := keptBoxes + [boxes[k]];
        keptScores := keptScores + [scores[k]];
        keptLabels := keptLabels + [labels[k]];
      } else {
        KeepAtLeastStep(all, k, minScore);
      }
    }
    assert all[..|boxes|] == all;
  }

  /** Appending a kept entry to the three lists keeps the invariant of FilterAtLeast. */
  lemma FilterKeeps(keptBoxes: seq<Box>, keptScores: seq<real>, keptLabels: seq<int>, all: seq<Fused>,
                    k: nat, f: Fused, minScore: real)
    requires |keptBoxes| == |keptScores| == |keptLabels| && k < |all| && f == all[k] && f.score >= minScore
    requires Zip3(keptBoxes, keptScores, keptLabels) == KeepAtLeast(all[..k], minScore)
    ensures Zip3(keptBoxes + [f.box], keptScores + [f.score], keptLabels + [f.classId])
         == KeepAtLeast(all[..k + 1], minScore)
  {
    KeepAtLeastStep(all, k, minScore);
    Zip3Snoc(keptBoxes, keptScores, keptLabels, f);
  }

  predicate StrictlyIncreasing(s: seq<nat>)
  {
    forall i, j :: 0 <= i < j < |s| ==> s[i] < s[j]
  }

  /** A strictly increasing list of indices below n has at most n entries. */
  lemma {:induction false} StrictlyIncreasingBound(s: seq<nat>, n: nat)
    requires StrictlyIncreasing(s)
    requires forall i :: 0 <= i < |s| ==> s[i] < n
    ensures |s| <= n
  {
    if |s| > 0 {
      var init := s[..|s| - 1];
      assert forall i :: 0 <= i < |init| ==> init[i] < s[|s| - 1];
      StrictlyIncreasingBound(init, s[|s| - 1]);
    }
  }

  /** A strictly increasing list of n indices below n is 0, 1, ..., n - 1. */
  lemma {:induction false} IncreasingFullIsIdentity(s: seq<nat>, n: nat)
    requires StrictlyIncreasing(s) && |s| == n
    requires forall i :: 0 <= i < |s| ==> s[i] < n
    ensures forall k :: 0 <= k < n ==> s[k] == k
  {
    if n > 0 {
      var init := s[..n - 1];
      assert forall i :: 0 <= i < |init| ==> init[i] < s[n - 1];
      StrictlyIncreasingBound(init, s[n - 1]);
      IncreasingFullIsIdentity(init, n - 1);
    }
  }

  /** Index k is a member of some cluster of cs. */
  ghost predicate InSome(cs: seq<seq<nat>>, k: nat)
  {
    exists c :: 0 <= c < |cs| && k in cs[c]
  }

  /** Index k is a member of a cluster that precedes cluster c. */
  ghost predicate InEarlier(cs: seq<seq<nat>>, c: nat, k: nat)
  {
    exists c' :: 0 <= c' < c && c' < |cs| && k in cs[c']
  }

  ghost predicate WithinRange(cs: seq<seq<nat>>, n: nat)
  {
    forall c, p :: 0 <= c < |cs| && 0 <= p < |cs[c]| ==> cs[c][p] < n
  }

  /** No index occurs twice, in one cluster or across two. */
  ghost predicate NoRepeats(cs: seq<seq<nat>>)
  {
    forall c1, p1, c2, p2 ::
      (0 <= c1 < |cs| && 0 <= p1 < |cs[c1]| && 0 <= c2 < |cs| && 0 <= p2 < |cs[c2]| &&
       cs[c1][p1] == cs[c2][p2]) ==> c1 == c2 && p1 == p2
  }

  /** Every index 0..n-1 occurs in exactly one cluster, exactly once. */
  ghost predicate IsPartition(cs: seq<seq<nat>>, n: nat)
  {
    WithinRange(cs, n) && NoRepeats(cs) && forall k :: 0 <= k < n ==> InSome(cs, k)
  }

  /**
   * Each cluster opens with its seed and lists its members in increasing
   * order (so the seed is its smallest member), and clusters come in seed order.
   */
  ghost predicate SeedOrdered(cs: seq<seq<nat>>)
  {
    (forall c :: 0 <= c < |cs| ==> |cs[c]| > 0 && StrictlyIncreasing(cs[c])) &&
    (forall c1, c2 :: 0 <= c1 < c2 < |cs| ==> cs[c1][0] < cs[c2][0])
  }

  /** Every member of a cluster carries its seed's label. */
  ghost predicate LabelPure(cs: seq<seq<nat>>, labels: seq<int>)
  {
    forall c, p :: 0 <= c < |cs| && 0 <= p < |cs[c]| && cs[c][p] < |labels| && cs[c][0] < |labels| ==>
      labels[cs[c][p]] == labels[cs[c][0]]
  }

  /** The boxes at the given indices, in that order. */
  function Gather(boxes: seq<Box>, idx: seq<nat>): (r: seq<Box>)
    requires forall p :: 0 <= p < |idx| ==> idx[p] < |boxes|
    ensures |r| == |idx|
    ensures forall p :: 0 <= p < |idx| ==> r[p] == boxes[idx[p]]
  {
    seq(|idx|, p requires 0 <= p < |idx| => boxes[idx[p]])
  }

  /** j is a same-label partner of i whose IoU beats the threshold. */
  predicate IsPartner(boxes: seq<Box>, labels: seq<int>, i: nat, j: nat, threshold: real)
    requires |boxes| == |labels| && i < |boxes| && j < |boxes|
  {
    i != j && labels[i] == labels[j] && Iou(boxes[i], boxes[j]) > threshold
  }

  /**
   * The `overlaps` list of the redundancy scorers, over candidates j < upTo:
   * the IoU of box i with every same-label partner, in index order.
   */
  function OverlapsUpTo(boxes: seq<Box>, labels: seq<int>, i: nat, threshold: real, upTo: nat): (r: seq<real>)
    requires |boxes| == |labels| && i < |boxes| && upTo <= |boxes|
    ensures forall k :: 0 <= k < |r| ==> r[k] > threshold && r[k] >= 0.0
  {
    if upTo == 0 then []
    else
      var j := upTo - 1;
      OverlapsUpTo(boxes, labels, i, threshold, j) +
        (if IsPartner(boxes, labels, i, j, threshold) then [Iou(boxes[i], boxes[j])] else [])
  }

  function Overlaps(boxes: seq<Box>, labels: seq<int>, i: nat, threshold: real): seq<real>
    requires |boxes| == |labels| && i < |boxes|
  {
    OverlapsUpTo(boxes, labels, i, threshold, |boxes|)
  }

  /** The overlap list is empty exactly when box i has no partner below upTo. */
  lemma {:induction false} OverlapsEmptyIff(boxes: seq<Box>, labels: seq<int>, i: nat, threshold: real, upTo: nat)
    requires |boxes| == |labels| && i < |boxes| && upTo <= |boxes|
    ensures OverlapsUpTo(boxes, labels, i, threshold, upTo) == [] <==>
            forall j :: 0 <= j < upTo ==> !IsPartner(boxes, labels, i, j, threshold)
  {
    if upTo > 0 {
      OverlapsEmptyIff(boxes, labels, i, threshold, upTo - 1);
    }
  }

  /** Inputs that agree on box i and on every box sharing its label. */
  ghost predicate AgreeAround(boxes: seq<Box>, labels: seq<int>, boxes': seq<Box>, labels': seq<int>, i: nat)
    requires |boxes| == |labels| == |boxes'| == |labels'| && i < |boxes|
  {
    boxes[i] == boxes'[i] && labels[i] == labels'[i] &&
    forall j :: 0 <= j < |boxes| && j != i ==>
      (labels[j] == labels[i] <==> labels'[j] == labels'[i]) &&
      (labels[j] == labels[i] ==> boxes[j] == boxes'[j])
  }

  /**
   * The overlap list of box i depends only on box i and the other boxes
   * with its label: changing any box of another class leaves it unchanged.
   */
  lemma {:induction false} OverlapsLocal(boxes: seq<Box>, labels: seq<int>, boxes': seq<Box>, labels': seq<int>,
                                        i: nat, threshold: real, upTo: nat)
    requires |boxes| == |labels| == |boxes'| == |labels'| && i < |boxes| && upTo <= |boxes|
    requires AgreeAround(boxes, labels, boxes', labels', i)
    ensures OverlapsUpTo(boxes, labels, i, threshold, upTo) == OverlapsUpTo(boxes', labels', i, threshold, upTo)
  {
    if upTo > 0 {
      OverlapsLocal(boxes, labels, boxes', labels', i, threshold, upTo - 1);
      var j := upTo - 1;
      assert IsPartner(boxes, labels, i, j, threshold) == IsPartner(boxes', labels', i, j, threshold);
    }
  }

  lemma InSomeAppend(cs: seq<seq<nat>>, cl: seq<nat>, k: nat)
    ensures InSome(cs + [cl], k) <==> InSome(cs, k) || k in cl
  {
    if InSome(cs, k) {
      var c :| 0 <= c < |cs| && k in cs[c];
      assert (cs + [cl])[c] == cs[c];
    }
    if k in cl {
      assert (cs + [cl])[|cs|] == cl;
    }
    if InSome(cs + [cl], k) {
      var c :| 0 <= c < |cs + [cl]| && k in (cs + [cl])[c];
      if c < |cs| {
        assert cs[c] == (cs + [cl])[c];
      }
    }
  }

  lemma InEarlierAppend(cs: seq<seq<nat>>, cl: seq<nat>, c: nat, k: nat)
    requires c <= |cs|
    ensures InEarlier(cs + [cl], c, k) <==> InEarlier(cs, c, k)
    ensures c == |cs| ==> (InEarlier(cs, c, k) <==> InSome(cs, k))
  {
    if InEarlier(cs, c, k) {
      var c' :| 0 <= c' < c && c' < |cs| && k in cs[c'];
      assert (cs + [cl])[c'] == cs[c'];
    }
    if InEarlier(cs + [cl], c, k) {
      var c' :| 0 <= c' < c && c' < |cs + [cl]| && k in (cs + [cl])[c'];
      assert cs[c'] == (cs + [cl])[c'];
    }
  }

  lemma AppendShape(clusters: seq<seq<nat>>, cluster: seq<nat>, i: nat, n: nat)
    requires WithinRange(clusters, n) && SeedOrdered(clusters)
    requires forall c :: 0 <= c < |clusters| ==> clusters[c][0] < i
    requires |cluster| > 0 && cluster[0] == i && StrictlyIncreasing(cluster)
    requires forall p :: 0 <= p < |cluster| ==> cluster[p] < n
    ensures var cs := clusters + [cluster];
      WithinRange(cs, n) && SeedOrdered(cs) && (forall c :: 0 <= c < |cs| ==> cs[c][0] <= i)
  {
    var cs := clusters + [cluster];
    assert cs[|clusters|] == cluster;
    assert forall c :: 0 <= c < |clusters| ==> cs[c] == clusters[c];
  }

  lemma AppendNoRepeats(clusters: seq<seq<nat>>, cluster: seq<nat>)
    requires NoRepeats(clusters) && StrictlyIncreasing(cluster)
    requires forall p :: 0 <= p < |cluster| ==> !InSome(clusters, cluster[p])
    ensures NoRepeats(clusters + [cluster])
  {
    var cs := clusters + [cluster];
    var last := |clusters|;
    assert cs[last] == cluster;
    assert forall c :: 0 <= c < last ==> cs[c] == clusters[c];
    forall c1, p1, c2, p2 |
      0 <= c1 < |cs| && 0 <= p1 < |cs[c1]| && 0 <= c2 < |cs| && 0 <= p2 < |cs[c2]| && cs[c1][p1] == cs[c2][p2]
      ensures c1 == c2 && p1 == p2
    {
    }
  }

  /** One parsed annotation line: class id, then centre x, centre y, width, height. */
  datatype Record = Record(classId: int, shape: Yolo)

  /**
   * The box arithmetic of read_yolo_annotations (kiro_wbf) and of the reading
   * loop of process_annotations (gera_jsons): each line becomes the
   * corners x1 = xc - w/2, x2 = xc + w/2 (likewise for y) and its class id.
   */
  function ParseRecords(records: seq<Record>): (a: AnnotationSet)
    ensures Parallel(a) && |a.boxes| == |records|
    ensures forall k :: 0 <= k < |records| ==>
              a.boxes[k] == YoloToCorners(records[k].shape) && a.labels[k] == records[k].classId
    ensures forall k :: 0 <= k < |records| && records[k].shape.w >= 0.0 && records[k].shape.h >= 0.0 ==>
              WellFormed(a.boxes[k])
  {
    AnnotationSet(seq(|records|, k requires 0 <= k < |records| => YoloToCorners(records[k].shape)),
                  seq(|records|, k requires 0 <= k < |records| => records[k].classId))
  }

}
