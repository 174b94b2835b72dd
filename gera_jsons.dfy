/**
 * gera_jsons.py: per image, a greedy seed-only clustering of the parsed
 * boxes (each later box is compared with the seed alone), one mean box per
 * cluster, scored by the mean IoU between that mean box and the members,
 * and the mean boxes turned back into centre/size lines.
 */
module GeraJsons {
  import opened Stats
  import opened Geometry
  import opened Annotations

  /** The IoU a box must exceed against the seed to join its cluster. */
  const MergeThreshold: real := 0.5

  /** Every non-seed member beats the threshold against its cluster's seed. */
  ghost predicate SeedJoined(cs: seq<seq<nat>>, boxes: seq<Box>)
    requires WithinRange(cs, |boxes|) && SeedOrdered(cs)
  {
    forall c, p :: 0 <= c < |cs| && 0 < p < |cs[c]| ==>
      IouClamped(boxes[cs[c][0]], boxes[cs[c][p]]) > MergeThreshold
  }

  /**
   * Nothing that could have joined was left out: a later box with the seed's
   * label that was not taken by an earlier cluster and beats the threshold
   * against the seed is a member.
   */
  ghost predicate SeedMaximal(cs: seq<seq<nat>>, boxes: seq<Box>, labels: seq<int>)
    requires |boxes| == |labels| && WithinRange(cs, |boxes|) && SeedOrdered(cs)
  {
    forall c, j :: 0 <= c < |cs| && cs[c][0] < j < |boxes| && labels[j] == labels[cs[c][0]] &&
                   !InEarlier(cs, c, j) && IouClamped(boxes[cs[c][0]], boxes[j]) > MergeThreshold ==>
      j in cs[c]
  }

  /** Everything the clustering loop of process_annotations establishes. */
  ghost predicate IsSeedClustering(cs: seq<seq<nat>>, boxes: seq<Box>, labels: seq<int>)
    requires |boxes| == |labels|
  {
    IsPartition(cs, |boxes|) && SeedOrdered(cs) && LabelPure(cs, labels) &&
    SeedJoined(cs, boxes) && SeedMaximal(cs, boxes, labels)
  }

  /** The clustering so far, once every seed below i has been handled. */
  ghost predicate SeedScanned(cs: seq<seq<nat>>, i: nat, boxes: seq<Box>, labels: seq<int>)
    requires |boxes| == |labels|
  {
    WithinRange(cs, |boxes|) && NoRepeats(cs) && SeedOrdered(cs) &&
    (forall c :: 0 <= c < |cs| ==> cs[c][0] < i) &&
    LabelPure(cs, labels) && SeedJoined(cs, boxes) && SeedMaximal(cs, boxes, labels)
  }

  /** A cluster seeded at i, grown over the candidates below j. */
  ghost predicate SeedGrowing(cluster: seq<nat>, i: nat, j: nat, boxes: seq<Box>, labels: seq<int>)
    requires |boxes| == |labels| && i < |boxes| && j <= |boxes|
  {
    |cluster| > 0 && cluster[0] == i && StrictlyIncreasing(cluster) &&
    (forall p :: 0 <= p < |cluster| ==> i <= cluster[p] < j && cluster[p] < |boxes|) &&
    (forall p :: 0 <= p < |cluster| ==> labels[cluster[p]] == labels[i]) &&
    (forall p :: 0 < p < |cluster| ==> IouClamped(boxes[i], boxes[cluster[p]]) > MergeThreshold)
  }

  /** Every free candidate below j that matches the seed has joined. */
  ghost predicate SeedSkipped(clusters: seq<seq<nat>>, cluster: seq<nat>, i: nat, j: nat,
                              boxes: seq<Box>, labels: seq<int>)
    requires |boxes| == |labels| && i < |boxes| && j <= |boxes|
  {
    forall j' ::
      i < j' < j && labels[j'] == labels[i] && !InSome(clusters, j') && IouClamped(boxes[i], boxes[j']) > MergeThreshold
      ==> j' in cluster
  }

  /**
   * The inner loop of process_annotations: seed a cluster at the unused box
   * i, mark it, and add every later unused box of the seed's label whose IoU
   * with the seed exceeds 0.5, marking it used. The cluster is kept as the
   * list of member indices.
   */
  method GatherNeighbours(boxes: seq<Box>, labels: seq<int>, i: nat, used: array<bool>,
                          ghost clusters: seq<seq<nat>>)
    returns (cluster: seq<nat>)
    requires |boxes| == |labels| == used.Length && i < |boxes|
    requires forall k :: 0 <= k < used.Length ==> (used[k] <==> InSome(clusters, k))
    requires !used[i]
    modifies used
    ensures SeedGrowing(cluster, i, |boxes|, boxes, labels)
    ensures forall p :: 0 <= p < |cluster| ==> !InSome(clusters, cluster[p])
    ensures SeedSkipped(clusters, cluster, i, |boxes|, boxes, labels)
    ensures forall k :: 0 <= k < used.Length ==> (used[k] <==> InSome(clusters, k) || k in cluster)
    ensures forall k :: 0 <= k < used.Length && old(used[k]) ==> used[k]
    ensures used[i]
  {
    var n := |boxes|;
    cluster := [i];
    used[i] := true;
    for j := i + 1 to n
      invariant SeedGrowing(cluster, i, j, boxes, labels)
      invariant forall p :: 0 <= p < |cluster| ==> !InSome(clusters, cluster[p])
      invariant SeedSkipped(clusters, cluster, i, j, boxes, labels)
      invariant forall k :: 0 <= k < n ==> (used[k] <==> InSome(clusters, k) || k in cluster)
      invariant forall k :: 0 <= k < n && old(used[k]) ==> used[k]
      invariant used[i]
    {
      if !used[j] && labels[j] == labels[i] && IouClamped(boxes[i], boxes[j]) > MergeThreshold {
        JoinSeed(clusters, cluster, i, j, boxes, labels);
        cluster := cluster + [j];
        used[j] := true;
      } else {
        PassSeed(clusters, cluster, i, j, boxes, labels);
      }
    }
  }

  /**
   * One pass of the outer loop of process_annotations at an unused box i:
   * gather its cluster and mark it used. The clustering with the new cluster
   * appended keeps every invariant of the scan.
   */
  method OpenCluster(boxes: seq<Box>, labels: seq<int>, i: nat, used: array<bool>, ghost clusters: seq<seq<nat>>)
    returns (cluster: seq<nat>)
    requires |boxes| == |labels| == used.Length && i < |boxes|
    requires SeedScanned(clusters, i, boxes, labels)
    requires forall k :: 0 <= k < used.Length ==> (used[k] <==> InSome(clusters, k))
    requires forall k :: 0 <= k < i ==> used[k]
    requires !used[i]
    modifies used
    ensures SeedGrowing(cluster, i, |boxes|, boxes, labels)
    ensures SeedScanned(clusters + [cluster], i + 1, boxes, labels)
    ensures forall k :: 0 <= k < used.Length ==> (used[k] <==> InSome(clusters + [cluster], k))
    ensures forall k :: 0 <= k <= i ==> used[k]
  {
    cluster := GatherNeighbours(boxes, labels, i, used, clusters);
    forall k | 0 <= k < used.Length
      ensures used[k] <==> InSome(clusters + [cluster], k)
    {
      InSomeAppend(clusters, cluster, k);
    }
    AppendSeedCluster(clusters, cluster, i, boxes, labels);
  }

  /** Candidate j joins the seed's cluster: the cluster stays well grown and nothing is missed. */
  lemma JoinSeed(clusters: seq<seq<nat>>, cluster: seq<nat>, i: nat, j: nat, boxes: seq<Box>, labels: seq<int>)
    requires |boxes| == |labels| && i < j < |boxes|
    requires SeedGrowing(cluster, i, j, boxes, labels)
    requires SeedSkipped(clusters, cluster, i, j, boxes, labels)
    requires labels[j] == labels[i] && IouClamped(boxes[i], boxes[j]) > MergeThreshold
    ensures SeedGrowing(cluster + [j], i, j + 1, boxes, labels)
    ensures SeedSkipped(clusters, cluster + [j], i, j + 1, boxes, labels)
  {
    var grown := cluster + [j];
    assert forall p :: 0 <= p < |cluster| ==> grown[p] == cluster[p];
    assert grown[|cluster|] == j;
  }

  /** Candidate j stays out (used, another label, or too far from the seed): nothing is missed. */
  lemma PassSeed(clusters: seq<seq<nat>>, cluster: seq<nat>, i: nat, j: nat, boxes: seq<Box>, labels: seq<int>)
    requires |boxes| == |labels| && i < j < |boxes|
    requires SeedGrowing(cluster, i, j, boxes, labels)
    requires SeedSkipped(clusters, cluster, i, j, boxes, labels)
    requires InSome(clusters, j) || j in cluster || labels[j] != labels[i] ||
             IouClamped(boxes[i], boxes[j]) <= MergeThreshold
    ensures SeedGrowing(cluster, i, j + 1, boxes, labels)
    ensures SeedSkipped(clusters, cluster, i, j + 1, boxes, labels)
  {
  }

  /** Closing a cluster and appending it keeps every invariant of the clustering so far. */
  lemma AppendSeedCluster(clusters: seq<seq<nat>>, cluster: seq<nat>, i: nat, boxes: seq<Box>, labels: seq<int>)
    requires |boxes| == |labels| && i < |boxes|
    requires SeedScanned(clusters, i, boxes, labels)
    requires SeedGrowing(cluster, i, |boxes|, boxes, labels)
    requires forall p :: 0 <= p < |cluster| ==> !InSome(clusters, cluster[p])
    requires SeedSkipped(clusters, cluster, i, |boxes|, boxes, labels)
    ensures SeedScanned(clusters + [cluster], i + 1, boxes, labels)
  {
    AppendShape(clusters, cluster, i, |boxes|);
    AppendNoRepeats(clusters, cluster);
    AppendSeedLabels(clusters, cluster, i, boxes, labels);
    AppendSeedMaximal(clusters, cluster, i, boxes, labels);
  }

  lemma AppendSeedLabels(clusters: seq<seq<nat>>, cluster: seq<nat>, i: nat, boxes: seq<Box>, labels: seq<int>)
    requires |boxes| == |labels| && i < |boxes|
    requires WithinRange(clusters, |boxes|) && SeedOrdered(clusters)
    requires forall c :: 0 <= c < |clusters| ==> clusters[c][0] < i
    requires LabelPure(clusters, labels) && SeedJoined(clusters, boxes)
    requires SeedGrowing(cluster, i, |boxes|, boxes, labels)
    ensures WithinRange(clusters + [cluster], |boxes|) && SeedOrdered(clusters + [cluster])
    ensures LabelPure(clusters + [cluster], labels) && SeedJoined(clusters + [cluster], boxes)
  {
    var cs := clusters + [cluster];
    AppendShape(clusters, cluster, i, |boxes|);
    assert cs[|clusters|] == cluster;
    assert forall c :: 0 <= c < |clusters| ==> cs[c] == clusters[c];
  }

  lemma AppendSeedMaximal(clusters: seq<seq<nat>>, cluster: seq<nat>, i: nat, boxes: seq<Box>, labels: seq<int>)
    requires |boxes| == |labels| && i < |boxes|
    requires WithinRange(clusters, |boxes|) && SeedOrdered(clusters)
    requires forall c :: 0 <= c < |clusters| ==> clusters[c][0] < i
    requires SeedMaximal(clusters, boxes, labels)
    requires SeedGrowing(cluster, i, |boxes|, boxes, labels)
    requires SeedSkipped(clusters, cluster, i, |boxes|, boxes, labels)
    ensures WithinRange(clusters + [cluster], |boxes|) && SeedOrdered(clusters + [cluster])
    ensures SeedMaximal(clusters + [cluster], boxes, labels)
  {
    var cs := clusters + [cluster];
    AppendShape(clusters, cluster, i, |boxes|);
    assert cs[|clusters|] == cluster;
    assert forall c :: 0 <= c < |clusters| ==> cs[c] == clusters[c];
    forall c, j | 0 <= c < |cs| && cs[c][0] < j < |boxes| && labels[j] == labels[cs[c][0]] &&
                  !InEarlier(cs, c, j) && IouClamped(boxes[cs[c][0]], boxes[j]) > MergeThreshold
      ensures j in cs[c]
    {
      InEarlierAppend(clusters, cluster, c, j);
    }
  }

  /** The IoU of the mean box with each member, in member order. */
  function MemberIous(mean: Box, members: seq<Box>): (r: seq<real>)
    ensures |r| == |members|
    ensures forall p :: 0 <= p < |members| ==> r[p] == IouClamped(mean, members[p])
  {
    seq(|members|, p requires 0 <= p < |members| => IouClamped(mean, members[p]))
  }

  /**
   * The summary of one cluster: the coordinate-wise mean of its boxes, the
   * mean IoU between that mean box and each member as the score, and the
   * seed's label.
   */
  function ClusterSummary(cluster: seq<nat>, boxes: seq<Box>, labels: seq<int>): (r: Fused)
    requires |cluster| > 0 && |boxes| == |labels|
    requires forall p :: 0 <= p < |cluster| ==> cluster[p] < |boxes|
    ensures r.classId == labels[cluster[0]]
    ensures r.box == MeanBox(Gather(boxes, cluster))
    ensures |cluster| == 1 ==> r.box == boxes[cluster[0]]
  {
    var members := Gather(boxes, cluster);
    var mean := MeanBox(members);
    Fused(mean, Mean(MemberIous(mean, members)), labels[cluster[0]])
  }

  /** For well-formed members the mean box is well-formed and the score lies in [0, 1]. */
  lemma ScoreWithinUnit(cluster: seq<nat>, boxes: seq<Box>, labels: seq<int>)
    requires |cluster| > 0 && |boxes| == |labels|
    requires forall p :: 0 <= p < |cluster| ==> cluster[p] < |boxes| && WellFormed(boxes[cluster[p]])
    ensures WellFormed(ClusterSummary(cluster, boxes, labels).box)
    ensures 0.0 <= ClusterSummary(cluster, boxes, labels).score <= 1.0
  {
    var members := Gather(boxes, cluster);
    var mean := MeanBox(members);
    var ious := MemberIous(mean, members);
    forall p | 0 <= p < |members|
      ensures 0.0 <= ious[p] <= 1.0
    {
      IouClampedBounds(mean, members[p]);
    }
    MeanWithin(ious, 0.0, 1.0);
  }

  /** A lone box of positive area is its own mean and scores exactly 1. */
  lemma SingletonScoresOne(cluster: seq<nat>, boxes: seq<Box>, labels: seq<int>)
    requires |cluster| == 1 && |boxes| == |labels| && cluster[0] < |boxes|
    requires boxes[cluster[0]].x1 < boxes[cluster[0]].x2 && boxes[cluster[0]].y1 < boxes[cluster[0]].y2
    ensures ClusterSummary(cluster, boxes, labels).score == 1.0
  {
    var b := boxes[cluster[0]];
    var members := Gather(boxes, cluster);
    var ious := MemberIous(MeanBox(members), members);
    IouSelf(b);
    assert ious == [1.0];
    assert ious[..0] == [];
  }

  /** The summary of every cluster, in cluster order. */
  function Summaries(cs: seq<seq<nat>>, boxes: seq<Box>, labels: seq<int>): (r: seq<Fused>)
    requires |boxes| == |labels| && WithinRange(cs, |boxes|) && SeedOrdered(cs)
    ensures |r| == |cs|
    ensures forall c :: 0 <= c < |cs| ==> r[c] == ClusterSummary(cs[c], boxes, labels)
  {
    seq(|cs|, c requires 0 <= c < |cs| => ClusterSummary(cs[c], boxes, labels))
  }

  /**
   * The clustering and scoring of process_annotations for one image: parse
   * the lines, cluster the boxes from each unused seed, and emit, in seed
   * order, each cluster's mean box, score and label together with the
   * centre/size line of the mean box. An image without boxes yields nothing.
   */
  method ProcessAnnotations(records: seq<Record>)
    returns (wbfBoxes: seq<Box>, wbfScores: seq<real>, wbfLabels: seq<int>, meanLines: seq<Record>,
             ghost clusters: seq<seq<nat>>)
    ensures IsSeedClustering(clusters, ParseRecords(records).boxes, ParseRecords(records).labels)
    ensures |wbfBoxes| == |wbfScores| == |wbfLabels| == |meanLines| == |clusters|
    ensures Zip3(wbfBoxes, wbfScores, wbfLabels)
              == Summaries(clusters, ParseRecords(records).boxes, ParseRecords(records).labels)
    ensures forall c :: 0 <= c < |meanLines| ==> meanLines[c] == Record(wbfLabels[c], CornersToYolo(wbfBoxes[c]))
    ensures ParseRecords(meanLines) == AnnotationSet(wbfBoxes, wbfLabels)
  {
    var parsed := ParseRecords(records);
    wbfBoxes, wbfScores, wbfLabels, meanLines, clusters := ClusterImage(parsed.boxes, parsed.labels);
  }

  /** The clustering loop of process_annotations over one image's parsed boxes. */
  method ClusterImage(boxes: seq<Box>, labels: seq<int>)
    returns (wbfBoxes: seq<Box>, wbfScores: seq<real>, wbfLabels: seq<int>, meanLines: seq<Record>,
             ghost clusters: seq<seq<nat>>)
    requires |boxes| == |labels|
    ensures IsSeedClustering(clusters, boxes, labels)
    ensures Emitted(clusters, boxes, labels, wbfBoxes, wbfScores, wbfLabels, meanLines)
  {
    var n := |boxes|;
    var used := new bool[n](_ => false);
    clusters := [];
    wbfBoxes, wbfScores, wbfLabels, meanLines := [], [], [], [];
    assert ImageScanned(clusters, 0, boxes, labels, used[..], wbfBoxes, wbfScores, wbfLabels, meanLines);
    for i := 0 to n
      invariant ImageScanned(clusters, i, boxes, labels, used[..], wbfBoxes, wbfScores, wbfLabels, meanLines)
    {
      if used[i] {
        SkipUsed(clusters, i, boxes, labels, used[..], wbfBoxes, wbfScores, wbfLabels, meanLines);
      } else {
        wbfBoxes, wbfScores, wbfLabels, meanLines, clusters :=
          EmitCluster(boxes, labels, i, used, clusters, wbfBoxes, wbfScores, wbfLabels, meanLines);
      }
    }
    ScanComplete(clusters, boxes, labels, used[..], wbfBoxes, wbfScores, wbfLabels, meanLines);
  }

  /**
   * The state of the clustering loop before seed i: the clustering so far,
   * the used flags marking exactly its members and every box below i, and
   * the outputs emitted for its clusters.
   */
  ghost predicate ImageScanned(cs: seq<seq<nat>>, i: nat, boxes: seq<Box>, labels: seq<int>, marks: seq<bool>,
                               wbfBoxes: seq<Box>, wbfScores: seq<real>, wbfLabels: seq<int>, meanLines: seq<Record>)
    requires |boxes| == |labels|
  {
    i <= |boxes| && |marks| == |boxes| && SeedScanned(cs, i, boxes, labels) &&
    (forall k :: 0 <= k < |marks| ==> (marks[k] <==> InSome(cs, k))) &&
    (forall k :: 0 <= k < i ==> marks[k]) &&
    Emitted(cs, boxes, labels, wbfBoxes, wbfScores, wbfLabels, meanLines)
  }

  /** A box already used by an earlier cluster opens nothing. */
  lemma SkipUsed(cs: seq<seq<nat>>, i: nat, boxes: seq<Box>, labels: seq<int>, marks: seq<bool>,
                 wbfBoxes: seq<Box>, wbfScores: seq<real>, wbfLabels: seq<int>, meanLines: seq<Record>)
    requires |boxes| == |labels| && i < |boxes|
    requires ImageScanned(cs, i, boxes, labels, marks, wbfBoxes, wbfScores, wbfLabels, meanLines)
    requires marks[i]
    ensures ImageScanned(cs, i + 1, boxes, labels, marks, wbfBoxes, wbfScores, wbfLabels, meanLines)
  {
  }

  /** Once every box has been scanned, every box is in a cluster: the clustering is a partition. */
  lemma ScanComplete(cs: seq<seq<nat>>, boxes: seq<Box>, labels: seq<int>, marks: seq<bool>,
                     wbfBoxes: seq<Box>, wbfScores: seq<real>, wbfLabels: seq<int>, meanLines: seq<Record>)
    requires |boxes| == |labels|
    requires ImageScanned(cs, |boxes|, boxes, labels, marks, wbfBoxes, wbfScores, wbfLabels, meanLines)
    ensures IsSeedClustering(cs, boxes, labels)
    ensures Emitted(cs, boxes, labels, wbfBoxes, wbfScores, wbfLabels, meanLines)
  {
    forall k | 0 <= k < |boxes|
      ensures InSome(cs, k)
    {
      assert marks[k];
    }
  }

  /** One pass of the clustering loop at an unused box i: gather its cluster, then emit its summary and line. */
  method EmitCluster(boxes: seq<Box>, labels: seq<int>, i: nat, used: array<bool>, ghost clusters: seq<seq<nat>>,
                     wbfBoxes: seq<Box>, wbfScores: seq<real>, wbfLabels: seq<int>, meanLines: seq<Record>)
    returns (wbfBoxes': seq<Box>, wbfScores': seq<real>, wbfLabels': seq<int>, meanLines': seq<Record>,
             ghost clusters': seq<seq<nat>>)
    requires |boxes| == |labels| == used.Length && i < |boxes|
    requires ImageScanned(clusters, i, boxes, labels, used[..], wbfBoxes, wbfScores, wbfLabels, meanLines)
    requires !used[i]
    modifies used
    ensures ImageScanned(clusters', i + 1, boxes, labels, used[..], wbfBoxes', wbfScores', wbfLabels', meanLines')
  {
    assert forall k :: 0 <= k < used.Length ==> used[..][k] == used[k];
    var cluster := OpenCluster(boxes, labels, i, used, clusters);
    var summary := ClusterSummary(cluster, boxes, labels);
    EmitStep(clusters, cluster, i, boxes, labels, wbfBoxes, wbfScores, wbfLabels, meanLines);
    wbfBoxes' := wbfBoxes + [summary.box];
    wbfScores' := wbfScores + [summary.score];
    wbfLabels' := wbfLabels + [summary.classId];
    meanLines' := meanLines + [Record(summary.classId, CornersToYolo(summary.box))];
    clusters' := clusters + [cluster];
    assert forall k :: 0 <= k < used.Length ==> used[..][k] == used[k];
  }

  /** The outputs so far: one summary and one centre/size line per closed cluster. */
  ghost predicate Emitted(cs: seq<seq<nat>>, boxes: seq<Box>, labels: seq<int>,
                          wbfBoxes: seq<Box>, wbfScores: seq<real>, wbfLabels: seq<int>, meanLines: seq<Record>)
    requires |boxes| == |labels| && WithinRange(cs, |boxes|) && SeedOrdered(cs)
  {
    |wbfBoxes| == |wbfScores| == |wbfLabels| == |meanLines| == |cs| &&
    Zip3(wbfBoxes, wbfScores, wbfLabels) == Summaries(cs, boxes, labels) &&
    forall c :: 0 <= c < |meanLines| ==> meanLines[c] == Record(wbfLabels[c], CornersToYolo(wbfBoxes[c]))
  }

  lemma EmitStep(clusters: seq<seq<nat>>, cluster: seq<nat>, i: nat, boxes: seq<Box>, labels: seq<int>,
                 wbfBoxes: seq<Box>, wbfScores: seq<real>, wbfLabels: seq<int>, meanLines: seq<Record>)
    requires |boxes| == |labels| && i < |boxes|
    requires WithinRange(clusters, |boxes|) && SeedOrdered(clusters)
    requires forall c :: 0 <= c < |clusters| ==> clusters[c][0] < i
    requires SeedGrowing(cluster, i, |boxes|, boxes, labels)
    requires Emitted(clusters, boxes, labels, wbfBoxes, wbfScores, wbfLabels, meanLines)
    ensures WithinRange(clusters + [cluster], |boxes|) && SeedOrdered(clusters + [cluster])
    ensures var s := ClusterSummary(cluster, boxes, labels);
      Emitted(clusters + [cluster], boxes, labels, wbfBoxes + [s.box], wbfScores + [s.score], wbfLabels + [s.classId],
              meanLines + [Record(s.classId, CornersToYolo(s.box))])
  {
    var s := ClusterSummary(cluster, boxes, labels);
    SummariesSnoc(clusters, cluster, boxes, labels, i);
    Zip3Snoc(wbfBoxes, wbfScores, wbfLabels, s);
  }

  lemma SummariesSnoc(clusters: seq<seq<nat>>, cluster: seq<nat>, boxes: seq<Box>, labels: seq<int>, i: nat)
    requires |boxes| == |labels| && i < |boxes|
    requires WithinRange(clusters, |boxes|) && SeedOrdered(clusters)
    requires forall c :: 0 <= c < |clusters| ==> clusters[c][0] < i
    requires SeedGrowing(cluster, i, |boxes|, boxes, labels)
    ensures WithinRange(clusters + [cluster], |boxes|) && SeedOrdered(clusters + [cluster])
    ensures Summaries(clusters + [cluster], boxes, labels)
              == Summaries(clusters, boxes, labels) + [ClusterSummary(cluster, boxes, labels)]
  {
    AppendShape(clusters, cluster, i, |boxes|);
    var cs := clusters + [cluster];
    assert cs[|clusters|] == cluster;
    assert forall c :: 0 <= c < |clusters| ==> cs[c] == clusters[c];
  }
}
