/**
 * approach2_clustering_consensus.py: single-link ("chaining") clustering of
 * the flattened boxes, one mean box per cluster, and a consensus score equal
 * to the proportion of annotators in the cluster, lowered by a variance
 * penalty and floored at 0.1.
 */
module ClusteringConsensus {
  import opened Stats
  import opened Geometry
  import opened Annotations

  /** Member p of a cluster beats the threshold against some member placed before it. */
  ghost predicate JoinedVia(cluster: seq<nat>, p: nat, boxes: seq<Box>, threshold: real)
    requires p < |cluster| && forall q :: 0 <= q < |cluster| ==> cluster[q] < |boxes|
  {
    exists q :: 0 <= q < p && Iou(boxes[cluster[q]], boxes[cluster[p]]) > threshold
  }

  /** Every non-seed member joined through some member placed before it. */
  ghost predicate Chained(cs: seq<seq<nat>>, boxes: seq<Box>, threshold: real)
    requires WithinRange(cs, |boxes|)
  {
    forall c, p :: 0 <= c < |cs| && 0 < p < |cs[c]| ==> JoinedVia(cs[c], p, boxes, threshold)
  }

  /**
   * What the scan of cluster c left out: a later same-label box that was
   * still unvisited (not in an earlier cluster) and did not join beats the
   * threshold against no member that preceded it.
   */
  ghost predicate ChainMaximal(cs: seq<seq<nat>>, boxes: seq<Box>, labels: seq<int>, threshold: real)
    requires |boxes| == |labels| && WithinRange(cs, |boxes|) && SeedOrdered(cs)
  {
    forall c, j :: 0 <= c < |cs| && cs[c][0] < j < |boxes| && labels[j] == labels[cs[c][0]] &&
                   j !in cs[c] && !InEarlier(cs, c, j) ==>
      forall m :: m in cs[c] && m < j ==> Iou(boxes[m], boxes[j]) <= threshold
  }

  /** Everything cluster_boxes_by_similarity promises about its result. */
  ghost predicate IsChainClustering(cs: seq<seq<nat>>, boxes: seq<Box>, labels: seq<int>, threshold: real)
    requires |boxes| == |labels|
  {
    IsPartition(cs, |boxes|) && SeedOrdered(cs) && LabelPure(cs, labels) &&
    Chained(cs, boxes, threshold) && ChainMaximal(cs, boxes, labels, threshold)
  }

  /** A cluster under construction: seeded at i, grown by chaining over candidates below j. */
  ghost predicate Growing(cluster: seq<nat>, i: nat, j: nat, boxes: seq<Box>, labels: seq<int>, threshold: real)
    requires |boxes| == |labels| && i < |boxes| && j <= |boxes|
  {
    |cluster| > 0 && cluster[0] == i && StrictlyIncreasing(cluster) &&
    (forall p :: 0 <= p < |cluster| ==> i <= cluster[p] < j && cluster[p] < |boxes|) &&
    (forall p :: 0 <= p < |cluster| ==> labels[cluster[p]] == labels[i]) &&
    (forall p :: 0 < p < |cluster| ==> JoinedVia(cluster, p, boxes, threshold))
  }

  /** Candidates below j that were free and skipped beat no earlier member. */
  ghost predicate SkippedFairly(clusters: seq<seq<nat>>, cluster: seq<nat>, i: nat, j: nat,
                                boxes: seq<Box>, labels: seq<int>, threshold: real)
    requires |boxes| == |labels| && i < |boxes| && j <= |boxes|
    requires forall p :: 0 <= p < |cluster| ==> cluster[p] < |boxes|
  {
    forall j' :: i < j' < j && labels[j'] == labels[i] && j' !in cluster && !InSome(clusters, j') ==>
      forall m :: m in cluster && m < j' ==> Iou(boxes[m], boxes[j']) <= threshold
  }

  /** What the outer scan has established once every seed below i has been handled. */
  ghost predicate ScannedUpTo(cs: seq<seq<nat>>, i: nat, boxes: seq<Box>, labels: seq<int>, threshold: real)
    requires |boxes| == |labels|
  {
    WithinRange(cs, |boxes|) && NoRepeats(cs) && SeedOrdered(cs) &&
    (forall c :: 0 <= c < |cs| ==> cs[c][0] < i) &&
    LabelPure(cs, labels) && Chained(cs, boxes, threshold) && ChainMaximal(cs, boxes, labels, threshold)
  }

  /** Candidate j joins through member q: the cluster stays well grown and fair. */
  lemma JoinAt(clusters: seq<seq<nat>>, cluster: seq<nat>, i: nat, j: nat, q: nat,
               boxes: seq<Box>, labels: seq<int>, threshold: real)
    requires |boxes| == |labels| && i < j < |boxes|
    requires Growing(cluster, i, j, boxes, labels, threshold)
    requires SkippedFairly(clusters, cluster, i, j, boxes, labels, threshold)
    requires labels[j] == labels[i] && q < |cluster| && Iou(boxes[cluster[q]], boxes[j]) > threshold
    ensures Growing(cluster + [j], i, j + 1, boxes, labels, threshold)
    ensures SkippedFairly(clusters, cluster + [j], i, j + 1, boxes, labels, threshold)
  {
    GrowAt(cluster, i, j, q, boxes, labels, threshold);
    var grown := cluster + [j];
    forall j' | i < j' < j + 1 && labels[j'] == labels[i] && j' !in grown && !InSome(clusters, j')
      ensures forall m :: m in grown && m < j' ==> Iou(boxes[m], boxes[j']) <= threshold
    {
      assert j' != j && j' !in cluster;
    }
  }

  lemma GrowAt(cluster: seq<nat>, i: nat, j: nat, q: nat,
               boxes: seq<Box>, labels: seq<int>, threshold: real)
    requires |boxes| == |labels| && i < j < |boxes|
    requires Growing(cluster, i, j, boxes, labels, threshold)
    requires labels[j] == labels[i] && q < |cluster| && Iou(boxes[cluster[q]], boxes[j]) > threshold
    ensures Growing(cluster + [j], i, j + 1, boxes, labels, threshold)
  {
    var grown := cluster + [j];
    assert forall p :: 0 <= p < |cluster| ==> grown[p] == cluster[p];
    assert grown[|cluster|] == j;
    forall p | 0 < p < |grown|
      ensures JoinedVia(grown, p, boxes, threshold)
    {
      if p < |cluster| {
        assert JoinedVia(cluster, p, boxes, threshold);
        var q' :| 0 <= q' < p && Iou(boxes[cluster[q']], boxes[cluster[p]]) > threshold;
        assert grown[q'] == cluster[q'];
      } else {
        assert grown[q] == cluster[q];
      }
    }
  }

  /** Candidate j is skipped (taken, other label, or no member beats the threshold). */
  lemma PassOver(clusters: seq<seq<nat>>, cluster: seq<nat>, i: nat, j: nat,
                 boxes: seq<Box>, labels: seq<int>, threshold: real)
    requires |boxes| == |labels| && i < j < |boxes|
    requires Growing(cluster, i, j, boxes, labels, threshold)
    requires SkippedFairly(clusters, cluster, i, j, boxes, labels, threshold)
    requires labels[j] != labels[i] || InSome(clusters, j) || j in cluster ||
             forall q :: 0 <= q < |cluster| ==> Iou(boxes[cluster[q]], boxes[j]) <= threshold
    ensures Growing(cluster, i, j + 1, boxes, labels, threshold)
    ensures SkippedFairly(clusters, cluster, i, j + 1, boxes, labels, threshold)
  {
  }

  /** Closing a grown cluster and appending it keeps every invariant of the clustering so far. */
  lemma AppendCluster(clusters: seq<seq<nat>>, cluster: seq<nat>, i: nat,
                      boxes: seq<Box>, labels: seq<int>, threshold: real)
    requires |boxes| == |labels| && i < |boxes|
    requires ScannedUpTo(clusters, i, boxes, labels, threshold)
    requires Growing(cluster, i, |boxes|, boxes, labels, threshold)
    requires forall p :: 0 <= p < |cluster| ==> !InSome(clusters, cluster[p])
    requires SkippedFairly(clusters, cluster, i, |boxes|, boxes, labels, threshold)
    ensures ScannedUpTo(clusters + [cluster], i + 1, boxes, labels, threshold)
  {
    var cs := clusters + [cluster];
    AppendShape(clusters, cluster, i, |boxes|);
    AppendNoRepeats(clusters, cluster);
    AppendLabels(clusters, cluster, i, boxes, labels, threshold);
    AppendChained(clusters, cluster, i, boxes, labels, threshold);
    AppendMaximal(clusters, cluster, i, boxes, labels, threshold);
  }

  lemma AppendLabels(clusters: seq<seq<nat>>, cluster: seq<nat>, i: nat,
                     boxes: seq<Box>, labels: seq<int>, threshold: real)
    requires |boxes| == |labels| && i < |boxes|
    requires LabelPure(clusters, labels)
    requires Growing(cluster, i, |boxes|, boxes, labels, threshold)
    ensures LabelPure(clusters + [cluster], labels)
  {
    var cs := clusters + [cluster];
    assert cs[|clusters|] == cluster;
    assert forall c :: 0 <= c < |clusters| ==> cs[c] == clusters[c];
  }

  lemma AppendChained(clusters: seq<seq<nat>>, cluster: seq<nat>, i: nat,
                      boxes: seq<Box>, labels: seq<int>, threshold: real)
    requires |boxes| == |labels| && i < |boxes|
    requires WithinRange(clusters, |boxes|) && Chained(clusters, boxes, threshold)
    requires Growing(cluster, i, |boxes|, boxes, labels, threshold)
    ensures WithinRange(clusters + [cluster], |boxes|)
    ensures Chained(clusters + [cluster], boxes, threshold)
  {
    var cs := clusters + [cluster];
    assert cs[|clusters|] == cluster;
    assert forall c :: 0 <= c < |clusters| ==> cs[c] == clusters[c];
  }

  lemma AppendMaximal(clusters: seq<seq<nat>>, cluster: seq<nat>, i: nat,
                      boxes: seq<Box>, labels: seq<int>, threshold: real)
    requires |boxes| == |labels| && i < |boxes|
    requires WithinRange(clusters, |boxes|) && SeedOrdered(clusters)
    requires forall c :: 0 <= c < |clusters| ==> clusters[c][0] < i
    requires ChainMaximal(clusters, boxes, labels, threshold)
    requires Growing(cluster, i, |boxes|, boxes, labels, threshold)
    requires SkippedFairly(clusters, cluster, i, |boxes|, boxes, labels, threshold)
    ensures WithinRange(clusters + [cluster], |boxes|) && SeedOrdered(clusters + [cluster])
    ensures ChainMaximal(clusters + [cluster], boxes, labels, threshold)
  {
    var cs := clusters + [cluster];
    AppendShape(clusters, cluster, i, |boxes|);
    assert cs[|clusters|] == cluster;
    assert forall c :: 0 <= c < |clusters| ==> cs[c] == clusters[c];
    forall c, j | 0 <= c < |cs| && cs[c][0] < j < |boxes| && labels[j] == labels[cs[c][0]] &&
                  j !in cs[c] && !InEarlier(cs, c, j)
      ensures forall m :: m in cs[c] && m < j ==> Iou(boxes[m], boxes[j]) <= threshold
    {
      InEarlierAppend(clusters, cluster, c, j);
    }
  }

  /**
   * cluster_boxes_by_similarity: scan the boxes in order; each box not yet
   * visited seeds a cluster, and each later unvisited box of the seed's label
   * joins as soon as its IoU with any current member beats the threshold.
   */
  method ClusterBoxesBySimilarity(boxes: seq<Box>, labels: seq<int>, threshold: real)
    returns (clusters: seq<seq<nat>>)
    requires |boxes| == |labels|
    ensures IsChainClustering(clusters, boxes, labels, threshold)
  {
    var n := |boxes|;
    var visited := new bool[n](_ => false);
    clusters := [];
    for i := 0 to n
      invariant ScannedUpTo(clusters, i, boxes, labels, threshold)
      invariant forall k :: 0 <= k < n ==> (visited[k] <==> InSome(clusters, k))
      invariant forall k :: 0 <= k < i ==> InSome(clusters, k)
    {
      if visited[i] {
        continue;
      }
      var cluster := GrowCluster(boxes, labels, threshold, i, visited, clusters);
      forall k | 0 <= k < n
        ensures visited[k] <==> InSome(clusters + [cluster], k)
      {
        InSomeAppend(clusters, cluster, k);
      }
      AppendCluster(clusters, cluster, i, boxes, labels, threshold);
      clusters := clusters + [cluster];
    }
  }

  /**
   * The inner scan of cluster_boxes_by_similarity: seed a cluster at the
   * unvisited box i and let every later free box of the same label join when
   * it beats the threshold against a member already in the cluster.
   */
  method GrowCluster(boxes: seq<Box>, labels: seq<int>, threshold: real, i: nat, visited: array<bool>,
                     ghost clusters: seq<seq<nat>>)
    returns (cluster: seq<nat>)
    requires |boxes| == |labels| == visited.Length && i < |boxes|
    requires forall k :: 0 <= k < visited.Length ==> (visited[k] <==> InSome(clusters, k))
    requires !visited[i]
    modifies visited
    ensures Growing(cluster, i, |boxes|, boxes, labels, threshold)
    ensures forall p :: 0 <= p < |cluster| ==> !InSome(clusters, cluster[p])
    ensures SkippedFairly(clusters, cluster, i, |boxes|, boxes, labels, threshold)
    ensures forall k :: 0 <= k < visited.Length ==> (visited[k] <==> InSome(clusters, k) || k in cluster)
  {
    var n := |boxes|;
    cluster := [i];
    visited[i] := true;
    for j := i + 1 to n
      invariant Growing(cluster, i, j, boxes, labels, threshold)
      invariant SkippedFairly(clusters, cluster, i, j, boxes, labels, threshold)
      invariant Unclaimed(clusters, cluster)
      invariant VisitedMarks(visited[..], clusters, cluster)
    {
      cluster := GrowStep(boxes, labels, threshold, i, j, visited, clusters, cluster);
    }
  }

  /** None of the members of `cluster` lies in one of the earlier clusters. */
  ghost predicate Unclaimed(clusters: seq<seq<nat>>, cluster: seq<nat>)
  {
    forall p :: 0 <= p < |cluster| ==> !InSome(clusters, cluster[p])
  }

  /** The visited flags mark the boxes of the earlier clusters and of `cluster`. */
  ghost predicate VisitedMarks(flags: seq<bool>, clusters: seq<seq<nat>>, cluster: seq<nat>)
  {
    forall k :: 0 <= k < |flags| ==> (flags[k] <==> InSome(clusters, k) || k in cluster)
  }

  /**
   * One candidate j of the inner scan of cluster_boxes_by_similarity: a free
   * box of the seed's label joins when some member overlaps it enough.
   */
  method GrowStep(boxes: seq<Box>, labels: seq<int>, threshold: real, i: nat, j: nat, visited: array<bool>,
                  ghost clusters: seq<seq<nat>>, cluster: seq<nat>)
    returns (cluster': seq<nat>)
    requires |boxes| == |labels| == visited.Length && i < j < |boxes|
    requires Growing(cluster, i, j, boxes, labels, threshold)
    requires SkippedFairly(clusters, cluster, i, j, boxes, labels, threshold)
    requires Unclaimed(clusters, cluster)
    requires VisitedMarks(visited[..], clusters, cluster)
    modifies visited
    ensures Growing(cluster', i, j + 1, boxes, labels, threshold)
    ensures SkippedFairly(clusters, cluster', i, j + 1, boxes, labels, threshold)
    ensures Unclaimed(clusters, cluster')
    ensures VisitedMarks(visited[..], clusters, cluster')
  {
    cluster' := cluster;
    assert visited[..][j] == visited[j];
    if visited[j] || labels[i] != labels[j] {
      PassOver(clusters, cluster, i, j, boxes, labels, threshold);
      return;
    }
    var joins, q := FirstOverlap(boxes, cluster, j, threshold);
    if joins {
      JoinAt(clusters, cluster, i, j, q, boxes, labels, threshold);
      cluster' := cluster + [j];
      visited[j] := true;
    } else {
      PassOver(clusters, cluster, i, j, boxes, labels, threshold);
    }
  }

  /**
   * The member loop of cluster_boxes_by_similarity for candidate j: the first
   * member whose IoU with box j beats the threshold, if any.
   */
  method FirstOverlap(boxes: seq<Box>, cluster: seq<nat>, j: nat, threshold: real) returns (found: bool, q: nat)
    requires j < |boxes| && forall p :: 0 <= p < |cluster| ==> cluster[p] < |boxes|
    ensures found ==> q < |cluster| && Iou(boxes[cluster[q]], boxes[j]) > threshold
    ensures found ==> forall q' :: 0 <= q' < q ==> Iou(boxes[cluster[q']], boxes[j]) <= threshold
    ensures !found ==> forall q' :: 0 <= q' < |cluster| ==> Iou(boxes[cluster[q']], boxes[j]) <= threshold
  {
    q := 0;
    while q < |cluster|
      invariant 0 <= q <= |cluster|
      invariant forall q' :: 0 <= q' < q ==> Iou(boxes[cluster[q']], boxes[j]) <= threshold
    {
      if Iou(boxes[cluster[q]], boxes[j]) > threshold {
        return true, q;
      }
      q := q + 1;
    }
    found := false;
  }

  /**
   * calculate_cluster_consensus: the mean box of the members, the seed's
   * label, and the proportion of annotators in the cluster; a cluster of two
   * or more loses min(0.2, 10 * variance) and is floored at 0.1.
   */
  function ClusterConsensus(cluster: seq<nat>, boxes: seq<Box>, labels: seq<int>, nAnnotators: nat): (r: Fused)
    requires |cluster| > 0 && nAnnotators > 0
    requires |boxes| == |labels| && forall p :: 0 <= p < |cluster| ==> cluster[p] < |boxes|
    ensures r.classId == labels[cluster[0]]
    ensures r.box == MeanBox(Gather(boxes, cluster))
    ensures |cluster| == 1 ==> r.score == 1.0 / (nAnnotators as real) && r.box == boxes[cluster[0]]
    ensures |cluster| > 1 ==> 0.1 <= r.score <= Max(0.1, (|cluster| as real) / (nAnnotators as real))
    ensures |cluster| > 1 && BoxVariance(Gather(boxes, cluster)) == 0.0 ==>
              r.score == Max(0.1, (|cluster| as real) / (nAnnotators as real))
  {
    var members := Gather(boxes, cluster);
    var proportion := (|cluster| as real) / (nAnnotators as real);
    var score :=
      if |cluster| > 1 then Max(0.1, proportion - Min(0.2, BoxVariance(members) * 10.0))
      else proportion;
    Fused(MeanBox(members), score, labels[cluster[0]])
  }

  /** A cluster holding one box from every annotator, with no spread, scores exactly 1. */
  lemma FullAgreementScoresOne(cluster: seq<nat>, boxes: seq<Box>, labels: seq<int>, nAnnotators: nat)
    requires |cluster| == nAnnotators > 0
    requires |boxes| == |labels| && forall p :: 0 <= p < |cluster| ==> cluster[p] < |boxes|
    requires |cluster| == 1 || BoxVariance(Gather(boxes, cluster)) == 0.0
    ensures ClusterConsensus(cluster, boxes, labels, nAnnotators).score == 1.0
  {
    DivideSelf(nAnnotators as real);
  }

  /** The consensus of every cluster, in cluster order. */
  function Consensuses(cs: seq<seq<nat>>, boxes: seq<Box>, labels: seq<int>, nAnnotators: nat): (r: seq<Fused>)
    requires nAnnotators > 0 && |boxes| == |labels| && WithinRange(cs, |boxes|)
    requires forall c :: 0 <= c < |cs| ==> |cs[c]| > 0
    ensures |r| == |cs|
    ensures forall c :: 0 <= c < |cs| ==> r[c] == ClusterConsensus(cs[c], boxes, labels, nAnnotators)
  {
    seq(|cs|, c requires 0 <= c < |cs| => ClusterConsensus(cs[c], boxes, labels, nAnnotators))
  }

  /** calculate_cluster_consensus on cluster c: entry c of the consensus list. */
  method ConsensusAt(cs: seq<seq<nat>>, boxes: seq<Box>, labels: seq<int>, nAnnotators: nat, c: nat,
                     ghost all: seq<Fused>)
    returns (consensus: Fused)
    requires nAnnotators > 0 && |boxes| == |labels| && WithinRange(cs, |boxes|)
    requires forall c' :: 0 <= c' < |cs| ==> |cs[c']| > 0
    requires c < |cs| && all == Consensuses(cs, boxes, labels, nAnnotators)
    ensures c < |all| && consensus == all[c]
  {
    consensus := ClusterConsensus(cs[c], boxes, labels, nAnnotators);
  }

  /**
   * The loop of process_with_clustering over the clusters: the consensus of
   * each cluster, kept when its score reaches minConsensus, in cluster order.
   */
  method KeepConsensuses(cs: seq<seq<nat>>, boxes: seq<Box>, labels: seq<int>, nAnnotators: nat, minConsensus: real)
    returns (finalBoxes: seq<Box>, finalScores: seq<real>, finalLabels: seq<int>)
    requires nAnnotators > 0 && |boxes| == |labels| && WithinRange(cs, |boxes|)
    requires forall c :: 0 <= c < |cs| ==> |cs[c]| > 0
    ensures |finalBoxes| == |finalScores| == |finalLabels|
    ensures Zip3(finalBoxes, finalScores, finalLabels) == KeepAtLeast(Consensuses(cs, boxes, labels, nAnnotators), minConsensus)
  {
    ghost var all := Consensuses(cs, boxes, labels, nAnnotators);
    finalBoxes, finalScores, finalLabels := [], [], [];
    for c := 0 to |cs|
      invariant |finalBoxes| == |finalScores| == |finalLabels|
      invariant Zip3(finalBoxes, finalScores, finalLabels) == KeepAtLeast(all[..c], minConsensus)
    {
      var consensus := ConsensusAt(cs, boxes, labels, nAnnotators, c, all);
      if consensus.score >= minConsensus {
        FilterKeeps(finalBoxes, finalScores, finalLabels, all, c, consensus, minConsensus);
        finalBoxes := finalBoxes + [consensus.box];
        finalScores := finalScores + [consensus.score];
        finalLabels := finalLabels + [consensus.classId];
      } else {
        KeepAtLeastStep(all, c, minConsensus);
      }
    }
    assert all[..|cs|] == all;
  }

  /**
   * process_with_clustering on in-memory annotation sets: flatten them, cluster
   * the boxes, and keep, in cluster order, the consensus of every cluster whose
   * score reaches minConsensus; with no box at all the three lists are empty.
   * The annotator count is the number of sets, empty ones included.
   */
  method ProcessWithClustering(sets: seq<AnnotationSet>, iouThreshold: real, minConsensus: real)
    returns (finalBoxes: seq<Box>, finalScores: seq<real>, finalLabels: seq<int>, ghost clusters: seq<seq<nat>>)
    requires forall k :: 0 <= k < |sets| ==> Parallel(sets[k])
    ensures |finalBoxes| == |finalScores| == |finalLabels|
    ensures FlatBoxes(sets) == [] ==> finalBoxes == [] && clusters == []
    ensures |FlatBoxes(sets)| == |FlatLabels(sets)|
    ensures IsChainClustering(clusters, FlatBoxes(sets), FlatLabels(sets), iouThreshold)
    ensures FlatBoxes(sets) != [] ==>
              |sets| > 0 &&
              Zip3(finalBoxes, finalScores, finalLabels)
                == KeepAtLeast(Consensuses(clusters, FlatBoxes(sets), FlatLabels(sets), |sets|), minConsensus)
  {
    var allBoxes := FlatBoxes(sets);
    var allLabels := FlatLabels(sets);
    FlatParallel(sets);
    assert |sets| == 0 ==> allBoxes == [];
    if allBoxes == [] {
      assert IsPartition([], 0);
      return [], [], [], [];
    }
    var found := ClusterBoxesBySimilarity(allBoxes, allLabels, iouThreshold);
    clusters := found;
    finalBoxes, finalScores, finalLabels := KeepConsensuses(found, allBoxes, allLabels, |sets|, minConsensus);
  }
}
