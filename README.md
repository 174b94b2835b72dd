# Annotation consensus fusion, modelled in Dafny

Several annotators draw boxes on the same image. The scripts of this
repository fuse those boxes into a consensus. They read YOLO lines
(`class xc yc w h`) and convert them to corner boxes `[x1, y1, x2, y2]`. Then
each script scores or clusters the boxes in its own way:

- `approach2_clustering_consensus.py` clusters the flattened boxes by
  single-link chaining. It emits one mean box per cluster, scored by the share
  of annotators in the cluster, lowered by a variance penalty and floored at
  0.1.
- `approach3_iterative_refinement.py` groups every same-label box that is
  near a seed. It repeatedly drops MAD outliers from the group, then emits
  the mean of the survivors with a stability score.
- `approach1_wbf_confidence.py` and `kiro_wbf.py` score every box by its
  redundancy: how many boxes of its class overlap it, and how strongly. The
  flat score list is cut back into one list per annotator for
  weighted-boxes fusion.
- `gera_jsons.py` clusters each image's boxes around a seed. It scores every
  mean box by its mean IoU with the members, and writes the mean boxes back
  as YOLO lines.

The Dafny project models this logic on in-memory values. Coordinates are
`real`, and an annotation file is the list of its parsed lines. The modules
follow the scripts:

| module | file | models |
|---|---|---|
| `Stats` | `stats.dfy` | sums, `np.mean`, `np.var`, `np.median` (sort, then the middle), maximum |
| `Geometry` | `geometry.dfy` | boxes, both IoU variants, corner and centre/size conversions, mean box, box variance |
| `Annotations` | `annotations.dfy` | per-annotator sets, flattening, tiling a flat list, the minimum-score filter, cluster-shape predicates, partner lists, line parsing |
| `ClusteringConsensus` | `clustering_consensus.dfy` | `approach2_clustering_consensus.py` |
| `IterativeRefinement` | `iterative_refinement.dfy` | `approach3_iterative_refinement.py` |
| `WbfConfidence` | `wbf_confidence.dfy` | `approach1_wbf_confidence.py` |
| `KiroWbf` | `kiro_wbf.dfy` | `kiro_wbf.py` |
| `GeraJsons` | `gera_jsons.dfy` | `gera_jsons.py` |

`calculate_iou` is written four times with the same early-return code: in
approach1, approach2, approach3 and kiro. It is defined once, as
`Geometry.Iou`. The clamping variant of `gera_jsons.py` is
`Geometry.IouClamped`, and it is proved equal to `Geometry.Iou`. The loops of
the scripts are methods with loop invariants. Each is proved equal to a
specification function, or shown to produce a result described by a
characterising predicate: the clusterings, the seed scan of approach3, and
the frames of the in-place marking loops.

The refinement loop at `approach3_iterative_refinement.py:129-137` stops
only when one box or none is left. A round that removes nothing is still
recorded in the history, and the model follows the code
(`IterativeRefinement.StableRoundsRecorded`).

## Model

| member | source | states |
|---|---|---|
| Geometry.Iou | approach2_clustering_consensus.py:38-53 | the IoU is never negative; it is exactly 0 when the overlap has a negative width or height, and 0 when the union area is not positive (the same early-return IoU is copied at approach1_wbf_confidence.py:41-56, approach3_iterative_refinement.py:38-53 and kiro_wbf.py:40-59) |
| Geometry.IouClamped | gera_jsons.py:24-33 | the clamped IoU is never negative, and is 0 when the overlap has no positive width or height or when the union of the clamped overlap is not positive |
| Geometry.IouVariantsAgree | gera_jsons.py:24-33 | the clamped IoU and the early-return IoU agree on every pair of boxes |
| Geometry.IouSymmetric | approach2_clustering_consensus.py:38-53 | IoU(a, b) = IoU(b, a) for both variants |
| Geometry.IouClampedBounds | gera_jsons.py:24-33 | for well-formed boxes (x1 ≤ x2, y1 ≤ y2) the clamped IoU lies in [0, 1] |
| Geometry.IouBounds | approach2_clustering_consensus.py:40-53 | for well-formed boxes the IoU lies in [0, 1] |
| Geometry.IouSelf | approach2_clustering_consensus.py:40-53 | a box of positive area has IoU exactly 1 with itself, under both variants |
| Geometry.IouWithDegenerate | approach2_clustering_consensus.py:45-53 | a box of zero width or height has IoU 0 with every box |
| Geometry.YoloToCorners | gera_jsons.py:8-14 | a centre/size box with w ≥ 0 and h ≥ 0 gives corners with x1 ≤ x2 and y1 ≤ y2 |
| Geometry.CornersToYolo | gera_jsons.py:16-22 | converting corners to centre/size and back gives the same corners |
| Geometry.CornersRoundTrip | gera_jsons.py:8-22 | converting centre/size to corners and back gives the same centre/size |
| Geometry.MeanBox | approach2_clustering_consensus.py:97 | the coordinate-wise mean of one box is that box; the mean of well-formed boxes is well-formed |
| Geometry.BoxVariance | approach2_clustering_consensus.py:106 | the mean per-axis variance is never negative |
| Stats.SortFacts | approach3_iterative_refinement.py:76 | the sorted column is ascending, as long as the column and a permutation of it |
| Stats.InsertFacts | approach3_iterative_refinement.py:76 | inserting into an ascending list keeps it ascending and adds exactly the inserted value |
| Stats.MedianWithin | approach3_iterative_refinement.py:76-79 | the median of values within [lo, hi] is within [lo, hi] |
| Stats.MeanWithin | gera_jsons.py:103 | the mean of values within [lo, hi] is within [lo, hi] |
| Stats.MaxOf | approach1_wbf_confidence.py:79 | the maximum bounds every element and is one of them |
| Stats.Variance | approach3_iterative_refinement.py:149 | the population variance is never negative |
| Annotations.ParseRecords | kiro_wbf.py:28-36 | each line becomes the corners x1 = xc − w/2, x2 = xc + w/2 (likewise for y) and its class id; the box and label lists stay parallel (gera_jsons.py:64-69 reads with the same arithmetic) |
| Annotations.NonEmptySets | approach1_wbf_confidence.py:96-100 | the kept annotators are exactly those with at least one box, in order |
| Annotations.NonEmptySetsFlatten | approach1_wbf_confidence.py:96-107 | dropping the annotators without boxes leaves the flattened box and label lists unchanged |
| Annotations.FlatParallel | approach1_wbf_confidence.py:106-107 | flattening parallel box and label lists gives lists of equal length |
| Annotations.TileStep | approach1_wbf_confidence.py:111-115 | cutting the next slice, as long as the next annotator's box list, extends the tiling of the flat list |
| Annotations.KeepAtLeastExact | approach2_clustering_consensus.py:145-149 | the kept outputs are exactly those whose score reaches the minimum, in their original order |
| Annotations.FilterAtLeast | approach3_iterative_refinement.py:202-210 | the filter loop keeps exactly the triples whose score reaches the minimum, in order, with three lists of equal length |
| Annotations.OverlapsEmptyIff | approach1_wbf_confidence.py:69-73 | a box's overlap list is empty exactly when no other box of its label beats the threshold against it |
| Annotations.OverlapsLocal | approach1_wbf_confidence.py:69-73 | a box's overlap list depends only on that box and the boxes of its label |
| ClusteringConsensus.ClusterBoxesBySimilarity | approach2_clustering_consensus.py:55-86 | the clusters partition the indices; each opens with its seed and is increasing; clusters come in seed order; every member has the seed's label and joined through an earlier member; a later free same-label box left out beats no earlier member |
| ClusteringConsensus.GrowCluster | approach2_clustering_consensus.py:68-82 | the grown cluster chains from its seed, takes only boxes no earlier cluster holds, misses no box that could join, and marks exactly its members as visited |
| ClusteringConsensus.GrowStep | approach2_clustering_consensus.py:74-82 | after candidate j the cluster still starts at its seed, is increasing, has the seed's label and chains through earlier members; no free same-label box up to j that was left out beats an earlier member; no member belongs to an earlier cluster; the visited flags mark exactly the earlier clusters and this one |
| ClusteringConsensus.FirstOverlap | approach2_clustering_consensus.py:78-82 | when found, q is the first member whose IoU with box j beats the threshold; when not found, no member beats it |
| ClusteringConsensus.AppendCluster | approach2_clustering_consensus.py:84 | appending a finished cluster keeps every partition, order, label and chaining invariant of the scan |
| ClusteringConsensus.ClusterConsensus | approach2_clustering_consensus.py:88-110 | the label is the seed's; the box is the mean of the members; a singleton scores 1/n and keeps its box; a larger cluster scores between 0.1 and max(0.1, size/n), and exactly max(0.1, size/n) when it has no spread |
| ClusteringConsensus.FullAgreementScoresOne | approach2_clustering_consensus.py:99-108 | a cluster with one box from every annotator and no spread scores exactly 1 |
| ClusteringConsensus.KeepConsensuses | approach2_clustering_consensus.py:140-149 | the outputs are the consensuses of the clusters whose score reaches min_consensus, in cluster order, as three lists of equal length |
| ClusteringConsensus.ProcessWithClustering | approach2_clustering_consensus.py:121-151 | with no boxes the result is empty; otherwise the clusters are a chaining clustering of the flattened boxes, and the outputs are their kept consensuses with the number of files as the annotator count |
| IterativeRefinement.SimilarUpTo | approach3_iterative_refinement.py:55-65 | the similar indices are increasing and are exactly the same-label indices whose IoU with the target beats the threshold |
| IterativeRefinement.FindSimilarBoxes | approach3_iterative_refinement.py:55-65 | the loop returns exactly those indices, in increasing order |
| IterativeRefinement.DegenerateSeedHasNoGroup | approach3_iterative_refinement.py:114-119 | a seed of zero width or height has an empty group (threshold ≥ 0) |
| IterativeRefinement.AxisMad | approach3_iterative_refinement.py:79-82 | the MAD of a coordinate, with 0 replaced by 1e-6, is positive |
| IterativeRefinement.Deviation | approach3_iterative_refinement.py:85 | a normalised deviation is never negative |
| IterativeRefinement.MaxDeviation | approach3_iterative_refinement.py:86 | the maximum deviation bounds the four coordinate deviations and equals one of them |
| IterativeRefinement.InlierMaskExact | approach3_iterative_refinement.py:86-89 | row k is flagged exactly when its maximum deviation is below the threshold |
| IterativeRefinement.TrueIndices | approach3_iterative_refinement.py:89 | every listed position is below the scanned bound |
| IterativeRefinement.TrueIndicesIncreasing | approach3_iterative_refinement.py:89 | the listed positions come in increasing order |
| IterativeRefinement.TrueIndicesExact | approach3_iterative_refinement.py:89 | a position is listed exactly when its flag is set |
| IterativeRefinement.RemoveOutliersMad | approach3_iterative_refinement.py:67-91 | with at most 2 boxes every index is kept; a non-empty input keeps at least one index; every kept index is in range |
| IterativeRefinement.RemoveOutliersMadExact | approach3_iterative_refinement.py:67-91 | with more than 2 boxes, exactly the boxes whose maximum deviation is below the threshold are kept, or [0] when none is |
| IterativeRefinement.RemoveOutliersMadShrinks | approach3_iterative_refinement.py:67-91 | the kept indices are increasing, so the filter never returns more indices than boxes |
| IterativeRefinement.RefineStep | approach3_iterative_refinement.py:131-132 | one round turns a non-empty list into a non-empty list that is no longer |
| IterativeRefinement.RefineBounds | approach3_iterative_refinement.py:126-137 | the final boxes are non-empty and no more than the group; the history starts with the group, has 1 to max_iterations + 1 entries, all non-empty |
| IterativeRefinement.BreakLeavesHistoryBehind | approach3_iterative_refinement.py:134-137 | when a group of two or more ends with one box, that final list is not the last history entry |
| IterativeRefinement.CrowdedRecordsEveryRound | approach3_iterative_refinement.py:129-137 | a run of the loop that ends with more than one box appended one history entry for each of its rounds |
| IterativeRefinement.StableRoundsRecorded | approach3_iterative_refinement.py:127-137 | for a group of two or more, ending with more than one box, or with every box of the group, means the history holds max_iterations + 1 entries |
| IterativeRefinement.StableStep | approach3_iterative_refinement.py:129-137 | a round that removes none of two or more boxes leaves them unchanged, records them and goes on to the next round |
| IterativeRefinement.RefineGroup | approach3_iterative_refinement.py:126-137 | the loop with its break computes exactly the refinement function: final boxes and history |
| IterativeRefinement.Convergence | approach3_iterative_refinement.py:151-158 | convergence lies in [0, 1]; it is 0.5 with one history entry, and 1 when the last entry has no spread |
| IterativeRefinement.RetentionRate | approach3_iterative_refinement.py:146 | the retention rate lies in (0, 1] when between 1 and all boxes survive, and is 1 when all survive |
| IterativeRefinement.Stability | approach3_iterative_refinement.py:161-166 | stability lies in [0, 1] when its terms are in range |
| IterativeRefinement.StabilityMonotoneInRetention | approach3_iterative_refinement.py:161-166 | stability never decreases when the retention rate grows |
| IterativeRefinement.RefineOutcome | approach3_iterative_refinement.py:139-170 | a refined group keeps the seed's label and scores within [0, 1] |
| IterativeRefinement.LoneBoxScore | approach3_iterative_refinement.py:139-166 | a group of one box yields that box with stability exactly 0.63 |
| IterativeRefinement.RefineSeed | approach3_iterative_refinement.py:126-170 | the per-seed computation returns exactly the seed's refinement outcome, with stability in [0, 1] |
| IterativeRefinement.RefineAndScore | approach3_iterative_refinement.py:126-166 | the refinement loop and the stability formula give exactly the refinement outcome of the group: the mean of the final boxes and its stability |
| IterativeRefinement.MarkProcessed | approach3_iterative_refinement.py:122-123 | the group's indices become processed and nothing else changes |
| IterativeRefinement.MarkGroup | approach3_iterative_refinement.py:122-123 | after marking seed i's group, a box is processed exactly when it lies in the group of one of the seeds so far, i included |
| IterativeRefinement.ScanIndex | approach3_iterative_refinement.py:109-170 | one pass of the scan keeps its invariant: the seeds are the indices up to i that had a non-empty group not yet marked by a smaller seed, the outputs are their outcomes in order, and a box is processed exactly when it lies in one of their groups |
| IterativeRefinement.IterativeRefinementScan | approach3_iterative_refinement.py:93-172 | the seeds are exactly the indices that are unprocessed when reached and have a non-empty group; the outputs are their refinement outcomes, in seed order |
| IterativeRefinement.DegenerateNeverSeeds | approach3_iterative_refinement.py:118-119 | a box of zero width or height never yields an output |
| IterativeRefinement.ProcessWithIterativeRefinement | approach3_iterative_refinement.py:185-210 | with no boxes the result is empty; otherwise the outputs are the seeds' outcomes whose stability reaches min_stability, in order |
| WbfConfidence.RedundancyScore | approach1_wbf_confidence.py:76-87 | no overlap scores 0.3; otherwise min(1, 0.5 + min(k, 5)/10 + 0.3·mean + 0.1·max) lies in [0.6, 1] |
| WbfConfidence.RedundancyIsolation | approach1_wbf_confidence.py:66-87 | a box scores 0.3 exactly when no other same-label box beats the threshold against it, and in [0.6, 1] otherwise |
| WbfConfidence.RedundancyLocal | approach1_wbf_confidence.py:69-73 | a box's score depends only on that box and the boxes of its label |
| WbfConfidence.ScoreBox | approach1_wbf_confidence.py:66-87 | the score computed for box i is its redundancy score |
| WbfConfidence.ConfidenceFromRedundancy | approach1_wbf_confidence.py:58-89 | one score per box, in box order, each the redundancy score of its box |
| WbfConfidence.CollectOverlaps | approach1_wbf_confidence.py:67-73 | the inner loop collects exactly the IoUs of the other same-label boxes above the threshold, in index order |
| WbfConfidence.DropEmptyAnnotators | approach1_wbf_confidence.py:96-100 | the box and label lists kept are those of the annotators with boxes, in order |
| WbfConfidence.RedistributeScores | approach1_wbf_confidence.py:110-115 | score list k is as long as box list k, and the score lists read in order give the flat score list |
| WbfConfidence.ProcessWithWbf | approach1_wbf_confidence.py:91-115 | the arguments of the fusion call: the annotators with boxes, and their score lists tiling the redundancy scores of all boxes |
| KiroWbf.InitialScores | kiro_wbf.py:35 | every parsed box starts with score 1.0 |
| KiroWbf.KiroScore | kiro_wbf.py:80-87 | no partner scores 0.3; otherwise min(1, 0.5 + 0.1·count + 0.3·average) lies in [0.6, 1] |
| KiroWbf.KiroIsolation | kiro_wbf.py:69-87 | a box scores 0.3 exactly when it has no same-label partner above the threshold, and in [0.6, 1] otherwise |
| KiroWbf.KiroManyPartnersSaturate | kiro_wbf.py:81-84 | the count is not capped: with five or more partners the score is exactly 1 |
| KiroWbf.KiroAtMostApproach1 | kiro_wbf.py:80-84 | with at most five partners this score never exceeds approach 1's redundancy score |
| KiroWbf.CountOverlaps | kiro_wbf.py:70-78 | the accumulators end as the partner count and the sum of the partners' IoUs |
| KiroWbf.AssignConfidenceScores | kiro_wbf.py:61-89 | the array of ones is overwritten in place: the result has one score per box, each its redundancy score |
| KiroWbf.ReadNonEmpty | kiro_wbf.py:105-111 | the kept lists are those of the files with boxes, in order, each with initial scores of 1.0 |
| KiroWbf.Flatten | kiro_wbf.py:118-122 | extending one list by each list in turn gives their concatenation |
| KiroWbf.RedistributeInPlace | kiro_wbf.py:127-132 | after the in-place loop, score list i is as long as box list i, and the lists read in order give the flat score list |
| KiroWbf.ProcessAnnotationsWithWbf | kiro_wbf.py:91-132 | the arguments of the fusion call: the files with boxes, and their score lists tiling the redundancy scores of all boxes |
| KiroWbf.MidpointToYolo | kiro_wbf.py:154-159 | the midpoint form equals x1y1x2y2_to_yolo and converts back to the same corners |
| KiroWbf.ConvertToYoloFormat | kiro_wbf.py:147-163 | one entry per pair of zip(boxes, labels), each with the label and the midpoint centre/size of its box |
| KiroWbf.ConvertThenParse | kiro_wbf.py:147-163 | parsing the converted entries gives back the boxes and labels |
| GeraJsons.GatherNeighbours | gera_jsons.py:81-96 | the cluster is the seed followed, in index order, by exactly the later free same-label boxes whose IoU with the seed is above 0.5; exactly they become used |
| GeraJsons.OpenCluster | gera_jsons.py:87-96 | the new cluster is seed i and its later free same-label neighbours above 0.5 IoU; the used flags then mark exactly the boxes of all clusters, i included |
| GeraJsons.EmitCluster | gera_jsons.py:84-114 | one pass for a free seed i: the clusters, used flags, fusion lists and YOLO lines keep the scan invariant up to i + 1 |
| GeraJsons.ClusterImage | gera_jsons.py:80-114 | the clusters form the greedy seed clustering of the image; the fusion lists hold one summary per cluster in seed order, and each YOLO line is the cluster's label with its mean box in centre/size form |
| GeraJsons.AppendSeedCluster | gera_jsons.py:83-96 | appending a finished cluster keeps the partition, order, label and seed-only invariants of the scan |
| GeraJsons.ClusterSummary | gera_jsons.py:99-108 | the summary carries the seed's label and the mean box of the members; a singleton keeps its box |
| GeraJsons.ScoreWithinUnit | gera_jsons.py:99-103 | for well-formed members the mean box is well-formed and the mean IoU score lies in [0, 1] |
| GeraJsons.SingletonScoresOne | gera_jsons.py:99-103 | a lone box of positive area scores exactly 1 |
| GeraJsons.ProcessAnnotations | gera_jsons.py:53-114 | the clusters partition the boxes; each is its seed plus later free same-label boxes above 0.5 IoU with the seed, and nothing that could join is left out; one summary per cluster in seed order; the YOLO lines of the mean boxes parse back to those boxes and labels |

## Left out

- File reading and writing are not modelled. This covers text parsing with `float()` and `int()`, lines with fewer than five fields (skipped by the readers), missing files (read as no boxes), the TXT and JSON outputs of `gera_jsons.py:116-140`, and the six-decimal formatting. An annotation file is given as its list of parsed lines (`Annotations.Record`).
- `weighted_boxes_fusion` from `ensemble_boxes` is a foreign library whose code is not part of this model. `ProcessWithWbf` and `ProcessAnnotationsWithWbf` end with the three argument lists handed to it; `iou_thr`, `skip_box_thr` and `conf_type` reach only that call.
- gera_yoloformat.py, gera_score.py, batch_processor.py, plot.py, visualization_utils.py and example_usage.py are not part of this model. They hold I/O around the fusion call, directory orchestration, drawing and demos. The `analyze_*` and `print_statistics` functions only print summaries.
- The per-image JSON dictionary of `gera_jsons.py:129-135` (an entry only for images with clusters) is output bookkeeping and is not modelled.
- numpy floating point is not modelled: coordinates, means, variances and MADs are exact reals, and 1e-6 is a real constant.
- The scripts zip boxes with labels, which stops at the shorter list. The models of the reading, clustering and scoring steps require as many labels as boxes, which the readers always produce. `ConvertToYoloFormat` keeps the truncation.
- IterativeRefinement.RefineOutcome: does not state the fused box in its contract, only the label and the score range. Its box is the mean of the surviving boxes, given by its definition; `LoneBoxScore` pins the box for a group of one.
- ClusteringConsensus.ClusterConsensus: states the score of a larger cluster as at most max(0.1, size/n), not size/n. The 0.1 floor exceeds size/n when fewer than a tenth of the annotators are in the cluster.
