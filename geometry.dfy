/**
 * Axis-aligned boxes in normalised corner form [x1, y1, x2, y2], the
 * centre/size (YOLO) form they are read from and written back to, the two
 * IoU implementations of the scripts, and the coordinate-wise mean and
 * variance of a list of boxes.
 */
module Geometry {
  import opened Stats

  datatype Box = Box(x1: real, y1: real, x2: real, y2: real)

  /** Centre/size form: centre (xc, yc), width w, height h. */
  datatype Yolo = Yolo(xc: real, yc: real, w: real, h: real)

  /** Corners in order; what the centre/size conversion produces for w, h >= 0. */
  predicate WellFormed(b: Box)
  {
    b.x1 <= b.x2 && b.y1 <= b.y2
  }

  function Area(b: Box): real
  {
    (b.x2 - b.x1) * (b.y2 - b.y1)
  }

  /** Python's built-in max/min on two numbers. */
  function Max(a: real, b: real): real
  {
    if a >= b then a else b
  }

  function Min(a: real, b: real): real
  {
    if a <= b then a else b
  }

  /** Width and height of the overlap rectangle; negative when the boxes are apart. */
  function InterWidth(a: Box, b: Box): real
  {
    Min(a.x2, b.x2) - Max(a.x1, b.x1)
  }

  function InterHeight(a: Box, b: Box): real
  {
    Min(a.y2, b.y2) - Max(a.y1, b.y1)
  }

  /** Area of the union, with the overlap area taken unclamped. */
  function UnionArea(a: Box, b: Box): real
  {
    Area(a) + Area(b) - InterWidth(a, b) * InterHeight(a, b)
  }

  /** Area of the union, with the overlap extents clamped at 0. */
  function ClampedUnionArea(a: Box, b: Box): real
  {
    Area(a) + Area(b) - Max(0.0, InterWidth(a, b)) * Max(0.0, InterHeight(a, b))
  }

  /**
   * calculate_iou of the three approach scripts and kiro_wbf: 0 as soon as
   * the overlap has a negative width or height, otherwise overlap area over
   * union area, and 0 instead of a division when the union is not positive.
   */
  function Iou(a: Box, b: Box): (r: real)
    ensures r >= 0.0
    ensures InterWidth(a, b) < 0.0 || InterHeight(a, b) < 0.0 ==> r == 0.0
    ensures UnionArea(a, b) <= 0.0 ==> r == 0.0
  {
    IouFromExtents(InterWidth(a, b), InterHeight(a, b), Area(a) + Area(b))
  }

  /** calculate_iou once the overlap extents and the sum of the two areas are known. */
  function IouFromExtents(iw: real, ih: real, areaSum: real): (r: real)
    ensures r >= 0.0
    ensures iw < 0.0 || ih < 0.0 ==> r == 0.0
    ensures areaSum - iw * ih <= 0.0 ==> r == 0.0
  {
    if iw < 0.0 || ih < 0.0 then 0.0
    else
      var inter := iw * ih;
      ProductNonNegative(iw, ih);
      OverlapRatio(inter, areaSum - inter)
  }

  /**
   * calculate_iou of gera_jsons: the overlap extents are clamped at 0
   * instead of returning early; 0 when the union is not positive.
   */
  function IouClamped(a: Box, b: Box): (r: real)
    ensures r >= 0.0
    ensures InterWidth(a, b) <= 0.0 || InterHeight(a, b) <= 0.0 ==> r == 0.0
    ensures ClampedUnionArea(a, b) <= 0.0 ==> r == 0.0
  {
    ClampedFromExtents(InterWidth(a, b), InterHeight(a, b), Area(a) + Area(b))
  }

  /** The clamped calculate_iou once the overlap extents and the sum of the two areas are known. */
  function ClampedFromExtents(iw: real, ih: real, areaSum: real): (r: real)
    ensures r >= 0.0
    ensures iw <= 0.0 || ih <= 0.0 ==> r == 0.0
    ensures areaSum - Max(0.0, iw) * Max(0.0, ih) <= 0.0 ==> r == 0.0
  {
    var inter := Max(0.0, iw) * Max(0.0, ih);
    ProductNonNegative(Max(0.0, iw), Max(0.0, ih));
    OverlapRatio(inter, areaSum - inter)
  }

  /** Overlap area over union area, and 0 instead of a division when the union is not positive. */
  function OverlapRatio(inter: real, union: real): (r: real)
    requires inter >= 0.0
    ensures r >= 0.0
    ensures union <= 0.0 ==> r == 0.0
  {
    if union > 0.0 then inter / union else 0.0
  }

  lemma ProductNonNegative(p: real, q: real)
    requires p >= 0.0 && q >= 0.0
    ensures p * q >= 0.0
  {
  }

  lemma ProductMonotone(p: real, q: real, pp: real, qq: real)
    requires 0.0 <= p <= pp && 0.0 <= q <= qq
    ensures p * q <= pp * qq
  {
    assert p * q <= pp * q;
    assert pp * q <= pp * qq;
  }

  lemma ProductPositive(p: real, q: real)
    requires p > 0.0 && q > 0.0
    ensures p * q > 0.0
  {
  }

  /** Both IoU implementations compute the same value on every pair of boxes. */
  lemma IouVariantsAgree(a: Box, b: Box)
    ensures Iou(a, b) == IouClamped(a, b)
  {
    ExtentsAgree(InterWidth(a, b), InterHeight(a, b), Area(a) + Area(b));
  }

  /** With non-negative extents clamping changes nothing; with a negative one both give 0. */
  lemma ExtentsAgree(iw: real, ih: real, areaSum: real)
    ensures IouFromExtents(iw, ih, areaSum) == ClampedFromExtents(iw, ih, areaSum)
  {
    if iw >= 0.0 && ih >= 0.0 {
      assert Max(0.0, iw) == iw && Max(0.0, ih) == ih;
    }
  }

  lemma IouSymmetric(a: Box, b: Box)
    ensures Iou(a, b) == Iou(b, a)
    ensures IouClamped(a, b) == IouClamped(b, a)
  {
    assert InterWidth(b, a) == InterWidth(a, b) && InterHeight(b, a) == InterHeight(a, b);
    assert Area(b) + Area(a) == Area(a) + Area(b);
  }

  /** For well-formed boxes the (clamped) IoU is a ratio in [0, 1]. */
  lemma IouClampedBounds(a: Box, b: Box)
    requires WellFormed(a) && WellFormed(b)
    ensures 0.0 <= IouClamped(a, b) <= 1.0
  {
    var pw, ph := Max(0.0, InterWidth(a, b)), Max(0.0, InterHeight(a, b));
    OverlapWithinBoth(a, b);
    var inter := pw * ph;
    InterWithinArea(pw, ph, a);
    InterWithinArea(pw, ph, b);
    ClampedAtMostOne(InterWidth(a, b), InterHeight(a, b), Area(a) + Area(b));
  }

  /** An overlap at most half the sum of the two areas gives a ratio of at most 1. */
  lemma ClampedAtMostOne(iw: real, ih: real, areaSum: real)
    requires 2.0 * (Max(0.0, iw) * Max(0.0, ih)) <= areaSum
    ensures ClampedFromExtents(iw, ih, areaSum) <= 1.0
  {
    var inter := Max(0.0, iw) * Max(0.0, ih);
    ProductNonNegative(Max(0.0, iw), Max(0.0, ih));
    RatioAtMostOne(inter, areaSum - inter);
  }

  /** The clamped overlap extents never exceed either box's extents. */
  lemma OverlapWithinBoth(a: Box, b: Box)
    requires WellFormed(a) && WellFormed(b)
    ensures 0.0 <= Max(0.0, InterWidth(a, b)) <= a.x2 - a.x1
    ensures Max(0.0, InterWidth(a, b)) <= b.x2 - b.x1
    ensures 0.0 <= Max(0.0, InterHeight(a, b)) <= a.y2 - a.y1
    ensures Max(0.0, InterHeight(a, b)) <= b.y2 - b.y1
  {
  }

  lemma InterWithinArea(pw: real, ph: real, a: Box)
    requires 0.0 <= pw <= a.x2 - a.x1 && 0.0 <= ph <= a.y2 - a.y1
    ensures 0.0 <= pw * ph <= Area(a)
  {
    ProductMonotone(pw, ph, a.x2 - a.x1, a.y2 - a.y1);
    ProductNonNegative(pw, ph);
  }

  lemma RatioAtMostOne(inter: real, union: real)
    requires 0.0 <= inter <= union
    ensures OverlapRatio(inter, union) <= 1.0
  {
    if union > 0.0 {
      DivideBounds(inter, union, union);
      DivideSelf(union);
    }
  }

  lemma IouBounds(a: Box, b: Box)
    requires WellFormed(a) && WellFormed(b)
    ensures 0.0 <= Iou(a, b) <= 1.0
  {
    IouVariantsAgree(a, b);
    IouClampedBounds(a, b);
  }

  /** A box with positive area overlaps itself completely. */
  lemma IouSelf(a: Box)
    requires a.x1 < a.x2 && a.y1 < a.y2
    ensures Iou(a, a) == 1.0
    ensures IouClamped(a, a) == 1.0
  {
    var w, h := a.x2 - a.x1, a.y2 - a.y1;
    assert InterWidth(a, a) == w && InterHeight(a, a) == h;
    ProductPositive(w, h);
    var area := w * h;
    var areaSum := Area(a) + Area(a);
    assert areaSum - area == area;
    assert Iou(a, a) == IouFromExtents(w, h, areaSum) == OverlapRatio(area, area);
    RatioSelf(area);
    IouVariantsAgree(a, a);
  }

  lemma RatioSelf(x: real)
    requires x > 0.0
    ensures OverlapRatio(x, x) == 1.0
  {
  }

  /** A box of zero width or zero height overlaps nothing. */
  lemma IouWithDegenerate(t: Box, b: Box)
    requires t.x1 == t.x2 || t.y1 == t.y2
    ensures Iou(t, b) == 0.0
  {
    var iw, ih := InterWidth(t, b), InterHeight(t, b);
    if iw >= 0.0 && ih >= 0.0 {
      assert iw == 0.0 || ih == 0.0;
      assert iw * ih == 0.0;
    }
  }

  /** yolo_to_x1y1x2y2 (and the corner arithmetic of every reader). */
  function YoloToCorners(y: Yolo): (b: Box)
    ensures y.w >= 0.0 && y.h >= 0.0 ==> WellFormed(b)
  {
    Box(y.xc - y.w / 2.0, y.yc - y.h / 2.0, y.xc + y.w / 2.0, y.yc + y.h / 2.0)
  }

  /** x1y1x2y2_to_yolo: size from the corner differences, centre as x1 + w/2. */
  function CornersToYolo(b: Box): (y: Yolo)
    ensures YoloToCorners(y) == b
  {
    var w := b.x2 - b.x1;
    var h := b.y2 - b.y1;
    Yolo(b.x1 + w / 2.0, b.y1 + h / 2.0, w, h)
  }

  lemma CornersRoundTrip(y: Yolo)
    ensures CornersToYolo(YoloToCorners(y)) == y
  {
  }

  /** The i-th coordinate of a box in the order x1, y1, x2, y2 (a numpy row). */
  function Coord(b: Box, axis: nat): real
    requires axis < 4
  {
    if axis == 0 then b.x1 else if axis == 1 then b.y1 else if axis == 2 then b.x2 else b.y2
  }

  /** Column `axis` of the box matrix. */
  function Axis(bs: seq<Box>, axis: nat): (r: seq<real>)
    requires axis < 4
    ensures |r| == |bs|
    ensures forall i :: 0 <= i < |bs| ==> r[i] == Coord(bs[i], axis)
  {
    seq(|bs|, i requires 0 <= i < |bs| => Coord(bs[i], axis))
  }

  /**
   * np.mean(boxes, axis=0): the coordinate-wise mean. One box is its own
   * mean, and the mean of well-formed boxes is well-formed.
   */
  function MeanBox(bs: seq<Box>): (m: Box)
    requires |bs| > 0
    ensures |bs| == 1 ==> m == bs[0]
    ensures (forall i :: 0 <= i < |bs| ==> WellFormed(bs[i])) ==> WellFormed(m)
  {
    var m := Box(Mean(Axis(bs, 0)), Mean(Axis(bs, 1)), Mean(Axis(bs, 2)), Mean(Axis(bs, 3)));
    MeanBoxProperties(bs, m);
    m
  }

  lemma MeanBoxProperties(bs: seq<Box>, m: Box)
    requires |bs| > 0
    requires m == Box(Mean(Axis(bs, 0)), Mean(Axis(bs, 1)), Mean(Axis(bs, 2)), Mean(Axis(bs, 3)))
    ensures |bs| == 1 ==> m == bs[0]
    ensures (forall i :: 0 <= i < |bs| ==> WellFormed(bs[i])) ==> WellFormed(m)
  {
    if |bs| == 1 {
      forall axis | 0 <= axis < 4
        ensures Mean(Axis(bs, axis)) == Coord(bs[0], axis)
      {
        MeanSingle(Axis(bs, axis));
      }
      assert Mean(Axis(bs, 0)) == bs[0].x1;
      assert Mean(Axis(bs, 1)) == bs[0].y1;
      assert Mean(Axis(bs, 2)) == bs[0].x2;
      assert Mean(Axis(bs, 3)) == bs[0].y2;
    }
    if forall i :: 0 <= i < |bs| ==> WellFormed(bs[i]) {
      MeanMonotone(Axis(bs, 0), Axis(bs, 2));
      MeanMonotone(Axis(bs, 1), Axis(bs, 3));
    }
  }

  /** np.var(boxes, axis=0).mean(): the mean of the four per-axis variances. */
  function BoxVariance(bs: seq<Box>): (v: real)
    requires |bs| > 0
    ensures v >= 0.0
  {
    (Variance(Axis(bs, 0)) + Variance(Axis(bs, 1)) + Variance(Axis(bs, 2)) + Variance(Axis(bs, 3))) / 4.0
  }
}
