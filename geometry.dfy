// Plane geometry shared by the tracker and the activity classifiers: points,
// axis-aligned boxes [x1, y1, x2, y2], box centres, intersection over union,
// Euclidean distance and the arithmetic mean used to smooth speeds.
//
// The source computes distances with np.sqrt / np.linalg.norm. Square roots are
// not computable on Dafny's reals, so every distance is taken through a square
// root function `root` handed in by the caller; `IsSqrt(root)` says that it is
// the non-negative square root. Nothing else about floating point is modelled.
module Geometry {

  datatype Point = Point(x: real, y: real)

  /** A bounding box in xyxy form: top-left (x1, y1), bottom-right (x2, y2). */
  datatype Box = Box(x1: real, y1: real, x2: real, y2: real)

  /** A box whose corners are in order (the detector always produces these). */
  predicate WellFormed(b: Box) {
    b.x1 <= b.x2 && b.y1 <= b.y2
  }

  function Max(a: real, b: real): real { if a >= b then a else b }
  function Min(a: real, b: real): real { if a <= b then a else b }

  /** Centre of a box: equally far from both corners on each axis. */
  function Center(b: Box): (c: Point)
    ensures c.x - b.x1 == b.x2 - c.x && c.y - b.y1 == b.y2 - c.y
  {
    Point((b.x1 + b.x2) / 2.0, (b.y1 + b.y2) / 2.0)
  }

  function Area(b: Box): real {
    (b.x2 - b.x1) * (b.y2 - b.y1)
  }

  /**
   * Intersection over union of two boxes (GhostTrack.calculate_iou): 0 when the
   * boxes do not overlap or the union is not positive, otherwise
   * intersection / union. Boxes that only touch have intersection 0.
   */
  function Iou(a: Box, b: Box): real {
    var ix1 := Max(a.x1, b.x1);
    var iy1 := Max(a.y1, b.y1);
    var ix2 := Min(a.x2, b.x2);
    var iy2 := Min(a.y2, b.y2);
    if ix2 < ix1 || iy2 < iy1 then 0.0
    else OverlapRatio((ix2 - ix1) * (iy2 - iy1), Area(a), Area(b))
  }

  /** intersection / union for boxes of areas areaA and areaB, 0 when the union is not positive. */
  function OverlapRatio(inter: real, areaA: real, areaB: real): real {
    var union := areaA + areaB - inter;
    if union > 0.0 then inter / union else 0.0
  }

  lemma MulNonNegative(a: real, b: real)
    requires 0.0 <= a && 0.0 <= b
    ensures 0.0 <= a * b
  {
  }

  lemma MulPositive(a: real, b: real)
    requires 0.0 < a && 0.0 < b
    ensures 0.0 < a * b
  {
  }

  lemma MulMonotone(a: real, b: real, c: real)
    requires a <= b && 0.0 <= c
    ensures a * c <= b * c
  {
    MulNonNegative(b - a, c);
  }

  lemma ProductMonotone(a: real, b: real, c: real, d: real)
    requires 0.0 <= a <= c && 0.0 <= b <= d
    ensures 0.0 <= a * b <= c * d
  {
    MulNonNegative(a, b);
    MulMonotone(a, c, b);
    MulMonotone(b, d, c);
  }

  lemma RatioAtMostOne(x: real, y: real)
    requires 0.0 <= x <= y && 0.0 < y
    ensures 0.0 <= x / y <= 1.0
  {
    var q := x / y;
    assert q * y == x;
    if q < 0.0 {
      MulMonotone(q, 0.0, y);
    }
    if q > 1.0 {
      MulPositive(q - 1.0, y);
    }
  }

  lemma DivNonNegative(x: real, y: real)
    requires 0.0 <= x && 0.0 < y
    ensures 0.0 <= x / y
  {
    var q := x / y;
    assert q * y == x;
    if q < 0.0 {
      MulPositive(-q, y);
    }
  }

  /** For well-formed boxes the IoU is a ratio in [0, 1]. */
  lemma IouBounds(a: Box, b: Box)
    requires WellFormed(a) && WellFormed(b)
    ensures 0.0 <= Iou(a, b) <= 1.0
  {
    var ix1 := Max(a.x1, b.x1);
    var iy1 := Max(a.y1, b.y1);
    var ix2 := Min(a.x2, b.x2);
    var iy2 := Min(a.y2, b.y2);
    if !(ix2 < ix1 || iy2 < iy1) {
      var w, h := ix2 - ix1, iy2 - iy1;
      OverlapWithin(w, h, a);
      OverlapWithin(w, h, b);
      OverlapRatioBounds(w * h, Area(a), Area(b));
      IouOverlap(a, b, w, h);
    }
  }

  /** For overlapping boxes the IoU is the overlap ratio of the w-by-h intersection. */
  lemma IouOverlap(a: Box, b: Box, w: real, h: real)
    requires w == Min(a.x2, b.x2) - Max(a.x1, b.x1) && h == Min(a.y2, b.y2) - Max(a.y1, b.y1)
    requires 0.0 <= w && 0.0 <= h
    ensures Iou(a, b) == OverlapRatio(w * h, Area(a), Area(b))
  {
  }

  /** A rectangle of sides w, h that fits inside box b has at most b's area. */
  lemma OverlapWithin(w: real, h: real, b: Box)
    requires 0.0 <= w <= b.x2 - b.x1 && 0.0 <= h <= b.y2 - b.y1
    ensures 0.0 <= w * h <= Area(b)
  {
    ProductMonotone(w, h, b.x2 - b.x1, b.y2 - b.y1);
  }

  /** An intersection no larger than either area is at most the union. */
  lemma OverlapRatioBounds(inter: real, areaA: real, areaB: real)
    requires 0.0 <= inter <= areaA && inter <= areaB
    ensures 0.0 <= OverlapRatio(inter, areaA, areaB) <= 1.0
  {
    var union := areaA + areaB - inter;
    if union > 0.0 {
      RatioAtMostOne(inter, union);
    }
  }

  /** The IoU does not depend on which box comes first. */
  lemma IouSymmetric(a: Box, b: Box)
    ensures Iou(a, b) == Iou(b, a)
  {
    var ix1 := Max(a.x1, b.x1);
    var iy1 := Max(a.y1, b.y1);
    var ix2 := Min(a.x2, b.x2);
    var iy2 := Min(a.y2, b.y2);
    assert Max(b.x1, a.x1) == ix1 && Max(b.y1, a.y1) == iy1;
    assert Min(b.x2, a.x2) == ix2 && Min(b.y2, a.y2) == iy2;
  }

  /** A box with positive area overlaps itself completely. */
  lemma IouSelf(a: Box)
    requires a.x1 < a.x2 && a.y1 < a.y2
    ensures Iou(a, a) == 1.0
  {
    assert Max(a.x1, a.x1) == a.x1 && Max(a.y1, a.y1) == a.y1;
    assert Min(a.x2, a.x2) == a.x2 && Min(a.y2, a.y2) == a.y2;
    var w, h := a.x2 - a.x1, a.y2 - a.y1;
    MulPositive(w, h);
    var inter := w * h;
    assert Area(a) == inter;
    assert Area(a) + Area(a) - inter == inter;
    assert Iou(a, a) == inter / inter;
  }

  /** `root` is the non-negative square root on the non-negative reals. */
  ghost predicate IsSqrt(root: real -> real) {
    forall x :: 0.0 <= x ==> 0.0 <= root(x) && root(x) * root(x) == x
  }

  function SquaredDistance(p: Point, q: Point): real {
    (q.x - p.x) * (q.x - p.x) + (q.y - p.y) * (q.y - p.y)
  }

  /** Euclidean distance sqrt(dx*dx + dy*dy), through the square root `root`. */
  function Distance(root: real -> real, p: Point, q: Point): real {
    root(SquaredDistance(p, q))
  }

  lemma ProductZero(a: real, b: real)
    requires a * b == 0.0
    ensures a == 0.0 || b == 0.0
  {
    if a != 0.0 && b != 0.0 {
      if a > 0.0 && b > 0.0 {
        MulPositive(a, b);
      } else if a < 0.0 && b < 0.0 {
        MulPositive(-a, -b);
      } else if a > 0.0 {
        MulPositive(a, -b);
      } else {
        MulPositive(-a, b);
      }
    }
  }

  lemma ProductStrict(a: real, b: real, c: real, d: real)
    requires 0.0 <= a < c && 0.0 <= b < d
    ensures a * b < c * d
  {
    MulMonotone(a, c, b);
    MulPositive(c, d - b);
  }

  lemma SquareNonNegative(d: real)
    ensures d * d >= 0.0
  {
    if d >= 0.0 {
      MulNonNegative(d, d);
    } else {
      MulNonNegative(-d, -d);
    }
  }

  lemma SquaredDistanceFacts(p: Point, q: Point)
    ensures SquaredDistance(p, q) >= 0.0
    ensures SquaredDistance(p, q) == SquaredDistance(q, p)
    ensures SquaredDistance(p, q) == 0.0 <==> p == q
  {
    var dx, dy := q.x - p.x, q.y - p.y;
    SquareNonNegative(dx);
    SquareNonNegative(dy);
    if SquaredDistance(p, q) == 0.0 {
      ProductZero(dx, dx);
      ProductZero(dy, dy);
    }
    assert (p.x - q.x) * (p.x - q.x) == dx * dx;
    assert (p.y - q.y) * (p.y - q.y) == dy * dy;
  }

  /** A distance is never negative, is symmetric, and is zero exactly between equal points. */
  lemma DistanceFacts(root: real -> real, p: Point, q: Point)
    requires IsSqrt(root)
    ensures Distance(root, p, q) >= 0.0
    ensures Distance(root, p, q) == Distance(root, q, p)
    ensures Distance(root, p, q) == 0.0 <==> p == q
  {
    SquaredDistanceFacts(p, q);
    var s := SquaredDistance(p, q);
    var r := root(s);
    assert r >= 0.0 && r * r == s;
    if s == 0.0 {
      ProductZero(r, r);
    }
  }

  /**
   * Comparing a distance with a non-negative threshold is the same as comparing
   * the squared distance with the squared threshold.
   */
  lemma DistanceWithin(root: real -> real, p: Point, q: Point, t: real)
    requires IsSqrt(root) && t >= 0.0
    ensures Distance(root, p, q) <= t <==> SquaredDistance(p, q) <= t * t
  {
    SquaredDistanceFacts(p, q);
    var s := SquaredDistance(p, q);
    var r := root(s);
    assert r >= 0.0 && r * r == s;
    if r <= t {
      ProductMonotone(r, r, t, t);
    } else {
      ProductStrict(t, t, r, r);
    }
  }

  function Sum(s: seq<real>): real {
    if s == [] then 0.0 else Sum(s[..|s| - 1]) + s[|s| - 1]
  }

  /** np.mean of a non-empty list; 0 for the empty list (every caller guards it that way). */
  function Mean(s: seq<real>): real {
    if s == [] then 0.0 else Sum(s) / |s| as real
  }

  predicate AllNonNegative(s: seq<real>) {
    forall i :: 0 <= i < |s| ==> 0.0 <= s[i]
  }

  lemma {:induction false} SumNonNegative(s: seq<real>)
    requires AllNonNegative(s)
    ensures Sum(s) >= 0.0
  {
    if s != [] {
      SumNonNegative(s[..|s| - 1]);
    }
  }

  lemma {:induction false} SumBelow(s: seq<real>, t: real)
    requires forall i :: 0 <= i < |s| ==> s[i] <= t
    ensures Sum(s) <= |s| as real * t
  {
    if s != [] {
      SumBelow(s[..|s| - 1], t);
    }
  }

  /** A mean of non-negative values is non-negative. */
  lemma MeanNonNegative(s: seq<real>)
    requires AllNonNegative(s)
    ensures Mean(s) >= 0.0
  {
    SumNonNegative(s);
  }

  /** A mean never exceeds an upper bound of the values it averages. */
  lemma MeanBelow(s: seq<real>, t: real)
    requires forall i :: 0 <= i < |s| ==> s[i] <= t
    requires s != [] || t >= 0.0
    ensures Mean(s) <= t
  {
    if s != [] {
      SumBelow(s, t);
      var n := |s| as real;
      assert Sum(s) / n <= t by {
        assert Sum(s) <= n * t;
      }
    }
  }
}
