// Keypoint geometry shared by the pose classifiers: the 17 COCO keypoints of a
// skeleton, the "missing keypoint" tests, and the joint angle and head tilt the
// classifiers compute from them.
//
// The source takes arccos in degrees through numpy. It is a parameter `acos`
// here, like the square root `root` of Geometry; `IsArccosDegrees(acos)` says
// that it maps [-1, 1] into [0, 180]. Everything around the two (the guards, the
// clipping, the dot products and the small constant added to the denominator)
// is modelled as written.
module Kinematics {
  import opened Geometry

  /** The [17, 2] keypoint array of one detected person, in frame coordinates. */
  type Skeleton = s: seq<Point> | |s| == 17 witness seq(17, i => Point(0.0, 0.0))

  const Nose := 0
  const LeftShoulder := 5
  const RightShoulder := 6
  const LeftHip := 11
  const RightHip := 12
  const LeftKnee := 13
  const RightKnee := 14
  const LeftAnkle := 15
  const RightAnkle := 16

  /** np.all(p == 0): the pose model reports an undetected keypoint as (0, 0). */
  predicate Missing(p: Point) {
    p.x == 0.0 && p.y == 0.0
  }

  /** np.any(p == 0): at least one coordinate is 0. */
  predicate HasZero(p: Point) {
    p.x == 0.0 || p.y == 0.0
  }

  /**
   * `acos` is arccos in degrees on [-1, 1]: it lands in [0, 180], is
   * decreasing, and a right angle has cosine 0.
   */
  ghost predicate IsArccosDegrees(acos: real -> real) {
    && (forall c :: -1.0 <= c <= 1.0 ==> 0.0 <= acos(c) <= 180.0)
    && (forall c1, c2 :: -1.0 <= c1 <= c2 <= 1.0 ==> acos(c2) <= acos(c1))
    && acos(0.0) == 90.0
  }

  /** One stored pose: the keypoints and the timestamp they were seen at. */
  datatype Sample = Sample(keypoints: Skeleton, time: real)

  /** np.clip(c, -1, 1). */
  function Clip(c: real): (r: real)
    ensures -1.0 <= r <= 1.0
    ensures -1.0 <= c <= 1.0 ==> r == c
  {
    if c < -1.0 then -1.0 else if c > 1.0 then 1.0 else c
  }

  function Minus(p: Point, q: Point): Point {
    Point(p.x - q.x, p.y - q.y)
  }

  function Dot(u: Point, v: Point): real {
    u.x * v.x + u.y * v.y
  }

  /** np.linalg.norm of a vector. */
  function Norm(root: real -> real, v: Point): real {
    Distance(root, Point(0.0, 0.0), v)
  }

  function Midpoint(p: Point, q: Point): Point {
    Point((p.x + q.x) / 2.0, (p.y + q.y) / 2.0)
  }

  lemma NormNonNegative(root: real -> real, v: Point)
    requires IsSqrt(root)
    ensures Norm(root, v) >= 0.0
  {
    DistanceFacts(root, Point(0.0, 0.0), v);
  }

  /**
   * calculate_angle of the two src/core detectors: the angle at p2 between p1
   * and p3, or 180 when any coordinate of the three points is 0.
   */
  function JointAngle(root: real -> real, acos: real -> real, p1: Point, p2: Point, p3: Point): (r: real)
    requires IsSqrt(root)
    ensures HasZero(p1) || HasZero(p2) || HasZero(p3) ==> r == 180.0
  {
    if HasZero(p1) || HasZero(p2) || HasZero(p3) then 180.0
    else
      var v1, v2 := Minus(p1, p2), Minus(p3, p2);
      NormNonNegative(root, v1);
      NormNonNegative(root, v2);
      MulNonNegative(Norm(root, v1), Norm(root, v2));
      acos(Clip(Dot(v1, v2) / (Norm(root, v1) * Norm(root, v2) + 0.000001)))
  }

  /**
   * The tilt 90 - arccos(c) of a head whose cosine against the downward
   * vertical is not negative lies in [0, 90]: 0 level with the shoulders, 90 when the nose is
   * straight below the shoulder centre.
   */
  lemma TiltRange(acos: real -> real, c: real)
    requires IsArccosDegrees(acos) && 0.0 <= c
    ensures 0.0 <= 90.0 - acos(Clip(c)) <= 90.0
  {
    assert 0.0 <= Clip(c) <= 1.0;
    assert acos(Clip(c)) <= acos(0.0);
  }

  /** A joint angle is always a valid angle in degrees. */
  lemma JointAngleRange(root: real -> real, acos: real -> real, p1: Point, p2: Point, p3: Point)
    requires IsSqrt(root) && IsArccosDegrees(acos)
    ensures 0.0 <= JointAngle(root, acos, p1, p2, p3) <= 180.0
  {
  }
}
