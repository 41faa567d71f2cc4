// PoseActivityDetector of scripts/pose_activity.py: the script-level
// classifier. It reads keypoints with a confidence filter, measures the torso's
// lean from the vertical and the knee angles, keeps the last 10 such
// measurements per person and applies its rules in order: sitting/crouching,
// lying down, walking or running from ankle movement, standing.
//
// np.arctan2 in degrees is a parameter `atan2`, like arccos (`acos`) and the
// square root (`root`).
module ScriptPose {
  import opened Wrappers
  import opened Geometry
  import opened Kinematics
  import opened Histories
  import opened Activities

  const ConfidenceThreshold := 0.5
  const BentKneeMax := 120.0
  const UprightTorsoMax := 30.0
  const LyingTorsoMin := 60.0
  const WalkingMovementMin := 5.0
  const RunningMovementMin := 30.0
  const HistoryLength := 10
  const MovementWindow := 5

  /**
   * `atan2(x, y)` is degrees(arctan2(x, y)): for x, y >= 0 it lies in
   * [0, 90], it is 0 for a vector straight along the y axis and 90 for one
   * straight along the x axis.
   */
  ghost predicate IsArctan2Degrees(atan2: (real, real) -> real) {
    && (forall x, y :: 0.0 <= x && 0.0 <= y ==> 0.0 <= atan2(x, y) <= 90.0)
    && (forall y :: 0.0 < y ==> atan2(0.0, y) == 0.0)
    && (forall x :: 0.0 < x ==> atan2(x, 0.0) == 90.0)
  }

  // --- get_keypoint ----------------------------------------------------------

  /**
   * get_keypoint: the (x, y) of row `index` of the [N, 3] keypoint array, or
   * None when the row does not exist, is shorter than 3 or its confidence is
   * below the threshold (a confidence equal to it is accepted).
   */
  function GetKeypoint(keypoints: seq<seq<real>>, index: nat, threshold: real): Option<Point> {
    if index >= |keypoints| then None
    else
      var row := keypoints[index];
      if |row| < 3 then None
      else if row[2] < threshold then None
      else Some(Point(row[0], row[1]))
  }

  lemma GetKeypointSpec(keypoints: seq<seq<real>>, index: nat, threshold: real)
    ensures GetKeypoint(keypoints, index, threshold).Some? <==>
      index < |keypoints| && |keypoints[index]| >= 3 && keypoints[index][2] >= threshold
    ensures GetKeypoint(keypoints, index, threshold).Some? ==>
      GetKeypoint(keypoints, index, threshold).value == Point(keypoints[index][0], keypoints[index][1])
  {
  }

  /** Raising the threshold can only drop keypoints. */
  lemma GetKeypointThreshold(keypoints: seq<seq<real>>, index: nat, t1: real, t2: real)
    requires t1 <= t2
    ensures GetKeypoint(keypoints, index, t2).Some? ==> GetKeypoint(keypoints, index, t1) == GetKeypoint(keypoints, index, t2)
  {
  }

  // --- calculate_angle -------------------------------------------------------

  /**
   * calculate_angle of the script: the angle at p2 between p1 and p3, None
   * when a point is None or either arm has length 0.
   */
  function ScriptAngle(root: real -> real, acos: real -> real, p1: Option<Point>, p2: Option<Point>, p3: Option<Point>): Option<real> {
    if p1.None? || p2.None? || p3.None? then None
    else
      var v1, v2 := Minus(p1.value, p2.value), Minus(p3.value, p2.value);
      var m1, m2 := Norm(root, v1), Norm(root, v2);
      if m1 == 0.0 || m2 == 0.0 then None
      else Some(acos(Clip(Dot(v1, v2) / (m1 * m2))))
  }

  lemma NormZero(root: real -> real, v: Point)
    requires IsSqrt(root)
    ensures Norm(root, v) == 0.0 <==> v == Point(0.0, 0.0)
  {
    DistanceFacts(root, Point(0.0, 0.0), v);
  }

  /**
   * The angle exists exactly when all three points do and neither outer point
   * coincides with the vertex, and then it lies in [0, 180].
   */
  lemma ScriptAngleSpec(root: real -> real, acos: real -> real, p1: Option<Point>, p2: Option<Point>, p3: Option<Point>)
    requires IsSqrt(root) && IsArccosDegrees(acos)
    ensures ScriptAngle(root, acos, p1, p2, p3).Some? <==>
      p1.Some? && p2.Some? && p3.Some? && p1.value != p2.value && p3.value != p2.value
    ensures ScriptAngle(root, acos, p1, p2, p3).Some? ==> 0.0 <= ScriptAngle(root, acos, p1, p2, p3).value <= 180.0
  {
    if p1.Some? && p2.Some? && p3.Some? {
      NormZero(root, Minus(p1.value, p2.value));
      NormZero(root, Minus(p3.value, p2.value));
      assert Minus(p1.value, p2.value) == Point(0.0, 0.0) <==> p1.value == p2.value;
      assert Minus(p3.value, p2.value) == Point(0.0, 0.0) <==> p3.value == p2.value;
    }
  }

  // --- one stored pose -------------------------------------------------------

  /** The current_pose dictionary stored for movement analysis. */
  datatype Measurement = Measurement(
    leftAnkle: Option<Point>,
    rightAnkle: Option<Point>,
    leftKneeAngle: Option<real>,
    rightKneeAngle: Option<real>,
    torsoAngle: real)

  /** The lean of the shoulder-to-hip line from the vertical, in degrees. */
  function Lean(atan2: (real, real) -> real, shoulder: Point, hip: Point): real {
    var vertical := if hip.y - shoulder.y >= 0.0 then hip.y - shoulder.y else shoulder.y - hip.y;
    var horizontal := if hip.x - shoulder.x >= 0.0 then hip.x - shoulder.x else shoulder.x - hip.x;
    atan2(horizontal, vertical)
  }

  /** Lines 92-101: the left shoulder and hip when both were found, else the right pair, else None. */
  function TorsoAngle(atan2: (real, real) -> real, ls: Option<Point>, lh: Option<Point>, rs: Option<Point>, rh: Option<Point>): (r: Option<real>)
    ensures r.Some? <==> (ls.Some? && lh.Some?) || (rs.Some? && rh.Some?)
  {
    if ls.Some? && lh.Some? then Some(Lean(atan2, ls.value, lh.value))
    else if rs.Some? && rh.Some? then Some(Lean(atan2, rs.value, rh.value))
    else None
  }

  /** A torso angle is in [0, 90]; a hip straight below its shoulder gives 0 and one level with it gives 90. */
  lemma LeanSpec(atan2: (real, real) -> real, shoulder: Point, hip: Point)
    requires IsArctan2Degrees(atan2)
    ensures 0.0 <= Lean(atan2, shoulder, hip) <= 90.0
    ensures shoulder.x == hip.x && shoulder.y != hip.y ==> Lean(atan2, shoulder, hip) == 0.0
    ensures shoulder.y == hip.y && shoulder.x != hip.x ==> Lean(atan2, shoulder, hip) == 90.0
  {
  }

  /** `angle and angle < 120`: a knee angle counts as bent only when it exists and is not 0.0. */
  predicate Bent(angle: Option<real>) {
    angle.Some? && angle.value != 0.0 && angle.value < BentKneeMax
  }

  // --- ankle movement --------------------------------------------------------

  /** The ankle movements between two consecutive poses: left first, each only when found in both. */
  function StepMovements(root: real -> real, prev: Measurement, curr: Measurement): (r: seq<real>)
    ensures |r| <= 2
  {
    (if prev.leftAnkle.Some? && curr.leftAnkle.Some? then [Distance(root, curr.leftAnkle.value, prev.leftAnkle.value)] else [])
    + (if prev.rightAnkle.Some? && curr.rightAnkle.Some? then [Distance(root, curr.rightAnkle.value, prev.rightAnkle.value)] else [])
  }

  /** The movements of the k most recent intervals, most recent first. */
  function Movements(root: real -> real, h: seq<Measurement>, k: nat): seq<real>
    requires k < |h|
  {
    if k == 0 then [] else Movements(root, h, k - 1) + StepMovements(root, h[|h| - k - 1], h[|h| - k])
  }

  /** The ankle movements of lines 141-154: the four most recent intervals of a history of at least 5. */
  function AnkleMovements(root: real -> real, h: seq<Measurement>): seq<real>
    requires |h| >= MovementWindow
  {
    Movements(root, h, MovementWindow - 1)
  }

  lemma {:induction false} MovementsFacts(root: real -> real, h: seq<Measurement>, k: nat)
    requires IsSqrt(root) && k < |h|
    ensures |Movements(root, h, k)| <= 2 * k
    ensures AllNonNegative(Movements(root, h, k))
  {
    if k > 0 {
      MovementsFacts(root, h, k - 1);
      var prev, curr := h[|h| - k - 1], h[|h| - k];
      if prev.leftAnkle.Some? && curr.leftAnkle.Some? {
        DistanceFacts(root, curr.leftAnkle.value, prev.leftAnkle.value);
      }
      if prev.rightAnkle.Some? && curr.rightAnkle.Some? {
        DistanceFacts(root, curr.rightAnkle.value, prev.rightAnkle.value);
      }
    }
  }

  /**
   * Without ankles in the last five poses there is no movement; otherwise at
   * most 8 movements, so the average is never negative.
   */
  lemma AnkleMovementsFacts(root: real -> real, h: seq<Measurement>)
    requires IsSqrt(root) && |h| >= MovementWindow
    ensures |AnkleMovements(root, h)| <= 8
    ensures Mean(AnkleMovements(root, h)) >= 0.0
  {
    MovementsFacts(root, h, MovementWindow - 1);
    MeanNonNegative(AnkleMovements(root, h));
  }

  // --- the rules -------------------------------------------------------------

  /** Lines 129-167 for the current pose m after the history h (ending with m) is stored. */
  function Rules(root: real -> real, m: Measurement, h: seq<Measurement>): (a: Activity)
    ensures a in {SittingCrouching, LyingDown, Walking, Running, Standing}
  {
    if (Bent(m.leftKneeAngle) || Bent(m.rightKneeAngle)) && m.torsoAngle < UprightTorsoMax then SittingCrouching
    else if m.torsoAngle > LyingTorsoMin then LyingDown
    else if |h| >= MovementWindow && AnkleMovements(root, h) != [] then
      var average := Mean(AnkleMovements(root, h));
      if WalkingMovementMin < average < RunningMovementMin then Walking
      else if average >= RunningMovementMin then Running
      else Standing
    else Standing
  }

  /** Moving: a history of at least 5 poses with some ankle movement of the given average. */
  predicate MovesOnAverage(root: real -> real, h: seq<Measurement>, lo: real, hi: real) {
    |h| >= MovementWindow && AnkleMovements(root, h) != [] && lo < Mean(AnkleMovements(root, h)) < hi
  }

  /**
   * The rules in their order, each with the conditions under which it fires:
   * a bent knee with an upright torso wins over everything, a torso leaning
   * more than 60 degrees over movement, and standing is what remains.
   */
  lemma RulesSpec(root: real -> real, m: Measurement, h: seq<Measurement>)
    requires IsSqrt(root)
    ensures var a := Rules(root, m, h);
      var sits := (Bent(m.leftKneeAngle) || Bent(m.rightKneeAngle)) && m.torsoAngle < 30.0;
      && (a == SittingCrouching <==> sits)
      && (a == LyingDown <==> !sits && m.torsoAngle > 60.0)
      && (a == Walking <==> !sits && m.torsoAngle <= 60.0 && MovesOnAverage(root, h, 5.0, 30.0))
      && (a == Running <==> !sits && m.torsoAngle <= 60.0 && |h| >= 5 && AnkleMovements(root, h) != [] && Mean(AnkleMovements(root, h)) >= 30.0)
  {
  }

  /** A torso leaning 30 degrees or more is never sitting; one leaning 30 to 60 degrees needs ankles to be anything but standing. */
  lemma LeaningTorso(root: real -> real, m: Measurement, h: seq<Measurement>)
    requires 30.0 <= m.torsoAngle <= 60.0
    ensures Rules(root, m, h) in {Walking, Running, Standing}
    ensures (|h| < MovementWindow || AnkleMovements(root, h) == []) ==> Rules(root, m, h) == Standing
  {
  }

  /** Keypoints of one call: the shoulder, hip, knee and ankle rows, read with the 0.5 confidence filter. */
  function Measure(root: real -> real, acos: real -> real, atan2: (real, real) -> real, keypoints: seq<seq<real>>): (r: Option<Measurement>)
    ensures r.Some? <==>
      || (GetKeypoint(keypoints, LeftShoulder, 0.5).Some? && GetKeypoint(keypoints, LeftHip, 0.5).Some?)
      || (GetKeypoint(keypoints, RightShoulder, 0.5).Some? && GetKeypoint(keypoints, RightHip, 0.5).Some?)
  {
    var ls, rs := GetKeypoint(keypoints, LeftShoulder, ConfidenceThreshold), GetKeypoint(keypoints, RightShoulder, ConfidenceThreshold);
    var lh, rh := GetKeypoint(keypoints, LeftHip, ConfidenceThreshold), GetKeypoint(keypoints, RightHip, ConfidenceThreshold);
    var lk, rk := GetKeypoint(keypoints, LeftKnee, ConfidenceThreshold), GetKeypoint(keypoints, RightKnee, ConfidenceThreshold);
    var la, ra := GetKeypoint(keypoints, LeftAnkle, ConfidenceThreshold), GetKeypoint(keypoints, RightAnkle, ConfidenceThreshold);
    var torso := TorsoAngle(atan2, ls, lh, rs, rh);
    if torso.None? then None
    else Some(Measurement(la, ra, ScriptAngle(root, acos, lh, lk, la), ScriptAngle(root, acos, rh, rk, ra), torso.value))
  }

  /**
   * A knee counts as bent only when hip, knee and ankle were all found with
   * confidence at least 0.5 and neither the hip nor the ankle sits on the knee.
   */
  lemma BentNeedsLeg(root: real -> real, acos: real -> real, atan2: (real, real) -> real, keypoints: seq<seq<real>>)
    requires IsSqrt(root) && IsArccosDegrees(acos)
    requires Measure(root, acos, atan2, keypoints).Some?
    ensures var m := Measure(root, acos, atan2, keypoints).value;
      Bent(m.leftKneeAngle) ==>
        var lh, lk, la := GetKeypoint(keypoints, LeftHip, 0.5), GetKeypoint(keypoints, LeftKnee, 0.5), GetKeypoint(keypoints, LeftAnkle, 0.5);
        lh.Some? && lk.Some? && la.Some? && lh.value != lk.value && la.value != lk.value
  {
    ScriptAngleSpec(root, acos, GetKeypoint(keypoints, LeftHip, 0.5), GetKeypoint(keypoints, LeftKnee, 0.5), GetKeypoint(keypoints, LeftAnkle, 0.5));
  }

  /** Per person, the stored measurements hold at most 10 entries. */
  ghost predicate HistoriesOk(ph: map<int, seq<Measurement>>) {
    forall p :: p in ph ==> |ph[p]| <= HistoryLength
  }

  class PoseActivityDetector {
    const root: real -> real
    const acos: real -> real
    const atan2: (real, real) -> real
    /** person -> the last 10 measurements */
    var poseHistory: map<int, seq<Measurement>>

    ghost predicate Valid()
      reads this
    {
      IsSqrt(root) && HistoriesOk(poseHistory)
    }

    constructor (root: real -> real, acos: real -> real, atan2: (real, real) -> real)
      requires IsSqrt(root)
      ensures Valid()
      ensures this.root == root && this.acos == acos && this.atan2 == atan2
      ensures poseHistory == map[]
    {
      this.root := root;
      this.acos := acos;
      this.atan2 := atan2;
      poseHistory := map[];
    }

    /** The ankle-movement loop of lines 141-154 over a stored history. */
    method RecentAnkleMovements(h: seq<Measurement>) returns (movements: seq<real>)
      requires |h| >= MovementWindow
      ensures movements == AnkleMovements(root, h)
    {
      movements := [];
      for i := 1 to MovementWindow
        invariant movements == Movements(root, h, i - 1)
      {
        var prev, curr := h[|h| - i - 1], h[|h| - i];
        if prev.leftAnkle.Some? && curr.leftAnkle.Some? {
          movements := movements + [Distance(root, curr.leftAnkle.value, prev.leftAnkle.value)];
        }
        if prev.rightAnkle.Some? && curr.rightAnkle.Some? {
          movements := movements + [Distance(root, curr.rightAnkle.value, prev.rightAnkle.value)];
        }
        assert movements == Movements(root, h, i - 1) + StepMovements(root, prev, curr);
      }
    }

    /**
     * classify_pose_activity: "unknown" with the history untouched when no
     * shoulder and hip of one side were found; otherwise the measurement is
     * stored (last 10 kept) and the rules decide.
     */
    method Classify(keypoints: seq<seq<real>>, person: int) returns (a: Activity)
      requires Valid()
      modifies this`poseHistory
      ensures Valid()
      ensures var m := Measure(root, acos, atan2, keypoints);
        && (m.None? ==> a == Unknown && poseHistory == old(poseHistory))
        && (m.Some? ==>
              var h := KeepLast(HistoryOf(old(poseHistory), person) + [m.value], HistoryLength);
              && poseHistory == old(poseHistory)[person := h]
              && a == Rules(root, m.value, h))
    {
      var measured := Measure(root, acos, atan2, keypoints);
      if measured.None? {
        return Unknown;
      }
      var current := measured.value;
      var h := if person in poseHistory then poseHistory[person] else [];
      h := KeepLast(h + [current], HistoryLength);
      poseHistory := poseHistory[person := h];

      if (Bent(current.leftKneeAngle) || Bent(current.rightKneeAngle)) && current.torsoAngle < UprightTorsoMax {
        return SittingCrouching;
      }
      if current.torsoAngle > LyingTorsoMin {
        return LyingDown;
      }
      if |h| >= MovementWindow {
        var movements := RecentAnkleMovements(h);
        if movements != [] {
          var average := Mean(movements);
          if WalkingMovementMin < average < RunningMovementMin {
            return Walking;
          } else if average >= RunningMovementMin {
            return Running;
          }
        }
      }
      return Standing;
    }
  }
}
