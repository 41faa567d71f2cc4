// PoseActivityDetector (src/core/pose_activity_detector.py): the library
// classifier. From a person's keypoints and their last 10 poses it decides
// between reading, sitting, standing and loitering: sitting comes from bent hip
// and knee angles on either side, reading from a head tilt in [20, 70] degrees,
// loitering from hip movement of 15 px/s or more.
//
// The pose model (detect_pose) is not modelled: each call receives its result,
// None when no pose was found. The class initialises `activity_history` but
// never appends to it, so every stored activity list stays empty.
module PoseActivity {
  import opened Wrappers
  import opened Geometry
  import opened Kinematics
  import opened Histories
  import opened Activities

  const SittingHipAngleMax := 110.0
  const SittingKneeAngleMax := 130.0
  const ReadingTiltMin := 20.0
  const ReadingTiltMax := 70.0
  const MovementThreshold := 15.0
  const HistoryLength := 10
  const WarmUp := 5

  // --- calculate_head_tilt ---------------------------------------------------

  /**
   * calculate_head_tilt of this detector: like the temporal detector's but
   * divided by the exact length of the head vector, behind a check that the
   * length is positive.
   */
  function HeadTilt(root: real -> real, acos: real -> real, kp: Skeleton): (r: real)
    requires IsSqrt(root)
    ensures Missing(kp[Nose]) || Missing(kp[LeftShoulder]) || Missing(kp[RightShoulder]) ==> r == 0.0
    ensures kp[Nose].y <= Midpoint(kp[LeftShoulder], kp[RightShoulder]).y ==> r == 0.0
  {
    if Missing(kp[Nose]) || Missing(kp[LeftShoulder]) || Missing(kp[RightShoulder]) then 0.0
    else
      var head := Minus(kp[Nose], Midpoint(kp[LeftShoulder], kp[RightShoulder]));
      if head.y > 0.0 then
        var magnitude := Norm(root, head);
        if magnitude > 0.0 then 90.0 - acos(Clip(Dot(head, Point(0.0, 1.0)) / magnitude)) else 0.0
      else 0.0
  }

  /** A vector pointing down has positive length, so the magnitude check of line 151 always passes. */
  lemma DownwardHasLength(root: real -> real, v: Point)
    requires IsSqrt(root) && v.y > 0.0
    ensures Norm(root, v) > 0.0
  {
    DistanceFacts(root, Point(0.0, 0.0), v);
  }

  /** The tilt lies in [0, 90]: 0 level with the shoulders or not measurable, 90 when the nose is straight below the shoulder centre. */
  lemma HeadTiltRange(root: real -> real, acos: real -> real, kp: Skeleton)
    requires IsSqrt(root) && IsArccosDegrees(acos)
    ensures 0.0 <= HeadTilt(root, acos, kp) <= 90.0
  {
    if !(Missing(kp[Nose]) || Missing(kp[LeftShoulder]) || Missing(kp[RightShoulder])) {
      var head := Minus(kp[Nose], Midpoint(kp[LeftShoulder], kp[RightShoulder]));
      if head.y > 0.0 {
        DownwardHasLength(root, head);
        assert Dot(head, Point(0.0, 1.0)) == head.y;
        DivNonNegative(head.y, Norm(root, head));
        TiltRange(acos, Dot(head, Point(0.0, 1.0)) / Norm(root, head));
      }
    }
  }

  // --- sitting ---------------------------------------------------------------

  /** One side sits: hip, knee and ankle present, hip angle below 110 and knee angle below 130. */
  predicate SideSitting(root: real -> real, acos: real -> real, shoulder: Point, hip: Point, knee: Point, ankle: Point)
    requires IsSqrt(root)
  {
    && !Missing(hip) && !Missing(knee) && !Missing(ankle)
    && JointAngle(root, acos, shoulder, hip, knee) < SittingHipAngleMax
    && JointAngle(root, acos, hip, knee, ankle) < SittingKneeAngleMax
  }

  /** Lines 273-286: the left side is tried first, the right side only when the left does not sit. */
  predicate IsSitting(root: real -> real, acos: real -> real, kp: Skeleton)
    requires IsSqrt(root)
  {
    || SideSitting(root, acos, kp[LeftShoulder], kp[LeftHip], kp[LeftKnee], kp[LeftAnkle])
    || SideSitting(root, acos, kp[RightShoulder], kp[RightHip], kp[RightKnee], kp[RightAnkle])
  }

  /**
   * Sitting needs a whole side: since calculate_angle falls back to 180 on a
   * zero coordinate, the shoulder, hip, knee and ankle of the sitting side all
   * have both coordinates non-zero.
   */
  lemma SittingNeedsWholeSide(root: real -> real, acos: real -> real, kp: Skeleton)
    requires IsSqrt(root) && IsSitting(root, acos, kp)
    ensures || (!HasZero(kp[LeftShoulder]) && !HasZero(kp[LeftHip]) && !HasZero(kp[LeftKnee]) && !HasZero(kp[LeftAnkle]))
            || (!HasZero(kp[RightShoulder]) && !HasZero(kp[RightHip]) && !HasZero(kp[RightKnee]) && !HasZero(kp[RightAnkle]))
  {
  }

  // --- velocities ------------------------------------------------------------

  /**
   * Lines 257-270: the speed of the hip centre between the previous and the
   * current pose; 0 when a hip is missing in either or time did not move forward.
   */
  function HipSpeed(root: real -> real, h: seq<Sample>): real
    requires |h| >= 1
  {
    var current := h[|h| - 1];
    var lh, rh := current.keypoints[LeftHip], current.keypoints[RightHip];
    if !Missing(lh) && !Missing(rh) && |h| >= 2 then
      var previous := h[|h| - 2];
      var plh, prh := previous.keypoints[LeftHip], previous.keypoints[RightHip];
      if !Missing(plh) && !Missing(prh) then
        var dt := current.time - previous.time;
        if dt > 0.0 then Distance(root, Midpoint(plh, prh), Midpoint(lh, rh)) / dt else 0.0
      else 0.0
    else 0.0
  }

  lemma HipSpeedNonNegative(root: real -> real, h: seq<Sample>)
    requires IsSqrt(root) && |h| >= 1
    ensures HipSpeed(root, h) >= 0.0
  {
    if |h| >= 2 {
      var current, previous := h[|h| - 1], h[|h| - 2];
      var p := Midpoint(previous.keypoints[LeftHip], previous.keypoints[RightHip]);
      var q := Midpoint(current.keypoints[LeftHip], current.keypoints[RightHip]);
      DistanceFacts(root, p, q);
      if current.time - previous.time > 0.0 {
        DivNonNegative(Distance(root, p, q), current.time - previous.time);
      }
    }
  }

  /** calculate_joint_velocity: the joint's speed over the last two poses, 0 when it cannot be measured. */
  function JointVelocity(root: real -> real, h: seq<Sample>, joint: nat): real
    requires joint < 17
  {
    if |h| < 2 then 0.0
    else
      var currentJoint, previousJoint := h[|h| - 1].keypoints[joint], h[|h| - 2].keypoints[joint];
      if Missing(currentJoint) || Missing(previousJoint) then 0.0
      else
        var dt := h[|h| - 1].time - h[|h| - 2].time;
        if dt <= 0.0 then 0.0 else Distance(root, previousJoint, currentJoint) / dt
  }

  /** The joint's speed between samples i-1 and i, as a list of zero or one values. */
  function JointRate(root: real -> real, h: seq<Sample>, joint: nat, i: int): (r: seq<real>)
    requires joint < 17 && 1 <= i < |h|
    ensures r == [] || r == [JointVelocity(root, h[..i + 1], joint)]
  {
    var currentJoint, previousJoint := h[i].keypoints[joint], h[i - 1].keypoints[joint];
    if Missing(currentJoint) || Missing(previousJoint) then []
    else
      var dt := h[i].time - h[i - 1].time;
      if dt > 0.0 then [Distance(root, previousJoint, currentJoint) / dt] else []
  }

  /**
   * A measurable last interval has a single rate, and it is the one
   * calculate_joint_velocity reports.
   */
  lemma JointRateAgrees(root: real -> real, h: seq<Sample>, joint: nat)
    requires joint < 17 && |h| >= 2
    ensures JointVelocity(root, h, joint) != 0.0 ==> JointRate(root, h, joint, |h| - 1) == [JointVelocity(root, h, joint)]
  {
    assert h[..|h|] == h;
  }

  /** The joint rates for i = top, top-1, ..., lo+1, in that order. */
  function JointRates(root: real -> real, h: seq<Sample>, joint: nat, top: int, lo: int): seq<real>
    requires joint < 17 && 0 <= lo <= top < |h|
    decreases top - lo
  {
    if lo == top then [] else JointRates(root, h, joint, top, lo + 1) + JointRate(root, h, joint, lo + 1)
  }

  /** Where the loop of calculate_average_velocity stops: max(0, n - frames - 1), but never above n - 1. */
  function Stop(n: int, frames: int): int {
    var s := if n - frames - 1 > 0 then n - frames - 1 else 0;
    if s < n - 1 then s else n - 1
  }

  /** calculate_average_velocity: the mean joint speed over at most `frames` recent intervals. */
  function AverageJointSpeed(root: real -> real, h: seq<Sample>, joint: nat, frames: int): real
    requires joint < 17
  {
    if |h| < 2 then 0.0 else Mean(JointRates(root, h, joint, |h| - 1, Stop(|h|, frames)))
  }

  lemma {:induction false} JointRatesFacts(root: real -> real, h: seq<Sample>, joint: nat, top: int, lo: int)
    requires IsSqrt(root) && joint < 17 && 0 <= lo <= top < |h|
    ensures |JointRates(root, h, joint, top, lo)| <= top - lo
    ensures AllNonNegative(JointRates(root, h, joint, top, lo))
    decreases top - lo
  {
    if lo < top {
      JointRatesFacts(root, h, joint, top, lo + 1);
      var currentJoint, previousJoint := h[lo + 1].keypoints[joint], h[lo].keypoints[joint];
      if !(Missing(currentJoint) || Missing(previousJoint)) && h[lo + 1].time - h[lo].time > 0.0 {
        DistanceFacts(root, previousJoint, currentJoint);
        DivNonNegative(Distance(root, previousJoint, currentJoint), h[lo + 1].time - h[lo].time);
      }
    }
  }

  /** The average is never negative and uses at most `frames` intervals. */
  lemma AverageJointSpeedFacts(root: real -> real, h: seq<Sample>, joint: nat, frames: int)
    requires IsSqrt(root) && joint < 17
    ensures AverageJointSpeed(root, h, joint, frames) >= 0.0
    ensures |h| >= 2 ==> |JointRates(root, h, joint, |h| - 1, Stop(|h|, frames))| <= (if frames > 0 then frames else 0)
  {
    if |h| >= 2 {
      var rates := JointRates(root, h, joint, |h| - 1, Stop(|h|, frames));
      JointRatesFacts(root, h, joint, |h| - 1, Stop(|h|, frames));
      MeanNonNegative(rates);
    }
  }

  // --- the table -------------------------------------------------------------

  predicate ReadingTilt(tilt: real) {
    ReadingTiltMin <= tilt <= ReadingTiltMax
  }

  /** Lines 289-305. */
  function TableLabel(sitting: bool, tilt: real, hipVelocity: real): (a: Activity)
    ensures a in {Reading, Sitting, Standing, Loitering}
  {
    if sitting then
      if ReadingTilt(tilt) then Reading else Sitting
    else if hipVelocity < MovementThreshold then
      if ReadingTilt(tilt) then Reading else Standing
    else Loitering
  }

  /**
   * Each label of the table on its own conditions: reading exactly when the
   * tilt is in [20, 70] (bounds included) and the person sits or barely moves;
   * loitering exactly for a non-sitting person moving at 15 px/s or more.
   */
  lemma TableBands(sitting: bool, tilt: real, v: real)
    ensures var a := TableLabel(sitting, tilt, v);
      && (a == Reading <==> 20.0 <= tilt <= 70.0 && (sitting || v < 15.0))
      && (a == Sitting <==> sitting && !(20.0 <= tilt <= 70.0))
      && (a == Standing <==> !sitting && v < 15.0 && !(20.0 <= tilt <= 70.0))
      && (a == Loitering <==> !sitting && v >= 15.0)
  {
  }

  /** The label the table gives the current keypoints after the pose history h (ending with them) is stored. */
  function PoseLabel(root: real -> real, acos: real -> real, kp: Skeleton, h: seq<Sample>): (a: Activity)
    requires IsSqrt(root) && |h| >= 1
    ensures a in {Reading, Sitting, Standing, Loitering}
  {
    TableLabel(IsSitting(root, acos, kp), HeadTilt(root, acos, kp), HipSpeed(root, h))
  }

  // --- get_pose_confidence ---------------------------------------------------

  /** np.sum(np.any(kp != 0, axis=1)): the keypoints that are not (0, 0). */
  function Detected(kp: seq<Point>): (n: nat)
    ensures n <= |kp|
  {
    if kp == [] then 0 else Detected(kp[..|kp| - 1]) + (if Missing(kp[|kp| - 1]) then 0 else 1)
  }

  predicate AllDetected(kp: seq<Point>) {
    forall i :: 0 <= i < |kp| ==> !Missing(kp[i])
  }

  /** Every keypoint counts exactly when none is missing. */
  lemma {:induction false} DetectedAll(kp: seq<Point>)
    ensures Detected(kp) == |kp| <==> AllDetected(kp)
  {
    if kp != [] {
      DetectedAll(kp[..|kp| - 1]);
      assert forall i :: 0 <= i < |kp| - 1 ==> kp[..|kp| - 1][i] == kp[i];
    }
  }

  // ---------------------------------------------------------------------------

  /**
   * Every person with poses also has an activity list, activity lists are
   * always empty, and pose histories hold at most 10 entries.
   */
  ghost predicate HistoriesOk(ph: map<int, seq<Sample>>, ah: map<int, seq<Activity>>) {
    && ph.Keys <= ah.Keys
    && (forall p :: p in ah ==> ah[p] == [])
    && (forall p :: p in ph ==> |ph[p]| <= HistoryLength)
  }

  lemma StoreOk(ph: map<int, seq<Sample>>, ah: map<int, seq<Activity>>, p: int, h: seq<Sample>)
    requires HistoriesOk(ph, ah) && |h| <= HistoryLength
    ensures HistoriesOk(ph[p := h], ah[p := []]) && HistoriesOk(ph, ah[p := []])
  {
  }

  /** The averaging loop of calculate_average_velocity, over a history of at least two poses. */
  method MeanJointSpeed(root: real -> real, h: seq<Sample>, joint: nat, frames: int) returns (v: real)
    requires joint < 17 && |h| >= 2
    ensures v == AverageJointSpeed(root, h, joint, frames)
  {
    var velocities: seq<real> := [];
    var lo := Stop(|h|, frames);
    var i := |h| - 1;
    while i > lo
      invariant lo <= i <= |h| - 1
      invariant velocities == JointRates(root, h, joint, |h| - 1, i)
    {
      assert JointRates(root, h, joint, |h| - 1, i - 1) == velocities + JointRate(root, h, joint, i);
      var currentJoint, previousJoint := h[i].keypoints[joint], h[i - 1].keypoints[joint];
      if !(Missing(currentJoint) || Missing(previousJoint)) {
        var distance := Distance(root, previousJoint, currentJoint);
        var dt := h[i].time - h[i - 1].time;
        if dt > 0.0 {
          velocities := velocities + [distance / dt];
        }
      }
      i := i - 1;
    }
    v := Mean(velocities);
  }

  class PoseActivityDetector {
    const root: real -> real
    const acos: real -> real
    /** person -> the last 10 (keypoints, timestamp) */
    var poseHistory: map<int, seq<Sample>>
    /** person -> activities (created, never appended) */
    var activityHistory: map<int, seq<Activity>>

    ghost predicate Valid()
      reads this
    {
      IsSqrt(root) && HistoriesOk(poseHistory, activityHistory)
    }

    constructor (root: real -> real, acos: real -> real)
      requires IsSqrt(root)
      ensures Valid()
      ensures this.root == root && this.acos == acos
      ensures poseHistory == map[] && activityHistory == map[]
    {
      this.root := root;
      this.acos := acos;
      poseHistory := map[];
      activityHistory := map[];
    }

    /** calculate_average_velocity over the stored history of a person. */
    method AverageVelocity(person: int, joint: nat, frames: int) returns (v: real)
      requires IsSqrt(root) && joint < 17
      ensures v == AverageJointSpeed(root, HistoryOf(poseHistory, person), joint, frames)
      ensures v >= 0.0
    {
      AverageJointSpeedFacts(root, HistoryOf(poseHistory, person), joint, frames);
      if person !in poseHistory || |poseHistory[person]| < 2 {
        return 0.0;
      }
      v := MeanJointSpeed(root, poseHistory[person], joint, frames);
    }

    /** get_pose_confidence: the share of the latest pose's keypoints that were detected. */
    function Confidence(person: int): (c: real)
      reads this
      ensures 0.0 <= c <= 1.0
      ensures person in poseHistory && poseHistory[person] != [] ==>
        (c == 1.0 <==> AllDetected(poseHistory[person][|poseHistory[person]| - 1].keypoints))
    {
      if person !in poseHistory || |poseHistory[person]| == 0 then 0.0
      else
        var latest := poseHistory[person][|poseHistory[person]| - 1].keypoints;
        DetectedAll(latest);
        Detected(latest) as real / 17.0
    }

    /**
     * classify_activity with the pose model's result `pose`: "standing" and an
     * (empty) activity list without a pose; otherwise the pose is stored (last
     * 10 kept), "standing" is returned while fewer than 5 are stored, and
     * after that the table's label.
     */
    method Classify(person: int, pose: Option<Skeleton>, timestamp: real) returns (a: Activity)
      requires Valid()
      modifies this`poseHistory, this`activityHistory
      ensures Valid()
      ensures activityHistory == old(activityHistory)[person := []]
      ensures pose.None? ==> a == Standing && poseHistory == old(poseHistory)
      ensures pose.Some? ==>
        var h := KeepLast(HistoryOf(old(poseHistory), person) + [Sample(pose.value, timestamp)], HistoryLength);
        && poseHistory == old(poseHistory)[person := h]
        && (|h| < WarmUp ==> a == Standing)
        && (|h| >= WarmUp ==> a == PoseLabel(root, acos, pose.value, h))
    {
      if pose.None? {
        StoreOk(poseHistory, activityHistory, person, []);
        if person !in activityHistory {
          activityHistory := activityHistory[person := []];
        }
        return Standing;
      }
      var keypoints := pose.value;
      var h := if person in poseHistory then poseHistory[person] else [];
      h := KeepLast(h + [Sample(keypoints, timestamp)], HistoryLength);
      StoreOk(poseHistory, activityHistory, person, h);
      poseHistory, activityHistory := poseHistory[person := h], activityHistory[person := []];
      if |h| < WarmUp {
        return Standing;
      }
      var headTilt := HeadTilt(root, acos, keypoints);
      var hipVelocity := HipSpeed(root, h);
      var sitting := IsSitting(root, acos, keypoints);
      a := TableLabel(sitting, headTilt, hipVelocity);
    }
  }
}
