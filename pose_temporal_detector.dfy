// PoseTemporalDetector (src/core/pose_temporal_detector.py): classifies a
// person's activity from their pose keypoints and a 30-frame history of poses,
// with a warm-up of 5 poses, a strict speed ladder for people who are not
// sitting, and a majority vote over the recent labels.
//
// The pose model (detect_pose) is not modelled: each call receives its result,
// None when no pose was found. The square root and arccos are the parameters
// `root` and `acos` (see Geometry and Kinematics).
module PoseTemporal {
  import opened Wrappers
  import opened Geometry
  import opened Kinematics
  import opened Histories
  import opened Activities

  const HistoryLength := 30
  const WarmUp := 5
  const StandingSpeed := 25.0
  const WalkingSlowSpeed := 100.0
  const WalkingSpeed := 200.0
  const FastWalkingSpeed := 350.0
  const RunningSpeed := 700.0
  const SittingHipAngleMax := 120.0
  const ReadingHeadAngleMin := 30.0

  /**
   * calculate_head_tilt: 0 when the nose or a shoulder is missing or the nose
   * is not below the shoulder centre; otherwise 90 minus the angle between the
   * shoulder-to-nose vector and the downward vertical.
   */
  function HeadTilt(root: real -> real, acos: real -> real, kp: Skeleton): (r: real)
    requires IsSqrt(root)
    ensures Missing(kp[Nose]) || Missing(kp[LeftShoulder]) || Missing(kp[RightShoulder]) ==> r == 0.0
    ensures kp[Nose].y <= Midpoint(kp[LeftShoulder], kp[RightShoulder]).y ==> r == 0.0
  {
    if Missing(kp[Nose]) || Missing(kp[LeftShoulder]) || Missing(kp[RightShoulder]) then 0.0
    else
      var head := Minus(kp[Nose], Midpoint(kp[LeftShoulder], kp[RightShoulder]));
      if head.y > 0.0 then
        NormNonNegative(root, head);
        90.0 - acos(Clip(Dot(head, Point(0.0, 1.0)) / (Norm(root, head) + 0.000001)))
      else 0.0
  }

  /** A head tilt lies between 0 (upright or not measurable) and 90 degrees. */
  lemma HeadTiltRange(root: real -> real, acos: real -> real, kp: Skeleton)
    requires IsSqrt(root) && IsArccosDegrees(acos)
    ensures 0.0 <= HeadTilt(root, acos, kp) <= 90.0
  {
    if !(Missing(kp[Nose]) || Missing(kp[LeftShoulder]) || Missing(kp[RightShoulder])) {
      var head := Minus(kp[Nose], Midpoint(kp[LeftShoulder], kp[RightShoulder]));
      if head.y > 0.0 {
        NormNonNegative(root, head);
        assert Dot(head, Point(0.0, 1.0)) == head.y;
        DivNonNegative(head.y, Norm(root, head) + 0.000001);
        TiltRange(acos, Dot(head, Point(0.0, 1.0)) / (Norm(root, head) + 0.000001));
      }
    }
  }

  /** is_sitting: the left hip and knee are present and the left hip angle is below 120. */
  predicate IsSitting(root: real -> real, acos: real -> real, kp: Skeleton)
    requires IsSqrt(root)
  {
    if Missing(kp[LeftHip]) || Missing(kp[LeftKnee]) then false
    else JointAngle(root, acos, kp[LeftShoulder], kp[LeftHip], kp[LeftKnee]) < SittingHipAngleMax
  }

  /**
   * Only the left side counts, and a zero coordinate in the left shoulder, hip
   * or knee (the 180-degree fallback of calculate_angle) rules sitting out.
   */
  lemma SittingNeedsLeftSide(root: real -> real, acos: real -> real, kp: Skeleton)
    requires IsSqrt(root)
    ensures IsSitting(root, acos, kp) ==>
      && !HasZero(kp[LeftShoulder]) && !HasZero(kp[LeftHip]) && !HasZero(kp[LeftKnee])
      && JointAngle(root, acos, kp[LeftShoulder], kp[LeftHip], kp[LeftKnee]) < SittingHipAngleMax
  {
  }

  /** The labels this detector stores in a person's activity history. */
  predicate IsTemporalLabel(a: Activity) {
    a in {Reading, Sitting, ReadingStanding, Standing, WalkingSlow, Walking, WalkingFast, Jogging, Running}
  }

  /** Lines 196-220: sitting first, then the speed ladder with strict thresholds. */
  function TemporalLabel(sitting: bool, tilt: real, velocity: real): (a: Activity)
    ensures IsTemporalLabel(a)
  {
    if sitting then
      if tilt > ReadingHeadAngleMin then Reading else Sitting
    else if velocity < StandingSpeed then
      if tilt > ReadingHeadAngleMin then ReadingStanding else Standing
    else if velocity < WalkingSlowSpeed then WalkingSlow
    else if velocity < WalkingSpeed then Walking
    else if velocity < FastWalkingSpeed then WalkingFast
    else if velocity < RunningSpeed then Jogging
    else Running
  }

  /**
   * The label of lines 192-220 for the current keypoints after the pose
   * history h (which ends with them) is stored.
   */
  function PoseLabel(root: real -> real, acos: real -> real, kp: Skeleton, h: seq<Sample>): (a: Activity)
    requires IsSqrt(root)
    ensures IsTemporalLabel(a)
  {
    TemporalLabel(IsSitting(root, acos, kp), HeadTilt(root, acos, kp), HipVelocity(root, h))
  }

  /** How fast a label says the person moves: 0 for the standing labels up to 5 for running. */
  function SpeedRank(a: Activity): nat {
    match a
    case WalkingSlow => 1
    case Walking => 2
    case WalkingFast => 3
    case Jogging => 4
    case Running => 5
    case _ => 0
  }

  /**
   * The bands of the ladder, each given by its own bounds: sitting decides
   * alone; otherwise each label holds exactly on its velocity band, and a
   * tilt above 30 turns standing into reading_standing.
   */
  lemma TemporalLabelBands(sitting: bool, tilt: real, v: real)
    ensures var a := TemporalLabel(sitting, tilt, v);
      && (sitting ==> (a == Reading <==> tilt > 30.0) && (a == Sitting <==> tilt <= 30.0))
      && (!sitting ==>
        && (a == Standing <==> v < 25.0 && tilt <= 30.0)
        && (a == ReadingStanding <==> v < 25.0 && tilt > 30.0)
        && (a == WalkingSlow <==> 25.0 <= v < 100.0)
        && (a == Walking <==> 100.0 <= v < 200.0)
        && (a == WalkingFast <==> 200.0 <= v < 350.0)
        && (a == Jogging <==> 350.0 <= v < 700.0)
        && (a == Running <==> 700.0 <= v))
  {
  }

  /** For a person who is not sitting, a higher velocity never gives a slower label. */
  lemma TemporalLadderMonotone(tilt: real, v1: real, v2: real)
    requires v1 <= v2
    ensures SpeedRank(TemporalLabel(false, tilt, v1)) <= SpeedRank(TemporalLabel(false, tilt, v2))
  {
  }

  // --- calculate_velocity ----------------------------------------------------

  function HipCentre(kp: Skeleton): Point {
    Midpoint(kp[LeftHip], kp[RightHip])
  }

  /**
   * The speed of the hip centre between samples i-1 and i, as a list of zero
   * or one values: empty when either hip centre is (0, 0) or the time gap is
   * not positive.
   */
  function IntervalRate(root: real -> real, h: seq<Sample>, i: int): seq<real>
    requires 1 <= i < |h|
  {
    var curr, prev := HipCentre(h[i].keypoints), HipCentre(h[i - 1].keypoints);
    if Missing(curr) || Missing(prev) then []
    else
      var dt := h[i].time - h[i - 1].time;
      if dt > 0.0 then [Distance(root, prev, curr) / dt] else []
  }

  /** The interval speeds for i = top, top-1, ..., lo+1, in that order. */
  function Collected(root: real -> real, h: seq<Sample>, top: int, lo: int): seq<real>
    requires 0 <= lo <= top < |h|
    decreases top - lo
  {
    if lo == top then [] else Collected(root, h, top, lo + 1) + IntervalRate(root, h, lo + 1)
  }

  /** max(0, n - 5): the loop stops above this index, so at most 4 intervals are used. */
  function Lowest(n: int): int {
    if n - 5 > 0 then n - 5 else 0
  }

  /** The smoothed hip speed of a pose history: 0 below two samples. */
  function HipVelocity(root: real -> real, h: seq<Sample>): real {
    if |h| < 2 then 0.0 else Mean(Collected(root, h, |h| - 1, Lowest(|h|)))
  }

  lemma {:induction false} CollectedFacts(root: real -> real, h: seq<Sample>, top: int, lo: int)
    requires IsSqrt(root) && 0 <= lo <= top < |h|
    ensures |Collected(root, h, top, lo)| <= top - lo
    ensures AllNonNegative(Collected(root, h, top, lo))
    decreases top - lo
  {
    if lo < top {
      CollectedFacts(root, h, top, lo + 1);
      var curr, prev := HipCentre(h[lo + 1].keypoints), HipCentre(h[lo].keypoints);
      if !(Missing(curr) || Missing(prev)) && h[lo + 1].time - h[lo].time > 0.0 {
        DistanceFacts(root, prev, curr);
        DivNonNegative(Distance(root, prev, curr), h[lo + 1].time - h[lo].time);
      }
    }
  }

  /** The velocity is never negative and averages at most four intervals. */
  lemma HipVelocityFacts(root: real -> real, h: seq<Sample>)
    requires IsSqrt(root)
    ensures HipVelocity(root, h) >= 0.0
    ensures |h| >= 2 ==> |Collected(root, h, |h| - 1, Lowest(|h|))| <= 4
  {
    if |h| >= 2 {
      CollectedFacts(root, h, |h| - 1, Lowest(|h|));
      MeanNonNegative(Collected(root, h, |h| - 1, Lowest(|h|)));
    }
  }

  // --- get_dominant_activity ---------------------------------------------------

  /** Python's s[-w:]: the last w entries for w > 0, all of s for w == 0, s[|w|:] for w < 0. */
  function PyTail<T>(s: seq<T>, w: int): (r: seq<T>)
    ensures |r| <= |s|
    ensures w > 0 ==> |r| == (if w < |s| then w else |s|)
    ensures r == s[|s| - |r|..]
  {
    if w > 0 then s[Lowest0(|s| - w)..]
    else if w == 0 then s
    else if -w < |s| then s[-w..] else []
  }

  function Lowest0(n: int): nat {
    if n > 0 then n else 0
  }

  function Count<T(==)>(s: seq<T>, x: T): nat {
    if s == [] then 0 else Count(s[..|s| - 1], x) + (if s[|s| - 1] == x then 1 else 0)
  }

  function FirstIndex<T(==)>(s: seq<T>, x: T): nat
    requires x in s
  {
    if s[0] == x then 0 else 1 + FirstIndex(s[1..], x)
  }

  lemma {:induction false} FirstIndexFacts<T>(s: seq<T>, x: T)
    requires x in s
    ensures FirstIndex(s, x) < |s| && s[FirstIndex(s, x)] == x
    ensures forall k :: 0 <= k < FirstIndex(s, x) ==> s[k] != x
  {
    if s[0] != x {
      assert x in s[1..];
      FirstIndexFacts(s[1..], x);
    }
  }

  /**
   * The result of max over a count dict built in order: a most frequent label,
   * and among the most frequent the one seen first.
   */
  ghost predicate IsDominant(s: seq<Activity>, a: Activity) {
    && a in s
    && forall x :: x in s ==>
      && Count(s, x) <= Count(s, a)
      && (Count(s, x) == Count(s, a) ==> FirstIndex(s, a) <= FirstIndex(s, x))
  }

  /** At most one label is dominant in a window. */
  lemma DominantUnique(s: seq<Activity>, a: Activity, b: Activity)
    requires IsDominant(s, a) && IsDominant(s, b)
    ensures a == b
  {
    FirstIndexFacts(s, a);
    FirstIndexFacts(s, b);
  }

  /** A window holding one label only has that label as its dominant one. */
  lemma UniformWindow(s: seq<Activity>, x: Activity)
    requires s != [] && forall k :: 0 <= k < |s| ==> s[k] == x
    ensures IsDominant(s, x)
  {
    assert s[0] == x;
    forall y | y in s ensures y == x {
      FirstIndexFacts(s, y);
    }
  }

  lemma CountSnoc<T>(s: seq<T>, i: int, x: T)
    requires 0 <= i < |s|
    ensures Count(s[..i + 1], x) == Count(s[..i], x) + (if s[i] == x then 1 else 0)
  {
    assert s[..i + 1][..i] == s[..i];
  }

  lemma {:induction false} CountAbsent<T>(s: seq<T>, x: T)
    requires x !in s
    ensures Count(s, x) == 0
  {
    if s != [] {
      CountAbsent(s[..|s| - 1], x);
    }
  }

  /** A label already seen before index i was first seen before i. */
  lemma FirstIndexBefore<T>(s: seq<T>, i: int, x: T)
    requires 0 <= i <= |s| && x in s[..i]
    ensures x in s && FirstIndex(s, x) < i
  {
    FirstIndexFacts(s[..i], x);
    var k := FirstIndex(s[..i], x);
    assert s[k] == x;
    FirstIndexFacts(s, x);
  }

  /** The label at i that is not among the first i entries is first seen at i. */
  lemma FirstIndexAt<T>(s: seq<T>, i: int)
    requires 0 <= i < |s| && s[i] !in s[..i]
    ensures FirstIndex(s, s[i]) == i
  {
    FirstIndexFacts(s, s[i]);
  }

  /**
   * What the counting loop of get_dominant_activity knows after the first i
   * labels: `counts` holds the count of each label seen so far, and `order`
   * lists the labels seen so far in the order of their first occurrence (the
   * insertion order of the Python dict); `pos` locates each label in `order`.
   */
  ghost predicate Tallied(recent: seq<Activity>, i: int, counts: map<Activity, nat>, order: seq<Activity>, pos: map<Activity, nat>)
    requires 0 <= i <= |recent|
  {
    && (forall x :: x in counts <==> x in recent[..i])
    && (forall x :: x in counts ==> counts[x] == Count(recent[..i], x))
    && (forall k :: 0 <= k < |order| ==> order[k] in counts)
    && (forall x :: x in counts ==> x in pos && pos[x] < |order| && order[pos[x]] == x)
    && (forall k1, k2 :: 0 <= k1 < k2 < |order| ==>
      order[k1] in recent && order[k2] in recent && FirstIndex(recent, order[k1]) < FirstIndex(recent, order[k2]))
  }

  lemma CountStep(recent: seq<Activity>, i: int)
    requires 0 <= i < |recent|
    ensures forall x :: Count(recent[..i + 1], x) == Count(recent[..i], x) + (if recent[i] == x then 1 else 0)
  {
    forall x ensures Count(recent[..i + 1], x) == Count(recent[..i], x) + (if recent[i] == x then 1 else 0) {
      CountSnoc(recent, i, x);
    }
  }

  /** One more occurrence of a label already counted. */
  lemma TallySeen(recent: seq<Activity>, i: int, counts: map<Activity, nat>, order: seq<Activity>, pos: map<Activity, nat>)
    requires 0 <= i < |recent| && Tallied(recent, i, counts, order, pos) && recent[i] in counts
    ensures Tallied(recent, i + 1, counts[recent[i] := counts[recent[i]] + 1], order, pos)
  {
    assert recent[..i + 1] == recent[..i] + [recent[i]];
    CountStep(recent, i);
  }

  /** The first occurrence of a label: count 1, appended to the order. */
  lemma TallyNew(recent: seq<Activity>, i: int, counts: map<Activity, nat>, order: seq<Activity>, pos: map<Activity, nat>)
    requires 0 <= i < |recent| && Tallied(recent, i, counts, order, pos) && recent[i] !in counts
    ensures Tallied(recent, i + 1, counts[recent[i] := 1], order + [recent[i]], pos[recent[i] := |order|])
  {
    var y := recent[i];
    assert recent[..i + 1] == recent[..i] + [y];
    CountStep(recent, i);
    FirstIndexAt(recent, i);
    CountAbsent(recent[..i], y);
    forall k | 0 <= k < |order| ensures FirstIndex(recent, order[k]) < i {
      FirstIndexBefore(recent, i, order[k]);
    }
  }

  /** After the whole window, every label of it is counted, and only those. */
  lemma TalliedAll(recent: seq<Activity>, counts: map<Activity, nat>, order: seq<Activity>, pos: map<Activity, nat>)
    requires Tallied(recent, |recent|, counts, order, pos)
    ensures forall x :: x in counts <==> x in recent
    ensures forall x :: x in counts ==> counts[x] == Count(recent, x)
    ensures order == [] <==> recent == []
  {
    assert recent[..|recent|] == recent;
    if recent != [] {
      assert recent[0] in counts;
    }
    if order != [] {
      assert order[0] in counts;
    }
  }

  /** The counting loop of get_dominant_activity. */
  method Tally(recent: seq<Activity>) returns (counts: map<Activity, nat>, order: seq<Activity>, ghost pos: map<Activity, nat>)
    ensures Tallied(recent, |recent|, counts, order, pos)
  {
    counts, order, pos := map[], [], map[];
    for i := 0 to |recent|
      invariant Tallied(recent, i, counts, order, pos)
    {
      var y := recent[i];
      if y in counts {
        TallySeen(recent, i, counts, order, pos);
        counts := counts[y := counts[y] + 1];
      } else {
        TallyNew(recent, i, counts, order, pos);
        counts := counts[y := 1];
        pos := pos[y := |order|];
        order := order + [y];
      }
    }
  }

  /**
   * The dominant label of a window: the counting loop (Tally), then max over
   * the dict by count, which keeps the earliest inserted label among equal
   * counts; "unknown" for an empty window.
   */
  method Dominant(recent: seq<Activity>) returns (a: Activity)
    ensures recent == [] ==> a == Unknown
    ensures recent != [] ==> IsDominant(recent, a)
  {
    var counts, order, pos := Tally(recent);
    TalliedAll(recent, counts, order, pos);
    if order == [] {
      return Unknown;
    }
    a := order[0];
    ghost var m := 0;
    for j := 1 to |order|
      invariant 0 <= m < j && a == order[m]
      invariant forall k :: 0 <= k < j ==> counts[order[k]] <= counts[a]
      invariant forall k :: 0 <= k < j && counts[order[k]] == counts[a] ==> FirstIndex(recent, a) <= FirstIndex(recent, order[k])
    {
      if counts[order[j]] > counts[a] {
        a, m := order[j], j;
      }
    }
    forall x | x in recent
      ensures Count(recent, x) <= Count(recent, a)
      ensures Count(recent, x) == Count(recent, a) ==> FirstIndex(recent, a) <= FirstIndex(recent, x)
    {
      assert order[pos[x]] == x;
    }
  }

  // ---------------------------------------------------------------------------

  /**
   * Both histories are created and removed together, hold at most 30
   * entries, and only labels of the ladder are ever stored.
   */
  ghost predicate HistoriesOk(kh: map<int, seq<Sample>>, ah: map<int, seq<Activity>>) {
    && kh.Keys == ah.Keys
    && (forall p :: p in kh ==> |kh[p]| <= HistoryLength)
    && (forall p :: p in ah ==> |ah[p]| <= HistoryLength)
    && (forall p, i :: p in ah && 0 <= i < |ah[p]| ==> IsTemporalLabel(ah[p][i]))
  }

  lemma StoreOk(kh: map<int, seq<Sample>>, ah: map<int, seq<Activity>>, p: int, h: seq<Sample>, acts: seq<Activity>)
    requires HistoriesOk(kh, ah)
    requires |h| <= HistoryLength && |acts| <= HistoryLength
    requires forall i :: 0 <= i < |acts| ==> IsTemporalLabel(acts[i])
    ensures HistoriesOk(kh[p := h], ah[p := acts])
  {
  }

  lemma ForgetOk(kh: map<int, seq<Sample>>, ah: map<int, seq<Activity>>, p: int)
    requires HistoriesOk(kh, ah)
    ensures HistoriesOk(kh - {p}, ah - {p})
  {
  }

  /** The averaging loop of calculate_velocity, over a history of at least two poses. */
  method MeanHipSpeed(root: real -> real, h: seq<Sample>) returns (v: real)
    requires |h| >= 2
    ensures v == HipVelocity(root, h)
  {
    var velocities: seq<real> := [];
    var lo := Lowest(|h|);
    var i := |h| - 1;
    while i > lo
      invariant lo <= i <= |h| - 1
      invariant velocities == Collected(root, h, |h| - 1, i)
    {
      assert Collected(root, h, |h| - 1, i - 1) == velocities + IntervalRate(root, h, i);
      var curr, prev := HipCentre(h[i].keypoints), HipCentre(h[i - 1].keypoints);
      if !(Missing(curr) || Missing(prev)) {
        var distance := Distance(root, prev, curr);
        var dt := h[i].time - h[i - 1].time;
        if dt > 0.0 {
          velocities := velocities + [distance / dt];
        }
      }
      i := i - 1;
    }
    v := Mean(velocities);
  }

  class PoseTemporalDetector {
    const root: real -> real
    const acos: real -> real
    /** person -> deque(maxlen=30) of (keypoints, timestamp) */
    var keypointHistory: map<int, seq<Sample>>
    /** person -> the last 30 labels */
    var activityHistory: map<int, seq<Activity>>

    /** The histories are consistent (HistoriesOk) and `root` is a square root. */
    ghost predicate Valid()
      reads this
    {
      IsSqrt(root) && HistoriesOk(keypointHistory, activityHistory)
    }

    constructor (root: real -> real, acos: real -> real)
      requires IsSqrt(root)
      ensures Valid()
      ensures this.root == root && this.acos == acos
      ensures keypointHistory == map[] && activityHistory == map[]
    {
      this.root := root;
      this.acos := acos;
      keypointHistory := map[];
      activityHistory := map[];
    }

    /**
     * calculate_velocity: the mean hip-centre speed over at most the 4 most
     * recent intervals of the person's history, 0 for an unknown person.
     */
    method CalculateVelocity(person: int) returns (v: real)
      requires IsSqrt(root)
      ensures v == HipVelocity(root, HistoryOf(keypointHistory, person))
      ensures v >= 0.0
    {
      if person !in keypointHistory || |keypointHistory[person]| < 2 {
        return 0.0;
      }
      var history := keypointHistory[person];
      HipVelocityFacts(root, history);
      v := MeanHipSpeed(root, history);
    }

    /**
     * classify_activity with the pose model's result `pose`: "no_pose" and no
     * change without a pose; otherwise the pose is stored, "initializing" is
     * returned while fewer than 5 poses are stored, and after that the ladder's
     * label is returned and appended to the activity history.
     */
    method Classify(person: int, pose: Option<Skeleton>, timestamp: real) returns (a: Activity)
      requires Valid()
      modifies this`keypointHistory, this`activityHistory
      ensures Valid()
      ensures pose.None? ==>
        a == NoPose && keypointHistory == old(keypointHistory) && activityHistory == old(activityHistory)
      ensures pose.Some? ==>
        var h := KeepLast(HistoryOf(old(keypointHistory), person) + [Sample(pose.value, timestamp)], HistoryLength);
        var acts := HistoryOf(old(activityHistory), person);
        && keypointHistory == old(keypointHistory)[person := h]
        && (|h| < WarmUp ==> a == Initializing && activityHistory == old(activityHistory)[person := acts])
        && (|h| >= WarmUp ==>
          && a == PoseLabel(root, acos, pose.value, h)
          && activityHistory == old(activityHistory)[person := KeepLast(acts + [a], HistoryLength)])
    {
      if pose.None? {
        return NoPose;
      }
      var keypoints := pose.value;
      var h := StorePose(person, keypoints, timestamp);
      if |h| < WarmUp {
        return Initializing;
      }
      var velocity := CalculateVelocity(person);
      var headTilt := HeadTilt(root, acos, keypoints);
      var sitting := IsSitting(root, acos, keypoints);
      a := TemporalLabel(sitting, headTilt, velocity);
      RecordLabel(person, a);
    }

    /**
     * Lines 180-185: create both histories for a new person, then append the
     * pose to the deque, which keeps the last 30.
     */
    method StorePose(person: int, keypoints: Skeleton, timestamp: real) returns (h: seq<Sample>)
      requires Valid()
      modifies this`keypointHistory, this`activityHistory
      ensures Valid()
      ensures h == KeepLast(HistoryOf(old(keypointHistory), person) + [Sample(keypoints, timestamp)], HistoryLength)
      ensures keypointHistory == old(keypointHistory)[person := h]
      ensures activityHistory == old(activityHistory)[person := HistoryOf(old(activityHistory), person)]
    {
      h := if person in keypointHistory then keypointHistory[person] else [];
      h := KeepLast(h + [Sample(keypoints, timestamp)], HistoryLength);
      var acts := if person in activityHistory then activityHistory[person] else [];
      StoreOk(keypointHistory, activityHistory, person, h, acts);
      keypointHistory, activityHistory := keypointHistory[person := h], activityHistory[person := acts];
    }

    /** Lines 222-225: append a label to the person's activity history and keep the last 30. */
    method RecordLabel(person: int, a: Activity)
      requires Valid() && person in activityHistory && IsTemporalLabel(a)
      modifies this`activityHistory
      ensures Valid()
      ensures activityHistory == old(activityHistory)[person := KeepLast(old(activityHistory)[person] + [a], HistoryLength)]
    {
      var acts := KeepLast(activityHistory[person] + [a], HistoryLength);
      StoreOk(keypointHistory, activityHistory, person, keypointHistory[person], acts);
      activityHistory := activityHistory[person := acts];
    }

    /**
     * get_dominant_activity: "unknown" without history; otherwise the dominant
     * label of the last `window` labels (Python slice semantics), or "unknown"
     * when that slice is empty.
     */
    method DominantActivity(person: int, window: int) returns (a: Activity)
      requires Valid()
      ensures HistoryOf(activityHistory, person) == [] ==> a == Unknown
      ensures var recent := PyTail(HistoryOf(activityHistory, person), window);
        && (recent == [] ==> a == Unknown)
        && (recent != [] ==> IsDominant(recent, a))
    {
      if person !in activityHistory || activityHistory[person] == [] {
        return Unknown;
      }
      var recent := PyTail(activityHistory[person], window);
      a := Dominant(recent);
    }

    /** cleanup_person: forget the person in both histories, and nothing else. */
    method CleanupPerson(person: int)
      requires Valid()
      modifies this`keypointHistory, this`activityHistory
      ensures Valid()
      ensures keypointHistory == old(keypointHistory) - {person}
      ensures activityHistory == old(activityHistory) - {person}
    {
      ForgetOk(keypointHistory, activityHistory, person);
      if person in keypointHistory {
        keypointHistory := keypointHistory - {person};
      }
      if person in activityHistory {
        activityHistory := activityHistory - {person};
      }
    }
  }

  /** Cleaning a person up a second time changes nothing more. */
  method CleanupTwice(d: PoseTemporalDetector, person: int)
    requires d.Valid()
    modifies d
    ensures d.Valid()
    ensures d.keypointHistory == old(d.keypointHistory) - {person}
    ensures d.activityHistory == old(d.activityHistory) - {person}
  {
    d.CleanupPerson(person);
    d.CleanupPerson(person);
  }
}
