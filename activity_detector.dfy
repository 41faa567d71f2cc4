// ActivityDetector (src/core/activity_detector.py): classifies a person's
// activity from the centre of their bounding box alone. Speeds come from the
// last 15 box centres, labels follow a three-threshold ladder with a posture
// check on the box's aspect ratio, and a refinement step can turn the label
// into loitering, erratic movement or a potential fall.
module BoxActivity {
  import opened Geometry
  import opened Histories
  import opened Activities

  const StandingMovement := 20.0
  const WalkingSpeed := 100.0
  const RunningSpeed := 300.0
  const PoseHistoryLength := 15
  const ActivityHistoryLength := 20
  const WarmUp := 5

  /** One stored box centre and the timestamp it was seen at. */
  datatype Position = Position(centre: Point, time: real)

  // --- calculate_speed -------------------------------------------------------

  /** The speed between positions i-1 and i, as a list of zero or one values: empty unless time moved forward. */
  function IntervalSpeed(root: real -> real, h: seq<Position>, i: int): seq<real>
    requires 1 <= i < |h|
  {
    var dt := h[i].time - h[i - 1].time;
    if dt > 0.0 then [Distance(root, h[i - 1].centre, h[i].centre) / dt] else []
  }

  /** The interval speeds for i = top, top-1, ..., lo+1, in that order. */
  function Speeds(root: real -> real, h: seq<Position>, top: int, lo: int): seq<real>
    requires 0 <= lo <= top < |h|
    decreases top - lo
  {
    if lo == top then [] else Speeds(root, h, top, lo + 1) + IntervalSpeed(root, h, lo + 1)
  }

  /** max(0, n - 5): the loop stops above this index, so at most 4 intervals are used. */
  function Lowest(n: int): int {
    if n - 5 > 0 then n - 5 else 0
  }

  /** The smoothed speed of a stored history: 0 below three positions. */
  function SmoothedSpeed(root: real -> real, h: seq<Position>): real {
    if |h| < 3 then 0.0 else Mean(Speeds(root, h, |h| - 1, Lowest(|h|)))
  }

  lemma {:induction false} SpeedsFacts(root: real -> real, h: seq<Position>, top: int, lo: int)
    requires IsSqrt(root) && 0 <= lo <= top < |h|
    ensures |Speeds(root, h, top, lo)| <= top - lo
    ensures AllNonNegative(Speeds(root, h, top, lo))
    decreases top - lo
  {
    if lo < top {
      SpeedsFacts(root, h, top, lo + 1);
      if h[lo + 1].time - h[lo].time > 0.0 {
        DistanceFacts(root, h[lo].centre, h[lo + 1].centre);
        DivNonNegative(Distance(root, h[lo].centre, h[lo + 1].centre), h[lo + 1].time - h[lo].time);
      }
    }
  }

  /** The speed is never negative and averages at most four intervals. */
  lemma SmoothedSpeedFacts(root: real -> real, h: seq<Position>)
    requires IsSqrt(root)
    ensures SmoothedSpeed(root, h) >= 0.0
    ensures |h| >= 3 ==> |Speeds(root, h, |h| - 1, Lowest(|h|))| <= 4
  {
    if |h| >= 3 {
      SpeedsFacts(root, h, |h| - 1, Lowest(|h|));
      MeanNonNegative(Speeds(root, h, |h| - 1, Lowest(|h|)));
    }
  }

  /** The averaging loop of calculate_speed, over a history of at least three positions. */
  method MeanSpeed(root: real -> real, h: seq<Position>) returns (speed: real)
    requires |h| >= 3
    ensures speed == SmoothedSpeed(root, h)
  {
    var speeds: seq<real> := [];
    var lo := Lowest(|h|);
    var i := |h| - 1;
    while i > lo
      invariant lo <= i <= |h| - 1
      invariant speeds == Speeds(root, h, |h| - 1, i)
    {
      assert Speeds(root, h, |h| - 1, i - 1) == speeds + IntervalSpeed(root, h, i);
      var distance := Distance(root, h[i - 1].centre, h[i].centre);
      var dt := h[i].time - h[i - 1].time;
      if dt > 0.0 {
        speeds := speeds + [distance / dt];
      }
      i := i - 1;
    }
    speed := Mean(speeds);
  }

  /** A person whose box has not moved has speed 0. */
  lemma {:induction false} StillSpeeds(root: real -> real, h: seq<Position>, top: int, lo: int)
    requires IsSqrt(root) && 0 <= lo <= top < |h|
    requires forall i :: 0 <= i < |h| ==> h[i].centre == h[0].centre
    ensures forall k :: 0 <= k < |Speeds(root, h, top, lo)| ==> Speeds(root, h, top, lo)[k] == 0.0
    decreases top - lo
  {
    if lo < top {
      StillSpeeds(root, h, top, lo + 1);
      DistanceFacts(root, h[lo].centre, h[lo + 1].centre);
    }
  }

  lemma StillSpeed(root: real -> real, h: seq<Position>)
    requires IsSqrt(root)
    requires forall i :: 0 <= i < |h| ==> h[i].centre == h[0].centre
    ensures SmoothedSpeed(root, h) == 0.0
  {
    if |h| >= 3 {
      var s := Speeds(root, h, |h| - 1, Lowest(|h|));
      StillSpeeds(root, h, |h| - 1, Lowest(|h|));
      SmoothedSpeedFacts(root, h);
      MeanBelow(s, 0.0);
    }
  }

  // --- analyze_pose_ratio ----------------------------------------------------

  datatype PoseInfo = PoseInfo(aspectRatio: real, width: real, height: real, area: real)

  /** The box's width, height, area and height/width ratio (1.0 when the width is not positive). */
  function AnalyzePoseRatio(b: Box): (r: PoseInfo)
    ensures r.width == b.x2 - b.x1 && r.height == b.y2 - b.y1
    ensures r.width > 0.0 ==> r.aspectRatio * r.width == r.height
    ensures r.width <= 0.0 ==> r.aspectRatio == 1.0
    ensures r.area == Area(b)
  {
    var width := b.x2 - b.x1;
    var height := b.y2 - b.y1;
    PoseInfo(if width > 0.0 then height / width else 1.0, width, height, width * height)
  }

  /** Multiplying by a positive w keeps the order of q and c. */
  lemma ScaleCompare(q: real, c: real, w: real)
    requires w > 0.0
    ensures q < c <==> q * w < c * w
    ensures q > c <==> q * w > c * w
  {
    if q < c {
      MulPositive(c - q, w);
      assert (c - q) * w == c * w - q * w;
    } else if q > c {
      MulPositive(q - c, w);
      assert (q - c) * w == q * w - c * w;
    }
  }

  /** A ratio of a positive width compares with c exactly as the height compares with c times the width. */
  lemma RatioCompare(width: real, height: real, c: real)
    requires width > 0.0
    ensures height / width < c <==> height < c * width
    ensures height / width > c <==> height > c * width
  {
    var q := height / width;
    assert q * width == height;
    ScaleCompare(q, c, width);
  }

  /**
   * The posture thresholds of the ladder and the fall check, stated on the box
   * itself: tall (height above twice the width), squat (below 1.5 times the
   * width) and wide (height below the width).
   */
  lemma AspectMeaning(b: Box)
    requires b.x2 - b.x1 > 0.0
    ensures var r := AnalyzePoseRatio(b);
      && (r.aspectRatio > 2.0 <==> r.height > 2.0 * r.width)
      && (r.aspectRatio < 1.5 <==> r.height < 1.5 * r.width)
      && (r.aspectRatio < 1.0 <==> r.height < r.width)
  {
    var r := AnalyzePoseRatio(b);
    RatioCompare(r.width, r.height, 2.0);
    RatioCompare(r.width, r.height, 1.5);
    RatioCompare(r.width, r.height, 1.0);
  }

  // --- the ladder ------------------------------------------------------------

  /** Lines 99-112: posture decides at low speed, the speed thresholds above it. */
  function BaseLadder(speed: real, aspectRatio: real): Activity {
    if speed < StandingMovement then
      if aspectRatio > 2.0 then Standing
      else if aspectRatio < 1.5 then SittingCrouching
      else Standing
    else if speed < WalkingSpeed then WalkingSlow
    else if speed < RunningSpeed then Walking
    else Running
  }

  /** How fast a label says the person moves. */
  function MotionRank(a: Activity): nat {
    match a
    case WalkingSlow => 1
    case Walking => 2
    case Running => 3
    case _ => 0
  }

  /** Each label of the ladder holds exactly on its band. */
  lemma BaseLadderBands(speed: real, aspectRatio: real)
    ensures var a := BaseLadder(speed, aspectRatio);
      && (a == SittingCrouching <==> speed < 20.0 && aspectRatio < 1.5)
      && (a == Standing <==> speed < 20.0 && aspectRatio >= 1.5)
      && (a == WalkingSlow <==> 20.0 <= speed < 100.0)
      && (a == Walking <==> 100.0 <= speed < 300.0)
      && (a == Running <==> 300.0 <= speed)
  {
  }

  /** A higher speed never gives a slower label. */
  lemma BaseLadderMonotone(s1: real, s2: real, aspect1: real, aspect2: real)
    requires s1 <= s2
    ensures MotionRank(BaseLadder(s1, aspect1)) <= MotionRank(BaseLadder(s2, aspect2))
  {
  }

  // --- _refine_activity_classification ---------------------------------------

  /** The distances between consecutive points, in order. */
  function Steps(root: real -> real, ps: seq<Point>): (r: seq<real>)
    ensures |ps| >= 1 ==> |r| == |ps| - 1
  {
    if |ps| < 2 then [] else Steps(root, ps[..|ps| - 1]) + [Distance(root, ps[|ps| - 2], ps[|ps| - 1])]
  }

  function Centres(h: seq<Position>): (r: seq<Point>)
    ensures |r| == |h| && forall i :: 0 <= i < |h| ==> r[i] == h[i].centre
  {
    seq(|h|, i requires 0 <= i < |h| => h[i].centre)
  }

  /** The mean movement over the last five stored positions. */
  function RecentMovement(root: real -> real, h: seq<Position>): real
    requires |h| >= 5
  {
    Mean(Steps(root, Centres(h[|h| - 5..])))
  }

  /** set(s): the distinct labels of s. */
  function Distinct(s: seq<Activity>): set<Activity> {
    set a | a in s
  }

  /** The loitering check: little movement over the last five positions, from standing or walking_slow. */
  predicate Loiters(root: real -> real, h: seq<Position>, base: Activity) {
    |h| >= 5 && RecentMovement(root, h) < 5.0 && base in {Standing, WalkingSlow}
  }

  /** The erratic-movement check: four distinct labels among the last ten, running and standing among them. */
  predicate Erratic(acts: seq<Activity>, speed: real) {
    && |acts| >= 10
    && var recent := Distinct(acts[|acts| - 10..]);
    && |recent| >= 4 && speed > 20.0 && Running in recent && Standing in recent
  }

  /**
   * The refinement in its priority order: loitering, then erratic movement,
   * then a potential fall, else the base label.
   */
  function Refined(root: real -> real, h: seq<Position>, acts: seq<Activity>, base: Activity,
                   aspectRatio: real, speed: real): Activity
  {
    if Loiters(root, h, base) then Loitering
    else if Erratic(acts, speed) then ErraticMovement
    else if aspectRatio < 1.0 && speed > 1.0 then PotentialFall
    else base
  }

  /**
   * The refinement only ever replaces the base label by one of its three
   * behaviours, each under its own condition; loitering only from standing
   * or walking_slow.
   */
  lemma RefinedOutcomes(root: real -> real, h: seq<Position>, acts: seq<Activity>, base: Activity,
                        aspectRatio: real, speed: real)
    ensures var r := Refined(root, h, acts, base, aspectRatio, speed);
      && (r == base || r in {Loitering, ErraticMovement, PotentialFall})
      && (r == Loitering && base != Loitering ==> base in {Standing, WalkingSlow} && |h| >= 5)
      && (r == ErraticMovement && base != ErraticMovement ==> speed > 20.0 && |acts| >= 10)
      && (r == PotentialFall && base != PotentialFall ==> aspectRatio < 1.0 && speed > 1.0)
  {
  }

  /**
   * Erratic movement is only ever flagged for someone the ladder has moving:
   * speed above 20 rules out standing and sitting/crouching.
   */
  lemma ErraticOnlyWhileMoving(root: real -> real, h: seq<Position>, acts: seq<Activity>, aspectRatio: real, speed: real)
    requires Refined(root, h, acts, BaseLadder(speed, aspectRatio), aspectRatio, speed) == ErraticMovement
    ensures MotionRank(BaseLadder(speed, aspectRatio)) >= 1
  {
  }

  /** Someone standing still at one spot for five positions is loitering. */
  lemma StillStandingLoiters(root: real -> real, h: seq<Position>, acts: seq<Activity>, aspectRatio: real, speed: real)
    requires IsSqrt(root) && |h| >= 5
    requires forall i :: 0 <= i < |h| ==> h[i].centre == h[0].centre
    ensures Refined(root, h, acts, Standing, aspectRatio, speed) == Loitering
  {
    var ps := Centres(h[|h| - 5..]);
    var d := Steps(root, ps);
    forall k | 0 <= k < |d| ensures d[k] <= 0.0 {
      StillSteps(root, ps, k);
    }
    MeanBelow(d, 0.0);
  }

  lemma {:induction false} StillSteps(root: real -> real, ps: seq<Point>, k: int)
    requires IsSqrt(root) && 0 <= k < |Steps(root, ps)|
    requires forall i :: 0 <= i < |ps| ==> ps[i] == ps[0]
    ensures Steps(root, ps)[k] == 0.0
  {
    var init := ps[..|ps| - 1];
    if k < |Steps(root, init)| {
      StillSteps(root, init, k);
    } else {
      DistanceFacts(root, ps[|ps| - 2], ps[|ps| - 1]);
    }
  }

  /** The loitering check as the method reads it off the stored history. */
  lemma LoitersCheck(root: real -> real, ph: map<int, seq<Position>>, person: int, base: Activity)
    ensures Loiters(root, HistoryOf(ph, person), base) <==>
      && person in ph && |ph[person]| >= 5
      && Mean(Steps(root, Centres(ph[person][|ph[person]| - 5..]))) < 5.0
      && base in {Standing, WalkingSlow}
  {
  }

  /** The erratic-movement check as the method reads it off the stored labels. */
  lemma ErraticCheck(ah: map<int, seq<Activity>>, person: int, speed: real)
    ensures Erratic(HistoryOf(ah, person), speed) <==>
      && person in ah && |ah[person]| >= 10
      && var unique := Distinct(ah[person][|ah[person]| - 10..]);
      && |unique| >= 4 && speed > 20.0 && Running in unique && Standing in unique
  {
  }

  /** The loop of the loitering check: the mean distance between consecutive positions. */
  method MeanStep(root: real -> real, recent: seq<Point>) returns (movement: real)
    requires |recent| >= 1
    ensures movement == Mean(Steps(root, recent))
  {
    var distances: seq<real> := [];
    for i := 1 to |recent|
      invariant distances == Steps(root, recent[..i])
    {
      assert recent[..i + 1][..i] == recent[..i];
      distances := distances + [Distance(root, recent[i - 1], recent[i])];
    }
    assert recent[..|recent|] == recent;
    movement := Mean(distances);
  }

  // --- warm-up ---------------------------------------------------------------

  /**
   * The pose history of a person after calls at the given positions, starting
   * from a detector that has not seen them: the first call only creates the
   * empty history.
   */
  function HistoryAfter(calls: seq<Position>): seq<Position>
    requires calls != []
  {
    if |calls| == 1 then []
    else KeepLast(HistoryAfter(calls[..|calls| - 1]) + [calls[|calls| - 1]], PoseHistoryLength)
  }

  /**
   * The k-th call for a new person (k from 1) sees k-1 stored positions while
   * that is under 15, so the first five calls all fall in the warm-up.
   */
  lemma {:induction false} WarmUpCalls(calls: seq<Position>)
    requires 1 <= |calls| <= PoseHistoryLength + 1
    ensures |HistoryAfter(calls)| == |calls| - 1
    ensures |calls| <= WarmUp ==> |HistoryAfter(calls)| < WarmUp
  {
    if |calls| > 1 {
      WarmUpCalls(calls[..|calls| - 1]);
    }
  }

  // ---------------------------------------------------------------------------

  /** Both histories hold at most 15 and 20 entries. */
  ghost predicate HistoriesOk(ph: map<int, seq<Position>>, ah: map<int, seq<Activity>>) {
    && (forall p :: p in ph ==> |ph[p]| <= PoseHistoryLength)
    && (forall p :: p in ah ==> |ah[p]| <= ActivityHistoryLength)
  }

  lemma StoreOk(ph: map<int, seq<Position>>, ah: map<int, seq<Activity>>, p: int, h: seq<Position>, acts: seq<Activity>)
    requires HistoriesOk(ph, ah) && |h| <= PoseHistoryLength && |acts| <= ActivityHistoryLength
    ensures HistoriesOk(ph[p := h], ah) && HistoriesOk(ph, ah[p := acts])
  {
  }

  class ActivityDetector {
    const root: real -> real
    /** person -> the last 15 box centres with their timestamps */
    var poseHistory: map<int, seq<Position>>
    /** person -> the last 20 labels */
    var activityHistory: map<int, seq<Activity>>

    ghost predicate Valid()
      reads this
    {
      IsSqrt(root) && HistoriesOk(poseHistory, activityHistory)
    }

    constructor (root: real -> real)
      requires IsSqrt(root)
      ensures Valid()
      ensures this.root == root && poseHistory == map[] && activityHistory == map[]
    {
      this.root := root;
      poseHistory := map[];
      activityHistory := map[];
    }

    /**
     * calculate_speed: a person seen for the first time gets an empty history
     * (the centre is not stored) and speed 0; otherwise the centre is appended,
     * the history cut to 15, and the smoothed speed returned.
     */
    method CalculateSpeed(person: int, centre: Point, timestamp: real) returns (speed: real)
      requires Valid()
      modifies this`poseHistory
      ensures Valid()
      ensures person !in old(poseHistory) ==> speed == 0.0 && poseHistory == old(poseHistory)[person := []]
      ensures person in old(poseHistory) ==>
        var h := KeepLast(old(poseHistory)[person] + [Position(centre, timestamp)], PoseHistoryLength);
        poseHistory == old(poseHistory)[person := h] && speed == SmoothedSpeed(root, h)
      ensures speed >= 0.0
    {
      if person !in poseHistory {
        StoreOk(poseHistory, activityHistory, person, [], []);
        poseHistory := poseHistory[person := []];
        return 0.0;
      }
      var h := KeepLast(poseHistory[person] + [Position(centre, timestamp)], PoseHistoryLength);
      StoreOk(poseHistory, activityHistory, person, h, []);
      poseHistory := poseHistory[person := h];
      SmoothedSpeedFacts(root, h);
      if |h| < 3 {
        return 0.0;
      }
      speed := MeanSpeed(root, h);
    }

    /** _refine_activity_classification: reads the histories, changes nothing. */
    method Refine(person: int, base: Activity, info: PoseInfo, speed: real) returns (a: Activity)
      ensures a == Refined(root, HistoryOf(poseHistory, person), HistoryOf(activityHistory, person), base, info.aspectRatio, speed)
    {
      LoitersCheck(root, poseHistory, person, base);
      ErraticCheck(activityHistory, person, speed);
      if person in poseHistory && |poseHistory[person]| >= 5 {
        var recent := poseHistory[person];
        var movement := MeanStep(root, Centres(recent[|recent| - 5..]));
        if movement < 5.0 && base in {Standing, WalkingSlow} {
          return Loitering;
        }
      }
      if person in activityHistory && |activityHistory[person]| >= 10 {
        var recent := activityHistory[person];
        var unique := Distinct(recent[|recent| - 10..]);
        if |unique| >= 4 && speed > 20.0 {
          if Running in unique && Standing in unique {
            return ErraticMovement;
          }
        }
      }
      if info.aspectRatio < 1.0 && speed > 1.0 {
        return PotentialFall;
      }
      return base;
    }

    /**
     * classify_activity: "standing" during the warm-up (fewer than 5 stored
     * centres, nothing recorded); after it the refined ladder label, appended
     * to the activity history (cut to 20).
     */
    method Classify(person: int, box: Box, timestamp: real) returns (a: Activity)
      requires Valid()
      modifies this`poseHistory, this`activityHistory
      ensures Valid()
      ensures person !in old(poseHistory) ==>
        && a == Standing
        && poseHistory == old(poseHistory)[person := []]
        && activityHistory == old(activityHistory)
      ensures person in old(poseHistory) ==>
        var h := KeepLast(old(poseHistory)[person] + [Position(Center(box), timestamp)], PoseHistoryLength);
        var speed := SmoothedSpeed(root, h);
        var aspect := AnalyzePoseRatio(box).aspectRatio;
        && poseHistory == old(poseHistory)[person := h]
        && (|h| < WarmUp ==> a == Standing && activityHistory == old(activityHistory))
        && (|h| >= WarmUp ==>
          && a == Refined(root, h, HistoryOf(old(activityHistory), person), BaseLadder(speed, aspect), aspect, speed)
          && activityHistory == old(activityHistory)[person := KeepLast(HistoryOf(old(activityHistory), person) + [a], ActivityHistoryLength)])
    {
      var centre := Center(box);
      var speed := CalculateSpeed(person, centre, timestamp);
      if person !in poseHistory || |poseHistory[person]| < WarmUp {
        return Standing;
      }
      var info := AnalyzePoseRatio(box);
      var base := BaseLadder(speed, info.aspectRatio);
      a := Refine(person, base, info, speed);
      var acts := if person in activityHistory then activityHistory[person] else [];
      acts := KeepLast(acts + [a], ActivityHistoryLength);
      StoreOk(poseHistory, activityHistory, person, [], acts);
      activityHistory := activityHistory[person := acts];
    }
  }
}
