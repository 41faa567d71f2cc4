// PoseActivityTracker (scripts/pose_activity_configurable.py): per-zone activity
// bookkeeping. For every person detected in a zone it notes the first time the
// person was seen there, appends the activity the pose classifier gave them to
// their list for that zone, and appends one record to the analytics log.
//
// The classifier's answer for each detection arrives as a parameter
// (`activities`, one per detection, in detection order), and the wall-clock time
// datetime.now() as `now`.
module PoseTracking {
  import opened Geometry
  import opened Activities

  /** One entry of analytics_data (the ISO timestamp is kept as the time itself, without rounding). */
  datatype Record = Record(
    time: real,
    frame: int,
    frameTime: real,
    person: int,
    zone: int,
    activity: Activity,
    box: Box)

  /** The per-zone map of a zone, or an empty one for a zone not initialised yet. */
  function Inner<V>(m: map<int, map<int, V>>, zone: int): map<int, V> {
    if zone in m then m[zone] else map[]
  }

  function ActivitiesOf(m: map<int, seq<Activity>>, person: int): seq<Activity> {
    if person in m then m[person] else []
  }

  /** The persons of a detection list. */
  function Seen(ids: seq<int>): set<int> {
    set p | p in ids
  }

  /** Entry times after the persons `ids` are seen at time `now`: only first sightings are noted. */
  function Entered(entries: map<int, real>, ids: seq<int>, now: real): map<int, real> {
    if ids == [] then entries
    else
      var m := Entered(entries, ids[..|ids| - 1], now);
      if ids[|ids| - 1] in m then m else m[ids[|ids| - 1] := now]
  }

  /** Activity lists after appending activities[i] for person ids[i], in order. */
  function Logged(acts: map<int, seq<Activity>>, ids: seq<int>, activities: seq<Activity>): map<int, seq<Activity>>
    requires |ids| == |activities|
  {
    if ids == [] then acts
    else
      var m := Logged(acts, ids[..|ids| - 1], activities[..|activities| - 1]);
      var p := ids[|ids| - 1];
      m[p := ActivitiesOf(m, p) + [activities[|activities| - 1]]]
  }

  /** The activities of the detections of `person`, in detection order. */
  function Of(person: int, ids: seq<int>, activities: seq<Activity>): seq<Activity>
    requires |ids| == |activities|
  {
    if ids == [] then []
    else
      Of(person, ids[..|ids| - 1], activities[..|activities| - 1])
      + (if ids[|ids| - 1] == person then [activities[|activities| - 1]] else [])
  }

  /** The records one call appends: one per detection, in detection order. */
  function Records(now: real, frame: int, frameTime: real, zone: int, ids: seq<int>, boxes: seq<Box>, activities: seq<Activity>): (r: seq<Record>)
    requires |ids| == |boxes| == |activities|
    ensures |r| == |ids|
  {
    seq(|ids|, i requires 0 <= i < |ids| => Record(now, frame, frameTime, ids[i], zone, activities[i], boxes[i]))
  }

  /**
   * A person's entry time is noted at the first sighting and never changed:
   * afterwards exactly the old persons and the new ids have one, old ones keep
   * theirs and newcomers get `now`.
   */
  lemma {:induction false} EnteredSpec(entries: map<int, real>, ids: seq<int>, now: real)
    ensures Entered(entries, ids, now).Keys == entries.Keys + Seen(ids)
    ensures forall p :: p in entries ==> Entered(entries, ids, now)[p] == entries[p]
    ensures forall p :: p in Entered(entries, ids, now) && p !in entries ==> Entered(entries, ids, now)[p] == now
  {
    if ids != [] {
      var prefix := ids[..|ids| - 1];
      EnteredSpec(entries, prefix, now);
      assert ids == prefix + [ids[|ids| - 1]];
      assert Seen(ids) == Seen(prefix) + {ids[|ids| - 1]};
    }
  }

  /**
   * Each detection appends exactly one activity: a person's list grows by the
   * activities of their own detections, in order, and nothing else.
   */
  lemma {:induction false} LoggedSpec(acts: map<int, seq<Activity>>, ids: seq<int>, activities: seq<Activity>, person: int)
    requires |ids| == |activities|
    ensures ActivitiesOf(Logged(acts, ids, activities), person) == ActivitiesOf(acts, person) + Of(person, ids, activities)
  {
    if ids != [] {
      LoggedSpec(acts, ids[..|ids| - 1], activities[..|activities| - 1], person);
    }
  }

  /** Activity lists exist for exactly the persons that have an entry time. */
  lemma {:induction false} LoggedKeys(acts: map<int, seq<Activity>>, entries: map<int, real>, ids: seq<int>, activities: seq<Activity>, now: real)
    requires |ids| == |activities| && acts.Keys == entries.Keys
    ensures Logged(acts, ids, activities).Keys == Entered(entries, ids, now).Keys
  {
    if ids != [] {
      LoggedKeys(acts, entries, ids[..|ids| - 1], activities[..|activities| - 1], now);
    }
  }

  /** A person not detected gets no activity; a person detected once gets exactly that detection's. */
  lemma {:induction false} OfSingle(person: int, ids: seq<int>, activities: seq<Activity>, k: int)
    requires |ids| == |activities|
    requires 0 <= k < |ids| && ids[k] == person
    requires forall i :: 0 <= i < |ids| && i != k ==> ids[i] != person
    ensures Of(person, ids, activities) == [activities[k]]
  {
    var n := |ids| - 1;
    if k < n {
      OfSingle(person, ids[..n], activities[..n], k);
    } else {
      OfAbsent(person, ids[..n], activities[..n]);
    }
  }

  lemma {:induction false} OfAbsent(person: int, ids: seq<int>, activities: seq<Activity>)
    requires |ids| == |activities|
    requires forall i :: 0 <= i < |ids| ==> ids[i] != person
    ensures Of(person, ids, activities) == []
  {
    if ids != [] {
      OfAbsent(person, ids[..|ids| - 1], activities[..|activities| - 1]);
    }
  }

  /** Every zone has both maps, and within a zone the persons with an entry time are those with an activity list. */
  ghost predicate ZonesOk(entries: map<int, map<int, real>>, acts: map<int, map<int, seq<Activity>>>) {
    && entries.Keys == acts.Keys
    && forall z :: z in entries ==> entries[z].Keys == acts[z].Keys
  }

  lemma EnteredSnoc(entries: map<int, real>, ids: seq<int>, now: real, i: int)
    requires 0 <= i < |ids|
    ensures var m := Entered(entries, ids[..i], now);
      Entered(entries, ids[..i + 1], now) == if ids[i] in m then m else m[ids[i] := now]
  {
    assert ids[..i + 1][..i] == ids[..i];
  }

  lemma LoggedSnoc(acts: map<int, seq<Activity>>, ids: seq<int>, activities: seq<Activity>, i: int)
    requires |ids| == |activities| && 0 <= i < |ids|
    ensures var m := Logged(acts, ids[..i], activities[..i]);
      Logged(acts, ids[..i + 1], activities[..i + 1]) == m[ids[i] := ActivitiesOf(m, ids[i]) + [activities[i]]]
  {
    assert ids[..i + 1][..i] == ids[..i] && activities[..i + 1][..i] == activities[..i];
  }

  lemma RecordsSnoc(now: real, frame: int, frameTime: real, zone: int, ids: seq<int>, boxes: seq<Box>, activities: seq<Activity>, i: int)
    requires |ids| == |boxes| == |activities| && 0 <= i < |ids|
    ensures Records(now, frame, frameTime, zone, ids[..i + 1], boxes[..i + 1], activities[..i + 1])
      == Records(now, frame, frameTime, zone, ids[..i], boxes[..i], activities[..i]) + [Record(now, frame, frameTime, ids[i], zone, activities[i], boxes[i])]
  {
  }

  lemma SetZoneOk(entries: map<int, map<int, real>>, acts: map<int, map<int, seq<Activity>>>, zone: int, e: map<int, real>, a: map<int, seq<Activity>>)
    requires ZonesOk(entries, acts) && e.Keys == a.Keys
    ensures ZonesOk(entries[zone := e], acts[zone := a])
  {
    assert entries[zone := e].Keys == entries.Keys + {zone};
    assert acts[zone := a].Keys == acts.Keys + {zone};
  }

  class PoseActivityTracker {
    const fps: int
    /** Set by the frame loop of the caller. */
    var frameCount: int
    /** zone -> person -> first time seen in the zone */
    var zoneEntries: map<int, map<int, real>>
    /** zone -> person -> activities, one per detection */
    var zoneActivities: map<int, map<int, seq<Activity>>>
    var analytics: seq<Record>

    ghost predicate Valid()
      reads this
    {
      ZonesOk(zoneEntries, zoneActivities)
    }

    constructor (fps: int)
      ensures Valid()
      ensures this.fps == fps && frameCount == 0
      ensures zoneEntries == map[] && zoneActivities == map[] && analytics == []
    {
      this.fps := fps;
      frameCount := 0;
      zoneEntries := map[];
      zoneActivities := map[];
      analytics := [];
    }

    /** initialize_zone: empty maps for an unseen zone, existing data untouched. */
    method InitializeZone(zone: int)
      requires Valid()
      modifies this`zoneEntries, this`zoneActivities
      ensures Valid()
      ensures zone in zoneEntries
      ensures zoneEntries == old(zoneEntries)[zone := Inner(old(zoneEntries), zone)]
      ensures zoneActivities == old(zoneActivities)[zone := Inner(old(zoneActivities), zone)]
    {
      if zone !in zoneEntries {
        SetZoneOk(zoneEntries, zoneActivities, zone, map[], map[]);
        zoneEntries := zoneEntries[zone := map[]];
        zoneActivities := zoneActivities[zone := map[]];
      }
    }

    /**
     * update_zone_tracking for the persons `ids` found in the zone, with their
     * boxes and the activities the classifier gave them. `ok` is false when
     * fps is 0, where the source fails dividing by it after initialising the
     * zone.
     */
    method UpdateZoneTracking(zone: int, ids: seq<int>, boxes: seq<Box>, activities: seq<Activity>, now: real) returns (ok: bool)
      requires Valid() && |ids| == |boxes| == |activities|
      modifies this`zoneEntries, this`zoneActivities, this`analytics
      ensures Valid()
      ensures ok <==> fps != 0
      ensures !ok ==>
        && zoneEntries == old(zoneEntries)[zone := Inner(old(zoneEntries), zone)]
        && zoneActivities == old(zoneActivities)[zone := Inner(old(zoneActivities), zone)]
        && analytics == old(analytics)
      ensures ok ==>
        && zoneEntries == old(zoneEntries)[zone := Entered(Inner(old(zoneEntries), zone), ids, now)]
        && zoneActivities == old(zoneActivities)[zone := Logged(Inner(old(zoneActivities), zone), ids, activities)]
        && analytics == old(analytics) + Records(now, frameCount, frameCount as real / fps as real, zone, ids, boxes, activities)
    {
      InitializeZone(zone);
      if fps == 0 {
        return false;
      }
      Track(zone, ids, boxes, activities, now, frameCount as real / fps as real);
      ok := true;
    }

    /** The loop of lines 63-94 over the detections of an initialised zone. */
    method Track(zone: int, ids: seq<int>, boxes: seq<Box>, activities: seq<Activity>, now: real, frameTime: real)
      requires Valid() && zone in zoneEntries && |ids| == |boxes| == |activities|
      modifies this`zoneEntries, this`zoneActivities, this`analytics
      ensures Valid()
      ensures zoneEntries == old(zoneEntries)[zone := Entered(old(zoneEntries)[zone], ids, now)]
      ensures zoneActivities == old(zoneActivities)[zone := Logged(old(zoneActivities)[zone], ids, activities)]
      ensures analytics == old(analytics) + Records(now, frameCount, frameTime, zone, ids, boxes, activities)
    {
      var entries, acts := zoneEntries[zone], zoneActivities[zone];
      ghost var entries0, acts0 := entries, acts;
      for i := 0 to |ids|
        invariant entries == Entered(entries0, ids[..i], now)
        invariant acts == Logged(acts0, ids[..i], activities[..i])
        invariant acts.Keys == entries.Keys
        invariant zoneEntries == old(zoneEntries) && zoneActivities == old(zoneActivities)
        invariant analytics == old(analytics) + Records(now, frameCount, frameTime, zone, ids[..i], boxes[..i], activities[..i])
      {
        var person := ids[i];
        EnteredSnoc(entries0, ids, now, i);
        LoggedSnoc(acts0, ids, activities, i);
        RecordsSnoc(now, frameCount, frameTime, zone, ids, boxes, activities, i);
        if person !in entries {
          entries := entries[person := now];
          acts := acts[person := []];
        }
        acts := acts[person := acts[person] + [activities[i]]];
        analytics := analytics + [Record(now, frameCount, frameTime, person, zone, activities[i], boxes[i])];
      }
      assert ids[..|ids|] == ids && boxes[..|boxes|] == boxes && activities[..|activities|] == activities;
      SetZoneOk(zoneEntries, zoneActivities, zone, entries, acts);
      zoneEntries := zoneEntries[zone := entries];
      zoneActivities := zoneActivities[zone := acts];
    }
  }
}
