// Zone occupancy bookkeeping (ZoneTracker in src/core/zone_tracker.py).
//
// For every zone the tracker keeps the latest entry time and exit time of each
// person, the running total of time each person spent in the zone, and the set
// of people currently in it. Each frame the caller passes the set of people
// found in a zone; the difference with the previous set gives the entries and
// the exits, which are also logged as analytics events.
//
// Wall-clock time (datetime.now()) is a parameter `now`, in seconds. Values are
// logged without the source's rounding to two decimals.
module ZoneTracking {
  import opened Wrappers
  import opened Sets

  datatype EventKind = Entry | Exit

  /** One analytics record; `duration` is None for an entry. */
  datatype ZoneEvent = ZoneEvent(timestamp: real, frame: int, frameTime: real, person: int, zone: int,
                                 kind: EventKind, duration: Option<real>)

  /** The result of get_zone_analytics. */
  datatype ZoneSummary = ZoneSummary(zone: int, occupancy: nat, people: set<int>, totalEntries: nat,
                                     totalExits: nat, averageDuration: real, durations: map<int, real>)

  /** A zone's inner map, created empty by initialize_zone when the zone is new. */
  function Init<V>(m: map<int, map<int, V>>, z: int): (r: map<int, map<int, V>>)
    ensures r.Keys == m.Keys + {z}
    ensures forall k :: k in m ==> r[k] == m[k]
    ensures z !in m ==> r[z] == map[]
  {
    if z in m then m else m[z := map[]]
  }

  function InitSet(m: map<int, set<int>>, z: int): (r: map<int, set<int>>)
    ensures r.Keys == m.Keys + {z}
    ensures forall k :: k in m ==> r[k] == m[k]
    ensures z !in m ==> r[z] == {}
  {
    if z in m then m else m[z := {}]
  }

  /** Initialising a zone a second time changes nothing. */
  lemma InitIdempotent<V>(m: map<int, map<int, V>>, s: map<int, set<int>>, z: int)
    ensures Init(Init(m, z), z) == Init(m, z)
    ensures InitSet(InitSet(s, z), z) == InitSet(s, z)
  {
  }

  /** The timestamp of a frame in seconds since the start of the video: frame / fps. */
  function FrameTime(frame: int, fps: int): (r: real)
    requires fps != 0
    ensures r * fps as real == frame as real
  {
    frame as real / fps as real
  }

  /** The inner map of zone z, or the empty map when z is not initialised. */
  function Of<V>(m: map<int, map<int, V>>, z: int): map<int, V> {
    if z in m then m[z] else map[]
  }

  /** Initialising a zone and then replacing its inner map is just the replacement. */
  lemma InitThenSet<V>(m: map<int, map<int, V>>, z: int, v: map<int, V>)
    ensures Init(m, z)[z := v] == m[z := v]
    ensures Init(m, z)[z] == Of(m, z)
  {
  }

  lemma InitSetThenSet(m: map<int, set<int>>, z: int, v: set<int>)
    ensures InitSet(m, z)[z := v] == m[z := v]
    ensures InitSet(m, z)[z] == (if z in m then m[z] else {})
  {
  }

  /** Every person of `ps` mapped to time t; everyone else keeps their time. */
  function Stamp(m: map<int, real>, ps: set<int>, t: real): map<int, real> {
    map p | p in m.Keys + ps :: if p in ps then t else m[p]
  }

  /** After stamping, exactly the stamped people carry time t; nobody is dropped. */
  lemma StampSpec(m: map<int, real>, ps: set<int>, t: real)
    ensures Stamp(m, ps, t).Keys == m.Keys + ps
    ensures forall p :: p in ps ==> Stamp(m, ps, t)[p] == t
    ensures forall p :: p in m && p !in ps ==> Stamp(m, ps, t)[p] == m[p]
  {
  }

  /**
   * The running totals after the people of `ps` leave at time t: each gains
   * t minus their entry time, starting from 0 when they had no total yet.
   */
  function AddDurations(d: map<int, real>, entries: map<int, real>, ps: set<int>, t: real): map<int, real>
    requires ps <= entries.Keys
  {
    map p | p in d.Keys + ps :: (if p in d then d[p] else 0.0) + (if p in ps then t - entries[p] else 0.0)
  }

  /** Entry records for the persons of `ps`, in order. */
  function EntryEvents(t: real, frame: int, ft: real, z: int, ps: seq<int>): (r: seq<ZoneEvent>)
    ensures |r| == |ps|
  {
    if ps == [] then []
    else EntryEvents(t, frame, ft, z, ps[..|ps| - 1]) + [ZoneEvent(t, frame, ft, ps[|ps| - 1], z, Entry, None)]
  }

  /** Exit records for the persons of `ps`, each with the time since its entry. */
  function ExitEvents(t: real, frame: int, ft: real, z: int, entries: map<int, real>, ps: seq<int>): (r: seq<ZoneEvent>)
    requires forall i :: 0 <= i < |ps| ==> ps[i] in entries
    ensures |r| == |ps|
  {
    if ps == [] then []
    else
      var p := ps[|ps| - 1];
      ExitEvents(t, frame, ft, z, entries, ps[..|ps| - 1]) + [ZoneEvent(t, frame, ft, p, z, Exit, Some(t - entries[p]))]
  }

  /** Record i is the entry of the i-th person listed, at time t. */
  lemma {:induction false} EntryEventsSpec(t: real, frame: int, ft: real, z: int, ps: seq<int>)
    ensures forall i :: 0 <= i < |ps| ==> EntryEvents(t, frame, ft, z, ps)[i] == ZoneEvent(t, frame, ft, ps[i], z, Entry, None)
  {
    if ps != [] {
      EntryEventsSpec(t, frame, ft, z, ps[..|ps| - 1]);
    }
  }

  /** Record i is the exit of the i-th person listed, carrying t minus their entry time. */
  lemma {:induction false} ExitEventsSpec(t: real, frame: int, ft: real, z: int, entries: map<int, real>, ps: seq<int>)
    requires forall i :: 0 <= i < |ps| ==> ps[i] in entries
    ensures forall i :: 0 <= i < |ps| ==>
      ExitEvents(t, frame, ft, z, entries, ps)[i] == ZoneEvent(t, frame, ft, ps[i], z, Exit, Some(t - entries[ps[i]]))
  {
    if ps != [] {
      ExitEventsSpec(t, frame, ft, z, entries, ps[..|ps| - 1]);
    }
  }

  function Elems(s: seq<int>): set<int> {
    set x | x in s
  }

  /** A sequence that lists the set `ps` once each, in some order. */
  ghost predicate Enumerates(s: seq<int>, ps: set<int>) {
    Elems(s) == ps && forall i, j :: 0 <= i < j < |s| ==> s[i] != s[j]
  }

  /** Dropping the last element of an enumeration enumerates the rest of the set. */
  lemma EnumeratesInit(s: seq<int>, ps: set<int>)
    requires Enumerates(s, ps) && s != []
    ensures Enumerates(s[..|s| - 1], Elems(s[..|s| - 1]))
    ensures s[|s| - 1] !in Elems(s[..|s| - 1])
    ensures ps == Elems(s[..|s| - 1]) + {s[|s| - 1]}
  {
    var init, x := s[..|s| - 1], s[|s| - 1];
    assert s == init + [x];
    assert Elems(s) == Elems(init) + {x};
    assert x !in Elems(init) by {
      forall i | 0 <= i < |init| ensures init[i] != x {
        assert s[i] == init[i];
      }
    }
  }

  /** A sequence that enumerates a set has as many elements as the set. */
  lemma {:induction false} EnumeratesCount(s: seq<int>, ps: set<int>)
    requires Enumerates(s, ps)
    ensures |s| == |ps|
  {
    if s != [] {
      EnumeratesInit(s, ps);
      EnumeratesCount(s[..|s| - 1], Elems(s[..|s| - 1]));
    }
  }

  /**
   * A total with no increment below 0 never decreases, and every total of a
   * person who left at a time not before their entry is non-negative.
   */
  lemma AddDurationsMonotone(d: map<int, real>, entries: map<int, real>, ps: set<int>, t: real)
    requires ps <= entries.Keys
    requires forall p :: p in ps ==> entries[p] <= t
    requires forall p :: p in d ==> d[p] >= 0.0
    ensures AddDurations(d, entries, ps, t).Keys == d.Keys + ps
    ensures forall p :: p in d ==> AddDurations(d, entries, ps, t)[p] >= d[p]
    ensures forall p :: p in AddDurations(d, entries, ps, t) ==> AddDurations(d, entries, ps, t)[p] >= 0.0
  {
  }

  /**
   * Each leaving person's total grows by exactly the time since their latest
   * entry, starting from 0; everybody else's total is unchanged.
   */
  lemma AddDurationsSpec(d: map<int, real>, entries: map<int, real>, ps: set<int>, t: real)
    requires ps <= entries.Keys
    ensures AddDurations(d, entries, ps, t).Keys == d.Keys + ps
    ensures forall p :: p in ps ==> AddDurations(d, entries, ps, t)[p] == (if p in d then d[p] else 0.0) + (t - entries[p])
    ensures forall p :: p in d && p !in ps ==> AddDurations(d, entries, ps, t)[p] == d[p]
  {
  }

  // ---------------------------------------------------------------------------
  // Sums of map values, for the average duration

  /** The sum of the values of a finite map (np.sum of dict values; order does not matter). */
  ghost function SumValues(m: map<int, real>): real
    decreases |m.Keys|
  {
    if m.Keys == {} then 0.0
    else
      var k := PickKey(m);
      m[k] + SumValues(m - {k})
  }

  /** Some key of a non-empty map. */
  ghost function PickKey(m: map<int, real>): (k: int)
    requires m.Keys != {}
    ensures k in m
  {
    NonEmptyHasMember(m.Keys);
    var k :| k in m.Keys; k
  }

  /** Any key can be taken out first. */
  lemma {:induction false} SumValuesRemove(m: map<int, real>, k: int)
    requires k in m
    ensures SumValues(m) == m[k] + SumValues(m - {k})
    decreases |m.Keys|
  {
    var j := PickKey(m);
    if j != k {
      var mj, mk := m - {j}, m - {k};
      assert |mj.Keys| < |m.Keys| by { assert mj.Keys == m.Keys - {j}; }
      assert |mk.Keys| < |m.Keys| by { assert mk.Keys == m.Keys - {k}; }
      SumValuesRemove(mj, k);
      SumValuesRemove(mk, j);
      assert mj - {k} == mk - {j};
    }
  }

  /** The sum of values that are all non-negative is non-negative. */
  lemma {:induction false} SumValuesNonNegative(m: map<int, real>)
    requires forall k :: k in m ==> m[k] >= 0.0
    ensures SumValues(m) >= 0.0
    decreases |m.Keys|
  {
    if m.Keys != {} {
      var k := PickKey(m);
      assert (m - {k}).Keys == m.Keys - {k};
      SumValuesNonNegative(m - {k});
    }
  }

  /** np.mean of the values, and 0 for an empty map (the source's guard). */
  ghost function MeanValues(m: map<int, real>): real {
    if m == map[] then 0.0 else SumValues(m) / |m.Keys| as real
  }

  /** The part of a map whose keys lie in s. */
  function Restrict(d: map<int, real>, s: set<int>): (r: map<int, real>)
    ensures r.Keys == d.Keys * s
    ensures forall k :: k in r ==> r[k] == d[k]
  {
    map k | k in d && k in s :: d[k]
  }

  /** Sums the values key by key, in whatever order the keys come. */
  method AverageDuration(d: map<int, real>) returns (avg: real)
    ensures avg == MeanValues(d)
  {
    var sum := 0.0;
    var todo := d.Keys;
    assert Restrict(d, todo) == d;
    while todo != {}
      invariant todo <= d.Keys
      invariant sum + SumValues(Restrict(d, todo)) == SumValues(d)
    {
      var p := PickFrom(todo);
      SumValuesRemove(Restrict(d, todo), p);
      assert Restrict(d, todo) - {p} == Restrict(d, todo - {p});
      sum := sum + d[p];
      todo := todo - {p};
    }
    assert Restrict(d, todo) == map[];
    assert d.Keys == {} ==> d == map[];
    avg := if d.Keys == {} then 0.0 else sum / |d.Keys| as real;
  }

  lemma StampAdd(m: map<int, real>, ps: set<int>, p: int, t: real)
    ensures Stamp(m, ps + {p}, t) == Stamp(m, ps, t)[p := t]
  {
  }

  lemma AddDurationsAdd(d: map<int, real>, entries: map<int, real>, ps: set<int>, p: int, t: real)
    requires ps <= entries.Keys && p in entries && p !in ps
    ensures var prev := AddDurations(d, entries, ps, t);
      AddDurations(d, entries, ps + {p}, t) == prev[p := (if p in prev then prev[p] else 0.0) + (t - entries[p])]
  {
  }

  lemma EnumeratesAdd(s: seq<int>, ps: set<int>, p: int)
    requires Enumerates(s, ps) && p !in ps
    ensures Enumerates(s + [p], ps + {p})
  {
    assert Elems(s + [p]) == Elems(s) + {p};
    forall i | 0 <= i < |s| ensures s[i] != p {
      assert s[i] in Elems(s);
    }
  }

  /** The totals only read the entry times of the people who leave. */
  lemma AddDurationsAgree(d: map<int, real>, a: map<int, real>, b: map<int, real>, ps: set<int>, t: real)
    requires ps <= a.Keys && ps <= b.Keys
    requires forall p :: p in ps ==> a[p] == b[p]
    ensures AddDurations(d, a, ps, t) == AddDurations(d, b, ps, t)
  {
    AddDurationsSpec(d, a, ps, t);
    AddDurationsSpec(d, b, ps, t);
    var ra, rb := AddDurations(d, a, ps, t), AddDurations(d, b, ps, t);
    forall p | p in ra ensures ra[p] == rb[p] {
    }
  }

  /** Exit records only read the entry times of the people listed. */
  lemma ExitEventsAgree(t: real, frame: int, ft: real, z: int, a: map<int, real>, b: map<int, real>, ps: seq<int>)
    requires forall i :: 0 <= i < |ps| ==> ps[i] in a && ps[i] in b && a[ps[i]] == b[ps[i]]
    ensures ExitEvents(t, frame, ft, z, a, ps) == ExitEvents(t, frame, ft, z, b, ps)
  {
  }

  /** Lines 44-58: stamp each new person with the entry time and log an entry record. */
  method RecordEntries(e0: map<int, real>, newEntries: set<int>, now: real, frame: int, ft: real, z: int)
    returns (ze: map<int, real>, log: seq<ZoneEvent>, ghost entered: seq<int>)
    ensures ze == Stamp(e0, newEntries, now)
    ensures Enumerates(entered, newEntries)
    ensures log == EntryEvents(now, frame, ft, z, entered)
  {
    ze, log, entered := e0, [], [];
    var todo := newEntries;
    ghost var done: set<int> := {};
    while todo != {}
      invariant done + todo == newEntries && done !! todo
      invariant ze == Stamp(e0, done, now)
      invariant Enumerates(entered, done)
      invariant log == EntryEvents(now, frame, ft, z, entered)
    {
      var p := PickFrom(todo);
      StampAdd(e0, done, p, now);
      EnumeratesAdd(entered, done, p);
      assert (entered + [p])[..|entered|] == entered;
      ze := ze[p := now];
      log := log + [ZoneEvent(now, frame, ft, p, z, Entry, None)];
      entered := entered + [p];
      todo := todo - {p};
      done := done + {p};
    }
  }

  /** The exit times after stamping the people of `ps` one after another. */
  function StampAll(m: map<int, real>, ps: seq<int>, t: real): map<int, real> {
    if ps == [] then m else StampAll(m, ps[..|ps| - 1], t)[ps[|ps| - 1] := t]
  }

  /** The running totals after the people of `ps` leave one after another. */
  function AddAll(d: map<int, real>, entries: map<int, real>, ps: seq<int>, t: real): map<int, real>
    requires forall i :: 0 <= i < |ps| ==> ps[i] in entries
  {
    if ps == [] then d
    else
      var prev := AddAll(d, entries, ps[..|ps| - 1], t);
      var p := ps[|ps| - 1];
      prev[p := (if p in prev then prev[p] else 0.0) + (t - entries[p])]
  }

  /** Stamping one person at a time gives the same map in any order. */
  lemma {:induction false} StampAllSet(m: map<int, real>, ps: seq<int>, t: real)
    ensures StampAll(m, ps, t) == Stamp(m, Elems(ps), t)
  {
    if ps != [] {
      var init, p := ps[..|ps| - 1], ps[|ps| - 1];
      assert ps == init + [p];
      StampAllSet(m, init, t);
      assert Elems(ps) == Elems(init) + {p};
      StampAdd(m, Elems(init), p, t);
    }
  }

  /** Adding up one leaving person at a time gives the same totals in any order. */
  lemma {:induction false} AddAllSet(d: map<int, real>, entries: map<int, real>, ps: seq<int>, ss: set<int>, t: real)
    requires Enumerates(ps, ss) && ss <= entries.Keys
    ensures forall i :: 0 <= i < |ps| ==> ps[i] in entries
    ensures AddAll(d, entries, ps, t) == AddDurations(d, entries, ss, t)
  {
    assert forall i :: 0 <= i < |ps| ==> ps[i] in Elems(ps);
    if ps != [] {
      var init, p := ps[..|ps| - 1], ps[|ps| - 1];
      EnumeratesInit(ps, ss);
      AddAllSet(d, entries, init, Elems(init), t);
      AddDurationsAdd(d, entries, Elems(init), p, t);
    }
  }

  /** One more person leaving extends each of the exit loop's folds by one step. */
  lemma ExitFoldsStep(x0: map<int, real>, d0: map<int, real>, entries: map<int, real>, exited: seq<int>, p: int,
                      now: real, frame: int, ft: real, z: int)
    requires forall i :: 0 <= i < |exited| ==> exited[i] in entries
    requires p in entries
    ensures forall i :: 0 <= i < |exited + [p]| ==> (exited + [p])[i] in entries
    ensures StampAll(x0, exited + [p], now) == StampAll(x0, exited, now)[p := now]
    ensures var prev := AddAll(d0, entries, exited, now);
      AddAll(d0, entries, exited + [p], now) == prev[p := (if p in prev then prev[p] else 0.0) + (now - entries[p])]
    ensures ExitEvents(now, frame, ft, z, entries, exited + [p])
      == ExitEvents(now, frame, ft, z, entries, exited) + [ZoneEvent(now, frame, ft, p, z, Exit, Some(now - entries[p]))]
  {
    assert (exited + [p])[..|exited|] == exited;
  }

  /**
   * Lines 60-86: stamp each leaving person with the exit time, add the time
   * since their entry to their total and log an exit record with it. Everyone
   * leaving has an entry time here, so the source's check at line 66 holds.
   */
  method RecordExits(x0: map<int, real>, d0: map<int, real>, entries: map<int, real>, leaving: set<int>,
                     now: real, frame: int, ft: real, z: int)
    returns (zx: map<int, real>, zd: map<int, real>, log: seq<ZoneEvent>, ghost exited: seq<int>)
    requires leaving <= entries.Keys
    ensures zx == Stamp(x0, leaving, now)
    ensures zd == AddDurations(d0, entries, leaving, now)
    ensures Enumerates(exited, leaving)
    ensures forall i :: 0 <= i < |exited| ==> exited[i] in entries
    ensures log == ExitEvents(now, frame, ft, z, entries, exited)
  {
    zx, zd, log, exited := x0, d0, [], [];
    var todo := leaving;
    ghost var done: set<int> := {};
    while todo != {}
      invariant done + todo == leaving && done !! todo
      invariant Enumerates(exited, done)
      invariant forall i :: 0 <= i < |exited| ==> exited[i] in entries
      invariant zx == StampAll(x0, exited, now)
      invariant zd == AddAll(d0, entries, exited, now)
      invariant log == ExitEvents(now, frame, ft, z, entries, exited)
    {
      var p := PickFrom(todo);
      EnumeratesAdd(exited, done, p);
      ExitFoldsStep(x0, d0, entries, exited, p, now, frame, ft, z);
      zx := zx[p := now];
      // The check of line 66 always holds: p is among the tracked people.
      var duration := now - entries[p];
      zd := zd[p := (if p in zd then zd[p] else 0.0) + duration];
      log := log + [ZoneEvent(now, frame, ft, p, z, Exit, Some(duration))];
      exited := exited + [p];
      todo := todo - {p};
      done := done + {p};
    }
    StampAllSet(x0, exited, now);
    AddAllSet(d0, entries, exited, leaving, now);
  }

  /**
   * Lines 44-86 for one zone: stamp the newcomers' entry times, then stamp the
   * leavers' exit times and add their stay to their totals, logging an entry
   * record per newcomer followed by an exit record per leaver.
   */
  method UpdateZone(e0: map<int, real>, x0: map<int, real>, d0: map<int, real>, prev: set<int>, people: set<int>,
                    now: real, frame: int, ft: real, z: int)
    returns (ze: map<int, real>, zx: map<int, real>, zd: map<int, real>,
             entryLog: seq<ZoneEvent>, exitLog: seq<ZoneEvent>, ghost entered: seq<int>, ghost exited: seq<int>)
    requires prev <= e0.Keys
    ensures ze == Stamp(e0, people - prev, now)
    ensures zx == Stamp(x0, prev - people, now)
    ensures zd == AddDurations(d0, e0, prev - people, now)
    ensures Enumerates(entered, people - prev) && Enumerates(exited, prev - people)
    ensures forall i :: 0 <= i < |exited| ==> exited[i] in e0
    ensures entryLog == EntryEvents(now, frame, ft, z, entered)
    ensures exitLog == ExitEvents(now, frame, ft, z, e0, exited)
  {
    ze, entryLog, entered := RecordEntries(e0, people - prev, now, frame, ft, z);
    StampSpec(e0, people - prev, now);
    zx, zd, exitLog, exited := RecordExits(x0, d0, ze, prev - people, now, frame, ft, z);
    AddDurationsAgree(d0, ze, e0, prev - people, now);
    ExitEventsAgree(now, frame, ft, z, ze, e0, exited);
  }

  /**
   * One zone's bookkeeping: everyone in the zone has an entry time; everyone
   * who left has an entry time, and exactly they have a total.
   */
  ghost predicate ZoneOk(e: map<int, real>, x: map<int, real>, d: map<int, real>, c: set<int>) {
    c <= e.Keys && x.Keys <= e.Keys && d.Keys == x.Keys
  }

  /**
   * The four per-zone maps are initialised together, and every zone's
   * bookkeeping is consistent.
   */
  ghost predicate AllZonesOk(e: map<int, map<int, real>>, x: map<int, map<int, real>>,
                             d: map<int, map<int, real>>, c: map<int, set<int>>) {
    && e.Keys == x.Keys == d.Keys == c.Keys
    && (forall z :: z in c ==> ZoneOk(e[z], x[z], d[z], c[z]))
  }

  /** Replacing one zone's data by consistent data keeps every zone consistent. */
  lemma SetZoneOk(e: map<int, map<int, real>>, x: map<int, map<int, real>>, d: map<int, map<int, real>>,
                  c: map<int, set<int>>, z: int, ez: map<int, real>, xz: map<int, real>, dz: map<int, real>, cz: set<int>)
    requires AllZonesOk(e, x, d, c) && ZoneOk(ez, xz, dz, cz)
    ensures AllZonesOk(e[z := ez], x[z := xz], d[z := dz], c[z := cz])
  {
  }

  /** One update of a zone keeps its bookkeeping consistent. */
  lemma UpdateKeepsZoneOk(e0: map<int, real>, x0: map<int, real>, d0: map<int, real>, prev: set<int>,
                          people: set<int>, now: real)
    requires ZoneOk(e0, x0, d0, prev)
    ensures ZoneOk(Stamp(e0, people - prev, now), Stamp(x0, prev - people, now),
                   AddDurations(d0, e0, prev - people, now), people)
  {
    StampSpec(e0, people - prev, now);
    StampSpec(x0, prev - people, now);
    AddDurationsSpec(d0, e0, prev - people, now);
  }

  // ---------------------------------------------------------------------------

  class ZoneTracker {
    const fps: int
    var frameCount: int
    /** zone -> person -> latest entry time */
    var entries: map<int, map<int, real>>
    /** zone -> person -> latest exit time */
    var exits: map<int, map<int, real>>
    /** zone -> person -> total seconds spent in the zone */
    var durations: map<int, map<int, real>>
    /** zone -> people currently in the zone */
    var current: map<int, set<int>>
    var analytics: seq<ZoneEvent>

    /**
     * The four maps are initialised together and every zone's bookkeeping is
     * consistent.
     */
    ghost predicate Valid()
      reads this
    {
      AllZonesOk(entries, exits, durations, current)
    }

    constructor (fps: int)
      ensures Valid()
      ensures this.fps == fps && frameCount == 0
      ensures entries == map[] && exits == map[] && durations == map[] && current == map[] && analytics == []
    {
      this.fps := fps;
      frameCount := 0;
      entries, exits, durations, current := map[], map[], map[], map[];
      analytics := [];
    }

    /** initialize_zone: empty maps for a new zone; an existing zone keeps its data. */
    method InitializeZone(z: int)
      requires Valid()
      modifies this`entries, this`exits, this`durations, this`current
      ensures Valid()
      ensures entries == Init(old(entries), z) && exits == Init(old(exits), z)
      ensures durations == Init(old(durations), z) && current == InitSet(old(current), z)
    {
      entries, exits := Init(entries, z), Init(exits, z);
      durations, current := Init(durations, z), InitSet(current, z);
    }

    /**
     * update_zone_tracking for the people found in zone z at time `now`.
     * With fps = 0 the source raises ZeroDivisionError after initialising the
     * zone: then ok is false and nothing else changes. `entered` and `exited`
     * are the orders in which the source's sets were walked.
     */
    method UpdateZoneTracking(z: int, people: set<int>, now: real)
      returns (ok: bool, ghost entered: seq<int>, ghost exited: seq<int>)
      requires Valid()
      modifies this`entries, this`exits, this`durations, this`current, this`analytics
      ensures Valid()
      ensures ok == (fps != 0)
      ensures !ok ==>
        && entries == Init(old(entries), z) && exits == Init(old(exits), z)
        && durations == Init(old(durations), z) && current == InitSet(old(current), z)
        && analytics == old(analytics)
      ensures ok ==>
        var prev := if z in old(current) then old(current[z]) else {};
        var e0 := Of(old(entries), z);
        var ft := FrameTime(frameCount, fps);
        && prev <= e0.Keys
        && current == old(current)[z := people]
        && entries == old(entries)[z := Stamp(e0, people - prev, now)]
        && exits == old(exits)[z := Stamp(Of(old(exits), z), prev - people, now)]
        && durations == old(durations)[z := AddDurations(Of(old(durations), z), e0, prev - people, now)]
        && Enumerates(entered, people - prev)
        && Enumerates(exited, prev - people)
        && (forall i :: 0 <= i < |exited| ==> exited[i] in e0)
        && analytics == old(analytics) + EntryEvents(now, frameCount, ft, z, entered)
                                       + ExitEvents(now, frameCount, ft, z, e0, exited)
      ensures ok ==> |analytics| == |old(analytics)| + |entered| + |exited|
    {
      ghost var e, x, d, c := entries, exits, durations, current;
      InitializeZone(z);
      entered, exited := [], [];
      if fps == 0 {
        return false, [], [];
      }
      ok := true;
      entered, exited := ApplyUpdate(z, people, now);
      InitThenSet(e, z, entries[z]);
      InitThenSet(x, z, exits[z]);
      InitThenSet(d, z, durations[z]);
      InitSetThenSet(c, z, people);
    }

    /** Lines 40-89 once zone z is initialised and the frame time is defined. */
    method ApplyUpdate(z: int, people: set<int>, now: real) returns (ghost entered: seq<int>, ghost exited: seq<int>)
      requires Valid() && z in current && fps != 0
      modifies this`entries, this`exits, this`durations, this`current, this`analytics
      ensures Valid()
      ensures
        var prev := old(current[z]);
        var e0 := old(entries[z]);
        var ft := FrameTime(frameCount, fps);
        && prev <= e0.Keys
        && current == old(current)[z := people]
        && entries == old(entries)[z := Stamp(e0, people - prev, now)]
        && exits == old(exits)[z := Stamp(old(exits[z]), prev - people, now)]
        && durations == old(durations)[z := AddDurations(old(durations[z]), e0, prev - people, now)]
        && Enumerates(entered, people - prev)
        && Enumerates(exited, prev - people)
        && (forall i :: 0 <= i < |exited| ==> exited[i] in e0)
        && analytics == old(analytics) + EntryEvents(now, frameCount, ft, z, entered)
                                       + ExitEvents(now, frameCount, ft, z, e0, exited)
        && |analytics| == |old(analytics)| + |entered| + |exited|
    {
      var frameTime := FrameTime(frameCount, fps);
      var prev := current[z];
      var e0, x0, d0 := entries[z], exits[z], durations[z];
      assert ZoneOk(e0, x0, d0, prev);
      var ze, zx, zd, entryLog, exitLog;
      ze, zx, zd, entryLog, exitLog, entered, exited :=
        UpdateZone(e0, x0, d0, prev, people, now, frameCount, frameTime, z);
      UpdateKeepsZoneOk(e0, x0, d0, prev, people, now);
      SetZoneOk(entries, exits, durations, current, z, ze, zx, zd, people);
      entries, exits, durations, current := entries[z := ze], exits[z := zx], durations[z := zd], current[z := people];
      analytics := analytics + entryLog + exitLog;
    }

    /**
     * get_zone_analytics: occupancy and people now in the zone, the number of
     * distinct people who ever entered and ever left, the mean of the
     * per-person totals (0 when there are none), and the totals themselves.
     */
    method ZoneAnalytics(z: int) returns (s: ZoneSummary)
      requires Valid()
      modifies this`entries, this`exits, this`durations, this`current
      ensures Valid()
      ensures entries == Init(old(entries), z) && exits == Init(old(exits), z)
      ensures durations == Init(old(durations), z) && current == InitSet(old(current), z)
      ensures s.zone == z
      ensures s.people == current[z] && s.occupancy == |current[z]|
      ensures s.totalEntries == |entries[z].Keys| && s.totalExits == |exits[z].Keys|
      ensures s.durations == durations[z]
      ensures s.averageDuration == MeanValues(durations[z])
      ensures s.occupancy <= s.totalEntries && s.totalExits <= s.totalEntries
    {
      InitializeZone(z);
      var avg := AverageDuration(durations[z]);
      SubsetCard(current[z], entries[z].Keys);
      SubsetCard(exits[z].Keys, entries[z].Keys);
      s := ZoneSummary(z, |current[z]|, current[z], |entries[z].Keys|, |exits[z].Keys|, avg, durations[z]);
    }
  }
}
