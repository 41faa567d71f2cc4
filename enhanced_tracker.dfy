// The ghost-buffer re-identification layer on top of a base multi-object
// tracker (EnhancedTracker and GhostTrack in src/core/enhanced_tracker.py).
//
// Each frame the base tracker (ByteTrack, not part of this model) produces a
// list of rows, each an id (-1 when the base tracker gave none) and a box. An id
// that was active in the previous frame and is missing now becomes a "ghost"
// that remembers its last box. A row whose id was not active in the previous
// frame is relabelled with the best-scoring ghost that is close enough, and that
// ghost is consumed. Ghosts older than the buffer are dropped.
//
// The ghosts are kept as a sequence in the insertion order of the source's
// dictionary, because that order decides ties between equally good ghosts.
module EnhancedTracking {
  import opened Geometry
  import opened Sets

  /** One row of the base tracker's output: the id it gave (-1 for none) and the box. */
  datatype Detection = Detection(id: int, box: Box)

  /** A lost track kept for re-matching (GhostTrack); its centre is Center(box). */
  datatype Ghost = Ghost(id: int, box: Box, lastSeenFrame: int)

  /** The ghost-buffer settings of the constructor. */
  datatype Settings = Settings(bufferFrames: int, iouThreshold: real, distanceThreshold: real)

  // ---------------------------------------------------------------------------
  // Ghost ids and the base ids of a frame

  function GhostIds(gs: seq<Ghost>): set<int> {
    set g | g in gs :: g.id
  }

  /** Ghost ids are keys of a dictionary in the source, so they never repeat. */
  predicate DistinctIds(gs: seq<Ghost>) {
    forall i, j :: 0 <= i < j < |gs| ==> gs[i].id != gs[j].id
  }

  lemma {:induction false} DistinctIdsCount(gs: seq<Ghost>)
    requires DistinctIds(gs)
    ensures |GhostIds(gs)| == |gs|
  {
    if gs != [] {
      var init, g := gs[..|gs| - 1], gs[|gs| - 1];
      assert gs == init + [g];
      DistinctIdsCount(init);
      assert GhostIds(gs) == GhostIds(init) + {g.id};
      forall h | h in init ensures h.id != g.id {
        var k :| 0 <= k < |init| && init[k] == h;
        assert gs[k] == h;
      }
    }
  }

  lemma DistinctSnoc(gs: seq<Ghost>, g: Ghost)
    requires DistinctIds(gs) && g.id !in GhostIds(gs)
    ensures DistinctIds(gs + [g])
  {
    var s := gs + [g];
    forall i, j | 0 <= i < j < |s| ensures s[i].id != s[j].id {
      if j == |gs| {
        assert s[i] == gs[i];
        assert gs[i] in gs;
      }
    }
  }

  /** The ids of the base output other than -1 (current_active_ids). */
  function BaseIds(rows: seq<Detection>): set<int> {
    if rows == [] then {}
    else
      var d := rows[|rows| - 1];
      BaseIds(rows[..|rows| - 1]) + (if d.id != -1 then {d.id} else {})
  }

  lemma {:induction false} BaseIdsSpec(rows: seq<Detection>)
    ensures forall x :: x in BaseIds(rows) <==> x != -1 && exists i :: 0 <= i < |rows| && rows[i].id == x
  {
    if rows != [] {
      var init := rows[..|rows| - 1];
      BaseIdsSpec(init);
      forall x | x != -1 && (exists i :: 0 <= i < |rows| && rows[i].id == x)
        ensures x in BaseIds(rows)
      {
        var i :| 0 <= i < |rows| && rows[i].id == x;
        if i < |rows| - 1 {
          assert init[i] == rows[i];
        }
      }
      forall x | x in BaseIds(rows)
        ensures x != -1 && exists i :: 0 <= i < |rows| && rows[i].id == x
      {
        if x in BaseIds(init) {
          var i :| 0 <= i < |init| && init[i].id == x;
          assert rows[i] == init[i];
        }
      }
    }
  }

  /**
   * The active-track map after recording every row of the frame whose id is
   * not -1 (a later row with the same id overwrites an earlier one).
   */
  function RecordBoxes(active: map<int, Box>, rows: seq<Detection>): map<int, Box> {
    if rows == [] then active
    else
      var prev := RecordBoxes(active, rows[..|rows| - 1]);
      var d := rows[|rows| - 1];
      if d.id != -1 then prev[d.id := d.box] else prev
  }

  /**
   * Recording a frame adds exactly its base ids as keys; each of them maps to
   * the box of the last row carrying it, and every other entry is unchanged.
   */
  lemma RecordBoxesSpec(active: map<int, Box>, rows: seq<Detection>)
    ensures RecordBoxes(active, rows).Keys == active.Keys + BaseIds(rows)
    ensures forall k :: k in active && k !in BaseIds(rows) ==> RecordBoxes(active, rows)[k] == active[k]
    ensures forall i :: (0 <= i < |rows| && rows[i].id != -1 &&
                         (forall j :: i < j < |rows| ==> rows[j].id != rows[i].id)) ==>
              rows[i].id in RecordBoxes(active, rows) && RecordBoxes(active, rows)[rows[i].id] == rows[i].box
  {
    RecordBoxesKeys(active, rows);
    forall i | 0 <= i < |rows| && rows[i].id != -1 && (forall j :: i < j < |rows| ==> rows[j].id != rows[i].id)
      ensures rows[i].id in RecordBoxes(active, rows) && RecordBoxes(active, rows)[rows[i].id] == rows[i].box
    {
      RecordBoxesLast(active, rows, i);
    }
  }

  lemma {:induction false} RecordBoxesKeys(active: map<int, Box>, rows: seq<Detection>)
    ensures RecordBoxes(active, rows).Keys == active.Keys + BaseIds(rows)
    ensures forall k :: k in active && k !in BaseIds(rows) ==> RecordBoxes(active, rows)[k] == active[k]
  {
    if rows != [] {
      RecordBoxesKeys(active, rows[..|rows| - 1]);
    }
  }

  lemma {:induction false} RecordBoxesLast(active: map<int, Box>, rows: seq<Detection>, i: int)
    requires 0 <= i < |rows| && rows[i].id != -1
    requires forall j :: i < j < |rows| ==> rows[j].id != rows[i].id
    ensures rows[i].id in RecordBoxes(active, rows) && RecordBoxes(active, rows)[rows[i].id] == rows[i].box
  {
    var init := rows[..|rows| - 1];
    if i < |rows| - 1 {
      assert init[i] == rows[i];
      RecordBoxesLast(active, init, i);
    }
  }

  // ---------------------------------------------------------------------------
  // Scoring a ghost against a new box (GhostTrack.calculate_iou / calculate_distance)

  /** Distance between the ghost's centre and the centre of the new box. */
  function GhostDistance(root: real -> real, g: Ghost, b: Box): real {
    Distance(root, Center(g.box), Center(b))
  }

  /** A ghost is a candidate when its IoU or its centre distance is good enough. */
  predicate Qualifies(cfg: Settings, root: real -> real, g: Ghost, b: Box) {
    Iou(g.box, b) >= cfg.iouThreshold || GhostDistance(root, g, b) <= cfg.distanceThreshold
  }

  /**
   * max(0, 1 - d / t). A zero threshold makes the numpy division yield inf or
   * nan, and max(0, ...) then yields 0.
   */
  function DistanceScore(d: real, t: real): (r: real)
    ensures r >= 0.0
    ensures t > 0.0 && d >= 0.0 ==> r <= 1.0
  {
    if t == 0.0 then 0.0
    else
      var q := d / t;
      assert t > 0.0 && d >= 0.0 ==> q >= 0.0 by {
        if t > 0.0 && d >= 0.0 {
          assert q * t == d;
          if q < 0.0 {
            MulMonotone(q, 0.0, t);
          }
        }
      }
      Max(0.0, 1.0 - q)
  }

  function Score(cfg: Settings, root: real -> real, g: Ghost, b: Box): real {
    0.6 * Iou(g.box, b) + 0.4 * DistanceScore(GhostDistance(root, g, b), cfg.distanceThreshold)
  }

  /** For well-formed boxes and a positive threshold the matching score lies in [0, 1]. */
  lemma ScoreBounds(cfg: Settings, root: real -> real, g: Ghost, b: Box)
    requires IsSqrt(root) && cfg.distanceThreshold > 0.0
    requires WellFormed(g.box) && WellFormed(b)
    ensures 0.0 <= Score(cfg, root, g, b) <= 1.0
  {
    IouBounds(g.box, b);
    DistanceFacts(root, Center(g.box), Center(b));
  }

  /** The outcome of the search over the ghosts: nothing, or the index of the winner and its score. */
  datatype Pick = NoPick | Picked(index: nat, score: real)

  function BestScore(p: Pick): real {
    if p.Picked? then p.score else 0.0
  }

  /**
   * The search of update_with_detections over the ghosts in dictionary order:
   * the best score starts at 0, and a qualifying ghost replaces the current
   * best only with a strictly greater score.
   */
  function Best(cfg: Settings, root: real -> real, gs: seq<Ghost>, b: Box): (p: Pick)
    ensures p.Picked? ==> p.index < |gs|
  {
    if gs == [] then NoPick
    else
      var prev := Best(cfg, root, gs[..|gs| - 1], b);
      var g := gs[|gs| - 1];
      if Qualifies(cfg, root, g, b) && Score(cfg, root, g, b) > BestScore(prev) then
        Picked(|gs| - 1, Score(cfg, root, g, b))
      else prev
  }

  /**
   * The winner qualifies, has a strictly positive score, beats every earlier
   * qualifying ghost strictly and every later one at least weakly (ties go to
   * the ghost inserted first); with no winner, no qualifying ghost has a
   * positive score.
   */
  lemma {:induction false} BestSpec(cfg: Settings, root: real -> real, gs: seq<Ghost>, b: Box)
    ensures var p := Best(cfg, root, gs, b);
      p.Picked? ==>
        && Qualifies(cfg, root, gs[p.index], b)
        && p.score == Score(cfg, root, gs[p.index], b)
        && p.score > 0.0
        && (forall j :: 0 <= j < p.index && Qualifies(cfg, root, gs[j], b) ==> Score(cfg, root, gs[j], b) < p.score)
        && (forall j :: p.index < j < |gs| && Qualifies(cfg, root, gs[j], b) ==> Score(cfg, root, gs[j], b) <= p.score)
    ensures Best(cfg, root, gs, b).NoPick? ==>
      forall j :: 0 <= j < |gs| && Qualifies(cfg, root, gs[j], b) ==> Score(cfg, root, gs[j], b) <= 0.0
  {
    if gs != [] {
      var init := gs[..|gs| - 1];
      BestSpec(cfg, root, init, b);
      assert forall j :: 0 <= j < |init| ==> init[j] == gs[j];
    }
  }

  // ---------------------------------------------------------------------------
  // Relabelling the rows of one frame

  function Elems(s: seq<int>): set<int> {
    set x | x in s
  }

  function RemoveAt(gs: seq<Ghost>, k: nat): seq<Ghost>
    requires k < |gs|
  {
    gs[..k] + gs[k + 1..]
  }

  /**
   * The state of the relabelling loop: the output ids so far, the ghosts still
   * available, the active-track map, and the ids of the ghosts consumed so far.
   */
  datatype Relabelling = Relabelling(ids: seq<int>, ghosts: seq<Ghost>, active: map<int, Box>, taken: seq<int>)

  /** One row of the relabelling loop; `last` is last_frame_active_ids. */
  function Step(cfg: Settings, root: real -> real, last: set<int>, r: Relabelling, d: Detection): Relabelling {
    if d.id != -1 && d.id !in last then
      var p := Best(cfg, root, r.ghosts, d.box);
      if p.Picked? then
        var g := r.ghosts[p.index];
        Relabelling(r.ids + [g.id], RemoveAt(r.ghosts, p.index), r.active[g.id := d.box], r.taken + [g.id])
      else
        Relabelling(r.ids + [d.id], r.ghosts, r.active, r.taken)
    else
      Relabelling(r.ids + [d.id], r.ghosts, r.active, r.taken)
  }

  /** The relabelling loop over all the rows of a frame. */
  function Reidentify(cfg: Settings, root: real -> real, last: set<int>, ghosts: seq<Ghost>,
                      active: map<int, Box>, rows: seq<Detection>): Relabelling
  {
    if rows == [] then Relabelling([], ghosts, active, [])
    else Step(cfg, root, last, Reidentify(cfg, root, last, ghosts, active, rows[..|rows| - 1]), rows[|rows| - 1])
  }

  lemma RemoveAtSpec(gs: seq<Ghost>, k: nat)
    requires k < |gs| && DistinctIds(gs)
    ensures DistinctIds(RemoveAt(gs, k))
    ensures forall g :: g in RemoveAt(gs, k) ==> g in gs
    ensures GhostIds(gs) == GhostIds(RemoveAt(gs, k)) + {gs[k].id}
    ensures gs[k].id !in GhostIds(RemoveAt(gs, k))
  {
    var s := RemoveAt(gs, k);
    assert forall i :: 0 <= i < |s| ==> s[i] == if i < k then gs[i] else gs[i + 1];
    forall g | g in gs ensures g.id in GhostIds(s) + {gs[k].id} {
      var i :| 0 <= i < |gs| && gs[i] == g;
      if i < k {
        assert s[i] == g;
      } else if i > k {
        assert s[i - 1] == g;
      }
    }
  }

  /** Ids of the output: one per row, unchanged unless a ghost was consumed for that row. */
  lemma {:induction false} ReidentifyIds(cfg: Settings, root: real -> real, last: set<int>,
                                         ghosts: seq<Ghost>, active: map<int, Box>, rows: seq<Detection>)
    ensures var r := Reidentify(cfg, root, last, ghosts, active, rows);
      && |r.ids| == |rows|
      && (forall i :: 0 <= i < |rows| && (rows[i].id == -1 || rows[i].id in last) ==> r.ids[i] == rows[i].id)
      && (forall i :: 0 <= i < |rows| ==> r.ids[i] == rows[i].id || r.ids[i] in r.taken)
  {
    if rows != [] {
      var init := rows[..|rows| - 1];
      var d := rows[|rows| - 1];
      ReidentifyIds(cfg, root, last, ghosts, active, init);
      var r0 := Reidentify(cfg, root, last, ghosts, active, init);
      var r := Reidentify(cfg, root, last, ghosts, active, rows);
      assert r == Step(cfg, root, last, r0, d);
      assert forall i :: 0 <= i < |init| ==> init[i] == rows[i];
      assert |r.ids| == |r0.ids| + 1;
      assert r.ids[..|init|] == r0.ids;
      assert forall x :: x in r0.taken ==> x in r.taken;
      forall i | 0 <= i < |rows| && (rows[i].id == -1 || rows[i].id in last)
        ensures r.ids[i] == rows[i].id
      {
        if i < |init| {
          assert r.ids[i] == r0.ids[i];
        }
      }
      forall i | 0 <= i < |rows| ensures r.ids[i] == rows[i].id || r.ids[i] in r.taken {
        if i < |init| {
          assert r.ids[i] == r0.ids[i];
        } else if r.ids[i] != d.id {
          assert r.taken == r0.taken + [r.ids[i]];
        }
      }
    }
  }

  /**
   * Consumed ghosts: each was available, is consumed once and is removed; the
   * remaining ghosts are among the given ones and keep distinct ids.
   */
  lemma {:induction false} ReidentifyGhosts(cfg: Settings, root: real -> real, last: set<int>,
                                            ghosts: seq<Ghost>, active: map<int, Box>, rows: seq<Detection>)
    requires DistinctIds(ghosts)
    ensures var r := Reidentify(cfg, root, last, ghosts, active, rows);
      && (forall i, j :: 0 <= i < j < |r.taken| ==> r.taken[i] != r.taken[j])
      && (forall x :: x in r.taken ==> x in GhostIds(ghosts) && x !in GhostIds(r.ghosts))
      && GhostIds(ghosts) == GhostIds(r.ghosts) + Elems(r.taken)
      && DistinctIds(r.ghosts)
      && (forall g :: g in r.ghosts ==> g in ghosts)
  {
    if rows != [] {
      var init := rows[..|rows| - 1];
      var d := rows[|rows| - 1];
      ReidentifyGhosts(cfg, root, last, ghosts, active, init);
      var r0 := Reidentify(cfg, root, last, ghosts, active, init);
      var r := Reidentify(cfg, root, last, ghosts, active, rows);
      assert r == Step(cfg, root, last, r0, d);
      var p := Best(cfg, root, r0.ghosts, d.box);
      if d.id != -1 && d.id !in last && p.Picked? {
        var g := r0.ghosts[p.index];
        RemoveAtSpec(r0.ghosts, p.index);
        assert g in r0.ghosts;
        assert r.taken == r0.taken + [g.id];
        assert r.ghosts == RemoveAt(r0.ghosts, p.index);
        assert Elems(r.taken) == Elems(r0.taken) + {g.id};
        assert g.id !in r0.taken;
        forall i, j | 0 <= i < j < |r.taken| ensures r.taken[i] != r.taken[j] {
          if j == |r0.taken| {
            assert r.taken[i] == r0.taken[i];
            assert r0.taken[i] in r0.taken;
          } else {
            assert r.taken[i] == r0.taken[i] && r.taken[j] == r0.taken[j];
          }
        }
      } else {
        assert r.taken == r0.taken && r.ghosts == r0.ghosts;
      }
    }
  }

  /** The active map gains exactly the ids of the consumed ghosts. */
  lemma {:induction false} ReidentifyActive(cfg: Settings, root: real -> real, last: set<int>,
                                            ghosts: seq<Ghost>, active: map<int, Box>, rows: seq<Detection>)
    ensures var r := Reidentify(cfg, root, last, ghosts, active, rows);
      r.active.Keys == active.Keys + Elems(r.taken)
  {
    if rows != [] {
      var init := rows[..|rows| - 1];
      var d := rows[|rows| - 1];
      ReidentifyActive(cfg, root, last, ghosts, active, init);
      var r0 := Reidentify(cfg, root, last, ghosts, active, init);
      var r := Reidentify(cfg, root, last, ghosts, active, rows);
      assert r == Step(cfg, root, last, r0, d);
      var p := Best(cfg, root, r0.ghosts, d.box);
      if d.id != -1 && d.id !in last && p.Picked? {
        var g := r0.ghosts[p.index];
        assert r.taken == r0.taken + [g.id];
        assert Elems(r.taken) == Elems(r0.taken) + {g.id};
      } else {
        assert r.taken == r0.taken;
      }
    }
  }

  /**
   * The source can hand one id to two rows of the same frame: a new row takes
   * ghost 5 while another row still carries base id 5, which was active in the
   * previous frame (ghost 5 survived because its id came back unmatched).
   * The new row sits exactly on the ghost's box; the other row may be anywhere.
   */
  lemma SameFrameDuplicateId(cfg: Settings, root: real -> real, near: Box, far: Box)
    requires cfg.iouThreshold <= 1.0
    requires near.x1 < near.x2 && near.y1 < near.y2
    ensures Reidentify(cfg, root, {5}, [Ghost(5, near, 0)], map[], [Detection(9, near), Detection(5, far)]).ids == [5, 5]
  {
    var g := Ghost(5, near, 0);
    IouSelf(near);
    var score := Score(cfg, root, g, near);
    assert score >= 0.6;
    assert Best(cfg, root, [g], near) == Picked(0, score) by {
      assert [g][..0] == [];
    }
    var rows := [Detection(9, near), Detection(5, far)];
    var r0 := Relabelling([], [g], map[], []);
    var r1 := Step(cfg, root, {5}, r0, rows[0]);
    assert r1.ids == [5];
    assert rows[..1] == [rows[0]] && rows[..1][..0] == [];
    assert Reidentify(cfg, root, {5}, [g], map[], rows[..1]) == r1;
    assert Reidentify(cfg, root, {5}, [g], map[], rows) == Step(cfg, root, {5}, r1, rows[1]);
  }

  // ---------------------------------------------------------------------------
  // Admission and expiry of ghosts

  /**
   * The ghosts created this frame: one per lost id that still has an active
   * box and is not already a ghost, holding that box and seen in frame `seen`.
   * The source walks a set, so their order is left open.
   */
  function Eligible(lost: set<int>, active: map<int, Box>, ghostIds: set<int>): set<int> {
    set x | x in lost && x in active && x !in ghostIds
  }

  lemma EligibleAdd(done: set<int>, x: int, active: map<int, Box>, ghostIds: set<int>)
    ensures Eligible(done + {x}, active, ghostIds) ==
      Eligible(done, active, ghostIds) + (if x in active && x !in ghostIds then {x} else {})
  {
  }

  lemma GhostIdsAppend(a: seq<Ghost>, b: seq<Ghost>)
    ensures GhostIds(a + b) == GhostIds(a) + GhostIds(b)
  {
    var s := a + b;
    forall g | g in s ensures g in a || g in b {
      var i :| 0 <= i < |s| && s[i] == g;
      if i < |a| { assert a[i] == g; } else { assert b[i - |a|] == g; }
    }
  }

  ghost predicate Admitted(ghosts: seq<Ghost>, active: map<int, Box>, lost: set<int>, seen: int, added: seq<Ghost>) {
    && DistinctIds(added)
    && GhostIds(added) == Eligible(lost, active, GhostIds(ghosts))
    && (forall g :: g in added ==> g.id in active && g.box == active[g.id] && g.lastSeenFrame == seen)
  }

  /** One turn of the admission loop keeps `Admitted` and the distinctness of all ghost ids. */
  lemma AdmitStep(ghosts: seq<Ghost>, active: map<int, Box>, done: set<int>, seen: int, added: seq<Ghost>, x: int)
    requires DistinctIds(ghosts + added) && Admitted(ghosts, active, done, seen, added) && x !in done
    ensures var isNew := x in active && x !in GhostIds(ghosts + added);
      var next := if isNew then added + [Ghost(x, active[x], seen)] else added;
      && DistinctIds(ghosts + next)
      && Admitted(ghosts, active, done + {x}, seen, next)
  {
    GhostIdsAppend(ghosts, added);
    EligibleAdd(done, x, active, GhostIds(ghosts));
    assert x !in GhostIds(added);
    if x in active && x !in GhostIds(ghosts + added) {
      var g := Ghost(x, active[x], seen);
      DistinctSnoc(ghosts + added, g);
      DistinctSnoc(added, g);
      GhostIdsAppend(added, [g]);
      assert GhostIds([g]) == {x};
      assert ghosts + (added + [g]) == (ghosts + added) + [g];
    }
  }

  /** The ghosts, in order, that are at most `buffer` frames old at frame `frame`. */
  function Unexpired(gs: seq<Ghost>, frame: int, buffer: int): seq<Ghost> {
    if gs == [] then []
    else
      var g := gs[|gs| - 1];
      Unexpired(gs[..|gs| - 1], frame, buffer) + (if frame - g.lastSeenFrame > buffer then [] else [g])
  }

  /** Expiry keeps exactly the ghosts within the buffer, and keeps ids distinct. */
  lemma {:induction false} UnexpiredSpec(gs: seq<Ghost>, frame: int, buffer: int)
    ensures forall g :: g in Unexpired(gs, frame, buffer) <==> g in gs && frame - g.lastSeenFrame <= buffer
    ensures DistinctIds(gs) ==> DistinctIds(Unexpired(gs, frame, buffer))
  {
    if gs != [] {
      var init, g := gs[..|gs| - 1], gs[|gs| - 1];
      assert gs == init + [g];
      UnexpiredSpec(init, frame, buffer);
      if DistinctIds(gs) {
        assert DistinctIds(init);
        if frame - g.lastSeenFrame <= buffer {
          forall h | h in Unexpired(init, frame, buffer) ensures h.id != g.id {
            var k :| 0 <= k < |init| && init[k] == h;
            assert gs[k] == h;
          }
          DistinctSnoc(Unexpired(init, frame, buffer), g);
        }
      }
    }
  }

  // ---------------------------------------------------------------------------
  // The loops of update_with_detections, each against its specification

  /** Lines 107-112: record the boxes of the frame and collect its base ids. */
  method RecordActive(active: map<int, Box>, rows: seq<Detection>) returns (a: map<int, Box>, current: set<int>)
    ensures a == RecordBoxes(active, rows)
    ensures current == BaseIds(rows)
  {
    a, current := active, {};
    var i := 0;
    while i < |rows|
      invariant 0 <= i <= |rows|
      invariant a == RecordBoxes(active, rows[..i])
      invariant current == BaseIds(rows[..i])
    {
      assert rows[..i + 1][..i] == rows[..i];
      if rows[i].id != -1 {
        current := current + {rows[i].id};
        a := a[rows[i].id := rows[i].box];
      }
      i := i + 1;
    }
    assert rows[..|rows|] == rows;
  }

  /** Lines 118-124: turn each lost id into a ghost unless it is one already. */
  method AdmitLost(ghosts: seq<Ghost>, active: map<int, Box>, lost: set<int>, seen: int)
    returns (gs: seq<Ghost>, ghost added: seq<Ghost>)
    requires DistinctIds(ghosts)
    ensures gs == ghosts + added
    ensures DistinctIds(gs)
    ensures Admitted(ghosts, active, lost, seen, added)
  {
    gs, added := ghosts, [];
    var todo := lost;
    while todo != {}
      invariant todo <= lost
      invariant gs == ghosts + added && DistinctIds(gs)
      invariant Admitted(ghosts, active, lost - todo, seen, added)
    {
      var lostId := PickFrom(todo);
      ghost var done := lost - todo;
      AdmitStep(ghosts, active, done, seen, added, lostId);
      if lostId in active && lostId !in GhostIds(gs) {
        var g := Ghost(lostId, active[lostId], seen);
        gs := gs + [g];
        added := added + [g];
        assert gs == ghosts + added;
      }
      todo := todo - {lostId};
      assert lost - todo == done + {lostId};
    }
    assert lost - todo == lost;
  }

  /** Lines 128-135: drop the ghosts that are more than `buffer` frames old. */
  method ExpireGhosts(ghosts: seq<Ghost>, frame: int, buffer: int) returns (kept: seq<Ghost>)
    ensures kept == Unexpired(ghosts, frame, buffer)
  {
    kept := [];
    var i := 0;
    while i < |ghosts|
      invariant 0 <= i <= |ghosts|
      invariant kept == Unexpired(ghosts[..i], frame, buffer)
    {
      assert ghosts[..i + 1][..i] == ghosts[..i];
      if frame - ghosts[i].lastSeenFrame <= buffer {
        kept := kept + [ghosts[i]];
      }
      i := i + 1;
    }
    assert ghosts[..|ghosts|] == ghosts;
  }

  /** Lines 148-165: the search for the best-scoring qualifying ghost. */
  method FindBest(cfg: Settings, root: real -> real, ghosts: seq<Ghost>, b: Box) returns (p: Pick)
    ensures p == Best(cfg, root, ghosts, b)
  {
    p := NoPick;
    var bestScore := 0.0;
    var k := 0;
    while k < |ghosts|
      invariant 0 <= k <= |ghosts|
      invariant p == Best(cfg, root, ghosts[..k], b)
      invariant bestScore == BestScore(p)
    {
      assert ghosts[..k + 1][..k] == ghosts[..k];
      var g := ghosts[k];
      var iou := Iou(g.box, b);
      var distance := GhostDistance(root, g, b);
      if iou >= cfg.iouThreshold || distance <= cfg.distanceThreshold {
        var score := 0.6 * iou + 0.4 * DistanceScore(distance, cfg.distanceThreshold);
        if score > bestScore {
          bestScore := score;
          p := Picked(k, score);
        }
      }
      k := k + 1;
    }
    assert ghosts[..|ghosts|] == ghosts;
  }

  /** Lines 138-184: relabel the rows whose id was not active in the previous frame. */
  method Relabel(cfg: Settings, root: real -> real, last: set<int>, ghosts: seq<Ghost>,
                 active: map<int, Box>, rows: seq<Detection>)
    returns (ids: seq<int>, gs: seq<Ghost>, act: map<int, Box>)
    ensures var r := Reidentify(cfg, root, last, ghosts, active, rows);
      ids == r.ids && gs == r.ghosts && act == r.active
  {
    ids, gs, act := [], ghosts, active;
    ghost var taken: seq<int> := [];
    var i := 0;
    while i < |rows|
      invariant 0 <= i <= |rows|
      invariant Relabelling(ids, gs, act, taken) == Reidentify(cfg, root, last, ghosts, active, rows[..i])
    {
      assert rows[..i + 1][..i] == rows[..i];
      var d := rows[i];
      if d.id != -1 && d.id !in last {
        var p := FindBest(cfg, root, gs, d.box);
        if p.Picked? {
          var g := gs[p.index];
          ids := ids + [g.id];
          gs := RemoveAt(gs, p.index);
          act := act[g.id := d.box];
          taken := taken + [g.id];
        } else {
          ids := ids + [d.id];
        }
      } else {
        ids := ids + [d.id];
      }
      i := i + 1;
    }
    assert rows[..|rows|] == rows;
  }

  /** Lines 187-190: keep the active boxes of current ids and of remaining ghosts. */
  function Prune(active: map<int, Box>, current: set<int>, ghostIds: set<int>): (m: map<int, Box>)
    ensures m.Keys == active.Keys * (current + ghostIds)
    ensures forall k :: k in m ==> m[k] == active[k]
  {
    map k | k in active && (k in current || k in ghostIds) :: active[k]
  }

  // ---------------------------------------------------------------------------
  // The tracker object

  class EnhancedTracker {
    const settings: Settings
    /** The square root used for centre distances (np.sqrt). */
    const root: real -> real
    /** ghost_tracks, in dictionary insertion order. */
    var ghosts: seq<Ghost>
    /** active_tracks: id -> last box. */
    var active: map<int, Box>
    /** last_frame_active_ids: the base ids of the previous frame. */
    var lastActive: set<int>
    var frameCount: int

    /**
     * Ghost ids are distinct; every ghost was lost before the current frame and
     * is within the buffer; the previous frame's ids all have a box, and every
     * box belongs to such an id or to a ghost.
     */
    ghost predicate Valid()
      reads this
    {
      && DistinctIds(ghosts)
      && frameCount >= 0
      && -1 !in lastActive
      && (forall g :: g in ghosts ==> 0 < frameCount - g.lastSeenFrame <= settings.bufferFrames)
      && lastActive <= active.Keys <= lastActive + GhostIds(ghosts)
    }

    constructor (settings: Settings, root: real -> real)
      ensures Valid()
      ensures this.settings == settings && this.root == root
      ensures ghosts == [] && active == map[] && lastActive == {} && frameCount == 0
    {
      this.settings := settings;
      this.root := root;
      ghosts := [];
      active := map[];
      lastActive := {};
      frameCount := 0;
    }

    /**
     * update_with_detections for one frame of base-tracker output. Returns the
     * relabelled ids (one per row, in row order); `added` are the ghosts created
     * this frame in the order they were inserted.
     */
    method Update(rows: seq<Detection>) returns (ids: seq<int>, ghost added: seq<Ghost>)
      requires Valid()
      modifies this
      ensures Valid()
      ensures frameCount == old(frameCount) + 1
      ensures lastActive == BaseIds(rows)
      ensures Admitted(old(ghosts), RecordBoxes(old(active), rows), old(lastActive) - BaseIds(rows), old(frameCount), added)
      ensures var pool := Unexpired(old(ghosts) + added, frameCount, settings.bufferFrames);
        var r := Reidentify(settings, root, old(lastActive), pool, RecordBoxes(old(active), rows), rows);
        && ids == r.ids
        && ghosts == r.ghosts
        && active == Prune(r.active, BaseIds(rows), GhostIds(r.ghosts))
      ensures |ids| == |rows|
      ensures forall i :: 0 <= i < |rows| && (rows[i].id == -1 || rows[i].id in old(lastActive)) ==> ids[i] == rows[i].id
      ensures forall g :: g in ghosts ==> g in old(ghosts) + added
    {
      frameCount := frameCount + 1;
      var recorded, current := RecordActive(active, rows);
      var lost := lastActive - current;
      var admittedAll;
      admittedAll, added := AdmitLost(ghosts, recorded, lost, frameCount - 1);
      var pool := ExpireGhosts(admittedAll, frameCount, settings.bufferFrames);
      UnexpiredSpec(admittedAll, frameCount, settings.bufferFrames);
      var relabelled, remaining, act := Relabel(settings, root, lastActive, pool, recorded, rows);
      ReidentifyIds(settings, root, lastActive, pool, recorded, rows);
      ReidentifyGhosts(settings, root, lastActive, pool, recorded, rows);
      ReidentifyActive(settings, root, lastActive, pool, recorded, rows);
      RecordBoxesSpec(active, rows);
      BaseIdsSpec(rows);
      ids := relabelled;
      ghosts := remaining;
      active := Prune(act, current, GhostIds(remaining));
      lastActive := current;
      forall g | g in ghosts ensures 0 < frameCount - g.lastSeenFrame <= settings.bufferFrames {
        assert g in pool;
        assert g in old(ghosts) || g in added;
      }
    }

    /** get_ghost_count: the number of ghost ids. */
    method GhostCount() returns (n: nat)
      requires Valid()
      ensures n == |GhostIds(ghosts)|
    {
      DistinctIdsCount(ghosts);
      n := |ghosts|;
    }

    /** get_active_count: the number of active boxes, at most the previous frame's ids plus the ghosts. */
    method ActiveCount() returns (n: nat)
      requires Valid()
      ensures n == |active.Keys|
      ensures n <= |lastActive| + |ghosts|
    {
      n := |active|;
      SubsetCard(active.Keys, lastActive + GhostIds(ghosts));
      DistinctIdsCount(ghosts);
    }

    /** reset: forget every ghost, box and id, and restart the frame count. */
    method Reset()
      modifies this
      ensures Valid()
      ensures ghosts == [] && active == map[] && lastActive == {} && frameCount == 0
    {
      ghosts := [];
      active := map[];
      lastActive := {};
      frameCount := 0;
    }
  }
}
