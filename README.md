# People tracking: a verified model of the per-frame bookkeeping

This project models the bookkeeping of a people-tracking repository (`tracking_test`). That bookkeeping sits between the neural detector and the export code, and it is deterministic once the detector's output is given. The project covers:

- **Ghost-buffer re-identification** (`EnhancedTracker`, `enhanced_tracker.dfy`).
  - A track that disappears is remembered as a "ghost" for a number of frames.
  - A detection whose id was not active in the previous frame is relabelled with the best-scoring ghost. The score is 0.6·IoU + 0.4·max(0, 1 − d/t), and a ghost must pass an IoU-or-distance test.
  - As in the code, the remapped id is used only in the frame of the match. `last_frame_active_ids` keeps the base tracker's ids.
  - Because of this, a ghost whose id is still active can be handed to a second detection in the same frame. `SameFrameDuplicateId` exhibits this.
  - `id_mapping` is never written.
- **Zone occupancy** (`ZoneTracker`, `zone_tracker.dfy`).
  - Each frame, the set of people in a zone is compared with the previous set. Entries and exits produce events.
  - Exit durations are summed per person.
  - A summary reports occupancy, distinct people who entered or exited, and the mean total duration.
- **Four activity classifiers.** Each keeps bounded per-person histories, applies a warm-up rule and evaluates a threshold ladder.
  - `PoseTemporalDetector` (`pose_temporal_detector.dfy`): a speed ladder over the hip velocity, and a majority vote over the recent labels.
  - `ActivityDetector` (`activity_detector.dfy`): speed from box centres, then refinement to loitering, erratic movement or a potential fall.
  - `PoseActivityDetector` of `src/core` (`pose_activity_detector.dfy`): the reading/sitting/standing/loitering table.
  - The script-level `PoseActivityDetector` (`pose_activity_script.dfy`): keypoint filtering by confidence, then rules for sitting, lying, walking and running.
- **Per-zone activity bookkeeping** (`PoseActivityTracker`, `pose_activity_tracker.dfy`): first-entry times, one activity per person per frame, and analytics records.
- **The two zone editors** (`ZoneConfigurator`, `InteractiveZoneCreator`).
  - Each edits a list of completed polygons and the polygon being drawn.
  - `zone_editing.dfy` holds what they share: pixel points, mouse events and loading a zone file.

Shared pieces:

- `geometry.dfy`: boxes, IoU, centres, distance and means.
- `kinematics.dfy`: keypoint skeletons and joint angles.
- `histories.dfy`: bounded histories, i.e. a deque with `maxlen` or a `[-n:]` slice.
- `activities.dfy`: the activity labels.
- `sets.dfy`: picking from a set.
- `wrappers.dfy`: `Option`.

Square root, arccos and arctan2 are parameters of the model, constrained by what the proofs need:

- `IsSqrt`: a non-negative square root.
- `IsArccosDegrees`: a decreasing map from [-1, 1] onto [0, 180] with acos(0) = 90.
- `IsArctan2Degrees`: [0, 90] on non-negative arguments, 0 on the vertical and 90 on the horizontal.

Wall-clock time is a parameter `now`. Three behaviours of the code are easy to mistake for something else, and the model follows the code:

- The majority vote breaks ties in favour of the label seen **first** in the window, as `max` over an insertion-ordered dict does, not the most recent one.
- Expired ghosts do not close zone visits; only a change of the zone's set of people does.
- Threshold settings are not validated; any values are accepted.

## Model

| member | source | states |
|---|---|---|
| Geometry.Center | tracking_test/src/core/enhanced_tracker.py:20-23 | the centre is equally far from both corners on each axis |
| Geometry.Iou | tracking_test/src/core/enhanced_tracker.py:25-46 | defines IoU: the clipped intersection area over the union of the two areas, 0 when the union is not positive |
| Geometry.IouBounds | tracking_test/src/core/enhanced_tracker.py:25-46 | IoU of two well-formed boxes lies in [0, 1] |
| Geometry.OverlapRatioBounds | tracking_test/src/core/enhanced_tracker.py:37-46 | with an intersection no larger than either area, intersection over union (0 for a non-positive union) lies in [0, 1] |
| Geometry.IouSymmetric | tracking_test/src/core/enhanced_tracker.py:25-46 | IoU does not depend on the order of the boxes |
| Geometry.IouSelf | tracking_test/src/core/enhanced_tracker.py:25-46 | a box with positive area overlaps itself with IoU 1 |
| Geometry.Distance | tracking_test/src/core/enhanced_tracker.py:48-53 | defines the Euclidean distance between two centres as the root of the summed squared differences |
| Geometry.SquaredDistanceFacts | tracking_test/src/core/enhanced_tracker.py:48-53 | the squared centre distance is non-negative, symmetric and 0 exactly for equal points |
| Geometry.DistanceFacts | tracking_test/src/core/enhanced_tracker.py:48-53 | the distance is non-negative, symmetric and 0 exactly for equal points, so a box is at distance 0 from itself |
| Geometry.DistanceWithin | tracking_test/src/core/enhanced_tracker.py:157 | distance ≤ t iff squared distance ≤ t², for t ≥ 0 |
| Geometry.MeanNonNegative | tracking_test/src/core/activity_detector.py:59 | the mean of non-negative values (0 for none) is non-negative |
| Geometry.MeanBelow | tracking_test/src/core/activity_detector.py:59 | the mean of values at most t is at most t |
| EnhancedTracking.DistinctIdsCount | tracking_test/src/core/enhanced_tracker.py:88 | a ghost list with distinct ids has as many ids as ghosts, like the keys of the ghost dict |
| EnhancedTracking.DistinctSnoc | tracking_test/src/core/enhanced_tracker.py:122-124 | adding a ghost under a fresh id keeps ids distinct |
| EnhancedTracking.BaseIds | tracking_test/src/core/enhanced_tracker.py:106-111 | defines the current active ids: every base tracker id of the frame other than -1 |
| EnhancedTracking.RecordBoxes | tracking_test/src/core/enhanced_tracker.py:106-112 | defines active_tracks after the row loop: each non -1 id mapped to the box of its row, later rows overwriting earlier ones |
| EnhancedTracking.BaseIdsSpec | tracking_test/src/core/enhanced_tracker.py:107-112 | the current ids are exactly the base ids that are not -1 |
| EnhancedTracking.RecordBoxesSpec | tracking_test/src/core/enhanced_tracker.py:107-112 | active tracks gain exactly the current ids, each with the box of its last row, and keep every other box |
| EnhancedTracking.RecordBoxesKeys | tracking_test/src/core/enhanced_tracker.py:107-112 | the keys after recording are the old keys plus the current ids, and other boxes are kept |
| EnhancedTracking.RecordBoxesLast | tracking_test/src/core/enhanced_tracker.py:110-112 | a row's box is recorded when no later row has the same id |
| EnhancedTracking.Qualifies | tracking_test/src/core/enhanced_tracker.py:156-157 | defines the match test: IoU at least the IoU threshold, or distance at most the distance threshold |
| EnhancedTracking.Score | tracking_test/src/core/enhanced_tracker.py:158-161 | defines the match score 0.6·IoU + 0.4·max(0, 1 − d/t) |
| EnhancedTracking.DistanceScore | tracking_test/src/core/enhanced_tracker.py:160 | max(0, 1 − d/t) is non-negative, and at most 1 for t > 0 and d ≥ 0 |
| EnhancedTracking.ScoreBounds | tracking_test/src/core/enhanced_tracker.py:153-161 | the match score 0.6·IoU + 0.4·distance score lies in [0, 1] |
| EnhancedTracking.Best | tracking_test/src/core/enhanced_tracker.py:151-165 | a picked ghost is an index of the ghost list |
| EnhancedTracking.BestSpec | tracking_test/src/core/enhanced_tracker.py:151-165 | the pick qualifies, has a positive score, beats every earlier qualifying ghost strictly and later ones weakly; no pick means no qualifying ghost scores above 0 |
| EnhancedTracking.FindBest | tracking_test/src/core/enhanced_tracker.py:148-165 | the loop over the ghosts returns the pick of the search specification |
| EnhancedTracking.RemoveAtSpec | tracking_test/src/core/enhanced_tracker.py:168-172 | deleting the matched ghost removes exactly its id and keeps ids distinct |
| EnhancedTracking.Reidentify | tracking_test/src/core/enhanced_tracker.py:138-184 | defines the relabelling of one frame row by row: the output ids, the ghosts left, the active tracks and the ghost ids taken |
| EnhancedTracking.ReidentifyIds | tracking_test/src/core/enhanced_tracker.py:138-184 | one output id per row, in order; rows with id -1 or an id active last frame keep it; every changed id is a ghost id taken this frame |
| EnhancedTracking.ReidentifyGhosts | tracking_test/src/core/enhanced_tracker.py:151-172 | ghost ids taken in a frame are distinct, and each leaves the ghost set, so no ghost goes to two detections |
| EnhancedTracking.ReidentifyActive | tracking_test/src/core/enhanced_tracker.py:168-172 | active tracks gain exactly the taken ghost ids |
| EnhancedTracking.SameFrameDuplicateId | tracking_test/src/core/enhanced_tracker.py:141-172 | a ghost whose id the base tracker reports again stays a ghost, so a new detection on its box is given the same id in the same frame: the output holds id 5 twice |
| EnhancedTracking.Eligible | tracking_test/src/core/enhanced_tracker.py:117-124 | defines the ids admitted as ghosts: lost ids that have a recorded box and are not ghosts already |
| EnhancedTracking.EligibleAdd | tracking_test/src/core/enhanced_tracker.py:115-124 | one more lost id is admitted exactly when it has a box and is not a ghost yet |
| EnhancedTracking.GhostIdsAppend | tracking_test/src/core/enhanced_tracker.py:122-124 | the ids of appended ghost lists are the union of their ids |
| EnhancedTracking.AdmitStep | tracking_test/src/core/enhanced_tracker.py:115-124 | one admission step keeps ids distinct and records the ghost with last-seen frame frame_count − 1 |
| EnhancedTracking.AdmitLost | tracking_test/src/core/enhanced_tracker.py:115-124 | the ghosts gained are exactly the lost ids with a box that were not ghosts, each seen last in the previous frame |
| EnhancedTracking.Unexpired | tracking_test/src/core/enhanced_tracker.py:127-135 | defines the ghosts kept, in order: those lost for no more than the buffer's number of frames |
| EnhancedTracking.UnexpiredSpec | tracking_test/src/core/enhanced_tracker.py:128-135 | the ghosts kept are exactly those within the buffer, and expiry keeps ids distinct |
| EnhancedTracking.ExpireGhosts | tracking_test/src/core/enhanced_tracker.py:128-135 | the expiry loop keeps exactly the unexpired ghosts |
| EnhancedTracking.RecordActive | tracking_test/src/core/enhanced_tracker.py:107-112 | the loop over the rows records the boxes and collects the current ids |
| EnhancedTracking.Relabel | tracking_test/src/core/enhanced_tracker.py:138-184 | the relabelling loop computes the re-identification of the rows |
| EnhancedTracking.Prune | tracking_test/src/core/enhanced_tracker.py:187-190 | active tracks are cut to the current ids and ghost ids, with their boxes unchanged |
| EnhancedTracking.EnhancedTracker.constructor | tracking_test/src/core/enhanced_tracker.py:64-95 | the tracker starts with no ghosts, no active tracks and frame 0 |
| EnhancedTracking.EnhancedTracker.Update | tracking_test/src/core/enhanced_tracker.py:97-195 | frame_count grows by 1; ghosts are admitted, expired and matched as specified; the output keeps length and order and leaves -1 and still-active ids unchanged; last_frame_active_ids becomes the base ids; active keys stay within the base ids and ghost ids; every ghost stays within the buffer |
| EnhancedTracking.EnhancedTracker.GhostCount | tracking_test/src/core/enhanced_tracker.py:197-199 | the number of ghost ids |
| EnhancedTracking.EnhancedTracker.ActiveCount | tracking_test/src/core/enhanced_tracker.py:201-203 | the number of active tracks, at most the active ids plus the ghosts |
| EnhancedTracking.EnhancedTracker.Reset | tracking_test/src/core/enhanced_tracker.py:205-211 | all maps and sets are emptied and frame_count is 0 |
| ZoneTracking.Init | tracking_test/src/core/zone_tracker.py:28-34 | initialising a zone adds it with empty data only when it is new, and keeps every existing zone's data |
| ZoneTracking.InitSet | tracking_test/src/core/zone_tracker.py:28-34 | the same for the current-occupancy sets |
| ZoneTracking.InitIdempotent | tracking_test/src/core/zone_tracker.py:28-34 | initialising a zone twice is the same as once |
| ZoneTracking.FrameTime | tracking_test/src/core/zone_tracker.py:41 | the frame time times fps is the frame number |
| ZoneTracking.InitThenSet | tracking_test/src/core/zone_tracker.py:38-89 | initialising then replacing a zone's data is replacing it, and initialisation exposes the zone's existing data |
| ZoneTracking.InitSetThenSet | tracking_test/src/core/zone_tracker.py:38-89 | the same for the current-occupancy sets |
| ZoneTracking.Stamp | tracking_test/src/core/zone_tracker.py:45-46 | defines the entry or exit times after a loop: every person of the set stamped with the current time |
| ZoneTracking.StampSpec | tracking_test/src/core/zone_tracker.py:45-46 | everyone stamped gets time t; everyone else keeps their time |
| ZoneTracking.EntryEvents | tracking_test/src/core/zone_tracker.py:50-58 | one entry record per person who entered |
| ZoneTracking.EntryEventsSpec | tracking_test/src/core/zone_tracker.py:50-58 | each entry record carries the time, frame, person, zone and no duration |
| ZoneTracking.ExitEvents | tracking_test/src/core/zone_tracker.py:78-86 | one exit record per person who left |
| ZoneTracking.ExitEventsSpec | tracking_test/src/core/zone_tracker.py:78-86 | each exit record carries now minus the person's entry time as its duration |
| ZoneTracking.EnumeratesInit | tracking_test/src/core/zone_tracker.py:45 | an enumeration of a set without its last element enumerates the rest |
| ZoneTracking.EnumeratesCount | tracking_test/src/core/zone_tracker.py:45 | a loop over a set visits each member once, so it visits as many as the set holds |
| ZoneTracking.AddDurations | tracking_test/src/core/zone_tracker.py:66-73 | defines the totals after the exit loop: each leaver's total (0 when absent) plus now minus the entry time |
| ZoneTracking.AddDurationsSpec | tracking_test/src/core/zone_tracker.py:62-73 | each person who left gets their old total (or 0) plus now minus their entry time; other totals are kept |
| ZoneTracking.AddDurationsMonotone | tracking_test/src/core/zone_tracker.py:66-73 | with entry times not after now, totals stay non-negative and never decrease |
| ZoneTracking.SumValuesRemove | tracking_test/src/core/zone_tracker.py:106-107 | the sum of the totals splits off any one person's total |
| ZoneTracking.SumValuesNonNegative | tracking_test/src/core/zone_tracker.py:106-107 | non-negative totals have a non-negative sum |
| ZoneTracking.Restrict | tracking_test/src/core/zone_tracker.py:97-98 | the totals of a subset of people, unchanged |
| ZoneTracking.AverageDuration | tracking_test/src/core/zone_tracker.py:106-107 | the mean of the totals, 0 for none |
| ZoneTracking.StampAdd | tracking_test/src/core/zone_tracker.py:45-46 | stamping one more person is one more map update |
| ZoneTracking.AddDurationsAdd | tracking_test/src/core/zone_tracker.py:71-73 | adding one more leaver's duration is one more map update |
| ZoneTracking.EnumeratesAdd | tracking_test/src/core/zone_tracker.py:45 | visiting a new member extends the enumeration |
| ZoneTracking.AddDurationsAgree | tracking_test/src/core/zone_tracker.py:67-73 | totals only read the entry times of the people who left |
| ZoneTracking.ExitEventsAgree | tracking_test/src/core/zone_tracker.py:67-86 | exit records only read the entry times of the people who left |
| ZoneTracking.RecordEntries | tracking_test/src/core/zone_tracker.py:44-58 | the entry loop stamps exactly the new people with now and logs one entry record each |
| ZoneTracking.StampAllSet | tracking_test/src/core/zone_tracker.py:61-63 | stamping in any order gives the same map as stamping the set |
| ZoneTracking.AddAllSet | tracking_test/src/core/zone_tracker.py:61-73 | adding durations in any order gives the same totals as for the set |
| ZoneTracking.RecordExits | tracking_test/src/core/zone_tracker.py:61-86 | the exit loop stamps exactly the leavers, adds their durations and logs one exit record each |
| ZoneTracking.UpdateZone | tracking_test/src/core/zone_tracker.py:44-86 | entries for the set difference new minus old and exits for old minus new, nothing for people in both |
| ZoneTracking.SetZoneOk | tracking_test/src/core/zone_tracker.py:28-34 | replacing one zone's consistent data keeps all zones consistent |
| ZoneTracking.UpdateKeepsZoneOk | tracking_test/src/core/zone_tracker.py:44-89 | after an update the current set lies within the entry keys, so every exit has an entry time and a duration |
| ZoneTracking.ZoneTracker.constructor | tracking_test/src/core/zone_tracker.py:15-26 | the tracker starts with no zones and no analytics |
| ZoneTracking.ZoneTracker.InitializeZone | tracking_test/src/core/zone_tracker.py:28-34 | a new zone gets empty maps; an existing one is untouched |
| ZoneTracking.ZoneTracker.ApplyUpdate | tracking_test/src/core/zone_tracker.py:40-89 | zone z becomes the given set; entries, exits, totals and records follow the set differences; no other zone changes; the log grows by entries plus exits |
| ZoneTracking.ZoneTracker.UpdateZoneTracking | tracking_test/src/core/zone_tracker.py:36-89 | as ApplyUpdate after initialising the zone; with fps 0 only the initialisation happens |
| ZoneTracking.ZoneTracker.ZoneAnalytics | tracking_test/src/core/zone_tracker.py:91-109 | occupancy is the current set's size, entries and exits count distinct people, the average is the mean of the totals (0 for none), and occupancy and exits never exceed entries |
| Kinematics.Clip | tracking_test/src/core/pose_temporal_detector.py:89 | np.clip to [-1, 1], and values inside are kept |
| Kinematics.JointAngle | tracking_test/src/core/pose_temporal_detector.py:80-91 | 180 when a point has a zero coordinate |
| Kinematics.JointAngleRange | tracking_test/src/core/pose_temporal_detector.py:80-91 | the joint angle lies in [0, 180] |
| Kinematics.TiltRange | tracking_test/src/core/pose_temporal_detector.py:108-111 | 90 minus the arccos of a clipped cosine lies in [0, 90] |
| Histories.KeepLast | tracking_test/src/core/pose_temporal_detector.py:181-185 | the last n entries: all of a short history, otherwise n, and always a suffix |
| Histories.AppendKeepLast | tracking_test/src/core/pose_temporal_detector.py:185 | appending to a bounded history ends with the new entry, drops the oldest only when full, and stays within the bound |
| PoseTemporal.HeadTilt | tracking_test/src/core/pose_temporal_detector.py:93-113 | 0 when the nose or a shoulder is missing or the nose is not below the shoulder centre |
| PoseTemporal.HeadTiltRange | tracking_test/src/core/pose_temporal_detector.py:93-113 | the head tilt lies in [0, 90] |
| PoseTemporal.IsSitting | tracking_test/src/core/pose_temporal_detector.py:145-162 | defines is_sitting: left hip and knee detected and the left shoulder-hip-knee angle below 120 |
| PoseTemporal.SittingNeedsLeftSide | tracking_test/src/core/pose_temporal_detector.py:145-162 | sitting needs the left shoulder, hip and knee without zero coordinates and a left hip angle below 120 |
| PoseTemporal.TemporalLabel | tracking_test/src/core/pose_temporal_detector.py:196-220 | the label is one of the nine ladder labels |
| PoseTemporal.PoseLabel | tracking_test/src/core/pose_temporal_detector.py:192-220 | the label for a pose is one of the nine ladder labels |
| PoseTemporal.TemporalLabelBands | tracking_test/src/core/pose_temporal_detector.py:199-220 | sitting gives reading iff tilt > 30, else sitting; otherwise each label holds exactly on its strict velocity band 25/100/200/350/700 |
| PoseTemporal.TemporalLadderMonotone | tracking_test/src/core/pose_temporal_detector.py:205-220 | a higher velocity never gives a slower label |
| PoseTemporal.CollectedFacts | tracking_test/src/core/pose_temporal_detector.py:120-141 | the interval speeds are non-negative and at most one per interval |
| PoseTemporal.HipVelocity | tracking_test/src/core/pose_temporal_detector.py:115-143 | defines calculate_velocity: the mean of the hip-centre speeds over the last 4 intervals, skipping missing hips and non-positive time steps, 0 with none |
| PoseTemporal.HipVelocityFacts | tracking_test/src/core/pose_temporal_detector.py:115-143 | the velocity is non-negative and averages at most the 4 latest intervals |
| PoseTemporal.MeanHipSpeed | tracking_test/src/core/pose_temporal_detector.py:120-143 | the averaging loop computes the hip velocity of the history |
| PoseTemporal.PyTail | tracking_test/src/core/pose_temporal_detector.py:234 | Python's s[-w:]: a suffix, of length min(w, len) for w > 0 |
| PoseTemporal.Count | tracking_test/src/core/pose_temporal_detector.py:236-238 | defines how many times a label occurs in the window, the value counts.get holds after the loop |
| PoseTemporal.FirstIndex | tracking_test/src/core/pose_temporal_detector.py:236-240 | defines the position where a label first occurs, its place in the insertion-ordered dict |
| PoseTemporal.IsDominant | tracking_test/src/core/pose_temporal_detector.py:229-240 | defines a dominant label: present, with no label counted more often, and none counted as often placed earlier |
| PoseTemporal.FirstIndexFacts | tracking_test/src/core/pose_temporal_detector.py:236-238 | the first occurrence of a label holds it and nothing earlier does |
| PoseTemporal.DominantUnique | tracking_test/src/core/pose_temporal_detector.py:240 | at most one label is dominant in a window |
| PoseTemporal.UniformWindow | tracking_test/src/core/pose_temporal_detector.py:229-240 | a window of one label has that label as its dominant one |
| PoseTemporal.CountAbsent | tracking_test/src/core/pose_temporal_detector.py:236-238 | a label not in the window counts 0 |
| PoseTemporal.FirstIndexBefore | tracking_test/src/core/pose_temporal_detector.py:236-238 | a label seen in a prefix is first seen inside it |
| PoseTemporal.FirstIndexAt | tracking_test/src/core/pose_temporal_detector.py:236-238 | a label new at position i is first seen at i |
| PoseTemporal.TallySeen | tracking_test/src/core/pose_temporal_detector.py:237-238 | a label already in the dict has its count raised and keeps its place |
| PoseTemporal.TallyNew | tracking_test/src/core/pose_temporal_detector.py:237-238 | a new label enters the dict with count 1 at the end of the insertion order |
| PoseTemporal.TalliedAll | tracking_test/src/core/pose_temporal_detector.py:236-238 | after the loop the dict holds exactly the window's labels with their counts |
| PoseTemporal.Tally | tracking_test/src/core/pose_temporal_detector.py:236-238 | the counting loop builds the counts in insertion order |
| PoseTemporal.Dominant | tracking_test/src/core/pose_temporal_detector.py:236-240 | "unknown" for an empty window, otherwise a most frequent label, ties going to the one seen first |
| PoseTemporal.StoreOk | tracking_test/src/core/pose_temporal_detector.py:180-185 | storing bounded histories of ladder labels keeps the histories consistent |
| PoseTemporal.ForgetOk | tracking_test/src/core/pose_temporal_detector.py:242-247 | forgetting a person keeps the histories consistent |
| PoseTemporal.PoseTemporalDetector.constructor | tracking_test/src/core/pose_temporal_detector.py:33-51 | the detector starts with empty histories |
| PoseTemporal.PoseTemporalDetector.CalculateVelocity | tracking_test/src/core/pose_temporal_detector.py:115-143 | the hip velocity of the stored history, 0 for an unknown person, never negative |
| PoseTemporal.PoseTemporalDetector.StorePose | tracking_test/src/core/pose_temporal_detector.py:180-185 | a new person gets both histories; the pose is appended and the last 30 kept |
| PoseTemporal.PoseTemporalDetector.RecordLabel | tracking_test/src/core/pose_temporal_detector.py:222-225 | the label is appended and the last 30 kept |
| PoseTemporal.PoseTemporalDetector.Classify | tracking_test/src/core/pose_temporal_detector.py:164-227 | no pose gives "no_pose" and no change; below 5 poses "initializing" without appending a label; after that the ladder label, appended; both histories stay within 30 |
| PoseTemporal.PoseTemporalDetector.DominantActivity | tracking_test/src/core/pose_temporal_detector.py:229-240 | "unknown" without history, otherwise the dominant label of the last `window` labels |
| PoseTemporal.PoseTemporalDetector.CleanupPerson | tracking_test/src/core/pose_temporal_detector.py:242-247 | the person leaves both maps and nothing else changes |
| PoseTemporal.CleanupTwice | tracking_test/src/core/pose_temporal_detector.py:242-247 | cleaning up twice has the effect of cleaning up once |
| BoxActivity.SmoothedSpeed | tracking_test/src/core/activity_detector.py:39-59 | defines the smoothed speed: 0 below 3 positions, else the mean of the speeds over the last 4 intervals with a positive time step |
| BoxActivity.SpeedsFacts | tracking_test/src/core/activity_detector.py:44-56 | interval speeds are non-negative and at most one per interval |
| BoxActivity.SmoothedSpeedFacts | tracking_test/src/core/activity_detector.py:39-59 | the speed is non-negative and averages at most 4 intervals |
| BoxActivity.MeanSpeed | tracking_test/src/core/activity_detector.py:43-59 | the averaging loop computes the smoothed speed |
| BoxActivity.StillSpeeds | tracking_test/src/core/activity_detector.py:44-56 | a box that has not moved has interval speeds 0 |
| BoxActivity.StillSpeed | tracking_test/src/core/activity_detector.py:39-59 | a box that has not moved has speed 0 |
| BoxActivity.AnalyzePoseRatio | tracking_test/src/core/activity_detector.py:61-75 | width and height of the box, aspect = height/width for width > 0 else 1, area = width·height |
| BoxActivity.AspectMeaning | tracking_test/src/core/activity_detector.py:101-103 | the posture thresholds stated on the box: tall, squat and wide |
| BoxActivity.BaseLadder | tracking_test/src/core/activity_detector.py:98-112 | defines the base label from the speed thresholds and, for low speed, the aspect ratio thresholds 2.0 and 1.5 |
| BoxActivity.BaseLadderBands | tracking_test/src/core/activity_detector.py:99-112 | each base label holds exactly on its band of speed (20/100/300) and aspect (1.5) |
| BoxActivity.BaseLadderMonotone | tracking_test/src/core/activity_detector.py:99-112 | a higher speed never gives a slower label |
| BoxActivity.Steps | tracking_test/src/core/activity_detector.py:134-137 | one distance per pair of consecutive positions |
| BoxActivity.Centres | tracking_test/src/core/activity_detector.py:132 | the stored positions in order |
| BoxActivity.MeanStep | tracking_test/src/core/activity_detector.py:133-139 | the loop computes the mean step over the recent positions |
| BoxActivity.Refined | tracking_test/src/core/activity_detector.py:127-157 | defines the refinement order: loitering, then erratic movement, then a potential fall, else the base label |
| BoxActivity.RefinedOutcomes | tracking_test/src/core/activity_detector.py:127-157 | refinement keeps the base label or gives loitering (only from standing or walking_slow), erratic movement (speed > 20, 10 labels) or a potential fall (aspect < 1, speed > 1) |
| BoxActivity.ErraticOnlyWhileMoving | tracking_test/src/core/activity_detector.py:145-151 | erratic movement is only flagged for someone the ladder has moving |
| BoxActivity.StillStandingLoiters | tracking_test/src/core/activity_detector.py:131-141 | someone standing at one spot for 5 positions is loitering |
| BoxActivity.StillSteps | tracking_test/src/core/activity_detector.py:134-137 | steps between equal positions are 0 |
| BoxActivity.WarmUpCalls | tracking_test/src/core/activity_detector.py:28-89 | the first call only creates the history, so the first five calls for a person fall in the warm-up |
| BoxActivity.StoreOk | tracking_test/src/core/activity_detector.py:36-123 | histories within 15 and 20 stay so after storing |
| BoxActivity.ActivityDetector.constructor | tracking_test/src/core/activity_detector.py:13-24 | the detector starts with empty histories |
| BoxActivity.ActivityDetector.CalculateSpeed | tracking_test/src/core/activity_detector.py:26-59 | a new person gets an empty history and speed 0; otherwise the centre is appended, the last 15 kept and the smoothed speed returned |
| BoxActivity.ActivityDetector.Refine | tracking_test/src/core/activity_detector.py:127-157 | the refinement of the base label from the stored histories |
| BoxActivity.ActivityDetector.Classify | tracking_test/src/core/activity_detector.py:77-125 | "standing" without recording during the warm-up; afterwards the refined ladder label, appended and cut to 20 |
| PoseActivity.HeadTilt | tracking_test/src/core/pose_activity_detector.py:125-157 | 0 when the nose or a shoulder is missing or the nose is not below the shoulders |
| PoseActivity.DownwardHasLength | tracking_test/src/core/pose_activity_detector.py:145-151 | a downward head vector always has positive length, so the length guard always passes |
| PoseActivity.HeadTiltRange | tracking_test/src/core/pose_activity_detector.py:125-157 | the head tilt lies in [0, 90] |
| PoseActivity.SideSitting | tracking_test/src/core/pose_activity_detector.py:274-279 | defines one side sitting: hip, knee and ankle detected, hip angle below 110 and knee angle below 130 |
| PoseActivity.IsSitting | tracking_test/src/core/pose_activity_detector.py:272-286 | defines is_sitting: the left side sits or the right side sits |
| PoseActivity.SittingNeedsWholeSide | tracking_test/src/core/pose_activity_detector.py:273-286 | sitting needs one side whose shoulder, hip, knee and ankle are all present |
| PoseActivity.HipSpeed | tracking_test/src/core/pose_activity_detector.py:256-270 | defines the hip velocity: the hip-centre displacement from the previous pose over the time step, 0 when a hip is missing or the step is not positive |
| PoseActivity.HipSpeedNonNegative | tracking_test/src/core/pose_activity_detector.py:257-270 | the hip speed is never negative |
| PoseActivity.JointVelocity | tracking_test/src/core/pose_activity_detector.py:70-93 | defines calculate_joint_velocity: the joint's displacement between the last two poses over the time step, 0 when missing or the step is not positive |
| PoseActivity.AverageJointSpeed | tracking_test/src/core/pose_activity_detector.py:95-123 | defines calculate_average_velocity: the mean of the joint speeds over the last `frames` intervals, 0 with none |
| PoseActivity.JointRate | tracking_test/src/core/pose_activity_detector.py:110-121 | each step of the average contributes nothing or the joint velocity of the history up to it |
| PoseActivity.JointRateAgrees | tracking_test/src/core/pose_activity_detector.py:70-93 | a non-zero joint velocity is counted in the average |
| PoseActivity.JointRatesFacts | tracking_test/src/core/pose_activity_detector.py:108-121 | the collected velocities are non-negative and at most one per step |
| PoseActivity.AverageJointSpeedFacts | tracking_test/src/core/pose_activity_detector.py:95-123 | the average joint speed is non-negative and averages at most `frames` velocities |
| PoseActivity.MeanJointSpeed | tracking_test/src/core/pose_activity_detector.py:100-123 | the loop computes the average joint speed |
| PoseActivity.TableLabel | tracking_test/src/core/pose_activity_detector.py:289-305 | the label is reading, sitting, standing or loitering |
| PoseActivity.TableBands | tracking_test/src/core/pose_activity_detector.py:289-305 | reading iff tilt in [20, 70] and (sitting or velocity < 15); sitting, standing and loitering each exactly on their conditions |
| PoseActivity.PoseLabel | tracking_test/src/core/pose_activity_detector.py:243-305 | the label for a pose is reading, sitting, standing or loitering |
| PoseActivity.Detected | tracking_test/src/core/pose_activity_detector.py:314-316 | at most one detected keypoint per row |
| PoseActivity.DetectedAll | tracking_test/src/core/pose_activity_detector.py:314-316 | every row is detected exactly when each has a non-zero coordinate |
| PoseActivity.StoreOk | tracking_test/src/core/pose_activity_detector.py:229-241 | storing a bounded pose history and an empty label list keeps the histories consistent |
| PoseActivity.PoseActivityDetector.constructor | tracking_test/src/core/pose_activity_detector.py:34-48 | the detector starts with empty histories |
| PoseActivity.PoseActivityDetector.AverageVelocity | tracking_test/src/core/pose_activity_detector.py:95-123 | the average joint speed of the stored history, never negative |
| PoseActivity.PoseActivityDetector.Confidence | tracking_test/src/core/pose_activity_detector.py:307-317 | in [0, 1], and for a stored pose it is 1 exactly when every keypoint is detected |
| PoseActivity.PoseActivityDetector.Classify | tracking_test/src/core/pose_activity_detector.py:200-305 | no pose gives "standing" with the pose history unchanged; the label history exists afterwards; the pose is appended, the last 10 kept; below 5 poses "standing", otherwise the table label |
| ScriptPose.GetKeypoint | tracking_test/scripts/pose_activity.py:61-75 | defines get_keypoint: None out of range, for a short row or below the confidence threshold, else (x, y) |
| ScriptPose.GetKeypointSpec | tracking_test/scripts/pose_activity.py:61-75 | a keypoint is found iff the index is in range, the row has 3 values and the confidence reaches the threshold; it is then (x, y) |
| ScriptPose.GetKeypointThreshold | tracking_test/scripts/pose_activity.py:61-75 | a keypoint found at a threshold is found, unchanged, at any lower one |
| ScriptPose.NormZero | tracking_test/scripts/pose_activity.py:50-53 | a vector has length 0 exactly when it is (0, 0) |
| ScriptPose.ScriptAngle | tracking_test/scripts/pose_activity.py:40-59 | defines the angle at p2: None when a point is None or an arm has length 0, else arccos of the clipped cosine |
| ScriptPose.ScriptAngleSpec | tracking_test/scripts/pose_activity.py:40-59 | an angle exists iff all three points exist and neither vector is zero; it lies in [0, 180] |
| ScriptPose.TorsoAngle | tracking_test/scripts/pose_activity.py:92-101 | a torso angle exists iff a shoulder and hip pair exists on either side |
| ScriptPose.Lean | tracking_test/scripts/pose_activity.py:93-95 | defines the torso angle: arctan2 of the absolute horizontal and vertical shoulder-hip offsets |
| ScriptPose.LeanSpec | tracking_test/scripts/pose_activity.py:92-101 | the torso lean lies in [0, 90], 0 when upright and 90 when horizontal |
| ScriptPose.StepMovements | tracking_test/scripts/pose_activity.py:146-154 | each pair of consecutive measurements contributes at most two ankle movements |
| ScriptPose.AnkleMovements | tracking_test/scripts/pose_activity.py:140-154 | defines the ankle movements: the distances of each detected ankle over the last 4 pose pairs, newest first |
| ScriptPose.MovementsFacts | tracking_test/scripts/pose_activity.py:142-154 | ankle movements are non-negative and at most two per step |
| ScriptPose.AnkleMovementsFacts | tracking_test/scripts/pose_activity.py:140-157 | at most 8 movements, with a non-negative mean |
| ScriptPose.Rules | tracking_test/scripts/pose_activity.py:131-167 | the label is sitting/crouching, lying_down, walking, running or standing |
| ScriptPose.RulesSpec | tracking_test/scripts/pose_activity.py:131-167 | the rules in order: a bent knee below 120 with torso < 30 sits, torso > 60 lies, then walking for 5 < mean < 30 and running for mean ≥ 30, with 5 measurements and ankle data |
| ScriptPose.LeaningTorso | tracking_test/scripts/pose_activity.py:137-167 | a torso between 30 and 60 gives walking, running or standing, and standing without movement data |
| ScriptPose.Measure | tracking_test/scripts/pose_activity.py:80-111 | a measurement exists iff a shoulder and hip pair is detected on either side |
| ScriptPose.BentNeedsLeg | tracking_test/scripts/pose_activity.py:107-111 | a bent knee needs hip, knee and ankle detected and distinct |
| ScriptPose.PoseActivityDetector.constructor | tracking_test/scripts/pose_activity.py:37-38 | the detector starts with no history |
| ScriptPose.PoseActivityDetector.RecentAnkleMovements | tracking_test/scripts/pose_activity.py:140-154 | the loop collects the ankle movements of the last 5 measurements |
| ScriptPose.PoseActivityDetector.Classify | tracking_test/scripts/pose_activity.py:77-167 | no shoulder and hip pair gives "unknown" and no change; otherwise the measurement is appended, the last 10 kept, and the rules decide |
| PoseTracking.Records | tracking_test/scripts/pose_activity_configurable.py:83-94 | one record per detection |
| PoseTracking.EnteredSpec | tracking_test/scripts/pose_activity_configurable.py:75-77 | entry times are added only for people not seen before, set to now, and never overwritten or removed |
| PoseTracking.LoggedSpec | tracking_test/scripts/pose_activity_configurable.py:77-80 | each person's activities gain exactly their activities of this call, in order |
| PoseTracking.LoggedKeys | tracking_test/scripts/pose_activity_configurable.py:75-80 | the people with activities are the people with entry times |
| PoseTracking.OfSingle | tracking_test/scripts/pose_activity_configurable.py:80 | a person detected once in a call gains one activity |
| PoseTracking.OfAbsent | tracking_test/scripts/pose_activity_configurable.py:80 | a person not detected gains nothing |
| PoseTracking.RecordsSnoc | tracking_test/scripts/pose_activity_configurable.py:83-94 | one loop step appends one record |
| PoseTracking.SetZoneOk | tracking_test/scripts/pose_activity_configurable.py:44-48 | replacing one zone's data keeps the zone maps consistent |
| PoseTracking.PoseActivityTracker.constructor | tracking_test/scripts/pose_activity_configurable.py:34-42 | the tracker starts with no zones and no analytics |
| PoseTracking.PoseActivityTracker.InitializeZone | tracking_test/scripts/pose_activity_configurable.py:44-48 | empty maps only for an unseen zone, existing data kept |
| PoseTracking.PoseActivityTracker.Track | tracking_test/scripts/pose_activity_configurable.py:63-94 | the loop over detections records entries, activities and records for zone z only |
| PoseTracking.PoseActivityTracker.UpdateZoneTracking | tracking_test/scripts/pose_activity_configurable.py:50-94 | entry times, activities and records as specified for zone z, other zones unchanged, the log growing by one record per detection; with fps 0 only the initialisation happens |
| ZoneEditing.Truncate | tracking_test/src/ui/zone_configurator.py:281 | defines int() on a number: truncation toward zero |
| ZoneEditing.TruncateSpec | tracking_test/src/ui/zone_configurator.py:281 | int() drops the fraction toward zero and keeps whole numbers |
| ZoneEditing.ConvertZone | tracking_test/src/ui/zone_configurator.py:281 | defines one zone's conversion to integer points, failing on a point with fewer than two coordinates |
| ZoneEditing.ConvertZoneSpec | tracking_test/src/ui/zone_configurator.py:278-282 | a zone converts iff each point has two coordinates, to truncated points, with no point-count check |
| ZoneEditing.Load | tracking_test/src/ui/zone_configurator.py:278-282 | defines the zones loaded in order up to the first that fails to convert, and whether all converted |
| ZoneEditing.LoadSpec | tracking_test/src/ui/zone_configurator.py:272-290 | a load keeps converted zones in order, completes iff all convert, and otherwise stops at the first zone that does not |
| ZoneConfiguration.ZoneColour | tracking_test/src/ui/zone_configurator.py:86-88 | defines the zone colour: the palette entry at the zone index modulo 8 |
| ZoneConfiguration.ZoneColourCycle | tracking_test/src/ui/zone_configurator.py:27-88 | zone colours repeat every 8 zones |
| ZoneConfiguration.ZoneConfigurator.constructor | tracking_test/src/ui/zone_configurator.py:48-65 | no zones, no points, help hidden |
| ZoneConfiguration.ZoneConfigurator.MouseCallback | tracking_test/src/ui/zone_configurator.py:209-218 | a move changes only the mouse position; a left click appends one point; other events change nothing |
| ZoneConfiguration.ZoneConfigurator.CompleteCurrentZone | tracking_test/src/ui/zone_configurator.py:220-228 | 3 points or more move the polygon to the completed zones; fewer change nothing; completed zones keep ≥ 3 points |
| ZoneConfiguration.ZoneConfigurator.CancelCurrentZone | tracking_test/src/ui/zone_configurator.py:230-235 | the polygon being drawn is emptied; completed zones are unchanged |
| ZoneConfiguration.ZoneConfigurator.UndoLastZone | tracking_test/src/ui/zone_configurator.py:237-242 | exactly the last completed zone goes; nothing without one |
| ZoneConfiguration.ZoneConfigurator.ClearAllZones | tracking_test/src/ui/zone_configurator.py:244-250 | both lists are emptied |
| ZoneConfiguration.ZoneConfigurator.ToggleHelp | tracking_test/src/ui/zone_configurator.py:331-333 | the help flag flips |
| ZoneConfiguration.ZoneConfigurator.LoadZones | tracking_test/src/ui/zone_configurator.py:272-290 | no file changes nothing; otherwise the completed zones become the loaded zones, and the result says whether all converted |
| ZoneCreation.ZoneColour | tracking_test/src/utils/interactive_zone_creator.py:67-69 | defines the zone colour: the palette entry at the zone index modulo 8 |
| ZoneCreation.ZoneColourCycle | tracking_test/src/utils/interactive_zone_creator.py:30-69 | zone colours repeat every 8 zones |
| ZoneCreation.InteractiveZoneCreator.constructor | tracking_test/src/utils/interactive_zone_creator.py:19-41 | no zones, no points |
| ZoneCreation.InteractiveZoneCreator.CompleteZone | tracking_test/src/utils/interactive_zone_creator.py:162-170 | 3 points or more move the polygon to the completed zones; fewer change nothing |
| ZoneCreation.InteractiveZoneCreator.MouseCallback | tracking_test/src/utils/interactive_zone_creator.py:71-90 | the position is recorded; a left click appends (x, y); a right click completes a polygon of 3 points or more |
| ZoneCreation.InteractiveZoneCreator.CancelCurrentZone | tracking_test/src/utils/interactive_zone_creator.py:172-177 | only the polygon being drawn is emptied |
| ZoneCreation.InteractiveZoneCreator.ClearAllZones | tracking_test/src/utils/interactive_zone_creator.py:179-185 | both lists are emptied |
| ZoneCreation.Replace | tracking_test/src/utils/interactive_zone_creator.py:203 | defines Python's str.replace: every non-overlapping occurrence, left to right |
| ZoneCreation.SummaryPath | tracking_test/src/utils/interactive_zone_creator.py:203 | defines the summary path: the zone file's path with every ".json" replaced by "_summary.txt" |
| ZoneCreation.ReplaceGrows | tracking_test/src/utils/interactive_zone_creator.py:203 | replacing by a longer text keeps a string without the target and makes one with it strictly longer |
| ZoneCreation.SummaryPathSame | tracking_test/src/utils/interactive_zone_creator.py:203-204 | the summary is written to the zone file's own path exactly when that path has no ".json" |
| ZoneCreation.SummaryPathExample | tracking_test/src/utils/interactive_zone_creator.py:203-204 | for "zones.txt" the summary path is the zone file's path |
| ZoneCreation.InteractiveZoneCreator.SaveZones | tracking_test/src/utils/interactive_zone_creator.py:187-221 | without completed zones the result is False and nothing is written; otherwise True exactly when both the zone path and the summary path can be written; the zone file holds the zones, or the summary text when the path has no ".json", or is untouched when it cannot be written |
| ZoneCreation.InteractiveZoneCreator.LoadExistingZones | tracking_test/src/utils/interactive_zone_creator.py:223-243 | a missing file gives False and no change; otherwise the completed zones become the int-converted zones |

## Left out

- The neural networks are not modelled. YOLO detection and pose inference (`detect_pose`) become inputs: a keypoint skeleton, or none.
- ByteTrack inside `EnhancedTracker` is not modelled. Its per-frame output, a list of (id or −1, box) rows, is the input of `Update`.
- Point-in-polygon tests are not modelled. Zone membership is given as a set of ids.
- Floating point is not modelled; all arithmetic is on reals.
  - `sqrt`, `arccos` and `arctan2` are parameters, constrained only as the proofs need.
  - The `1e-6` added to the norms in the denominators of `calculate_angle` and `calculate_head_tilt` of the `src/core` detectors is modelled as the constant `0.000001`. The angle of `scripts/pose_activity.py` has no such term; it returns None when either vector has length 0.
  - `round()` in records is left out.
- `datetime.now()` is the parameter `now`, in seconds.
- Python set iteration order is left open. Set loops pick members in any order, and their contracts do not depend on it.
- `frame_count` of `ZoneTracker` and `PoseActivityTracker` is advanced by the caller, so it is not modelled as changing.
- ZoneTracking.ZoneTracker.UpdateZoneTracking: `fps == 0`, a division by zero in the source, is returned as `ok == false` after the zone is initialised.
- PoseTracking.PoseActivityTracker.UpdateZoneTracking: `fps == 0` is handled the same way. The classifier's labels for the detections are a parameter, computed beforehand.
- `np.mean` in `get_zone_analytics` is computed by a loop over the zone's totals (`AverageDuration`), because the sum it needs is a ghost function.
- The loops of `calculate_speed`, `_refine_activity_classification`, `calculate_velocity`, `calculate_average_velocity`, the ankle-movement loop and `update_zone_tracking` are methods of their own beside the classes (`MeanSpeed`, `MeanStep`, `MeanHipSpeed`, `MeanJointSpeed`, `Track`, `RecentAnkleMovements`). Their callers use them unchanged.
- The `i == 0` break in `calculate_speed` cannot be reached, because the loop stops above max(0, n − 5). It is not modelled as a separate branch.
- `calculate_angle` of the `src/core` pose detector is the same computation as in `PoseTemporalDetector`. Both use `Kinematics.JointAngle`.
- Drawing, display, keyboard loops and the `run` methods are not modelled. Only the 'h' toggle of the help flag is kept.
- Video reading and writing, `export_analytics` and the CSV, JSON and Excel export are not modelled.
- The CLI and orchestration scripts are not modelled.
- Reading and parsing a zone file are reduced to an `Option` input: `None` for a missing file or invalid JSON, otherwise the parsed lists of numbers. Non-numeric JSON values are not modelled.
- `ZoneConfigurator.save_zones` only writes a file, and `_load_source` only reads an image; neither is modelled.
- `InteractiveZoneCreator.load_first_frame` is not modelled.
- ZoneCreation.InteractiveZoneCreator.SaveZones: the file system is reduced to a predicate saying which paths can be written. The text of the summary file is not modelled, only that it replaces the zones when it shares their path.
- `id_mapping` of `EnhancedTracker` is never written by the source, so it is not part of the state.
