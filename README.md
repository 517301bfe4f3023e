# Parking-violation occupancy tracker, modelled in Dafny

The system watches a camera or a video file. It marks parking zones as polygons and
raises a violation when a tracked motorcycle stays inside a zone too long. This
project models the part that decides when that happens:

- **Time-based tracker** (`src/main_debug.py`). Each track has a timer holding its
  entry time and the last time it was seen in a zone. The first in-zone
  motorcycle sighting starts the timer and later ones refresh it.
  - After 10 seconds in a zone a violation is recorded, once.
  - A timer not refreshed for more than the 3-second grace period is pruned,
    together with its violation entry.
  - None of this happens on a frame for which the tracker returned no ids.
- **Frame-count tracker** (`src/main_onnx_debug.py`). Each track has a counter of
  consecutive in-zone motorcycle sightings. Any other sighting of the track resets
  it to 0.
  - A violation is recorded once, when the counter reaches a threshold given in
    frames.
  - The threshold is `int(10 * fps)`: 300 at the start, then re-derived each time a
    one-second measurement window closes.
  - On a frame with ids, counters are pruned. As written, the prune set is the first
    detection's id alone, which is a defect (see "## Findings"). `AsWrittenStep`
    models that form; `Step` and the class `ViolationCounter` use the intended set,
    the ids of every detection of the frame.
- **Helpers around the trackers.**
  - Zone lookup by the truncated box centre, first match in zone order, with edges
    counting as inside.
  - Scaling of reference-frame zones to the live frame size.
  - The one-slot, latest-wins frame buffer between the capture thread and the
    detection loop.
  - The frame-rate fallback rule and the pacing interval.
  - The file names and record fields written for each violation.
- **Zone-definition builder** (`scripts/define_roi.py`). A click-and-Enter state
  machine collects polygons under typed or numbered names. It is saved as the record
  that the detection loops load back.

Each tracker is modelled twice and the two are proved equal:

- **As functions** (`Observe`, `ObserveAll`, `Prune`, `Step`, `Run`). Lemmas state
  the tracker's properties on these.
- **As a class** (`ViolationTracker`, `ViolationCounter`). Its fields are the source's
  dictionaries, updated in place by loops. Each method is proved to agree with the
  function for the same step. `ViolationCounter` prunes with the corrected id set of
  the Findings row, not the as-written one.

Other modelling choices:

- Timestamps and frame rates are exact `real`s.
- The wall-clock readings are parameters of each step: the frame time, the prune
  time and the two `strftime` strings.
- The object detector and ByteTrack are replaced by the list of detections they
  produce for a frame.

Modules:

| file | module | what it holds |
|---|---|---|
| wrappers.dfy | Wrappers | `Option` |
| decimal.dfy | Decimal | decimal rendering of integers (`str(int)`) and its injectivity |
| geometry.dfy | Geometry | points, boxes, zones, truncating division, boundary-inclusive point-in-polygon, `box_center_in_zone`, `scale_zones` |
| evidence.dfy | Evidence | the violation record, snapshot/log paths and their uniqueness |
| frame_buffer.dfy | FrameBuffer | the latest-wins queue as a class, and its behaviour over a sequence of puts and reads |
| video_source.dfy | VideoSource | `_determine_source_fps`, `frame_interval`, the `VideoStream` object |
| time_tracker.dfy | TimeTracker | the time-based tracker |
| frame_count_tracker.dfy | FrameCountTracker | the frame-count tracker, its threshold and fps window |
| zone_config.dfy | ZoneConfig | the saved zone record and `load_zones` |
| zone_builder.dfy | ZoneBuilder | `PolygonBuilder` and dictionary assignment on ordered zones |

## Model

| member | source | states |
|---|---|---|
| Decimal.NatToString | src/main_debug.py:293 | a natural renders as a non-empty string of digits with no leading zero |
| Decimal.IntToString | src/main_debug.py:293 | `str(track_id)` is non-empty, starts with `-` exactly for a negative id, and is digits only after that sign |
| Decimal.ParseNatToString | src/main_debug.py:293 | reading back a rendered natural gives the number again |
| Decimal.IntToStringInjective | src/main_debug.py:293 | two ids render the same iff they are equal |
| Evidence.ArtifactStem | src/main_debug.py:293-294 | definition: `violation_<timestamp>_id<track_id>`, shared by the snapshot and log names; its injectivity is stated by `StemInjective` |
| Evidence.SnapshotPath | src/main_debug.py:294 | definition: the stem under the snapshot directory with `.jpg`; stated by `ArtifactPathsUnique` |
| Evidence.LogPath | src/main_debug.py:307 | definition: the stem under the log directory with `.json`; stated by `ArtifactPathsUnique` |
| Evidence.SnapshotFileField | src/main_debug.py:293-305 | the record's `snapshot_file` is exactly the path the snapshot is written to |
| Evidence.MakeRecord | src/main_debug.py:298-306 | the record carries all seven logged fields: the track id, the wall-clock timestamp, zone, class, confidence, `[x1, y1, x2, y2]` and the snapshot path |
| Evidence.StemInjective | src/main_debug.py:293-308 | two (timestamp, id) pairs share a file stem iff they are equal |
| Evidence.ArtifactPathsUnique | src/main_debug.py:294-308 | snapshot paths collide iff the (timestamp, id) pairs are equal, and so do log paths: no violation overwrites another's snapshot or log |
| Geometry.Center | src/main_debug.py:142 | definition: the truncated box midpoint; stated by `CenterWithinBox` and `CenterOfNonNegativeBox` |
| Geometry.Contains | src/main_debug.py:144 | definition: on an edge, or an odd crossing count; stated by `EdgePointsContained`, `VerticesContained` and `OutsideVerticalExtent` |
| Geometry.ScaleCoord | src/main_debug.py:136 | definition: `int(v * s)` with exact rational `s`; stated by `ScaleExact` and `ScaleByOneIsIdentity` |
| Geometry.TruncDiv | src/main_debug.py:142 | `int(a / b)` rounds toward zero: bounds for non-negative and for negative numerators |
| Geometry.CenterWithinBox | src/main_debug.py:142 | the truncated centre of a well-formed box lies inside the box |
| Geometry.CenterOfNonNegativeBox | src/main_debug.py:142 | for non-negative coordinates the truncated centre is the floor midpoint |
| Geometry.EdgePointsContained | src/main_debug.py:144 | a point on any edge counts as inside (`pointPolygonTest(...) >= 0`) |
| Geometry.VerticesContained | src/main_debug.py:144 | every vertex counts as inside its polygon |
| Geometry.OutsideVerticalExtent | src/main_debug.py:144 | a point above or below every vertex is outside |
| Geometry.FirstContaining | src/main_debug.py:143-146 | the index found contains the point and no earlier zone does; `None` only when no zone does |
| Geometry.BoxCenterInZone | src/main_debug.py:139-146 | `None` iff no zone contains the centre; otherwise the name of the first zone in order that contains it |
| Geometry.ScaleFactor | src/main_debug.py:209-210 | the factor equals `live / ref` exactly, and is missing only where Python divides by zero |
| Geometry.ScalePolygon | src/main_debug.py:136 | same vertex count; each vertex mapped to its truncated scaled coordinates |
| Geometry.ScaleZones | src/main_debug.py:132-137 | the zone names in order and each polygon's vertex count are kept; each vertex becomes `(int(x*sx), int(y*sy))` |
| Geometry.ScaleToFrame | src/main_debug.py:209-211 | factors from live and reference sizes, then scaling; missing iff a reference size is 0; the zone names are kept |
| Geometry.ScaleToFrameExact | src/main_debug.py:209-211 | each scaled vertex is `(int(x * frame_w / src_w), int(y * frame_h / src_h))`: where those products are whole numbers, exactly them |
| Geometry.SameSizeKeepsZones | src/main_debug.py:209-211 | a live frame of the reference size leaves every zone as defined |
| Geometry.ScalePreservesUniqueNames | src/main_debug.py:132-137 | scaling keeps the zone names distinct |
| Geometry.ScaleByOneIsIdentity | src/main_debug.py:132-137 | with `sx = sy = 1`, scaling returns the zones unchanged |
| Geometry.ScaleExact | src/main_debug.py:136 | where `v * sx` is a whole number, the scaled coordinate is exactly that number |
| FrameBuffer.FrameQueue.constructor | src/main_debug.py:52 | a new queue is empty |
| FrameBuffer.FrameQueue.Put | src/main_debug.py:86-91 | after a put the slot holds exactly the new frame; an unread one is evicted |
| FrameBuffer.FrameQueue.Read | src/main_onnx_debug.py:75-79 | a read returns the slot's content, `None` when empty, and leaves the slot empty |
| FrameBuffer.Replay | src/main_debug.py:86-103 | puts and reads carried out in order on a real queue hand over exactly what `Delivered` says; the slot ends holding the last put frame, empty after a final read, unchanged when there were no operations |
| FrameBuffer.Delivered | src/main_debug.py:86-103 | one result per operation over a run of puts and reads |
| FrameBuffer.ReadSeesOnlyTheLatestUnreadFrame | src/main_debug.py:86-103 | a read returns a frame iff the operation just before it was a put, and then that put's frame; a second read in a row returns `None` |
| FrameBuffer.WriteDeliversNothing | src/main_onnx_debug.py:68-73 | a put hands nothing to the consumer |
| FrameBuffer.NothingDeliveredUnwritten | src/main_onnx_debug.py:68-79 | from an empty queue, every frame read was put immediately before |
| VideoSource.DetermineSourceFps | src/main_debug.py:57-65 | the reported fps when above 1; otherwise 30 for a file and 0 for a live source |
| VideoSource.FrameInterval | src/main_debug.py:47-50 | an interval exists iff the source is a file with non-zero fps, and it is the reciprocal of the fps |
| VideoSource.PacingOnlyForFiles | src/main_debug.py:45-50 | a file source is always paced by an interval strictly between 0 and 1 s; a live source never is |
| VideoSource.VideoStream.constructor | src/main_debug.py:41-52 | the fps is settled by the fallback rule, the interval agrees with it, and the queue starts empty |
| VideoSource.VideoStream.Reconnect | src/main_debug.py:73-84 | after reopening, the fps is settled again and the interval still agrees with it; the queue is untouched |
| VideoSource.VideoStream.Deliver | src/main_debug.py:86-91 | a grabbed frame replaces whatever is unread |
| VideoSource.VideoStream.Read | src/main_debug.py:99-103 | `read()` returns the pending frame or `None`, and empties the slot |
| TimeTracker.Observe | src/main_debug.py:255-312 | definition of one box's effect; stated by `ObserveSpec` |
| TimeTracker.ObserveAll | src/main_debug.py:251-312 | definition of a frame's boxes in order; stated by `ObserveAllFacts` and `ObserveAllOthers` |
| TimeTracker.Prune | src/main_debug.py:326-339 | definition of the stale-timer sweep; stated by `PruneSpec` |
| TimeTracker.Run | src/main_debug.py:242-339 | definition of a run of frames, one `Step` each; stated by `AtMostOneRecordWhileTimerLives` and `LotAScenario` |
| TimeTracker.ObserveSpec | src/main_debug.py:255-312 | out-of-zone or non-motorcycle boxes change nothing. A first sighting creates a timer with `enter_time = last_seen = now`; a later one sets `last_seen` and keeps `enter_time`. No other timer changes. A record appears iff elapsed ≥ 10 s and the track has no entry yet, and then the history maps it to the zone |
| TimeTracker.ObserveAllFacts | src/main_debug.py:251-312 | over a frame's boxes: no timer disappears, no history entry changes, `history ⊆ timers` is kept, records are new, distinct and in the history under their zone, and the history grows only by the recorded tracks |
| TimeTracker.PruneSpec | src/main_debug.py:326-339 | after pruning every timer satisfies `now - last_seen <= 3`, a timer is kept iff it satisfies it, a pruned track is gone from both maps, surviving entries are unchanged, and `history ⊆ timers` is kept |
| TimeTracker.Step | src/main_debug.py:242-339 | a frame without ids changes nothing. Any frame keeps `history ⊆ timers`. A frame with ids leaves every timer refreshed within the grace period. Records are for new, distinct tracks. A recorded track whose timer survives is in the history. A history entry goes only with its timer |
| TimeTracker.AtMostOneRecordWhileTimerLives | src/main_debug.py:278-316 | while a track's timer lives, a run of frames records it at most once, and not at all if it was already recorded |
| TimeTracker.NoIdsFrameChangesNothing | src/main_debug.py:242 | with no ids, neither map changes and pruning is skipped |
| TimeTracker.ObserveAllOthers | src/main_debug.py:251-312 | boxes of other tracks leave a track's timer, its history entry and its record count alone |
| TimeTracker.RecordedByLastBox | src/main_debug.py:278-312 | the qualifying box, after boxes of other tracks only, adds exactly one record for its track, for the first zone holding its centre |
| TimeTracker.OtherBoxKeepsRecords | src/main_debug.py:251-312 | a box of another track keeps the records so far as a prefix and adds none for this track |
| TimeTracker.RecordedOnceInFrame | src/main_debug.py:251-312 | in a frame's boxes, a track seen once, in a zone, at or past the threshold and not yet recorded gets exactly one record, for the first zone holding its centre |
| TimeTracker.ViolationConfirmedAtThreshold | src/main_debug.py:278-312 | in any frame with ids, such a track gets exactly one record from the step, whatever other boxes the frame holds |
| TimeTracker.ParkedIsInLotA | src/main_debug.py:139-146 | a concrete box lies in zone "lot-A" and another lies in no zone |
| TimeTracker.LotAScenario | src/main_debug.py:242-339 | a motorcycle parked from t=0 is recorded exactly once, at t=10, and is pruned, entry and timer together, once out of the zone for more than 3 s |
| TimeTracker.ViolationTracker.constructor | src/main_debug.py:214-215 | both dictionaries start empty |
| TimeTracker.ViolationTracker.ObserveBox | src/main_debug.py:255-312 | one box updates the dictionaries in place exactly as `Observe` says |
| TimeTracker.ViolationTracker.PruneStale | src/main_debug.py:326-339 | the loop over a snapshot of the keys, deleting as it goes, leaves exactly `Prune`'s state |
| TimeTracker.ViolationTracker.ObserveBoxes | src/main_debug.py:251-312 | the per-box loop ends in `ObserveAll`'s state with its records |
| TimeTracker.ViolationTracker.ProcessFrame | src/main_debug.py:242-339 | one iteration equals `Step` and keeps `history ⊆ timers` |
| FrameCountTracker.Observe | src/main_onnx_debug.py:215-265 | definition of one detection's effect; stated by `ObserveSpec` |
| FrameCountTracker.ObserveAll | src/main_onnx_debug.py:207-265 | definition of a frame's detections in order; stated by `ObserveAllFacts` and `CounterIsStreak` |
| FrameCountTracker.Prune | src/main_onnx_debug.py:275-280 | definition of the sweep against an id set; stated by `PruneSpec` |
| FrameCountTracker.Run | src/main_onnx_debug.py:196-280 | definition of a run of frames, one `Step` each; stated by `AtMostOneRecordWhilePresent` and `CounterIsStreakAcrossFrames` |
| FrameCountTracker.FrameTrackIds | src/main_onnx_debug.py:274 | definition of the intended prune set, the ids of every detection; stated by `FrameTrackIdsMembers` |
| FrameCountTracker.AsWrittenPruneIds | src/main_onnx_debug.py:274 | definition of the prune set as written, the first detection's id; stated by `AsWrittenStep` and `AsWrittenDropsSecondTrack` |
| FrameCountTracker.ObserveSpec | src/main_onnx_debug.py:215-265 | an untracked detection changes nothing. A tracked one ends with a counter: one more if it is an in-zone motorcycle, else 0. No other counter changes. A record appears iff the new count reaches the threshold and there is no entry yet. A reset keeps the history |
| FrameCountTracker.ObserveAllFacts | src/main_onnx_debug.py:207-265 | over a frame: no counter disappears, every tracked detection has one, no history entry changes, `history ⊆ counters` is kept, records are new, distinct and in the history |
| FrameCountTracker.Streak | src/main_onnx_debug.py:225-226 | the length of the trailing run of qualifying sightings, bounded by the preceding non-qualifying one |
| FrameCountTracker.CounterIsStreak | src/main_onnx_debug.py:221-265 | a counter equals the number of the track's consecutive qualifying sightings since its last reset, plus the earlier count if there was no reset |
| FrameCountTracker.RunSightings | src/main_onnx_debug.py:207-215 | the track's sightings over a run, frame after frame, all carrying its id |
| FrameCountTracker.StreakConcat | src/main_onnx_debug.py:225-226 | a trailing run reaches into earlier sightings only when all later ones qualify |
| FrameCountTracker.StepKeepsPresentCounter | src/main_onnx_debug.py:273-280 | pruning never changes the counter of a track that the frame holds |
| FrameCountTracker.CounterIsStreakAcrossFrames | src/main_onnx_debug.py:221-280 | across a run where the track is in every frame, its counter is the number of its consecutive in-zone motorcycle sightings since the last reset, plus its earlier count if nothing reset it |
| FrameCountTracker.PruneSpec | src/main_onnx_debug.py:275-280 | the kept counters are exactly those in the id set, unchanged; an entry goes exactly when its counter is pruned; `history ⊆ counters` is kept |
| FrameCountTracker.FrameTrackIdsMembers | src/main_onnx_debug.py:274 | the frame's id set holds exactly the ids of its detections |
| FrameCountTracker.Step | src/main_onnx_debug.py:207-280 | with all of the frame's ids as the prune set: `history ⊆ counters` is kept. After a frame with ids, only and all of its tracks have counters; a frame without ids prunes nothing. Records are for new, distinct tracks |
| FrameCountTracker.AsWrittenStep | src/main_onnx_debug.py:273-280 | as written, after a frame with ids at most the first detection's track keeps a counter |
| FrameCountTracker.FirstInSquare | src/main_onnx_debug.py:108-115 | the first example detection is in zone "lot-A" |
| FrameCountTracker.SecondInSquare | src/main_onnx_debug.py:108-115 | the second example detection is in zone "lot-A" |
| FrameCountTracker.TwoParkedObserved | src/main_onnx_debug.py:207-265 | two in-zone motorcycles both advance their counters from 5 to 6 |
| FrameCountTracker.AsWrittenDropsSecondTrack | src/main_onnx_debug.py:273-277 | as written, the second motorcycle's counter is pruned by the frame that counted it |
| FrameCountTracker.StepKeepsBothTracks | src/main_onnx_debug.py:273-277 | with the frame's full id set both counters survive |
| FrameCountTracker.AtMostOneRecordWhilePresent | src/main_onnx_debug.py:235-265 | a track present in every frame is recorded at most once, even when it leaves and re-enters the zone, and not at all if recorded before |
| FrameCountTracker.ThresholdFrames | src/main_onnx_debug.py:169 | `int(10 * fps)` is the floor of `10 * fps` |
| FrameCountTracker.InitialThreshold | src/main_onnx_debug.py:168-169 | the initial threshold is 300 frames |
| FrameCountTracker.CloseWindow | src/main_onnx_debug.py:286-293 | before 1 s nothing changes. From 1 s on, the fps is frames ÷ elapsed, the window restarts, and the threshold becomes `int(10 * fps)` |
| FrameCountTracker.ViolationCounter.constructor | src/main_onnx_debug.py:168-185 | empty dictionaries, threshold 300, a fresh window with fps 0 |
| FrameCountTracker.ViolationCounter.ObserveDetection | src/main_onnx_debug.py:215-265 | one detection updates the dictionaries in place exactly as `Observe` says |
| FrameCountTracker.ViolationCounter.ObserveDetections | src/main_onnx_debug.py:207-265 | the per-detection loop ends in `ObserveAll`'s state with its records |
| FrameCountTracker.ViolationCounter.PruneAbsent | src/main_onnx_debug.py:275-280 | the loop over a snapshot of the keys leaves exactly `Prune`'s state for the id set it is given |
| FrameCountTracker.ViolationCounter.ProcessFrame | src/main_onnx_debug.py:196-293 | one iteration equals the corrected `Step` (prune set: all of the frame's ids, not the first detection's id of :274) under the threshold in force, then closes the fps window as `CloseWindow` says, keeping `history ⊆ counters` |
| ZoneConfig.SaveZones | scripts/define_roi.py:130-139 | nothing is saved iff no zone was defined; otherwise the record holds the zones and the reference width and height |
| ZoneConfig.LoadZones | src/main_debug.py:123-130 | a missing file is an error; otherwise the zones, width and height of the file |
| ZoneConfig.SaveThenLoad | scripts/define_roi.py:134-145 | what the script saves, the detection loop loads back unchanged |
| ZoneBuilder.DefaultZoneName | scripts/define_roi.py:85 | definition: `zone_{idx}`; stated by `DefaultNamesDistinct` |
| ZoneBuilder.ZoneName | scripts/define_roi.py:83-85 | the typed name, or `zone_{idx}` when the name is empty; never empty |
| ZoneBuilder.DefaultNamesDistinct | scripts/define_roi.py:84-85 | two default names are equal iff their indices are |
| ZoneBuilder.Lookup | scripts/define_roi.py:88 | `zones[name]` is missing iff no zone has the name |
| ZoneBuilder.Assign | scripts/define_roi.py:87-88 | definition of `zones[key] = poly` on ordered zones; stated by `AssignSpec`, `AssignAppends`, `AssignReplaces` and `AssignKeepsNamesUnique` |
| ZoneBuilder.AssignSpec | scripts/define_roi.py:87-88 | after `zones[name] = poly`, `name` looks up `poly` and every other name looks up what it did; one entry is added iff the name was new |
| ZoneBuilder.AssignAppends | scripts/define_roi.py:88 | a new name is appended after the existing zones |
| ZoneBuilder.AssignReplaces | scripts/define_roi.py:88 | an existing name's polygon is replaced where it stands; no other entry moves |
| ZoneBuilder.AssignKeepsNamesUnique | scripts/define_roi.py:88 | names stay distinct |
| ZoneBuilder.AssignKeepsPolygons | scripts/define_roi.py:76-88 | storing a polygon of at least 3 points keeps every stored polygon at least that large |
| ZoneBuilder.PolygonBuilder.constructor | scripts/define_roi.py:51-56 | no zones, no points, `zone_idx = 1` |
| ZoneBuilder.PolygonBuilder.OnClick | scripts/define_roi.py:63-68 | a click outside the axes changes nothing; one inside appends exactly that point |
| ZoneBuilder.PolygonBuilder.ResetCurrentPoly | scripts/define_roi.py:100-103 | the current points are emptied, nothing else changes |
| ZoneBuilder.PolygonBuilder.OnKey | scripts/define_roi.py:75-98 | keys other than Enter change nothing. Enter with fewer than 3 points only empties the points. Enter with 3 or more stores them under the typed or default name, increments `zone_idx` by 1 and empties the points. Each keeps: names distinct, every polygon ≥ 3 points, count ≤ `zone_idx - 1` |

## Left out

- Object detection and ByteTrack (`model.track` / `model.predict`, `model.names`).
  These are foreign calls. A frame is the list of detections they return: box, track
  id (optional in the frame-count loop), class label and formatted confidence.
- All drawing, resizing and display, `cv2.imwrite`, the JSON file writes and reads,
  and `os.makedirs`. These are rendering and file-system I/O. The saved zone file is
  modelled as a value that is present or missing.
- The `"%.2f"` confidence formatting, and the `strftime` renderings. Both are
  modelled as given strings.
- The clock read for each record. The source reads it twice per confirmed violation:
  the file stamp, then the record's `timestamp` field (src/main_debug.py:283 and :300,
  src/main_onnx_debug.py:237 and :250). The two readings, or those of two violations in
  one frame, can differ by a second. The model passes one `Stamps` pair per frame,
  shared by every record of that frame. No proved property depends on this: the ids
  within a frame are distinct, so the paths are unique anyway.
- Floating-point rounding. Timestamps, fps and scale factors are exact reals or
  rationals.
- Integer widths:
  - the `int32` arrays of zone vertices and the float-to-`int32` conversion of click
    coordinates; vertices are unbounded integers;
  - detector boxes arrive already converted with `map(int, box)`.
- The clock. Each frame's `time.time()` readings are parameters:
  - the frame time and prune time of the time-based loop;
  - `now` and the restart time of the fps window.
- Threading in `VideoStream`: the daemon capture thread, its lifecycle and
  `time.sleep` pacing. Only the sequential behaviour of the one-slot queue is
  modelled. The variant in `src/main_onnx_debug.py` has the same queue, modelled by
  the same `FrameBuffer.FrameQueue`.
- Reconnecting after a failed read. It is modelled only as re-settling the fps.
- FPS statistics of the time-based loop and the session summary of both loops. These
  are display-only wall-clock arithmetic. The fps window of the frame-count loop is
  modelled because the threshold depends on it.
- `send_to_dashboard` and the network, `src/server.py`,
  `src/capture/stream_handler.py`, `scripts/export_model.py` and
  `scripts/cleanup_output.py`. These are network, foreign and file-system code;
  they are not part of this model.
- Matplotlib event wiring and `input()` in `scripts/define_roi.py`. The typed name
  is an argument of `OnKey`, and a click event is a value.
- `cv2.pointPolygonTest(poly, p, False) >= 0` is foreign. Geometry.Contains stands in
  for it: an exact integer even-odd crossing test, where a point on an edge counts
  as inside.
- Path joining is modelled as `/`-separated concatenation (POSIX `os.path.join`).
  The `.replace("\\", "/")` of the frame-count loop is then the identity.
- FrameCountTracker.HasIds: like the source, the frame-count loop prunes only when
  the first detection has an id. The tracker assigns ids to all of a frame's boxes
  or to none, so that is the same as "the frame has ids".

## Findings

| source | as written | input that shows it | evidently intended | confidence | as-written member | corrected member |
|---|---|---|---|---|---|---|
| src/main_onnx_debug.py:273-274 | `results` is already the frame's detections and `results[0]` is its first detection alone, so the prune set `set(results[0].boxes.id...)` holds only the first detection's id; every other track's counter is deleted in the frame that counted it and restarts from 1, so it never reaches the threshold | two motorcycles in one zone with ids 1 and 2, counters 5 and 5: after the frame the second counter is gone | prune against the ids of every detection of the frame (`results.boxes.id`) | not executed; medium | FrameCountTracker.AsWrittenDropsSecondTrack | FrameCountTracker.StepKeepsBothTracks |
