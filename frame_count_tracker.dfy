/**
 * The frame-count variant of the occupancy tracker: per track, a counter of
 * consecutive in-zone motorcycle sightings (reset to 0 by any other tracked
 * sighting); a violation recorded once when the counter reaches the threshold in
 * frames; and pruning of tracks absent from the current frame's ids.
 *
 * Pruning is modelled twice: as the source writes it (the id set is taken from the
 * first detection only, AsWrittenStep) and as intended (the ids of every detection
 * of the frame, Step). The class ViolationCounter implements the intended one.
 */
module FrameCountTracker {
  import opened Wrappers
  import opened Geometry
  import opened Evidence

  const ViolationThresholdSeconds: real := 10.0
  /** The fps assumed before the first one-second measurement window closes. */
  const InitialFps: real := 30.0
  const ViolationClasses: seq<string> := ["motorcycle"]

  /** One detection: its box, the tracker's id if it assigned one, label and confidence. */
  datatype Detection = Detection(box: Box, trackId: Option<int>, classLabel: string, confidence: string)

  /** `idle_timers` (a `defaultdict(int)`) and `violation_history`. */
  datatype State = State(idleTimers: map<int, nat>, violationHistory: map<int, string>)

  predicate Inv(st: State) {
    st.violationHistory.Keys <= st.idleTimers.Keys
  }

  /** `idle_timers[id]` read through the defaultdict: 0 for a track never counted. */
  function Count(st: State, id: int): nat {
    if id in st.idleTimers then st.idleTimers[id] else 0
  }

  /** A sighting that counts: a violation class with its centre in some zone. */
  predicate Qualifies(zones: seq<Zone>, d: Detection) {
    BoxCenterInZone(d.box, zones).Some? && d.classLabel in ViolationClasses
  }

  /** One detection of the per-detection loop, with the current threshold in frames. */
  function Observe(st: State, zones: seq<Zone>, threshold: nat, d: Detection, stamps: Stamps)
    : (State, Option<ViolationRecord>)
  {
    if d.trackId.None? then (st, None)
    else
      var id := d.trackId.value;
      var zone := BoxCenterInZone(d.box, zones);
      if zone.Some? && d.classLabel in ViolationClasses then
        var count := Count(st, id) + 1;
        var timers := st.idleTimers[id := count];
        if count >= threshold && id !in st.violationHistory then
          (State(timers, st.violationHistory[id := zone.value]),
           Some(MakeRecord(id, d.box, d.classLabel, d.confidence, zone.value, stamps)))
        else
          (State(timers, st.violationHistory), None)
      else
        (State(st.idleTimers[id := 0], st.violationHistory), None)
  }

  /** What one detection does to the counters and the history. */
  lemma ObserveSpec(st: State, zones: seq<Zone>, threshold: nat, d: Detection, stamps: Stamps)
    ensures var r := Observe(st, zones, threshold, d, stamps);
      // an untracked detection changes nothing
      && (d.trackId.None? ==> r == (st, None))
      // a tracked one has a counter afterwards: one more, or reset to 0
      && (d.trackId.Some? ==>
            && r.0.idleTimers.Keys == st.idleTimers.Keys + {d.trackId.value}
            && r.0.idleTimers[d.trackId.value] ==
                 (if Qualifies(zones, d) then Count(st, d.trackId.value) + 1 else 0))
      // no other track's counter changes
      && (forall k :: k in st.idleTimers && d.trackId != Some(k) ==> r.0.idleTimers[k] == st.idleTimers[k])
      // a record exactly when the counter reaches the threshold and none exists yet
      && (r.1.Some? <==>
            && d.trackId.Some? && Qualifies(zones, d)
            && Count(st, d.trackId.value) + 1 >= threshold
            && d.trackId.value !in st.violationHistory)
      // a reset, like every other sighting without a record, keeps the history
      && (r.1.None? ==> r.0.violationHistory == st.violationHistory)
      && (r.1.Some? ==>
            && r.1.value == MakeRecord(d.trackId.value, d.box, d.classLabel, d.confidence,
                                       BoxCenterInZone(d.box, zones).value, stamps)
            && r.0.violationHistory == st.violationHistory[d.trackId.value := r.1.value.zoneName])
  {
  }

  /** All detections of a frame, in order. */
  function ObserveAll(st: State, zones: seq<Zone>, threshold: nat, dets: seq<Detection>, stamps: Stamps)
    : (State, seq<ViolationRecord>)
    decreases |dets|
  {
    if |dets| == 0 then (st, [])
    else
      var before := ObserveAll(st, zones, threshold, dets[..|dets| - 1], stamps);
      var last := Observe(before.0, zones, threshold, dets[|dets| - 1], stamps);
      (last.0, before.1 + (if last.1.Some? then [last.1.value] else []))
  }

  lemma ObserveAllSnoc(st: State, zones: seq<Zone>, threshold: nat, dets: seq<Detection>, d: Detection,
                       stamps: Stamps)
    ensures var before := ObserveAll(st, zones, threshold, dets, stamps);
      var last := Observe(before.0, zones, threshold, d, stamps);
      ObserveAll(st, zones, threshold, dets + [d], stamps)
        == (last.0, before.1 + (if last.1.Some? then [last.1.value] else []))
  {
    assert (dets + [d])[..|dets|] == dets;
  }

  /** What one frame's pass over its detections does to the counters and the history. */
  lemma {:induction false} ObserveAllFacts(st: State, zones: seq<Zone>, threshold: nat, dets: seq<Detection>,
                                           stamps: Stamps)
    ensures var r := ObserveAll(st, zones, threshold, dets, stamps);
      // no counter disappears; every tracked detection has one
      && st.idleTimers.Keys <= r.0.idleTimers.Keys
      && (forall i :: 0 <= i < |dets| && dets[i].trackId.Some? ==> dets[i].trackId.value in r.0.idleTimers)
      // no violation entry changes
      && (forall k :: k in st.violationHistory ==>
            k in r.0.violationHistory && r.0.violationHistory[k] == st.violationHistory[k])
      && (Inv(st) ==> Inv(r.0))
      // each record is new, now in the history under its zone, and has a counter
      && (forall i :: 0 <= i < |r.1| ==>
            && r.1[i].trackId !in st.violationHistory
            && r.1[i].trackId in r.0.violationHistory
            && r.0.violationHistory[r.1[i].trackId] == r.1[i].zoneName
            && r.1[i].trackId in r.0.idleTimers)
      // at most one record per track in a frame
      && (forall i, j :: 0 <= i < j < |r.1| ==> r.1[i].trackId != r.1[j].trackId)
    decreases |dets|
  {
    if |dets| > 0 {
      var init := dets[..|dets| - 1];
      var d := dets[|dets| - 1];
      ObserveAllFacts(st, zones, threshold, init, stamps);
      var before := ObserveAll(st, zones, threshold, init, stamps);
      ObserveSpec(before.0, zones, threshold, d, stamps);
      var last := Observe(before.0, zones, threshold, d, stamps);
      var recs := before.1 + (if last.1.Some? then [last.1.value] else []);
      assert ObserveAll(st, zones, threshold, dets, stamps) == (last.0, recs);
      assert forall i :: 0 <= i < |before.1| ==> recs[i] == before.1[i];
      assert forall i :: 0 <= i < |init| ==> dets[i] == init[i];
      if last.1.Some? {
        assert recs[|recs| - 1] == last.1.value;
      }
    }
  }

  // ---------------------------------------------------------------------------
  // The counter counts consecutive qualifying sightings.
  // ---------------------------------------------------------------------------

  /** The detections of track `id`, in order. */
  function Sightings(dets: seq<Detection>, id: int): (s: seq<Detection>)
    ensures forall j :: 0 <= j < |s| ==> s[j].trackId == Some(id)
    decreases |dets|
  {
    if |dets| == 0 then []
    else Sightings(dets[..|dets| - 1], id) + (if dets[|dets| - 1].trackId == Some(id) then [dets[|dets| - 1]] else [])
  }

  /** Whether each sighting qualifies. */
  function QualifyFlags(zones: seq<Zone>, s: seq<Detection>): (flags: seq<bool>)
    ensures |flags| == |s|
    ensures forall j :: 0 <= j < |s| ==> flags[j] == Qualifies(zones, s[j])
  {
    seq(|s|, j requires 0 <= j < |s| => Qualifies(zones, s[j]))
  }

  /** How many flags at the end are set, back to the last one that is not. */
  function Streak(flags: seq<bool>): (n: nat)
    ensures n <= |flags|
    ensures forall j :: |flags| - n <= j < |flags| ==> flags[j]
    ensures n < |flags| ==> !flags[|flags| - n - 1]
    decreases |flags|
  {
    if |flags| == 0 || !flags[|flags| - 1] then 0
    else Streak(flags[..|flags| - 1]) + 1
  }

  /**
   * After a pass over detections, a track's counter is the number of its trailing
   * qualifying sightings, on top of what it had before only if none of them reset it.
   */
  lemma {:induction false} CounterIsStreak(st: State, zones: seq<Zone>, threshold: nat, dets: seq<Detection>,
                                           stamps: Stamps, id: int)
    ensures var s := Sightings(dets, id);
      var n := Streak(QualifyFlags(zones, s));
      Count(ObserveAll(st, zones, threshold, dets, stamps).0, id) == n + (if n == |s| then Count(st, id) else 0)
    decreases |dets|
  {
    if |dets| > 0 {
      var init := dets[..|dets| - 1];
      var d := dets[|dets| - 1];
      CounterIsStreak(st, zones, threshold, init, stamps, id);
      var before := ObserveAll(st, zones, threshold, init, stamps);
      ObserveSpec(before.0, zones, threshold, d, stamps);
      var s0 := Sightings(init, id);
      if d.trackId == Some(id) {
        var s := s0 + [d];
        assert Sightings(dets, id) == s;
        var flags := QualifyFlags(zones, s);
        assert flags[..|flags| - 1] == QualifyFlags(zones, s0);
        assert flags[|flags| - 1] == Qualifies(zones, d);
      } else {
        assert Sightings(dets, id) == s0 + [];
        assert s0 + [] == s0;
      }
    }
  }

  // ---------------------------------------------------------------------------
  // Pruning.
  // ---------------------------------------------------------------------------

  /** `results and results[0].boxes.id is not None`: the frame has detections with ids. */
  predicate HasIds(dets: seq<Detection>) {
    |dets| > 0 && dets[0].trackId.Some?
  }

  /** The ids of every detection of the frame (`results.boxes.id`). */
  function FrameTrackIds(dets: seq<Detection>): set<int> {
    set i | 0 <= i < |dets| && dets[i].trackId.Some? :: dets[i].trackId.value
  }

  /** The id set the source builds: `results[0]` is the first detection alone. */
  function AsWrittenPruneIds(dets: seq<Detection>): set<int> {
    if |dets| > 0 && dets[0].trackId.Some? then {dets[0].trackId.value} else {}
  }

  /** Drop every counter whose id is not in `ids`, and its violation entry. */
  function Prune(st: State, ids: set<int>): State {
    var gone := st.idleTimers.Keys - ids;
    State(st.idleTimers - gone, st.violationHistory - gone)
  }

  lemma PruneSpec(st: State, ids: set<int>)
    ensures var r := Prune(st, ids);
      && r.idleTimers.Keys == st.idleTimers.Keys * ids
      && (forall k :: k in r.idleTimers ==> r.idleTimers[k] == st.idleTimers[k])
      // an entry goes exactly when its track had a counter and is absent from the frame
      && (forall k :: k in r.violationHistory <==>
            k in st.violationHistory && !(k in st.idleTimers && k !in ids))
      && (forall k :: k in r.violationHistory ==> r.violationHistory[k] == st.violationHistory[k])
      && (Inv(st) ==> Inv(r) && r.violationHistory.Keys == st.violationHistory.Keys * ids)
  {
  }

  lemma FrameTrackIdsMembers(dets: seq<Detection>)
    ensures forall i :: 0 <= i < |dets| && dets[i].trackId.Some? ==> dets[i].trackId.value in FrameTrackIds(dets)
    ensures forall k :: k in FrameTrackIds(dets) ==> exists i :: 0 <= i < |dets| && dets[i].trackId == Some(k)
  {
  }

  /** One frame as intended: observe every detection, then prune if the frame has ids. */
  function Step(st: State, zones: seq<Zone>, threshold: nat, dets: seq<Detection>, stamps: Stamps)
    : (r: (State, seq<ViolationRecord>))
    ensures Inv(st) ==> Inv(r.0)
    // after a frame with ids only that frame's tracks keep a counter ...
    ensures HasIds(dets) ==> r.0.idleTimers.Keys <= FrameTrackIds(dets)
    // ... and every one of them keeps it
    ensures forall i :: 0 <= i < |dets| && dets[i].trackId.Some? ==> dets[i].trackId.value in r.0.idleTimers
    // a frame without ids prunes nothing
    ensures !HasIds(dets) ==> st.idleTimers.Keys <= r.0.idleTimers.Keys
    ensures forall i :: 0 <= i < |r.1| ==> r.1[i].trackId !in st.violationHistory
    ensures forall i, j :: 0 <= i < j < |r.1| ==> r.1[i].trackId != r.1[j].trackId
    ensures forall i :: 0 <= i < |r.1| && r.1[i].trackId in r.0.idleTimers ==>
      r.1[i].trackId in r.0.violationHistory
    ensures forall k :: k in st.violationHistory && k in r.0.idleTimers ==> k in r.0.violationHistory
  {
    ObserveAllFacts(st, zones, threshold, dets, stamps);
    var observed := ObserveAll(st, zones, threshold, dets, stamps);
    if HasIds(dets) then
      FrameTrackIdsMembers(dets);
      PruneSpec(observed.0, FrameTrackIds(dets));
      (Prune(observed.0, FrameTrackIds(dets)), observed.1)
    else
      observed
  }

  /** One frame as the source writes it: the pruning id set is the first detection's id. */
  function AsWrittenStep(st: State, zones: seq<Zone>, threshold: nat, dets: seq<Detection>, stamps: Stamps)
    : (r: (State, seq<ViolationRecord>))
    ensures Inv(st) ==> Inv(r.0)
    // after a frame with ids at most the first detection's track keeps a counter
    ensures HasIds(dets) ==> r.0.idleTimers.Keys <= {dets[0].trackId.value}
  {
    ObserveAllFacts(st, zones, threshold, dets, stamps);
    var observed := ObserveAll(st, zones, threshold, dets, stamps);
    if HasIds(dets) then
      PruneSpec(observed.0, AsWrittenPruneIds(dets));
      (Prune(observed.0, AsWrittenPruneIds(dets)), observed.1)
    else
      observed
  }

  // ---------------------------------------------------------------------------
  // The discrepancy: two motorcycles parked in one zone.
  // ---------------------------------------------------------------------------

  const Square: Zone := Zone("lot-A", [Point(0, 0), Point(100, 0), Point(100, 100), Point(0, 100)])
  const First: Detection := Detection(Box(40, 40, 60, 60), Some(1), "motorcycle", "0.90")
  const Second: Detection := Detection(Box(20, 20, 40, 40), Some(2), "motorcycle", "0.85")

  lemma FirstInSquare()
    ensures BoxCenterInZone(First.box, [Square]) == Some("lot-A")
  {
    assert Center(First.box) == Point(50, 50);
    assert CrossingCount(Square.polygon, Point(50, 50), 4) == 1;
  }

  lemma SecondInSquare()
    ensures BoxCenterInZone(Second.box, [Square]) == Some("lot-A")
  {
    assert Center(Second.box) == Point(30, 30);
    assert CrossingCount(Square.polygon, Point(30, 30), 4) == 1;
  }

  lemma TwoParkedObserved(stamps: Stamps)
    ensures ObserveAll(State(map[1 := 5, 2 := 5], map[]), [Square], 300, [First, Second], stamps)
      == (State(map[1 := 6, 2 := 6], map[]), [])
  {
    FirstInSquare();
    SecondInSquare();
    var st := State(map[1 := 5, 2 := 5], map[]);
    var mid := State(map[1 := 6, 2 := 5], map[]);
    var fin := State(map[1 := 6, 2 := 6], map[]);
    ObserveAllSnoc(st, [Square], 300, [], First, stamps);
    assert [] + [First] == [First];
    assert st.idleTimers[1 := 6] == mid.idleTimers;
    assert Observe(st, [Square], 300, First, stamps) == (mid, None);
    var none: seq<ViolationRecord> := [];
    assert none + none == none;
    assert ObserveAll(st, [Square], 300, [First], stamps) == (mid, none);
    ObserveAllSnoc(st, [Square], 300, [First], Second, stamps);
    assert [First] + [Second] == [First, Second];
    assert mid.idleTimers[2 := 6] == fin.idleTimers;
    assert Observe(mid, [Square], 300, Second, stamps) == (fin, None);
  }

  /**
   * As written, the second motorcycle's counter is dropped by the very frame that
   * counted it, so it restarts from 1 every frame and never reaches the threshold.
   */
  lemma AsWrittenDropsSecondTrack(stamps: Stamps)
    ensures AsWrittenStep(State(map[1 := 5, 2 := 5], map[]), [Square], 300, [First, Second], stamps).0
      == State(map[1 := 6], map[])
  {
    TwoParkedObserved(stamps);
    var observed := State(map[1 := 6, 2 := 6], map[]);
    assert AsWrittenPruneIds([First, Second]) == {1};
    assert observed.idleTimers.Keys - {1} == {2};
  }

  /** As intended, both counters advance. */
  lemma StepKeepsBothTracks(stamps: Stamps)
    ensures Step(State(map[1 := 5, 2 := 5], map[]), [Square], 300, [First, Second], stamps).0
      == State(map[1 := 6, 2 := 6], map[])
  {
    TwoParkedObserved(stamps);
    var observed := State(map[1 := 6, 2 := 6], map[]);
    var dets := [First, Second];
    assert dets[0].trackId.value == 1 && dets[1].trackId.value == 2;
    assert FrameTrackIds(dets) == {1, 2};
    assert observed.idleTimers.Keys - {1, 2} == {};
  }

  // ---------------------------------------------------------------------------
  // Runs of frames (intended pruning).
  // ---------------------------------------------------------------------------

  /** One frame: its detections, the threshold in frames in force, and its stamps. */
  datatype Frame = Frame(dets: seq<Detection>, threshold: nat, stamps: Stamps)

  function Run(st: State, zones: seq<Zone>, frames: seq<Frame>): (State, seq<ViolationRecord>)
    decreases |frames|
  {
    if |frames| == 0 then (st, [])
    else
      var first := Step(st, zones, frames[0].threshold, frames[0].dets, frames[0].stamps);
      var rest := Run(first.0, zones, frames[1..]);
      (rest.0, first.1 + rest.1)
  }

  /** Some detection of the frame carries track `id`. */
  predicate HasTrack(dets: seq<Detection>, id: int) {
    exists i :: 0 <= i < |dets| && dets[i].trackId == Some(id)
  }

  /** Track `id` has a detection in every frame. */
  predicate PresentThroughout(frames: seq<Frame>, id: int) {
    forall f :: 0 <= f < |frames| ==> HasTrack(frames[f].dets, id)
  }

  lemma PresentThroughoutTail(frames: seq<Frame>, id: int)
    requires |frames| > 0 && PresentThroughout(frames, id)
    ensures HasTrack(frames[0].dets, id) && PresentThroughout(frames[1..], id)
  {
    forall g | 0 <= g < |frames[1..]| ensures HasTrack(frames[1..][g].dets, id) {
      assert frames[1..][g] == frames[g + 1];
    }
  }

  /**
   * A track present in every frame is recorded at most once, even if it leaves the
   * zone and re-enters (its counter resets but its violation entry stays); and not
   * at all if it was recorded before the run.
   */
  lemma {:induction false} AtMostOneRecordWhilePresent(st: State, zones: seq<Zone>, frames: seq<Frame>, id: int)
    requires Inv(st) && PresentThroughout(frames, id)
    ensures RecordsFor(Run(st, zones, frames).1, id) <= (if id in st.violationHistory then 0 else 1)
    decreases |frames|
  {
    if |frames| > 0 {
      var f := frames[0];
      var first := Step(st, zones, f.threshold, f.dets, f.stamps);
      var rest := Run(first.0, zones, frames[1..]);
      assert HasTrack(f.dets, id);
      var i :| 0 <= i < |f.dets| && f.dets[i].trackId == Some(id);
      assert id in first.0.idleTimers;
      PresentThroughoutTail(frames, id);
      RecordsForConcat(first.1, rest.1, id);
      RecordsForDistinct(first.1, id);
      AtMostOneRecordWhilePresent(first.0, zones, frames[1..], id);
      if id in st.violationHistory {
        assert id in first.0.violationHistory;
      } else if RecordsFor(first.1, id) == 1 {
        assert id in first.0.violationHistory;
      }
    }
  }

  /** The track's sightings over a run, frame after frame. */
  function RunSightings(frames: seq<Frame>, id: int): (s: seq<Detection>)
    ensures forall j :: 0 <= j < |s| ==> s[j].trackId == Some(id)
    decreases |frames|
  {
    if |frames| == 0 then [] else Sightings(frames[0].dets, id) + RunSightings(frames[1..], id)
  }

  lemma QualifyFlagsConcat(zones: seq<Zone>, a: seq<Detection>, b: seq<Detection>)
    ensures QualifyFlags(zones, a + b) == QualifyFlags(zones, a) + QualifyFlags(zones, b)
  {
  }

  /** A trailing run reaches into the earlier flags only when the later ones are all set. */
  lemma {:induction false} StreakConcat(a: seq<bool>, b: seq<bool>)
    ensures Streak(a + b) == if Streak(b) == |b| then |b| + Streak(a) else Streak(b)
    decreases |b|
  {
    if |b| == 0 {
      assert a + b == a;
    } else {
      assert (a + b)[..|a + b| - 1] == a + b[..|b| - 1];
      assert (a + b)[|a + b| - 1] == b[|b| - 1];
      if b[|b| - 1] {
        StreakConcat(a, b[..|b| - 1]);
      }
    }
  }

  /** Pruning never touches the counter of a track the frame holds. */
  lemma StepKeepsPresentCounter(st: State, zones: seq<Zone>, threshold: nat, dets: seq<Detection>,
                                stamps: Stamps, id: int)
    requires HasTrack(dets, id)
    ensures Count(Step(st, zones, threshold, dets, stamps).0, id)
         == Count(ObserveAll(st, zones, threshold, dets, stamps).0, id)
  {
    var observed := ObserveAll(st, zones, threshold, dets, stamps);
    if HasIds(dets) {
      var i :| 0 <= i < |dets| && dets[i].trackId == Some(id);
      FrameTrackIdsMembers(dets);
      assert id in FrameTrackIds(dets);
      PruneSpec(observed.0, FrameTrackIds(dets));
    }
  }

  /**
   * Across a run in which the track appears in every frame, its counter is the number
   * of its consecutive qualifying sightings since the last reset, plus what it had
   * before the run if nothing reset it: `idle_timers` counts consecutive in-zone frames.
   */
  lemma {:induction false} CounterIsStreakAcrossFrames(st: State, zones: seq<Zone>, frames: seq<Frame>, id: int)
    requires PresentThroughout(frames, id)
    ensures var s := RunSightings(frames, id);
      var n := Streak(QualifyFlags(zones, s));
      Count(Run(st, zones, frames).0, id) == n + (if n == |s| then Count(st, id) else 0)
    decreases |frames|
  {
    if |frames| > 0 {
      var f := frames[0];
      var first := Step(st, zones, f.threshold, f.dets, f.stamps);
      PresentThroughoutTail(frames, id);
      StepKeepsPresentCounter(st, zones, f.threshold, f.dets, f.stamps, id);
      CounterIsStreak(st, zones, f.threshold, f.dets, f.stamps, id);
      CounterIsStreakAcrossFrames(first.0, zones, frames[1..], id);
      var s1, s2 := Sightings(f.dets, id), RunSightings(frames[1..], id);
      QualifyFlagsConcat(zones, s1, s2);
      StreakConcat(QualifyFlags(zones, s1), QualifyFlags(zones, s2));
    }
  }

  // ---------------------------------------------------------------------------
  // The threshold in frames.
  // ---------------------------------------------------------------------------

  /** `int(VIOLATION_THRESHOLD_SECONDS * fps)` for a non-negative fps. */
  function ThresholdFrames(fps: real): (n: nat)
    requires fps >= 0.0
    ensures n as real <= ViolationThresholdSeconds * fps < n as real + 1.0
  {
    (ViolationThresholdSeconds * fps).Floor
  }

  lemma InitialThreshold()
    ensures ThresholdFrames(InitialFps) == 300
  {
  }

  /** The fps measurement: frames since the window opened, when it opened, last fps. */
  datatype FpsWindow = FpsWindow(frameCount: nat, start: real, fps: real)

  /**
   * End of a frame: once a window of at least one second has elapsed, the fps is
   * measured, the window restarts and the threshold is re-derived from the new fps;
   * otherwise nothing changes.
   */
  function CloseWindow(w: FpsWindow, threshold: nat, now: real, restart: real): (r: (FpsWindow, nat))
    ensures now - w.start < 1.0 ==> r == (w, threshold)
    ensures now - w.start >= 1.0 ==>
      && r.0.frameCount == 0 && r.0.start == restart
      && r.0.fps * (now - w.start) == w.frameCount as real
      && r.1 as real <= ViolationThresholdSeconds * r.0.fps < r.1 as real + 1.0
  {
    var elapsed := now - w.start;
    if elapsed >= 1.0 then
      var fps := w.frameCount as real / elapsed;
      (FpsWindow(0, restart, fps), ThresholdFrames(fps))
    else
      (w, threshold)
  }

  // ---------------------------------------------------------------------------
  // The tracker as the detection loop holds it.
  // ---------------------------------------------------------------------------

  class ViolationCounter {
    const zones: seq<Zone>
    var idleTimers: map<int, nat>
    var violationHistory: map<int, string>
    var threshold: nat
    var window: FpsWindow

    function Current(): State
      reads this
    {
      State(idleTimers, violationHistory)
    }

    constructor(zones: seq<Zone>, startTime: real)
      ensures this.zones == zones && Current() == State(map[], map[]) && Inv(Current())
      ensures threshold == 300 && window == FpsWindow(0, startTime, 0.0)
    {
      this.zones := zones;
      idleTimers := map[];
      violationHistory := map[];
      InitialThreshold();
      threshold := ThresholdFrames(InitialFps);
      window := FpsWindow(0, startTime, 0.0);
    }

    /** One detection of the per-detection loop. */
    method ObserveDetection(d: Detection, stamps: Stamps) returns (record: Option<ViolationRecord>)
      modifies this
      ensures (Current(), record) == Observe(old(Current()), zones, threshold, d, stamps)
      ensures threshold == old(threshold) && window == old(window)
    {
      record := None;
      if d.trackId.Some? {
        var id := d.trackId.value;
        var zone := BoxCenterInZone(d.box, zones);
        if zone.Some? && d.classLabel in ViolationClasses {
          var count := (if id in idleTimers then idleTimers[id] else 0) + 1;
          idleTimers := idleTimers[id := count];
          if count >= threshold && id !in violationHistory {
            violationHistory := violationHistory[id := zone.value];
            record := Some(MakeRecord(id, d.box, d.classLabel, d.confidence, zone.value, stamps));
          }
        } else {
          idleTimers := idleTimers[id := 0];
        }
      }
    }

    method ObserveDetections(dets: seq<Detection>, stamps: Stamps) returns (records: seq<ViolationRecord>)
      modifies this
      ensures (Current(), records) == ObserveAll(old(Current()), zones, threshold, dets, stamps)
      ensures threshold == old(threshold) && window == old(window)
    {
      records := [];
      for i := 0 to |dets|
        invariant (Current(), records) == ObserveAll(old(Current()), zones, threshold, dets[..i], stamps)
        invariant threshold == old(threshold) && window == old(window)
      {
        assert dets[..i + 1] == dets[..i] + [dets[i]];
        ObserveAllSnoc(old(Current()), zones, threshold, dets[..i], dets[i], stamps);
        ghost var before := Current();
        ghost var recordsBefore := records;
        var record := ObserveDetection(dets[i], stamps);
        ghost var last := Observe(before, zones, threshold, dets[i], stamps);
        assert Current() == last.0 && record == last.1;
        if record.Some? {
          records := records + [record.value];
        }
        assert records == recordsBefore + (if last.1.Some? then [last.1.value] else []);
      }
      assert dets[..|dets|] == dets;
    }

    /** The pruning pass over a snapshot of the counter keys. */
    method PruneAbsent(ids: set<int>)
      modifies this
      ensures Current() == Prune(old(Current()), ids)
      ensures threshold == old(threshold) && window == old(window)
    {
      ghost var gone := idleTimers.Keys - ids;
      var pending := idleTimers.Keys;
      while pending != {}
        invariant pending <= old(idleTimers).Keys
        invariant idleTimers == old(idleTimers) - (gone - pending)
        invariant violationHistory == old(violationHistory) - (gone - pending)
        invariant threshold == old(threshold) && window == old(window)
        decreases pending
      {
        NonEmptyHasMember(pending);
        var key :| key in pending;
        if key !in ids {
          idleTimers := idleTimers - {key};
          if key in violationHistory {
            violationHistory := violationHistory - {key};
          }
        }
        pending := pending - {key};
      }
      assert idleTimers == old(idleTimers) - gone;
    }

    /** One iteration of the detection loop, ending with the fps window check. */
    method ProcessFrame(dets: seq<Detection>, stamps: Stamps, now: real, restart: real)
      returns (records: seq<ViolationRecord>)
      modifies this
      ensures (Current(), records) == Step(old(Current()), zones, old(threshold), dets, stamps)
      ensures (window, threshold) ==
        CloseWindow(old(window).(frameCount := old(window).frameCount + 1), old(threshold), now, restart)
      ensures old(Inv(Current())) ==> Inv(Current())
    {
      window := window.(frameCount := window.frameCount + 1);
      records := ObserveDetections(dets, stamps);
      if |dets| > 0 && dets[0].trackId.Some? {
        PruneAbsent(FrameTrackIds(dets));
      }
      var elapsed := now - window.start;
      if elapsed >= 1.0 {
        var fps := window.frameCount as real / elapsed;
        window := FpsWindow(0, restart, fps);
        threshold := ThresholdFrames(fps);
      }
    }
  }
}
