/**
 * The time-based occupancy tracker of the detection loop: per track, a timer that
 * starts at the first in-zone motorcycle sighting and is refreshed by later ones; a
 * violation recorded once when the time in zone reaches the threshold; and pruning
 * of tracks not seen in a zone for longer than the grace period.
 *
 * The functions (Observe, ObserveAll, Prune, Step, Run) give the meaning of one
 * frame; the class ViolationTracker does the same work in place, loop by loop, and is
 * proved to agree with Step.
 */
module TimeTracker {
  import opened Wrappers
  import opened Geometry
  import opened Evidence

  const ViolationThresholdSeconds: real := 10.0
  const TrackGracePeriodSeconds: real := 3.0
  const ViolationClasses: seq<string> := ["motorcycle"]

  /** `{"enter_time": ..., "last_seen": ...}` */
  datatype Timer = Timer(enterTime: real, lastSeen: real)

  /** `zone_timers` and `violation_history` (track id to zone name). */
  datatype State = State(zoneTimers: map<int, Timer>, violationHistory: map<int, string>)

  /** One box of a frame in which the tracker assigned ids. */
  datatype TrackedBox = TrackedBox(box: Box, trackId: int, classLabel: string, confidence: string)

  /** What the tracker returned for a frame: no ids at all, or every box with its id. */
  datatype TrackerOutput = NoTrackIds | TrackIds(boxes: seq<TrackedBox>)

  /** Every recorded violation belongs to a track that still has a timer. */
  predicate Inv(st: State) {
    st.violationHistory.Keys <= st.zoneTimers.Keys
  }

  /** The sighting that starts or refreshes a timer: a violation class, centre in some zone. */
  predicate InViolationZone(zones: seq<Zone>, b: TrackedBox) {
    BoxCenterInZone(b.box, zones).Some? && b.classLabel in ViolationClasses
  }

  /** Time in zone at `frameTime`, as the source computes it (0 on a first sighting). */
  function Elapsed(st: State, id: int, frameTime: real): real {
    if id in st.zoneTimers then frameTime - st.zoneTimers[id].enterTime else 0.0
  }

  /** One detection of a frame (the body of the per-box loop). */
  function Observe(st: State, zones: seq<Zone>, b: TrackedBox, frameTime: real, stamps: Stamps)
    : (State, Option<ViolationRecord>)
  {
    match BoxCenterInZone(b.box, zones)
    case None => (st, None)
    case Some(zoneName) =>
      if b.classLabel !in ViolationClasses then (st, None)
      else
        var id := b.trackId;
        var timer := if id in st.zoneTimers then st.zoneTimers[id].(lastSeen := frameTime)
                     else Timer(frameTime, frameTime);
        var elapsed := if id in st.zoneTimers then frameTime - st.zoneTimers[id].enterTime else 0.0;
        var timers := st.zoneTimers[id := timer];
        if elapsed >= ViolationThresholdSeconds && id !in st.violationHistory then
          (State(timers, st.violationHistory[id := zoneName]),
           Some(MakeRecord(id, b.box, b.classLabel, b.confidence, zoneName, stamps)))
        else
          (State(timers, st.violationHistory), None)
  }

  /** All boxes of a frame, in order, collecting the records confirmed on the way. */
  function ObserveAll(st: State, zones: seq<Zone>, boxes: seq<TrackedBox>, frameTime: real, stamps: Stamps)
    : (State, seq<ViolationRecord>)
    decreases |boxes|
  {
    if |boxes| == 0 then (st, [])
    else
      var before := ObserveAll(st, zones, boxes[..|boxes| - 1], frameTime, stamps);
      var last := Observe(before.0, zones, boxes[|boxes| - 1], frameTime, stamps);
      (last.0, before.1 + (if last.1.Some? then [last.1.value] else []))
  }

  /** What one sighting does to the timers and the history. */
  lemma ObserveSpec(st: State, zones: seq<Zone>, b: TrackedBox, frameTime: real, stamps: Stamps)
    ensures var r := Observe(st, zones, b, frameTime, stamps);
      // out of every zone, or not a violation class: nothing changes
      && (!InViolationZone(zones, b) ==> r == (st, None))
      // otherwise the track's timer exists afterwards, is refreshed, keeps its entry time
      && (InViolationZone(zones, b) ==>
            && r.0.zoneTimers.Keys == st.zoneTimers.Keys + {b.trackId}
            && r.0.zoneTimers[b.trackId].lastSeen == frameTime
            && r.0.zoneTimers[b.trackId].enterTime ==
                 (if b.trackId in st.zoneTimers then st.zoneTimers[b.trackId].enterTime else frameTime))
      // no other track's timer changes
      && (forall k :: k in st.zoneTimers && k != b.trackId ==> r.0.zoneTimers[k] == st.zoneTimers[k])
      // a record exactly when the threshold is reached and none exists yet
      && (r.1.Some? <==>
            InViolationZone(zones, b) && Elapsed(st, b.trackId, frameTime) >= ViolationThresholdSeconds
            && b.trackId !in st.violationHistory)
      && (r.1.None? ==> r.0.violationHistory == st.violationHistory)
      && (r.1.Some? ==>
            && r.1.value == MakeRecord(b.trackId, b.box, b.classLabel, b.confidence,
                                       BoxCenterInZone(b.box, zones).value, stamps)
            && r.0.violationHistory == st.violationHistory[b.trackId := r.1.value.zoneName])
  {
  }

  lemma ObserveAllSnoc(st: State, zones: seq<Zone>, boxes: seq<TrackedBox>, b: TrackedBox,
                       frameTime: real, stamps: Stamps)
    ensures var before := ObserveAll(st, zones, boxes, frameTime, stamps);
      var last := Observe(before.0, zones, b, frameTime, stamps);
      ObserveAll(st, zones, boxes + [b], frameTime, stamps)
        == (last.0, before.1 + (if last.1.Some? then [last.1.value] else []))
  {
    assert (boxes + [b])[..|boxes|] == boxes;
  }

  /** What one frame's pass over its boxes does to the history and the timers. */
  lemma {:induction false} ObserveAllFacts(st: State, zones: seq<Zone>, boxes: seq<TrackedBox>,
                                           frameTime: real, stamps: Stamps)
    ensures var r := ObserveAll(st, zones, boxes, frameTime, stamps);
      // no timer disappears, no violation entry changes
      && st.zoneTimers.Keys <= r.0.zoneTimers.Keys
      && (forall k :: k in st.violationHistory ==>
            k in r.0.violationHistory && r.0.violationHistory[k] == st.violationHistory[k])
      && (Inv(st) ==> Inv(r.0))
      // each record is new, now in the history under its zone, and has a timer
      && (forall i :: 0 <= i < |r.1| ==>
            && r.1[i].trackId !in st.violationHistory
            && r.1[i].trackId in r.0.violationHistory
            && r.0.violationHistory[r.1[i].trackId] == r.1[i].zoneName
            && r.1[i].trackId in r.0.zoneTimers)
      // at most one record per track in a frame
      && (forall i, j :: 0 <= i < j < |r.1| ==> r.1[i].trackId != r.1[j].trackId)
      // the history grows only by the tracks recorded
      && (forall k :: k in r.0.violationHistory && k !in st.violationHistory ==>
            exists i :: 0 <= i < |r.1| && r.1[i].trackId == k)
    decreases |boxes|
  {
    if |boxes| > 0 {
      var init := boxes[..|boxes| - 1];
      var b := boxes[|boxes| - 1];
      ObserveAllFacts(st, zones, init, frameTime, stamps);
      var before := ObserveAll(st, zones, init, frameTime, stamps);
      ObserveSpec(before.0, zones, b, frameTime, stamps);
      var last := Observe(before.0, zones, b, frameTime, stamps);
      var recs := before.1 + (if last.1.Some? then [last.1.value] else []);
      assert ObserveAll(st, zones, boxes, frameTime, stamps) == (last.0, recs);
      assert forall i :: 0 <= i < |before.1| ==> recs[i] == before.1[i];
      if last.1.Some? {
        assert recs[|recs| - 1] == last.1.value;
        assert last.1.value.trackId == b.trackId;
      }
      forall k | k in last.0.violationHistory && k !in st.violationHistory
        ensures exists i :: 0 <= i < |recs| && recs[i].trackId == k
      {
        if k in before.0.violationHistory {
          var i :| 0 <= i < |before.1| && before.1[i].trackId == k;
          assert recs[i].trackId == k;
        } else {
          assert recs[|recs| - 1].trackId == k;
        }
      }
    }
  }

  /** Tracks whose last in-zone sighting is more than the grace period before `now`. */
  function StaleIds(st: State, now: real): set<int> {
    set k | k in st.zoneTimers && now - st.zoneTimers[k].lastSeen > TrackGracePeriodSeconds
  }

  /** The pruning pass: stale timers go, and with them their violation entries. */
  function Prune(st: State, now: real): State {
    var stale := StaleIds(st, now);
    State(st.zoneTimers - stale, st.violationHistory - stale)
  }

  /** What pruning keeps and what it drops. */
  lemma PruneSpec(st: State, now: real)
    ensures var r := Prune(st, now);
      // bounded staleness: every surviving timer was refreshed within the grace period
      && (forall k :: k in r.zoneTimers ==> now - r.zoneTimers[k].lastSeen <= TrackGracePeriodSeconds)
      && (forall k :: k in st.zoneTimers ==>
            (k in r.zoneTimers <==> now - st.zoneTimers[k].lastSeen <= TrackGracePeriodSeconds))
      && (forall k :: k in r.zoneTimers ==> k in st.zoneTimers && r.zoneTimers[k] == st.zoneTimers[k])
      // a pruned track is gone from both maps
      && (forall k :: k in st.zoneTimers && k !in r.zoneTimers ==> k !in r.violationHistory)
      // a surviving track keeps its violation entry; no entry is invented
      && (forall k :: k in st.violationHistory && k in r.zoneTimers ==>
            k in r.violationHistory && r.violationHistory[k] == st.violationHistory[k])
      && (forall k :: k in r.violationHistory ==>
            k in st.violationHistory && r.violationHistory[k] == st.violationHistory[k])
      && (Inv(st) ==> Inv(r))
  {
  }

  /**
   * One processed frame: only when the tracker returned ids are the boxes observed
   * (at `frameTime`) and the timers pruned (against `pruneTime`).
   */
  function Step(st: State, zones: seq<Zone>, out: TrackerOutput, frameTime: real, pruneTime: real,
                stamps: Stamps): (r: (State, seq<ViolationRecord>))
    ensures out.NoTrackIds? ==> r == (st, [])
    ensures Inv(st) ==> Inv(r.0)
    ensures out.TrackIds? ==>
      forall k :: k in r.0.zoneTimers ==> pruneTime - r.0.zoneTimers[k].lastSeen <= TrackGracePeriodSeconds
    ensures forall i :: 0 <= i < |r.1| ==> r.1[i].trackId !in st.violationHistory
    ensures forall i, j :: 0 <= i < j < |r.1| ==> r.1[i].trackId != r.1[j].trackId
    // a recorded track whose timer survives the frame is in the history
    ensures forall i :: 0 <= i < |r.1| && r.1[i].trackId in r.0.zoneTimers ==>
      r.1[i].trackId in r.0.violationHistory
    // a violation entry is dropped only together with its timer
    ensures forall k :: k in st.violationHistory && k in r.0.zoneTimers ==> k in r.0.violationHistory
  {
    match out
    case NoTrackIds => (st, [])
    case TrackIds(boxes) =>
      ObserveAllFacts(st, zones, boxes, frameTime, stamps);
      var observed := ObserveAll(st, zones, boxes, frameTime, stamps);
      PruneSpec(observed.0, pruneTime);
      (Prune(observed.0, pruneTime), observed.1)
  }

  // ---------------------------------------------------------------------------
  // Runs of frames.
  // ---------------------------------------------------------------------------

  /** One frame as the detection loop sees it. */
  datatype Frame = Frame(output: TrackerOutput, frameTime: real, pruneTime: real, stamps: Stamps)

  function StepFrame(st: State, zones: seq<Zone>, f: Frame): (State, seq<ViolationRecord>) {
    Step(st, zones, f.output, f.frameTime, f.pruneTime, f.stamps)
  }

  /** The state after a run of frames and every record confirmed along it. */
  function Run(st: State, zones: seq<Zone>, frames: seq<Frame>): (State, seq<ViolationRecord>)
    decreases |frames|
  {
    if |frames| == 0 then (st, [])
    else
      var first := StepFrame(st, zones, frames[0]);
      var rest := Run(first.0, zones, frames[1..]);
      (rest.0, first.1 + rest.1)
  }

  /** The track's timer exists after every frame of the run (it is never pruned). */
  ghost predicate TimerLives(st: State, zones: seq<Zone>, frames: seq<Frame>, id: int)
    decreases |frames|
  {
    |frames| == 0 ||
    (var next := StepFrame(st, zones, frames[0]).0;
     id in next.zoneTimers && TimerLives(next, zones, frames[1..], id))
  }

  /**
   * At most one violation per track while its timer lives: once recorded, later
   * frames confirm nothing more for it until it is pruned; and a run that starts with
   * the track already recorded confirms nothing for it at all.
   */
  lemma {:induction false} AtMostOneRecordWhileTimerLives(st: State, zones: seq<Zone>, frames: seq<Frame>, id: int)
    requires Inv(st) && TimerLives(st, zones, frames, id)
    ensures RecordsFor(Run(st, zones, frames).1, id) <= (if id in st.violationHistory then 0 else 1)
    decreases |frames|
  {
    if |frames| > 0 {
      var first := StepFrame(st, zones, frames[0]);
      var rest := Run(first.0, zones, frames[1..]);
      RecordsForConcat(first.1, rest.1, id);
      RecordsForDistinct(first.1, id);
      AtMostOneRecordWhileTimerLives(first.0, zones, frames[1..], id);
      if id in st.violationHistory {
        assert id in first.0.violationHistory;
      } else if RecordsFor(first.1, id) == 1 {
        assert id in first.0.violationHistory;
      }
    }
  }

  /** A frame without ids leaves the tracker exactly as it was and records nothing. */
  lemma NoIdsFrameChangesNothing(st: State, zones: seq<Zone>, frameTime: real, pruneTime: real, stamps: Stamps)
    ensures Step(st, zones, NoTrackIds, frameTime, pruneTime, stamps) == (st, [])
  {
  }

  /** Boxes of other tracks leave a track's timer, its history entry and its records alone. */
  lemma {:induction false} ObserveAllOthers(st: State, zones: seq<Zone>, boxes: seq<TrackedBox>,
                                            frameTime: real, stamps: Stamps, id: int)
    requires forall j :: 0 <= j < |boxes| ==> boxes[j].trackId != id
    ensures var r := ObserveAll(st, zones, boxes, frameTime, stamps);
      && (id in r.0.zoneTimers <==> id in st.zoneTimers)
      && (id in st.zoneTimers ==> r.0.zoneTimers[id] == st.zoneTimers[id])
      && (id in r.0.violationHistory <==> id in st.violationHistory)
      && RecordsFor(r.1, id) == 0
    decreases |boxes|
  {
    if |boxes| > 0 {
      var init := boxes[..|boxes| - 1];
      var b := boxes[|boxes| - 1];
      assert forall j :: 0 <= j < |init| ==> init[j] == boxes[j];
      ObserveAllOthers(st, zones, init, frameTime, stamps, id);
      var before := ObserveAll(st, zones, init, frameTime, stamps);
      ObserveSpec(before.0, zones, b, frameTime, stamps);
      var last := Observe(before.0, zones, b, frameTime, stamps);
      var extra := if last.1.Some? then [last.1.value] else [];
      assert ObserveAll(st, zones, boxes, frameTime, stamps) == (last.0, before.1 + extra);
      RecordsForConcat(before.1, extra, id);
      assert extra[..0] == [];
    }
  }

  /** The qualifying box, after boxes of other tracks only, adds the one record for its track. */
  lemma RecordedByLastBox(st: State, zones: seq<Zone>, init: seq<TrackedBox>, b: TrackedBox,
                          frameTime: real, stamps: Stamps)
    requires forall j :: 0 <= j < |init| ==> init[j].trackId != b.trackId
    requires InViolationZone(zones, b) && b.trackId !in st.violationHistory && b.trackId in st.zoneTimers
    requires frameTime - st.zoneTimers[b.trackId].enterTime >= ViolationThresholdSeconds
    ensures var r := ObserveAll(st, zones, init + [b], frameTime, stamps);
      && RecordsFor(r.1, b.trackId) == 1 && |r.1| > 0
      && r.1[|r.1| - 1] ==
           MakeRecord(b.trackId, b.box, b.classLabel, b.confidence, BoxCenterInZone(b.box, zones).value, stamps)
  {
    var id := b.trackId;
    var rec := MakeRecord(id, b.box, b.classLabel, b.confidence, BoxCenterInZone(b.box, zones).value, stamps);
    ObserveAllSnoc(st, zones, init, b, frameTime, stamps);
    ObserveAllOthers(st, zones, init, frameTime, stamps, id);
    var before := ObserveAll(st, zones, init, frameTime, stamps);
    assert Observe(before.0, zones, b, frameTime, stamps).1 == Some(rec) by {
      ObserveSpec(before.0, zones, b, frameTime, stamps);
      assert Elapsed(before.0, id, frameTime) >= ViolationThresholdSeconds;
    }
    RecordsForConcat(before.1, [rec], id);
    assert [rec][..0] == [];
  }

  /** A box of another track keeps the records so far, and adds none for this track. */
  lemma OtherBoxKeepsRecords(st: State, zones: seq<Zone>, init: seq<TrackedBox>, d: TrackedBox,
                             frameTime: real, stamps: Stamps, id: int)
    requires d.trackId != id
    ensures var before := ObserveAll(st, zones, init, frameTime, stamps).1;
      var r := ObserveAll(st, zones, init + [d], frameTime, stamps).1;
      && RecordsFor(r, id) == RecordsFor(before, id)
      && |before| <= |r| && r[..|before|] == before
  {
    ObserveAllSnoc(st, zones, init, d, frameTime, stamps);
    var before := ObserveAll(st, zones, init, frameTime, stamps);
    var last := Observe(before.0, zones, d, frameTime, stamps);
    var extra := if last.1.Some? then [last.1.value] else [];
    assert RecordsFor(extra, id) == 0 by {
      ObserveSpec(before.0, zones, d, frameTime, stamps);
      assert extra[..0] == [];
    }
    RecordsForConcat(before.1, extra, id);
    assert (before.1 + extra)[..|before.1|] == before.1;
  }

  /**
   * Within one frame's boxes, a track seen exactly once, in a zone, at or past the
   * threshold and not yet recorded gets exactly one record, for the first zone holding
   * its centre.
   */
  lemma {:induction false} RecordedOnceInFrame(st: State, zones: seq<Zone>, boxes: seq<TrackedBox>, k: nat,
                                               frameTime: real, stamps: Stamps)
    requires k < |boxes|
    requires forall j :: 0 <= j < |boxes| && j != k ==> boxes[j].trackId != boxes[k].trackId
    requires InViolationZone(zones, boxes[k]) && boxes[k].trackId !in st.violationHistory
    requires boxes[k].trackId in st.zoneTimers
    requires frameTime - st.zoneTimers[boxes[k].trackId].enterTime >= ViolationThresholdSeconds
    ensures var b := boxes[k];
      var r := ObserveAll(st, zones, boxes, frameTime, stamps);
      && RecordsFor(r.1, b.trackId) == 1
      && exists i :: 0 <= i < |r.1| && r.1[i] ==
           MakeRecord(b.trackId, b.box, b.classLabel, b.confidence, BoxCenterInZone(b.box, zones).value, stamps)
    decreases |boxes|
  {
    var b := boxes[k];
    var rec := MakeRecord(b.trackId, b.box, b.classLabel, b.confidence, BoxCenterInZone(b.box, zones).value, stamps);
    var init := boxes[..|boxes| - 1];
    var d := boxes[|boxes| - 1];
    assert boxes == init + [d];
    assert forall j :: 0 <= j < |init| ==> init[j] == boxes[j];
    if k == |boxes| - 1 {
      RecordedByLastBox(st, zones, init, d, frameTime, stamps);
      var r := ObserveAll(st, zones, boxes, frameTime, stamps).1;
      assert r[|r| - 1] == rec;
    } else {
      RecordedOnceInFrame(st, zones, init, k, frameTime, stamps);
      OtherBoxKeepsRecords(st, zones, init, d, frameTime, stamps, b.trackId);
      var before := ObserveAll(st, zones, init, frameTime, stamps).1;
      var r := ObserveAll(st, zones, boxes, frameTime, stamps).1;
      var i :| 0 <= i < |before| && before[i] == rec;
      assert r[i] == r[..|before|][i] == rec;
    }
  }

  /**
   * A track already timed for the threshold, not yet recorded and seen (once) in a
   * zone again, is confirmed in that frame, whatever other boxes it holds: exactly one
   * record for the track, in the first zone holding its centre.
   */
  lemma ViolationConfirmedAtThreshold(st: State, zones: seq<Zone>, boxes: seq<TrackedBox>, k: nat,
                                      frameTime: real, pruneTime: real, stamps: Stamps)
    requires k < |boxes|
    requires forall j :: 0 <= j < |boxes| && j != k ==> boxes[j].trackId != boxes[k].trackId
    requires InViolationZone(zones, boxes[k]) && boxes[k].trackId !in st.violationHistory
    requires boxes[k].trackId in st.zoneTimers
    requires frameTime - st.zoneTimers[boxes[k].trackId].enterTime >= ViolationThresholdSeconds
    ensures var b := boxes[k];
      var r := Step(st, zones, TrackIds(boxes), frameTime, pruneTime, stamps).1;
      && RecordsFor(r, b.trackId) == 1
      && exists i :: 0 <= i < |r| && r[i] ==
           MakeRecord(b.trackId, b.box, b.classLabel, b.confidence, BoxCenterInZone(b.box, zones).value, stamps)
  {
    RecordedOnceInFrame(st, zones, boxes, k, frameTime, stamps);
    assert Step(st, zones, TrackIds(boxes), frameTime, pruneTime, stamps).1
        == ObserveAll(st, zones, boxes, frameTime, stamps).1;
  }

  // ---------------------------------------------------------------------------
  // The scenario: zone "lot-A" is the square (0,0)-(100,100); motorcycle 7 sits at
  // (50,50) from t=0 to t=11, then shows up outside every zone at t=12 and t=15.1.
  // ---------------------------------------------------------------------------

  const LotA: Zone := Zone("lot-A", [Point(0, 0), Point(100, 0), Point(100, 100), Point(0, 100)])
  const Parked: TrackedBox := TrackedBox(Box(40, 40, 60, 60), 7, "motorcycle", "0.90")
  const Away: TrackedBox := TrackedBox(Box(300, 300, 320, 320), 7, "motorcycle", "0.90")

  lemma ParkedIsInLotA()
    ensures BoxCenterInZone(Parked.box, [LotA]) == Some("lot-A")
    ensures BoxCenterInZone(Away.box, [LotA]).None?
  {
    assert Center(Parked.box) == Point(50, 50);
    assert CrossingCount(LotA.polygon, Point(50, 50), 4) == 1;
    assert Center(Away.box) == Point(310, 310);
    OutsideVerticalExtent(LotA.polygon, Point(310, 310));
  }

  /** A frame holding one box: observe it, then prune. */
  lemma SingleBoxStep(st: State, zones: seq<Zone>, b: TrackedBox, frameTime: real, pruneTime: real,
                      stamps: Stamps)
    ensures var o := Observe(st, zones, b, frameTime, stamps);
      Step(st, zones, TrackIds([b]), frameTime, pruneTime, stamps)
        == (Prune(o.0, pruneTime), if o.1.Some? then [o.1.value] else [])
  {
    var o := Observe(st, zones, b, frameTime, stamps);
    var single: seq<TrackedBox> := [b];
    assert single[..0] == [] && single[0] == b;
    var extra := if o.1.Some? then [o.1.value] else [];
    assert [] + extra == extra;
    assert ObserveAll(st, zones, single, frameTime, stamps) == (o.0, extra);
  }

  const Empty: State := State(map[], map[])
  const At0: State := State(map[7 := Timer(0.0, 0.0)], map[])
  const At5: State := State(map[7 := Timer(0.0, 5.0)], map[])
  const At10: State := State(map[7 := Timer(0.0, 10.0)], map[7 := "lot-A"])
  const At11: State := State(map[7 := Timer(0.0, 11.0)], map[7 := "lot-A"])

  lemma ParkedFrom0(s: Stamps)
    ensures StepFrame(Empty, [LotA], Frame(TrackIds([Parked]), 0.0, 0.0, s)) == (At0, [])
  {
    ParkedIsInLotA();
    SingleBoxStep(Empty, [LotA], Parked, 0.0, 0.0, s);
    assert Observe(Empty, [LotA], Parked, 0.0, s) == (At0, None);
    assert StaleIds(At0, 0.0) == {};
    assert Prune(At0, 0.0) == At0;
  }

  lemma ParkedAt5(s: Stamps)
    ensures StepFrame(At0, [LotA], Frame(TrackIds([Parked]), 5.0, 5.0, s)) == (At5, [])
  {
    ParkedIsInLotA();
    SingleBoxStep(At0, [LotA], Parked, 5.0, 5.0, s);
    assert At0.zoneTimers[7 := Timer(0.0, 5.0)] == At5.zoneTimers;
    assert Observe(At0, [LotA], Parked, 5.0, s) == (At5, None);
    assert StaleIds(At5, 5.0) == {};
    assert Prune(At5, 5.0) == At5;
  }

  lemma ParkedAt10(s: Stamps)
    ensures StepFrame(At5, [LotA], Frame(TrackIds([Parked]), 10.0, 10.0, s))
      == (At10, [MakeRecord(7, Parked.box, "motorcycle", "0.90", "lot-A", s)])
  {
    ParkedIsInLotA();
    SingleBoxStep(At5, [LotA], Parked, 10.0, 10.0, s);
    assert At5.zoneTimers[7 := Timer(0.0, 10.0)] == At10.zoneTimers;
    assert Observe(At5, [LotA], Parked, 10.0, s)
      == (At10, Some(MakeRecord(7, Parked.box, "motorcycle", "0.90", "lot-A", s)));
    assert StaleIds(At10, 10.0) == {};
    assert Prune(At10, 10.0) == At10;
  }

  lemma ParkedAt11(s: Stamps)
    ensures StepFrame(At10, [LotA], Frame(TrackIds([Parked]), 11.0, 11.0, s)) == (At11, [])
  {
    ParkedIsInLotA();
    SingleBoxStep(At10, [LotA], Parked, 11.0, 11.0, s);
    assert At10.zoneTimers[7 := Timer(0.0, 11.0)] == At11.zoneTimers;
    assert Observe(At10, [LotA], Parked, 11.0, s) == (At11, None);
    assert StaleIds(At11, 11.0) == {};
    assert Prune(At11, 11.0) == At11;
  }

  lemma AwayAt(t: real, s: Stamps)
    ensures StepFrame(At11, [LotA], Frame(TrackIds([Away]), t, t, s))
      == (if t - 11.0 > TrackGracePeriodSeconds then Empty else At11, [])
  {
    ParkedIsInLotA();
    SingleBoxStep(At11, [LotA], Away, t, t, s);
    assert Observe(At11, [LotA], Away, t, s) == (At11, None);
    if t - 11.0 > TrackGracePeriodSeconds {
      assert StaleIds(At11, t) == {7};
      assert Prune(At11, t) == Empty;
    } else {
      assert StaleIds(At11, t) == {};
      assert Prune(At11, t) == At11;
    }
  }

  /** The violation is confirmed at t=10 exactly once; the track is pruned by t=15.1. */
  lemma {:induction false} LotAScenario(s0: Stamps, s5: Stamps, s10: Stamps, s11: Stamps, s12: Stamps, s15: Stamps)
    ensures var frames := [
        Frame(TrackIds([Parked]), 0.0, 0.0, s0), Frame(TrackIds([Parked]), 5.0, 5.0, s5),
        Frame(TrackIds([Parked]), 10.0, 10.0, s10), Frame(TrackIds([Parked]), 11.0, 11.0, s11)];
      Run(State(map[], map[]), [LotA], frames)
        == (State(map[7 := Timer(0.0, 11.0)], map[7 := "lot-A"]),
            [MakeRecord(7, Parked.box, "motorcycle", "0.90", "lot-A", s10)])
    ensures var later := [Frame(TrackIds([Away]), 12.0, 12.0, s12), Frame(TrackIds([Away]), 15.1, 15.1, s15)];
      Run(State(map[7 := Timer(0.0, 11.0)], map[7 := "lot-A"]), [LotA], later) == (State(map[], map[]), [])
  {
    ParkedFrom0(s0);
    ParkedAt5(s5);
    ParkedAt10(s10);
    ParkedAt11(s11);
    AwayAt(12.0, s12);
    AwayAt(15.1, s15);
    var frames := [
        Frame(TrackIds([Parked]), 0.0, 0.0, s0), Frame(TrackIds([Parked]), 5.0, 5.0, s5),
        Frame(TrackIds([Parked]), 10.0, 10.0, s10), Frame(TrackIds([Parked]), 11.0, 11.0, s11)];
    var rec := MakeRecord(7, Parked.box, "motorcycle", "0.90", "lot-A", s10);
    assert [rec] + [] == [rec] && [] + [rec] == [rec];
    assert frames[3..][0] == frames[3] && frames[3..][1..] == [];
    assert Run(At10, [LotA], frames[3..]) == (At11, []);
    assert frames[2..][0] == frames[2] && frames[2..][1..] == frames[3..];
    assert Run(At5, [LotA], frames[2..]) == (At11, [rec]);
    assert frames[1..][0] == frames[1] && frames[1..][1..] == frames[2..];
    assert Run(At0, [LotA], frames[1..]) == (At11, [rec]);
    var later := [Frame(TrackIds([Away]), 12.0, 12.0, s12), Frame(TrackIds([Away]), 15.1, 15.1, s15)];
    assert Run(At11, [LotA], later[1..]) == (Empty, []);
  }

  // ---------------------------------------------------------------------------
  // The tracker as the detection loop holds it: two dictionaries updated in place.
  // ---------------------------------------------------------------------------

  class ViolationTracker {
    /** The zones after scaling to the live frame (fixed for the session). */
    const zones: seq<Zone>
    var zoneTimers: map<int, Timer>
    var violationHistory: map<int, string>

    function Current(): State
      reads this
    {
      State(zoneTimers, violationHistory)
    }

    constructor(zones: seq<Zone>)
      ensures this.zones == zones && Current() == State(map[], map[]) && Inv(Current())
    {
      this.zones := zones;
      zoneTimers := map[];
      violationHistory := map[];
    }

    /** One box of the per-box loop. */
    method ObserveBox(b: TrackedBox, frameTime: real, stamps: Stamps) returns (record: Option<ViolationRecord>)
      modifies this
      ensures (Current(), record) == Observe(old(Current()), zones, b, frameTime, stamps)
    {
      record := None;
      var found := BoxCenterInZone(b.box, zones);
      if found.Some? && b.classLabel in ViolationClasses {
        var elapsed: real;
        if b.trackId !in zoneTimers {
          zoneTimers := zoneTimers[b.trackId := Timer(frameTime, frameTime)];
          elapsed := 0.0;
        } else {
          var timer := zoneTimers[b.trackId];
          elapsed := frameTime - timer.enterTime;
          zoneTimers := zoneTimers[b.trackId := timer.(lastSeen := frameTime)];
        }
        if elapsed >= ViolationThresholdSeconds && b.trackId !in violationHistory {
          violationHistory := violationHistory[b.trackId := found.value];
          record := Some(MakeRecord(b.trackId, b.box, b.classLabel, b.confidence, found.value, stamps));
        }
      }
    }

    /** The pruning pass, over a snapshot of the timer keys. */
    method PruneStale(now: real)
      modifies this
      ensures Current() == Prune(old(Current()), now)
    {
      ghost var stale := StaleIds(Current(), now);
      var pending := zoneTimers.Keys;
      while pending != {}
        invariant pending <= old(zoneTimers).Keys
        invariant zoneTimers == old(zoneTimers) - (stale - pending)
        invariant violationHistory == old(violationHistory) - (stale - pending)
        decreases pending
      {
        NonEmptyHasMember(pending);
        var key :| key in pending;
        if now - zoneTimers[key].lastSeen > TrackGracePeriodSeconds {
          if key in violationHistory {
            violationHistory := violationHistory - {key};
          }
          zoneTimers := zoneTimers - {key};
        }
        pending := pending - {key};
      }
      assert zoneTimers == old(zoneTimers) - stale;
    }

    /** The per-box loop over one frame's boxes. */
    method ObserveBoxes(boxes: seq<TrackedBox>, frameTime: real, stamps: Stamps)
      returns (records: seq<ViolationRecord>)
      modifies this
      ensures (Current(), records) == ObserveAll(old(Current()), zones, boxes, frameTime, stamps)
    {
      records := [];
      for i := 0 to |boxes|
        invariant (Current(), records) == ObserveAll(old(Current()), zones, boxes[..i], frameTime, stamps)
      {
        assert boxes[..i + 1] == boxes[..i] + [boxes[i]];
        ObserveAllSnoc(old(Current()), zones, boxes[..i], boxes[i], frameTime, stamps);
        ghost var before := Current();
        ghost var recordsBefore := records;
        var record := ObserveBox(boxes[i], frameTime, stamps);
        ghost var last := Observe(before, zones, boxes[i], frameTime, stamps);
        assert Current() == last.0 && record == last.1;
        if record.Some? {
          records := records + [record.value];
        }
        assert records == recordsBefore + (if last.1.Some? then [last.1.value] else []);
      }
      assert boxes[..|boxes|] == boxes;
    }

    /** One iteration of the detection loop, with the tracker's output given. */
    method ProcessFrame(output: TrackerOutput, frameTime: real, pruneTime: real, stamps: Stamps)
      returns (records: seq<ViolationRecord>)
      modifies this
      ensures (Current(), records) == Step(old(Current()), zones, output, frameTime, pruneTime, stamps)
      ensures old(Inv(Current())) ==> Inv(Current())
    {
      if output.NoTrackIds? {
        return [];
      }
      records := ObserveBoxes(output.boxes, frameTime, stamps);
      PruneStale(pruneTime);
    }
  }
}
