/**
 * The artifacts written once per confirmed violation: a snapshot image and a JSON
 * log record that share one filename stem built from a timestamp and the track id,
 * and the record itself (the fields sent to the dashboard).
 */
module Evidence {
  import opened Geometry
  import opened Decimal

  const SnapshotDir: string := "output/snapshots"
  const LogDir: string := "output/logs"

  /**
   * The two wall-clock renderings taken when a violation is confirmed:
   * `strftime("%Y%m%d-%H%M%S")` for file names and `strftime("%Y-%m-%d %H:%M:%S")`
   * for the record's timestamp field.
   */
  datatype Stamps = Stamps(file: string, wall: string)

  /** The fields of `log_data`, in the order the source writes them. */
  datatype ViolationRecord = ViolationRecord(
    trackId: int,
    timestamp: string,
    zoneName: string,
    classLabel: string,
    confidence: string,
    boundingBox: seq<int>,
    snapshotFile: string)

  /** `violation_{timestamp_str}_id{track_id}` */
  function ArtifactStem(stamp: string, trackId: int): string {
    "violation_" + stamp + "_id" + IntToString(trackId)
  }

  /** Where the annotated snapshot is written (`os.path.join(SNAPSHOT_DIR, ...)`). */
  function SnapshotPath(stamp: string, trackId: int): string {
    SnapshotDir + "/" + ArtifactStem(stamp, trackId) + ".jpg"
  }

  /** Where the JSON record is written (`os.path.join(LOG_DIR, ...)`). */
  function LogPath(stamp: string, trackId: int): string {
    LogDir + "/" + ArtifactStem(stamp, trackId) + ".json"
  }

  /** The record's `snapshot_file` field: `output/` + `snapshots/<stem>.jpg`. */
  function SnapshotFileField(stamp: string, trackId: int): (r: string)
    ensures r == SnapshotPath(stamp, trackId)
  {
    "output/" + ("snapshots/" + ArtifactStem(stamp, trackId) + ".jpg")
  }

  /** The record built for a confirmed violation. */
  function MakeRecord(trackId: int, b: Box, classLabel: string, confidence: string,
                      zoneName: string, stamps: Stamps): (r: ViolationRecord)
    ensures r.trackId == trackId && r.zoneName == zoneName && r.classLabel == classLabel
    ensures r.boundingBox == [b.x1, b.y1, b.x2, b.y2]
    ensures r.timestamp == stamps.wall && r.confidence == confidence
    ensures r.snapshotFile == SnapshotPath(stamps.file, trackId)
  {
    ViolationRecord(trackId, stamps.wall, zoneName, classLabel, confidence,
                    [b.x1, b.y1, b.x2, b.y2], SnapshotFileField(stamps.file, trackId))
  }

  predicate NoUnderscore(s: string) {
    forall i :: 0 <= i < |s| ==> s[i] != '_'
  }

  lemma MarkerLayout(s: string, d: string)
    ensures var t := s + "_id" + d;
      && t[|s|] == '_' && t[|s| + 1] == 'i' && t[|s| + 2] == 'd'
      && forall k :: 0 <= k < |d| ==> t[|s| + 3 + k] == d[k]
  {
  }

  /** `s1 + "_id" + d1 == s2 + "_id" + d2` splits uniquely when the tails have no `_`. */
  lemma SplitAtLastMarker(s1: string, d1: string, s2: string, d2: string)
    requires NoUnderscore(d1) && NoUnderscore(d2)
    requires s1 + "_id" + d1 == s2 + "_id" + d2
    ensures s1 == s2 && d1 == d2
  {
    var t := s1 + "_id" + d1;
    if |d1| != |d2| {
      // the `_` that opens the shorter tail's marker would fall inside the other
      // side's `id` letters or its underscore-free tail
      MarkerLayout(s1, d1);
      MarkerLayout(s2, d2);
      assert false;
    }
    assert s1 == t[..|s1|] == s2;
    assert d1 == t[|s1| + 3..] == d2;
  }

  lemma IdHasNoUnderscore(i: int)
    ensures NoUnderscore(IntToString(i))
  {
  }

  /** Different (timestamp, track id) pairs never name the same artifact stem. */
  lemma {:induction false} StemInjective(stamp1: string, id1: int, stamp2: string, id2: int)
    ensures ArtifactStem(stamp1, id1) == ArtifactStem(stamp2, id2) <==> stamp1 == stamp2 && id1 == id2
  {
    if ArtifactStem(stamp1, id1) == ArtifactStem(stamp2, id2) {
      var p := "violation_";
      var d1, d2 := IntToString(id1), IntToString(id2);
      assert ArtifactStem(stamp1, id1) == p + (stamp1 + "_id" + d1);
      assert ArtifactStem(stamp2, id2) == p + (stamp2 + "_id" + d2);
      assert stamp1 + "_id" + d1 == ArtifactStem(stamp1, id1)[|p|..];
      IdHasNoUnderscore(id1);
      IdHasNoUnderscore(id2);
      SplitAtLastMarker(stamp1, d1, stamp2, d2);
      IntToStringInjective(id1, id2);
    }
  }

  /**
   * Snapshot and log of one violation share their stem; distinct (timestamp, id)
   * pairs get distinct snapshot paths and distinct log paths.
   */
  lemma {:induction false} ArtifactPathsUnique(stamp1: string, id1: int, stamp2: string, id2: int)
    ensures SnapshotPath(stamp1, id1) == SnapshotPath(stamp2, id2) <==> stamp1 == stamp2 && id1 == id2
    ensures LogPath(stamp1, id1) == LogPath(stamp2, id2) <==> stamp1 == stamp2 && id1 == id2
  {
    var a, b := ArtifactStem(stamp1, id1), ArtifactStem(stamp2, id2);
    if SnapshotPath(stamp1, id1) == SnapshotPath(stamp2, id2) {
      var pre := SnapshotDir + "/";
      assert SnapshotPath(stamp1, id1) == pre + a + ".jpg";
      assert a == SnapshotPath(stamp1, id1)[|pre|..|pre| + |a|];
      assert b == SnapshotPath(stamp2, id2)[|pre|..|pre| + |b|];
      assert |a| == |b|;
    }
    if LogPath(stamp1, id1) == LogPath(stamp2, id2) {
      var pre := LogDir + "/";
      assert LogPath(stamp1, id1) == pre + a + ".json";
      assert a == LogPath(stamp1, id1)[|pre|..|pre| + |a|];
      assert b == LogPath(stamp2, id2)[|pre|..|pre| + |b|];
      assert |a| == |b|;
    }
    StemInjective(stamp1, id1, stamp2, id2);
  }

  /** How many of the records belong to track `id`. */
  function RecordsFor(records: seq<ViolationRecord>, id: int): nat {
    if |records| == 0 then 0
    else RecordsFor(records[..|records| - 1], id) + (if records[|records| - 1].trackId == id then 1 else 0)
  }

  lemma {:induction false} RecordsForConcat(a: seq<ViolationRecord>, b: seq<ViolationRecord>, id: int)
    ensures RecordsFor(a + b, id) == RecordsFor(a, id) + RecordsFor(b, id)
    decreases |b|
  {
    if |b| == 0 {
      assert a + b == a;
    } else {
      assert (a + b)[..|a + b| - 1] == a + b[..|b| - 1];
      assert (a + b)[|a + b| - 1] == b[|b| - 1];
      RecordsForConcat(a, b[..|b| - 1], id);
    }
  }

  lemma {:induction false} RecordsForDistinct(records: seq<ViolationRecord>, id: int)
    requires forall i, j :: 0 <= i < j < |records| ==> records[i].trackId != records[j].trackId
    ensures RecordsFor(records, id) <= 1
    ensures RecordsFor(records, id) == 1 ==> exists i :: 0 <= i < |records| && records[i].trackId == id
    ensures (forall i :: 0 <= i < |records| ==> records[i].trackId != id) ==> RecordsFor(records, id) == 0
    decreases |records|
  {
    if |records| > 0 {
      var init := records[..|records| - 1];
      RecordsForDistinct(init, id);
      if records[|records| - 1].trackId == id {
        RecordsForDistinct(init, id);
        assert forall i :: 0 <= i < |init| ==> init[i].trackId != id;
      }
    }
  }
}
