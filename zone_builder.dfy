/**
 * The interactive zone-definition state machine: clicks add vertices to the current
 * polygon; Enter either discards a polygon of fewer than three points or stores it
 * under the typed name (or a numbered default) and starts the next one.
 */
module ZoneBuilder {
  import opened Wrappers
  import opened Decimal
  import opened Geometry

  /** `f'zone_{idx}'` */
  function DefaultZoneName(idx: int): string {
    "zone_" + IntToString(idx)
  }

  /** The name a completed polygon is stored under: the typed one, or the default. */
  function ZoneName(entered: string, idx: int): (name: string)
    ensures entered != "" ==> name == entered
    ensures entered == "" ==> name == DefaultZoneName(idx)
    ensures name != ""
  {
    if entered == "" then DefaultZoneName(idx) else entered
  }

  /** Different indices give different default names. */
  lemma DefaultNamesDistinct(i: int, j: int)
    ensures DefaultZoneName(i) == DefaultZoneName(j) <==> i == j
  {
    if DefaultZoneName(i) == DefaultZoneName(j) {
      var p := "zone_";
      assert IntToString(i) == DefaultZoneName(i)[|p|..];
      assert IntToString(j) == DefaultZoneName(j)[|p|..];
      IntToStringInjective(i, j);
    }
  }

  /** `zones[name]`: the polygon stored under `name`, if any. */
  function Lookup(zones: seq<Zone>, name: string): (r: Option<seq<Point>>)
    ensures r.None? <==> name !in Names(zones)
    decreases |zones|
  {
    if |zones| == 0 then None
    else
      assert Names(zones) == [zones[0].name] + Names(zones[1..]);
      if zones[0].name == name then Some(zones[0].polygon) else Lookup(zones[1..], name)
  }

  /**
   * `zones[name] = poly`: replaces the polygon of an existing name where it stands,
   * or appends a new entry at the end.
   */
  function Assign(zones: seq<Zone>, name: string, poly: seq<Point>): seq<Zone>
    decreases |zones|
  {
    if |zones| == 0 then [Zone(name, poly)]
    else if zones[0].name == name then [Zone(name, poly)] + zones[1..]
    else [zones[0]] + Assign(zones[1..], name, poly)
  }

  /**
   * After `zones[name] = poly`, looking up `name` gives `poly`, every other name looks
   * up what it did before, and one entry was added exactly when the name was new.
   */
  lemma {:induction false} AssignSpec(zones: seq<Zone>, name: string, poly: seq<Point>)
    ensures var r := Assign(zones, name, poly);
      && Lookup(r, name) == Some(poly)
      && (forall n :: n != name ==> Lookup(r, n) == Lookup(zones, n))
      && |r| == |zones| + (if name in Names(zones) then 0 else 1)
    decreases |zones|
  {
    var r := Assign(zones, name, poly);
    if |zones| > 0 {
      assert Names(zones) == [zones[0].name] + Names(zones[1..]);
      assert r[1..] == if zones[0].name == name then zones[1..] else Assign(zones[1..], name, poly);
      if zones[0].name != name {
        AssignSpec(zones[1..], name, poly);
      }
    }
  }

  /** Assigning a new name appends one entry after the existing ones. */
  lemma {:induction false} AssignAppends(zones: seq<Zone>, name: string, poly: seq<Point>)
    requires name !in Names(zones)
    ensures Assign(zones, name, poly) == zones + [Zone(name, poly)]
    decreases |zones|
  {
    if |zones| > 0 {
      var rest := zones[1..];
      assert Names(zones) == [zones[0].name] + Names(rest);
      AssignAppends(rest, name, poly);
      assert [zones[0]] + (rest + [Zone(name, poly)]) == zones + [Zone(name, poly)];
    }
  }

  /** The entries after the first of a collection with distinct names have distinct names too, none the first's. */
  lemma UniqueTail(zones: seq<Zone>)
    requires |zones| > 0 && UniqueNames(zones)
    ensures UniqueNames(zones[1..])
    ensures forall i :: 0 < i < |zones| ==> zones[i].name != zones[0].name
  {
    var rest := zones[1..];
    forall i, j | 0 <= i < j < |rest| ensures rest[i].name != rest[j].name {
      assert rest[i] == zones[i + 1] && rest[j] == zones[j + 1];
    }
  }

  /** Assigning an existing name (names being distinct) replaces its polygon where it stands. */
  lemma {:induction false} AssignReplaces(zones: seq<Zone>, name: string, poly: seq<Point>)
    requires name in Names(zones) && UniqueNames(zones)
    ensures var r := Assign(zones, name, poly);
      && |r| == |zones|
      && forall i :: 0 <= i < |zones| ==> r[i] == (if zones[i].name == name then Zone(name, poly) else zones[i])
    decreases |zones|
  {
    var rest := zones[1..];
    var r := Assign(zones, name, poly);
    UniqueTail(zones);
    if zones[0].name == name {
      assert r == [Zone(name, poly)] + rest;
    } else {
      assert name in Names(rest) by {
        assert Names(zones) == [zones[0].name] + Names(rest);
      }
      var t := Assign(rest, name, poly);
      assert r == [zones[0]] + t;
      assert |t| == |rest| by {
        AssignReplaces(rest, name, poly);
      }
      forall i | 0 < i < |zones|
        ensures r[i] == (if zones[i].name == name then Zone(name, poly) else zones[i])
      {
        AssignReplaces(rest, name, poly);
        assert r[i] == t[i - 1] && zones[i] == rest[i - 1];
      }
    }
  }

  /** Assigning under one name keeps the names of a collection distinct. */
  lemma AssignKeepsNamesUnique(zones: seq<Zone>, name: string, poly: seq<Point>)
    requires UniqueNames(zones)
    ensures UniqueNames(Assign(zones, name, poly))
  {
    if name in Names(zones) {
      AssignReplaces(zones, name, poly);
    } else {
      AssignAppends(zones, name, poly);
      var r := zones + [Zone(name, poly)];
      assert forall i :: 0 <= i < |zones| ==> r[i].name == Names(zones)[i];
    }
  }

  /** Storing a polygon of three or more vertices keeps every stored polygon that large. */
  lemma AssignKeepsPolygons(zones: seq<Zone>, name: string, poly: seq<Point>)
    requires |poly| >= 3 && forall i :: 0 <= i < |zones| ==> |zones[i].polygon| >= 3
    ensures var r := Assign(zones, name, poly);
      forall i :: 0 <= i < |r| ==> |r[i].polygon| >= 3
    decreases |zones|
  {
    if |zones| > 0 && zones[0].name != name {
      AssignKeepsPolygons(zones[1..], name, poly);
    }
  }

  /** A click event: whether it landed in the image axes, and where. */
  datatype ClickEvent = ClickEvent(inAxes: bool, x: int, y: int)

  class PolygonBuilder {
    var zones: seq<Zone>
    var currentPolyPts: seq<Point>
    var zoneIdx: int

    /**
     * Stored zones have distinct names and at least three vertices each, and there
     * are never more of them than polygons accepted so far (`zone_idx - 1`).
     */
    ghost predicate Valid()
      reads this
    {
      && zoneIdx >= 1
      && UniqueNames(zones)
      && |zones| <= zoneIdx - 1
      && forall i :: 0 <= i < |zones| ==> |zones[i].polygon| >= 3
    }

    constructor()
      ensures Valid() && zones == [] && currentPolyPts == [] && zoneIdx == 1
    {
      zones := [];
      currentPolyPts := [];
      zoneIdx := 1;
    }

    /** A click outside the axes is ignored; one inside adds a vertex. */
    method OnClick(e: ClickEvent)
      requires Valid()
      modifies this
      ensures Valid()
      ensures zones == old(zones) && zoneIdx == old(zoneIdx)
      ensures !e.inAxes ==> currentPolyPts == old(currentPolyPts)
      ensures e.inAxes ==> currentPolyPts == old(currentPolyPts) + [Point(e.x, e.y)]
    {
      if !e.inAxes {
        return;
      }
      currentPolyPts := currentPolyPts + [Point(e.x, e.y)];
    }

    method ResetCurrentPoly()
      requires Valid()
      modifies this
      ensures Valid()
      ensures currentPolyPts == [] && zones == old(zones) && zoneIdx == old(zoneIdx)
    {
      currentPolyPts := [];
    }

    /**
     * A key press; only Enter acts. `enteredName` is what the user types when asked
     * for the zone's name (asked only for a polygon of three or more points).
     */
    method OnKey(key: string, enteredName: string)
      requires Valid()
      modifies this
      ensures Valid()
      ensures key != "enter" ==>
        zones == old(zones) && currentPolyPts == old(currentPolyPts) && zoneIdx == old(zoneIdx)
      ensures key == "enter" && |old(currentPolyPts)| < 3 ==>
        zones == old(zones) && currentPolyPts == [] && zoneIdx == old(zoneIdx)
      ensures key == "enter" && |old(currentPolyPts)| >= 3 ==>
        && zones == Assign(old(zones), ZoneName(enteredName, old(zoneIdx)), old(currentPolyPts))
        && Lookup(zones, ZoneName(enteredName, old(zoneIdx))) == Some(old(currentPolyPts))
        && zoneIdx == old(zoneIdx) + 1
        && currentPolyPts == []
    {
      if key == "enter" {
        if |currentPolyPts| < 3 {
          ResetCurrentPoly();
          return;
        }
        var name := ZoneName(enteredName, zoneIdx);
        var stored := Assign(zones, name, currentPolyPts);
        AssignKeepsPolygons(zones, name, currentPolyPts);
        AssignKeepsNamesUnique(zones, name, currentPolyPts);
        AssignSpec(zones, name, currentPolyPts);
        zones := stored;
        zoneIdx := zoneIdx + 1;
        ResetCurrentPoly();
      }
    }
  }
}
