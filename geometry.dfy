/**
 * Integer pixel geometry shared by both detection loops: the truncated centre of a
 * bounding box, boundary-inclusive point-in-polygon containment, the first zone that
 * contains a box centre, and the per-axis scaling of zone polygons.
 */
module Geometry {
  import opened Wrappers

  datatype Point = Point(x: int, y: int)

  /** A bounding box `(x1, y1, x2, y2)` as the detector reports it, already cast to int. */
  datatype Box = Box(x1: int, y1: int, x2: int, y2: int)

  /** A named polygon; zone collections keep their insertion order, like Python dicts. */
  datatype Zone = Zone(name: string, polygon: seq<Point>)

  /** No two zones of the collection share a name (they are dictionary keys). */
  predicate UniqueNames(zones: seq<Zone>) {
    forall i, j :: 0 <= i < j < |zones| ==> zones[i].name != zones[j].name
  }

  function Names(zones: seq<Zone>): (r: seq<string>)
    ensures |r| == |zones| && forall i :: 0 <= i < |zones| ==> r[i] == zones[i].name
  {
    seq(|zones|, i requires 0 <= i < |zones| => zones[i].name)
  }

  // ---------------------------------------------------------------------------
  // Truncating division: Python's int(a / b), which rounds toward zero.
  // ---------------------------------------------------------------------------

  function TruncDiv(a: int, b: int): (q: int)
    requires b > 0
    ensures a >= 0 ==> q >= 0 && q * b <= a < q * b + b
    ensures a < 0 ==> q <= 0 && q * b - b < a <= q * b
  {
    if a >= 0 then a / b else -((-a) / b)
  }

  lemma MulMonotone(x: int, y: int, d: int)
    requires d > 0 && x <= y
    ensures x * d <= y * d
  {
    assert y * d - x * d == (y - x) * d;
  }

  /** `(int((x1 + x2) / 2), int((y1 + y2) / 2))` */
  function Center(b: Box): Point {
    Point(TruncDiv(b.x1 + b.x2, 2), TruncDiv(b.y1 + b.y2, 2))
  }

  /** The truncated midpoint of a well-formed box lies inside the box. */
  lemma CenterWithinBox(b: Box)
    requires b.x1 <= b.x2 && b.y1 <= b.y2
    ensures b.x1 <= Center(b).x <= b.x2 && b.y1 <= Center(b).y <= b.y2
  {
  }

  /** For non-negative coordinates truncation agrees with floor division. */
  lemma CenterOfNonNegativeBox(b: Box)
    requires b.x1 >= 0 && b.x2 >= 0 && b.y1 >= 0 && b.y2 >= 0
    ensures Center(b) == Point((b.x1 + b.x2) / 2, (b.y1 + b.y2) / 2)
  {
  }

  // ---------------------------------------------------------------------------
  // Point-in-polygon, boundary inclusive: even-odd crossing count along the ray
  // towards +x, plus an explicit test for a point lying on an edge.
  // ---------------------------------------------------------------------------

  /** Twice the signed area of the triangle (o, a, b). */
  function Cross(o: Point, a: Point, b: Point): int {
    (a.x - o.x) * (b.y - o.y) - (a.y - o.y) * (b.x - o.x)
  }

  function Min(a: int, b: int): int { if a <= b then a else b }
  function Max(a: int, b: int): int { if a <= b then b else a }

  /** `p` lies on the closed segment from `a` to `b`. */
  predicate OnSegment(p: Point, a: Point, b: Point) {
    && Cross(a, b, p) == 0
    && Min(a.x, b.x) <= p.x <= Max(a.x, b.x)
    && Min(a.y, b.y) <= p.y <= Max(a.y, b.y)
  }

  /** The ray from `p` towards +x crosses the edge from `a` to `b` (half-open in y). */
  predicate Crosses(p: Point, a: Point, b: Point) {
    && (a.y > p.y) != (b.y > p.y)
    && (if b.y > a.y then (p.x - a.x) * (b.y - a.y) < (p.y - a.y) * (b.x - a.x)
        else (p.x - a.x) * (b.y - a.y) > (p.y - a.y) * (b.x - a.x))
  }

  /** The end vertex of edge `i`; the last edge closes the polygon. */
  function EdgeEnd(poly: seq<Point>, i: nat): Point
    requires i < |poly|
  {
    if i + 1 < |poly| then poly[i + 1] else poly[0]
  }

  /** `p` lies on one of the first `k` edges. */
  predicate OnEdges(poly: seq<Point>, p: Point, k: nat)
    requires k <= |poly|
  {
    k > 0 && (OnEdges(poly, p, k - 1) || OnSegment(p, poly[k - 1], EdgeEnd(poly, k - 1)))
  }

  /** How many of the first `k` edges the ray from `p` crosses. */
  function CrossingCount(poly: seq<Point>, p: Point, k: nat): nat
    requires k <= |poly|
  {
    if k == 0 then 0
    else CrossingCount(poly, p, k - 1) + (if Crosses(p, poly[k - 1], EdgeEnd(poly, k - 1)) then 1 else 0)
  }

  predicate OnBoundary(poly: seq<Point>, p: Point) {
    OnEdges(poly, p, |poly|)
  }

  /** `pointPolygonTest(poly, p, False) >= 0`: inside (+1) or on an edge (0). */
  predicate Contains(poly: seq<Point>, p: Point) {
    OnBoundary(poly, p) || CrossingCount(poly, p, |poly|) % 2 == 1
  }

  lemma {:induction false} OnEdgesFrom(poly: seq<Point>, p: Point, i: nat, k: nat)
    requires i < k <= |poly|
    requires OnSegment(p, poly[i], EdgeEnd(poly, i))
    ensures OnEdges(poly, p, k)
    decreases k
  {
    if i < k - 1 {
      OnEdgesFrom(poly, p, i, k - 1);
    }
  }

  /** A point on any edge of the polygon is contained in it (edges count as inside). */
  lemma EdgePointsContained(poly: seq<Point>, p: Point, i: nat)
    requires i < |poly|
    requires OnSegment(p, poly[i], EdgeEnd(poly, i))
    ensures Contains(poly, p)
  {
    OnEdgesFrom(poly, p, i, |poly|);
  }

  /** Every vertex of a polygon is contained in it. */
  lemma VerticesContained(poly: seq<Point>, i: nat)
    requires i < |poly|
    ensures Contains(poly, poly[i])
  {
    var a, b := poly[i], EdgeEnd(poly, i);
    assert Cross(a, b, a) == (b.x - a.x) * 0 - (b.y - a.y) * 0;
    EdgePointsContained(poly, a, i);
  }

  /** No vertex of the polygon lies as high as `y` (all strictly smaller). */
  predicate AllBelow(poly: seq<Point>, y: int) {
    forall i :: 0 <= i < |poly| ==> poly[i].y < y
  }

  /** No vertex of the polygon lies as low as `y` (all strictly greater). */
  predicate AllAbove(poly: seq<Point>, y: int) {
    forall i :: 0 <= i < |poly| ==> poly[i].y > y
  }

  lemma {:induction false} NothingOnOrAcross(poly: seq<Point>, p: Point, k: nat)
    requires k <= |poly|
    requires AllBelow(poly, p.y) || AllAbove(poly, p.y)
    ensures !OnEdges(poly, p, k) && CrossingCount(poly, p, k) == 0
    decreases k
  {
    if k > 0 {
      NothingOnOrAcross(poly, p, k - 1);
      var e := EdgeEnd(poly, k - 1);
      assert e.y < p.y || e.y > p.y;
    }
  }

  /** A point outside the polygon's vertical extent is not contained. */
  lemma OutsideVerticalExtent(poly: seq<Point>, p: Point)
    requires AllBelow(poly, p.y) || AllAbove(poly, p.y)
    ensures !Contains(poly, p)
  {
    NothingOnOrAcross(poly, p, |poly|);
  }

  // ---------------------------------------------------------------------------
  // box_center_in_zone: first zone in iteration order whose polygon contains the
  // truncated centre; `None` stands for the source's `(False, None)`.
  // ---------------------------------------------------------------------------

  function FirstContaining(zones: seq<Zone>, p: Point): (r: Option<nat>)
    ensures r.Some? ==> r.value < |zones| && Contains(zones[r.value].polygon, p)
    ensures r.Some? ==> forall j :: 0 <= j < r.value ==> !Contains(zones[j].polygon, p)
    ensures r.None? ==> forall j :: 0 <= j < |zones| ==> !Contains(zones[j].polygon, p)
  {
    if |zones| == 0 then None
    else if Contains(zones[0].polygon, p) then Some(0)
    else match FirstContaining(zones[1..], p)
      case None => None
      case Some(i) => Some(i + 1)
  }

  function BoxCenterInZone(b: Box, zones: seq<Zone>): (r: Option<string>)
    ensures r.None? <==> forall j :: 0 <= j < |zones| ==> !Contains(zones[j].polygon, Center(b))
    ensures r.Some? ==> exists i :: (0 <= i < |zones| && zones[i].name == r.value
      && Contains(zones[i].polygon, Center(b))
      && forall j :: 0 <= j < i ==> !Contains(zones[j].polygon, Center(b)))
  {
    match FirstContaining(zones, Center(b))
    case None => None
    case Some(i) => Some(zones[i].name)
  }

  // ---------------------------------------------------------------------------
  // scale_zones: each vertex becomes (int(x * sx), int(y * sy)).
  // A factor is held exactly as a fraction with a positive denominator.
  // ---------------------------------------------------------------------------

  datatype Ratio = Ratio(num: int, den: int)
  type Scale = r: Ratio | r.den > 0 witness Ratio(1, 1)

  /** `live / ref` as computed before scaling; `None` where Python divides by zero. */
  function ScaleFactor(live: int, ref: int): (r: Option<Scale>)
    ensures r.Some? <==> ref != 0
    ensures r.Some? ==> r.value.num * ref == live * r.value.den
  {
    if ref == 0 then None
    else if ref > 0 then Some(Ratio(live, ref))
    else Some(Ratio(-live, -ref))
  }

  /** `int(v * s)`: the exact product truncated toward zero. */
  function ScaleCoord(v: int, s: Scale): int {
    TruncDiv(v * s.num, s.den)
  }

  function ScalePoint(p: Point, sx: Scale, sy: Scale): Point {
    Point(ScaleCoord(p.x, sx), ScaleCoord(p.y, sy))
  }

  function ScalePolygon(poly: seq<Point>, sx: Scale, sy: Scale): (r: seq<Point>)
    ensures |r| == |poly|
    ensures forall i :: 0 <= i < |poly| ==> r[i] == ScalePoint(poly[i], sx, sy)
  {
    seq(|poly|, i requires 0 <= i < |poly| => ScalePoint(poly[i], sx, sy))
  }

  function ScaleZones(zones: seq<Zone>, sx: Scale, sy: Scale): (r: seq<Zone>)
    ensures Names(r) == Names(zones)
    ensures forall i :: 0 <= i < |zones| ==> |r[i].polygon| == |zones[i].polygon|
    ensures forall i, j :: 0 <= i < |zones| && 0 <= j < |zones[i].polygon| ==>
      r[i].polygon[j] == Point(ScaleCoord(zones[i].polygon[j].x, sx), ScaleCoord(zones[i].polygon[j].y, sy))
  {
    seq(|zones|, i requires 0 <= i < |zones| => Zone(zones[i].name, ScalePolygon(zones[i].polygon, sx, sy)))
  }

  /**
   * `sx = frame_w / src_w`, `sy = frame_h / src_h`, then `scale_zones`; `None` where
   * Python would divide by zero.
   */
  function ScaleToFrame(zones: seq<Zone>, frameW: int, frameH: int, srcW: int, srcH: int)
    : (r: Option<seq<Zone>>)
    ensures r.None? <==> srcW == 0 || srcH == 0
    ensures r.Some? ==> Names(r.value) == Names(zones)
  {
    var sx, sy := ScaleFactor(frameW, srcW), ScaleFactor(frameH, srcH);
    if sx.Some? && sy.Some? then Some(ScaleZones(zones, sx.value, sy.value)) else None
  }

  /**
   * Each vertex of a scaled zone is `(int(x * frame_w / src_w), int(y * frame_h / src_h))`:
   * where those products are whole numbers `kx` and `ky`, the vertex lands exactly there.
   */
  lemma ScaleToFrameExact(zones: seq<Zone>, frameW: int, frameH: int, srcW: int, srcH: int,
                          i: nat, j: nat, kx: int, ky: int)
    requires srcW != 0 && srcH != 0
    requires i < |zones| && j < |zones[i].polygon|
    requires zones[i].polygon[j].x * frameW == kx * srcW
    requires zones[i].polygon[j].y * frameH == ky * srcH
    ensures ScaleToFrame(zones, frameW, frameH, srcW, srcH).Some?
    ensures ScaleToFrame(zones, frameW, frameH, srcW, srcH).value[i].polygon[j] == Point(kx, ky)
  {
    var v := zones[i].polygon[j];
    var sx, sy := ScaleFactor(frameW, srcW).value, ScaleFactor(frameH, srcH).value;
    assert v.x * sx.num == kx * sx.den by {
      if srcW < 0 { assert v.x * -frameW == -(v.x * frameW) && kx * -srcW == -(kx * srcW); }
    }
    assert v.y * sy.num == ky * sy.den by {
      if srcH < 0 { assert v.y * -frameH == -(v.y * frameH) && ky * -srcH == -(ky * srcH); }
    }
    ScaleExact(v.x, sx, kx);
    ScaleExact(v.y, sy, ky);
  }

  lemma ScalePreservesUniqueNames(zones: seq<Zone>, sx: Scale, sy: Scale)
    requires UniqueNames(zones)
    ensures UniqueNames(ScaleZones(zones, sx, sy))
  {
    var r := ScaleZones(zones, sx, sy);
    forall i, j | 0 <= i < j < |r| ensures r[i].name != r[j].name {
      assert Names(r)[i] == Names(zones)[i] && Names(r)[j] == Names(zones)[j];
    }
  }

  /** A factor equal to one (`num == den`) leaves every integer vertex where it is. */
  lemma ScaleByOneIsIdentity(zones: seq<Zone>, sx: Scale, sy: Scale)
    requires sx.num == sx.den && sy.num == sy.den
    ensures ScaleZones(zones, sx, sy) == zones
  {
    var r := ScaleZones(zones, sx, sy);
    forall i | 0 <= i < |zones| ensures r[i] == zones[i] {
      assert Names(r)[i] == Names(zones)[i];
      forall j | 0 <= j < |zones[i].polygon| ensures r[i].polygon[j] == zones[i].polygon[j] {
        var v := zones[i].polygon[j];
        ScaleExact(v.x, sx, v.x);
        ScaleExact(v.y, sy, v.y);
      }
    }
  }

  /** A live frame of the reference size leaves every zone exactly as defined. */
  lemma SameSizeKeepsZones(zones: seq<Zone>, w: int, h: int)
    requires w != 0 && h != 0
    ensures ScaleToFrame(zones, w, h, w, h) == Some(zones)
  {
    ScaleByOneIsIdentity(zones, ScaleFactor(w, w).value, ScaleFactor(h, h).value);
  }

  /**
   * Where the exact product `v * num / den` is a whole number `k`, scaling yields
   * exactly `k`: a point at a whole fraction of the reference maps without error.
   */
  lemma ScaleExact(v: int, s: Scale, k: int)
    requires v * s.num == k * s.den
    ensures ScaleCoord(v, s) == k
  {
    var q, d := ScaleCoord(v, s), s.den;
    assert (q + 1) * d == q * d + d && (q - 1) * d == q * d - d;
    if q < k {
      MulMonotone(q + 1, k, d);
      MulMonotone(q, k, d);
    } else if q > k {
      MulMonotone(k, q - 1, d);
      MulMonotone(k, q, d);
    }
  }
}
