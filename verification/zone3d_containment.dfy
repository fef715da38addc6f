/**
 * Spatial containment for 3D-zone parameter mapping
 * (lib/zone3d/containment.py).
 *
 * Host geometry is not modelled: point-in-room/space, bounding-box
 * containment and point-in-solid are predicates supplied in an `Oracle`;
 * curve evaluation and boundary-loop closure are fields of the element
 * records. What is modelled is the code's control: which points are
 * checked, in which order zones are searched, and how the module-level
 * geometry cache is consulted and filled.
 */
module Containment {
  import opened Common
  import Sorting

  // ------------------------------------------------------------ geometry values

  datatype Point = Point(x: real, y: real, z: real)

  function Plus(a: Point, b: Point): Point { Point(a.x + b.x, a.y + b.y, a.z + b.z) }
  function Minus(a: Point, b: Point): Point { Point(a.x - b.x, a.y - b.y, a.z - b.z) }
  function Scale(a: Point, k: real): Point { Point(a.x * k, a.y * k, a.z * k) }

  /** `(a + b) / 2.0`. */
  function Mid(a: Point, b: Point): Point { Scale(Plus(a, b), 0.5) }

  /** `start + (end - start) * t`. */
  function Lerp(a: Point, b: Point, t: real): Point { Plus(a, Scale(Minus(b, a), t)) }

  datatype BBox = BBox(min: Point, max: Point)

  function Center(b: BBox): Point { Mid(b.min, b.max) }

  /** A solid: an extruded area boundary, or a solid found in element geometry. */
  datatype Solid = Extrusion(areaId: int, height: real) | NativeSolid(ref: int)

  /** The host geometry predicates the code calls but does not define. */
  datatype Oracle = Oracle(
    bboxContains: (BBox, Point) -> bool,  // bbox.Contains / BoundingBoxContainsPointFilter
    inSolid: (Solid, Point) -> bool,      // is_point_inside_solid_optimized
    inRoom: (int, Point) -> bool,         // Room.IsPointInRoom
    inSpace: (int, Point) -> bool)        // Space.IsPointInSpace

  /** BuiltInCategory values the containment code distinguishes. */
  datatype Category = Rooms | MEPSpaces | Areas | Mass | GenericModel | OtherCategory(code: int)

  // ------------------------------------------------------------ strategy

  /** detect_containment_strategy: the fastest supported source category wins. */
  function DetectStrategy(cats: seq<Category>): (r: Option<string>)
    ensures cats == [] ==> r == None
    ensures r == Some("room") <==> Rooms in cats
    ensures r == Some("space") <==> Rooms !in cats && MEPSpaces in cats
    ensures r == Some("area") <==> Rooms !in cats && MEPSpaces !in cats && Areas in cats
    ensures r == Some("element") <==>
      Rooms !in cats && MEPSpaces !in cats && Areas !in cats && (Mass in cats || GenericModel in cats)
  {
    if cats == [] then None
    else if Rooms in cats then Some("room")
    else if MEPSpaces in cats then Some("space")
    else if Areas in cats then Some("area")
    else if Mass in cats || GenericModel in cats then Some("element")
    else None
  }

  /** The strategy, when there is one, names a category the configuration lists. */
  lemma StrategyNeedsCategory(cats: seq<Category>)
    ensures DetectStrategy(cats) == None <==>
      forall c :: c in cats ==> c.OtherCategory?
  {
    if DetectStrategy(cats) == None {
      forall c | c in cats ensures c.OtherCategory? {
        assert c != Rooms && c != MEPSpaces && c != Areas && c != Mass && c != GenericModel;
      }
    }
  }

  // ------------------------------------------------------------ targets and test points

  /**
   * A location curve. `evaluate(t)` is `Evaluate(t, True)` (None when it
   * throws), `ends` the two end points (None when GetEndPoint throws), and
   * `perp` the normalised perpendicular of the end-to-end direction.
   */
  datatype Curve = Curve(evaluate: real -> Option<Point>, ends: Option<(Point, Point)>, perp: Option<Point>)

  datatype Location = NoLocation | PointLocation(p: Point) | CurveLocation(curve: Option<Curve>) | OtherLocation

  /** A target element: whether it is an Area, its bounding box, location and level. */
  datatype Target = Target(id: int, isArea: bool, bbox: Option<BBox>, location: Location, levelId: Option<int>)

  function CenterOf(b: Option<BBox>): (r: seq<Point>)
    ensures |r| <= 1
  {
    if b.Some? then [Center(b.value)] else []
  }

  /** One of the points along a curve: Evaluate, else interpolate the ends, else skipped. */
  function CurvePoint(c: Curve, t: real): (r: Option<Point>)
    ensures c.evaluate(t).Some? ==> r == c.evaluate(t)
    ensures c.evaluate(t).None? && c.ends.Some? ==> r == Some(Lerp(c.ends.value.0, c.ends.value.1, t))
    ensures c.evaluate(t).None? && c.ends.None? ==> r == None
  {
    match c.evaluate(t)
    case Some(p) => Some(p)
    case None =>
      match c.ends
      case Some(e) => Some(Lerp(e.0, e.1, t))
      case None => None
  }

  function OptList(o: Option<Point>): seq<Point>
  {
    if o.Some? then [o.value] else []
  }

  /** The midpoint offset 0.1 to either side of the curve (both or neither). */
  function Offsets(c: Curve): (r: seq<Point>)
    ensures |r| == 0 || |r| == 2
  {
    match (c.ends, c.perp)
    case (Some(e), Some(n)) =>
      var m := Mid(e.0, e.1);
      [Plus(m, Scale(n, 0.1)), Minus(m, Scale(n, 0.1))]
    case _ => []
  }

  const CurveParams: seq<real> := [0.25, 0.5, 0.75]

  /** get_element_test_points as a value. */
  function TestPoints(t: Target): (r: seq<Point>)
  {
    if t.isArea then CenterOf(t.bbox)
    else match t.location
      case NoLocation => CenterOf(t.bbox)
      case PointLocation(p) => [p]
      case CurveLocation(c) =>
        var pts := if c.Some? then CurvePoints(c.value, CurveParams) + Offsets(c.value) else [];
        if pts == [] then CenterOf(t.bbox) else pts
      case OtherLocation => CenterOf(t.bbox)
  }

  function CurvePoints(c: Curve, ts: seq<real>): (r: seq<Point>)
    ensures |r| <= |ts|
  {
    if ts == [] then [] else OptList(CurvePoint(c, ts[0])) + CurvePoints(c, ts[1..])
  }

  /** Peeling one parameter off the front of a suffix. */
  lemma CurvePointsFrom(c: Curve, ts: seq<real>, i: int)
    requires 0 <= i < |ts|
    ensures CurvePoints(c, ts[i..]) == OptList(CurvePoint(c, ts[i])) + CurvePoints(c, ts[i + 1..])
  {
    assert ts[i..][0] == ts[i] && ts[i..][1..] == ts[i + 1..];
  }

  /**
   * The curve part of get_element_test_points: the loop over
   * t = 0.25, 0.5, 0.75 appends the points that could be computed, then the
   * two offset points.
   */
  method CurveTestPoints(curve: Curve) returns (points: seq<Point>)
    ensures points == CurvePoints(curve, CurveParams) + Offsets(curve)
  {
    points := CurvePointsAt(curve, CurveParams);
    points := points + Offsets(curve);
  }

  /** The `for t in [0.25, 0.5, 0.75]` loop, over any list of parameters. */
  method CurvePointsAt(curve: Curve, ts: seq<real>) returns (points: seq<Point>)
    ensures points == CurvePoints(curve, ts)
  {
    points := [];
    var i := 0;
    while i < |ts|
      invariant 0 <= i <= |ts|
      invariant points + CurvePoints(curve, ts[i..]) == CurvePoints(curve, ts)
    {
      var pt := CurvePoint(curve, ts[i]);
      CurvePointsFrom(curve, ts, i);
      if pt.Some? {
        points := points + [pt.value];
      }
      i := i + 1;
    }
  }

  /** get_element_test_points. */
  method GetElementTestPoints(t: Target) returns (points: seq<Point>)
    ensures points == TestPoints(t)
  {
    points := [];
    if !t.isArea && t.location.PointLocation? {
      return [t.location.p];
    }
    if !t.isArea && t.location.CurveLocation? && t.location.curve.Some? {
      points := CurveTestPoints(t.location.curve.value);
    }
    if points == [] && t.bbox.Some? {
      points := [Center(t.bbox.value)];
    }
  }

  /** Test points by location kind (lines 145-199): at most five, and none only without a bounding box. */
  lemma TestPointsByKind(t: Target)
    ensures t.isArea ==> TestPoints(t) == CenterOf(t.bbox)
    ensures !t.isArea && t.location.PointLocation? ==> TestPoints(t) == [t.location.p]
    ensures |TestPoints(t)| <= 5
    ensures TestPoints(t) == [] ==> t.bbox.None?
  {
    if !t.isArea && t.location.CurveLocation? && t.location.curve.Some? {
      var c := t.location.curve.value;
      assert |CurvePoints(c, CurveParams)| <= 3;
      assert |Offsets(c)| <= 2;
    }
  }

  /** A curve whose evaluation succeeds everywhere, with end points, yields five points. */
  lemma FullCurveYieldsFive(t: Target)
    requires !t.isArea && t.location.CurveLocation? && t.location.curve.Some?
    requires var c := t.location.curve.value;
      c.evaluate(0.25).Some? && c.evaluate(0.5).Some? && c.evaluate(0.75).Some? &&
      c.ends.Some? && c.perp.Some?
    ensures |TestPoints(t)| == 5
    ensures TestPoints(t)[1] == t.location.curve.value.evaluate(0.5).value
  {
    var c := t.location.curve.value;
    assert CurveParams[1..] == [0.5, 0.75] && CurveParams[1..][1..] == [0.75] && CurveParams[1..][1..][1..] == [];
    assert CurvePoints(c, [0.75]) == [c.evaluate(0.75).value];
    assert CurvePoints(c, [0.5, 0.75]) == [c.evaluate(0.5).value, c.evaluate(0.75).value];
    assert |CurvePoints(c, CurveParams)| == 3;
  }

  /** get_element_representative_point (used by the element strategy). */
  function RepresentativePoint(t: Target): (r: Option<Point>)
    ensures t.isArea ==> (r.Some? <==> t.bbox.Some?)
    ensures !t.isArea && t.location.PointLocation? ==> r == Some(t.location.p)
    ensures r.None? ==> t.bbox.None?
  {
    if t.isArea then (if t.bbox.Some? then Some(Center(t.bbox.value)) else None)
    else
      var fromLoc := match t.location
        case PointLocation(p) => Some(p)
        case CurveLocation(c) => if c.Some? then CurvePoint(c.value, 0.5) else None
        case _ => None;
      if fromLoc.Some? then fromLoc
      else if t.bbox.Some? then Some(Center(t.bbox.value))
      else None
  }

  // ------------------------------------------------------------ room / space search

  /** Association list standing for the `*_by_level` dicts (insertion order). */
  type ByLevel<Z> = seq<(int, seq<Z>)>

  /** `by_level.get(level, [])`. */
  function LevelZones<Z>(byLevel: ByLevel<Z>, level: int): (r: seq<Z>)
    ensures forall z :: z in r ==> z in AllZones(byLevel)
  {
    if byLevel == [] then []
    else if byLevel[0].0 == level then byLevel[0].1
    else LevelZones(byLevel[1..], level)
  }

  /** The zones of every level, in the order `by_level.values()` yields them. */
  function AllZones<Z>(byLevel: ByLevel<Z>): seq<Z>
  {
    if byLevel == [] then [] else byLevel[0].1 + AllZones(byLevel[1..])
  }

  /** `holds(z, p)`, named so that quantifiers over zones have a trigger. */
  predicate Holds(holds: (int, Point) -> bool, z: int, p: Point)
  {
    holds(z, p)
  }

  /** Point-major first hit: for each point in order, the first zone that holds it. */
  function FirstHit(pts: seq<Point>, zones: seq<int>, holds: (int, Point) -> bool): (r: Option<int>)
    ensures r.Some? ==> r.value in zones && exists p :: p in pts && Holds(holds, r.value, p)
    ensures r.None? <==> forall p, z :: p in pts && z in zones ==> !Holds(holds, z, p)
  {
    if pts == [] then None
    else
      assert pts == [pts[0]] + pts[1..];
      var h := FirstZone(pts[0], zones, holds);
      if h.Some? then h else FirstHit(pts[1..], zones, holds)
  }

  function FirstZone(p: Point, zones: seq<int>, holds: (int, Point) -> bool): (r: Option<int>)
    ensures r.Some? ==> r.value in zones && Holds(holds, r.value, p)
    ensures r.None? <==> forall z :: z in zones ==> !Holds(holds, z, p)
  {
    if zones == [] then None
    else
      assert zones == [zones[0]] + zones[1..];
      if Holds(holds, zones[0], p) then
        assert zones[0] in zones;
        Some(zones[0])
      else FirstZone(p, zones[1..], holds)
  }

  /** The zone found for one point is the first zone in list order that holds it. */
  lemma {:induction false} FirstZoneIsFirst(p: Point, zones: seq<int>, holds: (int, Point) -> bool)
    ensures FirstZone(p, zones, holds).Some? ==>
      exists j :: 0 <= j < |zones| && zones[j] == FirstZone(p, zones, holds).value &&
        forall k :: 0 <= k < j ==> !Holds(holds, zones[k], p)
  {
    if zones != [] && !Holds(holds, zones[0], p) {
      FirstZoneIsFirst(p, zones[1..], holds);
      if FirstZone(p, zones, holds).Some? {
        var j :| 0 <= j < |zones[1..]| && zones[1..][j] == FirstZone(p, zones, holds).value &&
          forall k :: 0 <= k < j ==> !Holds(holds, zones[1..][k], p);
        assert zones[j + 1] == FirstZone(p, zones, holds).value;
        forall k | 0 <= k < j + 1 ensures !Holds(holds, zones[k], p) {
          if k > 0 { assert zones[k] == zones[1..][k - 1]; }
        }
      }
    } else if zones != [] {
      assert zones[0] == FirstZone(p, zones, holds).value;
    }
  }

  /** Points are tried in order: the hit comes from the first point any zone holds. */
  lemma {:induction false} FirstHitIsFirst(pts: seq<Point>, zones: seq<int>, holds: (int, Point) -> bool)
    ensures FirstHit(pts, zones, holds).Some? ==>
      exists i :: 0 <= i < |pts| && FirstHit(pts, zones, holds) == FirstZone(pts[i], zones, holds) &&
        forall k, z :: 0 <= k < i && z in zones ==> !Holds(holds, z, pts[k])
  {
    if pts != [] && FirstZone(pts[0], zones, holds).None? {
      FirstHitIsFirst(pts[1..], zones, holds);
      if FirstHit(pts, zones, holds).Some? {
        var i :| 0 <= i < |pts[1..]| && FirstHit(pts, zones, holds) == FirstZone(pts[1..][i], zones, holds) &&
          forall k, z :: 0 <= k < i && z in zones ==> !Holds(holds, z, pts[1..][k]);
        assert pts[i + 1] == pts[1..][i];
        NoHitBefore(pts, zones, holds, i);
      }
    } else if pts != [] {
      assert FirstHit(pts, zones, holds) == FirstZone(pts[0], zones, holds);
    }
  }

  lemma NoHitBefore(pts: seq<Point>, zones: seq<int>, holds: (int, Point) -> bool, i: int)
    requires 0 <= i < |pts| - 1 && FirstZone(pts[0], zones, holds).None?
    requires forall k, z :: 0 <= k < i && z in zones ==> !Holds(holds, z, pts[1..][k])
    ensures forall k, z :: 0 <= k < i + 1 && z in zones ==> !Holds(holds, z, pts[k])
  {
    forall k, z | 0 <= k < i + 1 && z in zones ensures !Holds(holds, z, pts[k]) {
      if k > 0 { assert pts[k] == pts[1..][k - 1]; }
    }
  }

  /** get_containing_room / get_containing_space as a value. */
  function ZoneSearch(pts: seq<Point>, level: Option<int>, byLevel: ByLevel<int>, holds: (int, Point) -> bool): Option<int>
  {
    if pts == [] then None
    else
      var same := if level.Some? then FirstHit(pts, LevelZones(byLevel, level.value), holds) else None;
      if same.Some? then same else FirstHit(pts, AllZones(byLevel), holds)
  }

  /**
   * The room/space search returns a zone from the supplied lists that holds
   * one of the test points, prefers the element's own level, and returns
   * None exactly when no listed zone holds any test point.
   */
  lemma {:induction false} ZoneSearchSound(pts: seq<Point>, level: Option<int>, byLevel: ByLevel<int>, holds: (int, Point) -> bool)
    ensures var r := ZoneSearch(pts, level, byLevel, holds);
      (r.Some? ==> r.value in AllZones(byLevel) && exists p :: p in pts && Holds(holds, r.value, p)) &&
      (r.None? <==> forall p, z :: p in pts && z in AllZones(byLevel) ==> !Holds(holds, z, p)) &&
      (level.Some? && FirstHit(pts, LevelZones(byLevel, level.value), holds).Some? ==>
         r == FirstHit(pts, LevelZones(byLevel, level.value), holds))
  {
    var r := ZoneSearch(pts, level, byLevel, holds);
    if pts != [] && level.Some? {
      var same := FirstHit(pts, LevelZones(byLevel, level.value), holds);
      if same.Some? {
        assert same.value in LevelZones(byLevel, level.value);
        var p :| p in pts && Holds(holds, same.value, p);
      }
    }
  }

  /**
   * get_containing_room / get_containing_space: test points first, then
   * same-level zones point by point, then every zone point by point, first
   * hit wins.
   */
  method GetContainingZone(t: Target, byLevel: ByLevel<int>, holds: (int, Point) -> bool) returns (r: Option<int>)
    ensures r == ZoneSearch(TestPoints(t), t.levelId, byLevel, holds)
  {
    var pts := GetElementTestPoints(t);
    if pts == [] {
      return None;
    }
    if t.levelId.Some? {
      r := ScanPointsZones(pts, LevelZones(byLevel, t.levelId.value), holds);
      if r.Some? {
        return;
      }
    }
    r := ScanPointsZones(pts, AllZones(byLevel), holds);
  }

  /** The nested `for point ... for zone ...` loop with early return. */
  method ScanPointsZones(pts: seq<Point>, zones: seq<int>, holds: (int, Point) -> bool) returns (r: Option<int>)
    ensures r == FirstHit(pts, zones, holds)
  {
    var i := 0;
    while i < |pts|
      invariant 0 <= i <= |pts|
      invariant FirstHit(pts, zones, holds) == FirstHit(pts[i..], zones, holds)
    {
      assert pts[i..][0] == pts[i] && pts[i..][1..] == pts[i + 1..];
      r := ScanZones(pts[i], zones, holds);
      if r.Some? {
        return;
      }
      i := i + 1;
    }
    return None;
  }

  /** The inner `for zone ...` loop for one point. */
  method ScanZones(p: Point, zones: seq<int>, holds: (int, Point) -> bool) returns (r: Option<int>)
    ensures r == FirstZone(p, zones, holds)
  {
    var j := 0;
    while j < |zones|
      invariant 0 <= j <= |zones|
      invariant FirstZone(p, zones, holds) == FirstZone(p, zones[j..], holds)
    {
      assert zones[j..][0] == zones[j] && zones[j..][1..] == zones[j + 1..];
      if holds(zones[j], p) {
        return Some(zones[j]);
      }
      j := j + 1;
    }
    return None;
  }

  // ------------------------------------------------------------ areas: solid creation

  /** A boundary segment: whether GetCurve gave a curve and whether CurveLoop.Append accepted it. */
  datatype Segment = Segment(hasCurve: bool, appends: bool)

  /**
   * An Area source: its boundary loops, the elevation of its level (None
   * when neither LevelId nor the "Level" parameter resolves), its bounding
   * box, whether the appended loop is closed and whether extrusion succeeds.
   */
  datatype AreaSource = AreaSource(
    id: int, boundary: seq<seq<Segment>>, levelElevation: Option<real>,
    bbox: Option<BBox>, loopClosed: bool, extrusionOk: bool)

  /** The first elevation above `base` in a list sorted ascending. */
  function FirstAbove(levels: seq<real>, base: real): (r: Option<real>)
    ensures r.Some? ==> r.value in levels && r.value > base
    ensures r.None? <==> forall e :: e in levels ==> e <= base
  {
    if levels == [] then None
    else
      assert levels == [levels[0]] + levels[1..];
      if levels[0] > base then Some(levels[0])
      else FirstAbove(levels[1..], base)
  }

  function AscLe(a: real, b: real): bool { a <= b }

  /** Extrusion height (lines 311-323): to the next level strictly above, else 10. */
  function ExtrusionHeight(base: real, levels: seq<real>): real
  {
    var top := match FirstAbove(Sorting.Sort(levels, AscLe), base)
      case Some(e) => e
      case None => base + 10.0;
    var h := top - base;
    if h <= 0.0 then 10.0 else h
  }

  lemma {:induction false} FirstAboveSortedIsLowest(levels: seq<real>, base: real)
    requires Sorting.Sorted(levels, AscLe)
    ensures FirstAbove(levels, base).Some? ==>
      forall e :: e in levels && e > base ==> FirstAbove(levels, base).value <= e
  {
    if levels != [] {
      assert levels == [levels[0]] + levels[1..];
      if levels[0] <= base {
        assert Sorting.Sorted(levels[1..], AscLe);
        FirstAboveSortedIsLowest(levels[1..], base);
      } else {
        forall e | e in levels && e > base ensures levels[0] <= e {
          var j :| 0 <= j < |levels| && levels[j] == e;
          if j > 0 { assert AscLe(levels[0], levels[j]); }
        }
      }
    }
  }

  /**
   * The height is the distance to the lowest level strictly above the base,
   * or 10.0 when there is none; it is always positive, so the `height <= 0`
   * fallback never fires.
   */
  lemma ExtrusionHeightIsNextLevel(base: real, levels: seq<real>)
    ensures ExtrusionHeight(base, levels) > 0.0
    ensures (forall e :: e in levels ==> e <= base) ==> ExtrusionHeight(base, levels) == 10.0
    ensures forall e :: e in levels && e > base ==>
      ExtrusionHeight(base, levels) <= e - base &&
      exists top :: top in levels && top > base && ExtrusionHeight(base, levels) == top - base
  {
    var sorted := Sorting.Sort(levels, AscLe);
    Sorting.SortSorted(levels, AscLe);
    FirstAboveSortedIsLowest(sorted, base);
    forall e | e in levels ensures e in sorted {
      assert e in multiset(levels);
    }
    forall e | e in sorted ensures e in levels {
      assert e in multiset(sorted);
    }
  }

  /** Curves appended from the first loop; None when an Append throws. */
  function AppendLoop(segs: seq<Segment>): (r: Option<nat>)
    ensures r.Some? ==> r.value <= |segs|
  {
    if segs == [] then Some(0)
    else if !segs[0].hasCurve then AppendLoop(segs[1..])
    else if !segs[0].appends then None
    else match AppendLoop(segs[1..])
      case None => None
      case Some(n) => Some(n + 1)
  }

  /** _create_solid_from_area. */
  function CreateSolidFromArea(a: AreaSource, levels: seq<real>): (r: Option<Solid>)
    ensures r.Some? ==> a.boundary != [] && a.boundary[0] != [] && a.levelElevation.Some? && a.loopClosed
    ensures r.Some? ==> r == Some(Extrusion(a.id, ExtrusionHeight(a.levelElevation.value, levels)))
  {
    if a.boundary == [] || a.boundary[0] == [] then None
    else if a.levelElevation.None? then None
    else
      var h := ExtrusionHeight(a.levelElevation.value, levels);
      var appended := AppendLoop(a.boundary[0]);
      if appended.None? then None
      else if !a.loopClosed then None
      else if appended.value == 0 then None
      else if !a.extrusionOk then None
      else Some(Extrusion(a.id, h))
  }

  /** Only the first boundary loop matters; an empty or curve-less first loop gives no solid. */
  lemma SolidUsesFirstLoopOnly(a: AreaSource, rest: seq<seq<Segment>>, levels: seq<real>)
    requires a.boundary != []
    ensures CreateSolidFromArea(a.(boundary := [a.boundary[0]] + rest), levels) == CreateSolidFromArea(a, levels)
    ensures AppendLoop(a.boundary[0]) == Some(0) ==> CreateSolidFromArea(a, levels) == None
  {
  }

  // ------------------------------------------------------------ the geometry cache

  /** `{"solid": ..., "bbox": ...}` with the optional `"failed": True` marker. */
  datatype CacheEntry = CacheEntry(solid: Option<Solid>, bbox: Option<BBox>, failed: bool)

  type Cache = map<int, CacheEntry>

  /** Entries are only ever added: nothing cached is removed or changed. */
  predicate Extends(c0: Cache, c1: Cache)
  {
    forall k :: k in c0 ==> k in c1 && c1[k] == c0[k]
  }

  /** is_point_in_area: its answer and the cache it leaves. */
  function AreaTest(c: Cache, a: AreaSource, p: Point, levels: seq<real>, g: Oracle): (r: (bool, Cache))
    ensures Extends(c, r.1)
    ensures r.1.Keys <= c.Keys + {a.id}
  {
    if a.id in c then
      var e := c[a.id];
      if e.solid.None? && e.failed then (false, c)
      else if e.bbox.Some? && !g.bboxContains(e.bbox.value, p) then (false, c)
      else if e.solid.Some? then (g.inSolid(e.solid.value, p), c)
      else (false, c)
    else if a.bbox.Some? && !g.bboxContains(a.bbox.value, p) then (false, c)
    else
      match CreateSolidFromArea(a, levels)
      case None => (false, c[a.id := CacheEntry(None, a.bbox, true)])
      case Some(s) => (g.inSolid(s, p), c[a.id := CacheEntry(Some(s), a.bbox, false)])
  }

  /**
   * Cache rules of is_point_in_area (lines 440-445, 452-462): a failed entry
   * answers False, a cached box that misses the point answers False without
   * a solid test, a box that misses on first sight caches nothing, and a
   * failed creation is cached so it is never retried.
   */
  lemma AreaCacheRules(c: Cache, a: AreaSource, p: Point, q: Point, levels: seq<real>, g: Oracle)
    ensures a.id in c && c[a.id].failed && c[a.id].solid.None? ==> AreaTest(c, a, p, levels, g) == (false, c)
    ensures a.id in c && c[a.id].bbox.Some? && !g.bboxContains(c[a.id].bbox.value, p) ==>
      AreaTest(c, a, p, levels, g) == (false, c)
    ensures a.id !in c && a.bbox.Some? && !g.bboxContains(a.bbox.value, p) ==>
      AreaTest(c, a, p, levels, g).1 == c
    ensures (a.id !in c && (a.bbox.None? || g.bboxContains(a.bbox.value, p)) &&
      CreateSolidFromArea(a, levels).None?) ==>
      var c1 := AreaTest(c, a, p, levels, g).1;
      c1[a.id].failed && AreaTest(c1, a, q, levels, g) == (false, c1)
  {
  }

  /** Is this area cached as failed? */
  predicate FailedIn(c: Cache, id: int)
  {
    id in c && c[id].failed
  }

  /** Scan (point, area) pairs in order, skipping failed areas, first hit wins. */
  function ScanAreas(c: Cache, pairs: seq<(Point, AreaSource)>, levels: seq<real>, g: Oracle): (r: (Option<AreaSource>, Cache))
    ensures Extends(c, r.1)
    ensures r.0.Some? ==> exists k :: 0 <= k < |pairs| && pairs[k].1 == r.0.value
    ensures r.0.Some? ==> !FailedIn(c, r.0.value.id)
    decreases |pairs|
  {
    if pairs == [] then (None, c)
    else
      var p := pairs[0].0;
      var a := pairs[0].1;
      if FailedIn(c, a.id) then
        var r := ScanAreas(c, pairs[1..], levels, g);
        assert r.0.Some? ==> exists k :: 0 <= k < |pairs| && pairs[k].1 == r.0.value by {
          if r.0.Some? {
            var k :| 0 <= k < |pairs[1..]| && pairs[1..][k].1 == r.0.value;
            assert pairs[k + 1].1 == r.0.value;
          }
        }
        r
      else
        var t := AreaTest(c, a, p, levels, g);
        if t.0 then (Some(a), t.1)
        else
          var r := ScanAreas(t.1, pairs[1..], levels, g);
          assert r.0.Some? ==> exists k :: 0 <= k < |pairs| && pairs[k].1 == r.0.value by {
            if r.0.Some? {
              var k :| 0 <= k < |pairs[1..]| && pairs[1..][k].1 == r.0.value;
              assert pairs[k + 1].1 == r.0.value;
            }
          }
          r
  }

  /** `for point in pts: for area in areas:` as a sequence of pairs. */
  function Pairs(pts: seq<Point>, areas: seq<AreaSource>): (r: seq<(Point, AreaSource)>)
    ensures |r| == |pts| * |areas|
    ensures forall k :: 0 <= k < |r| ==> r[k].0 in pts && r[k].1 in areas
  {
    if pts == [] then [] else PairsWith(pts[0], areas) + Pairs(pts[1..], areas)
  }

  function PairsWith(p: Point, areas: seq<AreaSource>): (r: seq<(Point, AreaSource)>)
    ensures |r| == |areas|
    ensures forall k :: 0 <= k < |r| ==> r[k] == (p, areas[k])
  {
    if areas == [] then [] else [(p, areas[0])] + PairsWith(p, areas[1..])
  }

  /** get_containing_area as a value: the area found and the cache left behind. */
  function AreaSearch(c: Cache, pts: seq<Point>, level: Option<int>, byLevel: ByLevel<AreaSource>,
                      levels: seq<real>, g: Oracle): (r: (Option<AreaSource>, Cache))
  {
    if pts == [] then (None, c)
    else
      var same := if level.Some? then LevelZones(byLevel, level.value) else [];
      var first := if level.Some? then ScanAreas(c, Pairs(pts, same), levels, g) else (None, c);
      if first.0.Some? then first
      else if level.None? || |Pairs(pts, same)| == 0 then
        ScanAreas(first.1, Pairs(pts, AllZones(byLevel)), levels, g)
      else (None, first.1)
  }

  /**
   * The area search (lines 743-783) returns an area from the supplied lists
   * that was not cached as failed, leaves every earlier cache entry intact,
   * and falls back to other levels only when the target has no level or no
   * area on its level was checked.
   */
  lemma AreaSearchRules(c: Cache, pts: seq<Point>, level: Option<int>, byLevel: ByLevel<AreaSource>,
                        levels: seq<real>, g: Oracle)
    ensures var r := AreaSearch(c, pts, level, byLevel, levels, g);
      Extends(c, r.1) &&
      (r.0.Some? ==> r.0.value in AllZones(byLevel) && !FailedIn(c, r.0.value.id)) &&
      (pts == [] ==> r == (None, c))
    ensures level.Some? && pts != [] && LevelZones(byLevel, level.value) != [] ==>
      var r := AreaSearch(c, pts, level, byLevel, levels, g);
      r.0.Some? ==> r.0.value in LevelZones(byLevel, level.value)
  {
    var r := AreaSearch(c, pts, level, byLevel, levels, g);
    if pts != [] && level.Some? && LevelZones(byLevel, level.value) != [] {
      MulPositive(|pts|, |LevelZones(byLevel, level.value)|);
    }
    if pts != [] {
      var same := if level.Some? then LevelZones(byLevel, level.value) else [];
      var first := if level.Some? then ScanAreas(c, Pairs(pts, same), levels, g) else (None, c);
      if first.0.Some? {
        var k :| 0 <= k < |Pairs(pts, same)| && Pairs(pts, same)[k].1 == first.0.value;
      } else if level.None? || |Pairs(pts, same)| == 0 {
        var second := ScanAreas(first.1, Pairs(pts, AllZones(byLevel)), levels, g);
        if second.0.Some? {
          var k :| 0 <= k < |Pairs(pts, AllZones(byLevel))| && Pairs(pts, AllZones(byLevel))[k].1 == second.0.value;
          assert !FailedIn(first.1, second.0.value.id);
        }
      }
    }
  }

  lemma MulPositive(a: nat, b: nat)
    requires a >= 1 && b >= 1
    ensures a * b >= 1
  {
    assert a * b >= 1 * b;
  }

  // ------------------------------------------------------------ mass / generic model elements

  /** A geometry object: a plain object with an optional Volume, or a GeometryInstance. */
  datatype SolidObj = SolidObj(volume: Option<real>, solid: Solid)
  datatype GeomObj = Plain(obj: SolidObj) | Instance(inner: seq<SolidObj>)

  predicate Positive(o: SolidObj) { o.volume.Some? && o.volume.value > 0.0 }

  /** A Mass/Generic Model source element. */
  datatype MassSource = MassSource(id: int, category: Category, bbox: Option<BBox>, geometry: Option<seq<GeomObj>>)

  function FirstPositive(objs: seq<SolidObj>): (r: Option<Solid>)
    ensures r.Some? <==> exists o :: o in objs && Positive(o)
  {
    if objs == [] then None
    else if Positive(objs[0]) then Some(objs[0].solid)
    else FirstPositive(objs[1..])
  }

  /**
   * The solid the extraction loop (lines 549-560, 928-938) ends with: the
   * inner `break` leaves only the inner loop, so each GeometryInstance with a
   * positive solid overwrites `solid`, and only a plain positive object stops
   * the scan.
   */
  function ExtractedSolid(geom: seq<GeomObj>, sofar: Option<Solid>): Option<Solid>
  {
    if geom == [] then sofar
    else match geom[0]
      case Plain(o) => if Positive(o) then Some(o.solid) else ExtractedSolid(geom[1..], sofar)
      case Instance(inner) =>
        var f := FirstPositive(inner);
        ExtractedSolid(geom[1..], if f.Some? then f else sofar)
  }

  /** The extraction loop itself. */
  method ExtractSolid(geom: seq<GeomObj>) returns (solid: Option<Solid>)
    ensures solid == ExtractedSolid(geom, None)
  {
    solid := None;
    var i := 0;
    while i < |geom|
      invariant 0 <= i <= |geom|
      invariant ExtractedSolid(geom[i..], solid) == ExtractedSolid(geom, None)
    {
      assert geom[i..][1..] == geom[i + 1..];
      match geom[i] {
        case Instance(inner) =>
          var j := 0;
          while j < |inner|
            invariant 0 <= j <= |inner|
            invariant FirstPositive(inner) == FirstPositive(inner[j..])
          {
            assert inner[j..][1..] == inner[j + 1..];
            if Positive(inner[j]) {
              solid := Some(inner[j].solid);
              break;
            }
            j := j + 1;
          }
        case Plain(o) =>
          if Positive(o) {
            solid := Some(o.solid);
            return;
          }
      }
      i := i + 1;
    }
  }

  /** The solid one geometry object contributes on its own. */
  function SolidOf(o: GeomObj): Option<Solid>
  {
    match o
    case Plain(s) => if Positive(s) then Some(s.solid) else None
    case Instance(inner) => FirstPositive(inner)
  }

  /** What the comment "Get first solid" asks for: the first object in scan order that yields a solid. */
  function FirstSolid(geom: seq<GeomObj>): Option<Solid>
  {
    if geom == [] then None
    else if SolidOf(geom[0]).Some? then SolidOf(geom[0])
    else FirstSolid(geom[1..])
  }

  /** Two instances that both carry a solid: the loop as written keeps the second. */
  lemma ExtractKeepsLastInstance(s1: Solid, s2: Solid)
    requires s1 != s2
    ensures var geom := [Instance([SolidObj(Some(1.0), s1)]), Instance([SolidObj(Some(1.0), s2)])];
      ExtractedSolid(geom, None) == Some(s2) && SolidOf(geom[0]) == Some(s1) && FirstSolid(geom) == Some(s1)
  {
    var o1 := SolidObj(Some(1.0), s1);
    var o2 := SolidObj(Some(1.0), s2);
    var geom := [Instance([o1]), Instance([o2])];
    assert FirstPositive([o1]) == Some(s1) && FirstPositive([o2]) == Some(s2);
    assert geom[1..] == [Instance([o2])] && geom[1..][1..] == [];
    assert ExtractedSolid(geom[1..], Some(s1)) == ExtractedSolid([], Some(s2));
  }

  /**
   * The first solid is the solid of the first object that has one, and None
   * only when no object has one.
   */
  lemma {:induction false} FirstSolidIsFirst(geom: seq<GeomObj>)
    ensures FirstSolid(geom).None? <==> forall k :: 0 <= k < |geom| ==> SolidOf(geom[k]).None?
    ensures FirstSolid(geom).Some? ==>
      exists k :: 0 <= k < |geom| && SolidOf(geom[k]) == FirstSolid(geom) && (forall j :: 0 <= j < k ==> SolidOf(geom[j]).None?)
  {
    if geom != [] {
      var t := geom[1..];
      FirstSolidIsFirst(t);
      assert forall k :: 0 < k < |geom| ==> geom[k] == t[k - 1];
      if SolidOf(geom[0]).None? && FirstSolid(t).Some? {
        var k :| 0 <= k < |t| && SolidOf(t[k]) == FirstSolid(t) && (forall j :: 0 <= j < k ==> SolidOf(t[j]).None?);
        assert SolidOf(geom[k + 1]) == FirstSolid(geom);
        forall j | 0 <= j < k + 1 ensures SolidOf(geom[j]).None? {
          if j > 0 { assert geom[j] == t[j - 1]; }
        }
      }
    }
  }

  /**
   * The extraction with the outer loop also stopped once an instance gives
   * a solid (see FirstSolidIsFirst for what that yields).
   */
  method ExtractFirstSolid(geom: seq<GeomObj>) returns (solid: Option<Solid>)
    ensures solid == FirstSolid(geom)
  {
    var i := 0;
    while i < |geom|
      invariant 0 <= i <= |geom|
      invariant FirstSolid(geom) == FirstSolid(geom[i..])
    {
      assert geom[i..][0] == geom[i] && geom[i..][1..] == geom[i + 1..];
      match geom[i] {
        case Instance(inner) =>
          solid := FirstPositiveScan(inner);
          if solid.Some? {
            return;
          }
        case Plain(o) =>
          if Positive(o) {
            return Some(o.solid);
          }
      }
      i := i + 1;
    }
    return None;
  }

  /** The inner `for inst_obj in geom_obj.GetInstanceGeometry()` loop, stopped at the first solid. */
  method FirstPositiveScan(inner: seq<SolidObj>) returns (solid: Option<Solid>)
    ensures solid == FirstPositive(inner)
  {
    var j := 0;
    while j < |inner|
      invariant 0 <= j <= |inner|
      invariant FirstPositive(inner) == FirstPositive(inner[j..])
    {
      assert inner[j..][0] == inner[j] && inner[j..][1..] == inner[j + 1..];
      if Positive(inner[j]) {
        return Some(inner[j].solid);
      }
      j := j + 1;
    }
    return None;
  }

  /** is_point_in_element: its answer and the cache it leaves. */
  function ElementTest(c: Cache, e: MassSource, p: Point, g: Oracle): (r: (bool, Cache))
    ensures Extends(c, r.1)
    ensures r.1 == c || (e.id !in c && e.geometry.Some? && ExtractedSolid(e.geometry.value, None).Some? &&
      r.1 == c[e.id := CacheEntry(ExtractedSolid(e.geometry.value, None), e.bbox, false)])
  {
    if e.id in c then
      var ce := c[e.id];
      if ce.bbox.Some? && !g.bboxContains(ce.bbox.value, p) then (false, c)
      else if ce.solid.Some? then (g.inSolid(ce.solid.value, p), c)
      else (false, c)
    else if e.bbox.Some? && !g.bboxContains(e.bbox.value, p) then (false, c)
    else if e.geometry.None? then (false, c)
    else
      match ExtractedSolid(e.geometry.value, None)
      case None => (false, c)
      case Some(s) => (g.inSolid(s, p), c[e.id := CacheEntry(Some(s), e.bbox, false)])
  }

  /** A cached box that misses the point answers False; an element without a solid is never cached. */
  lemma ElementCacheRules(c: Cache, e: MassSource, p: Point, g: Oracle)
    ensures e.id in c && c[e.id].bbox.Some? && !g.bboxContains(c[e.id].bbox.value, p) ==>
      ElementTest(c, e, p, g) == (false, c)
    ensures e.id !in c && (e.geometry.None? || ExtractedSolid(e.geometry.value, None).None?) ==>
      ElementTest(c, e, p, g) == (false, c)
    ensures ElementTest(c, e, p, g).0 ==> e.id in ElementTest(c, e, p, g).1
  {
  }

  /**
   * The candidate filter of get_containing_element (lines 820-828): every
   * `OfCategory` call narrows the collector further, so an element passes
   * only if its category equals every listed category.
   */
  predicate PassesChainedCategories(e: MassSource, cats: seq<Category>)
  {
    forall c :: c in cats ==> e.category == c
  }

  /** What the filter is evidently for: the element's category is one of those listed. */
  predicate InAnyCategory(e: MassSource, cats: seq<Category>)
  {
    e.category in cats
  }

  /** With Mass and Generic Model both configured, the chained filter lets nothing through. */
  lemma ChainedCategoriesExcludeAll(e: MassSource)
    ensures !PassesChainedCategories(e, [Mass, GenericModel])
    ensures e.category == Mass || e.category == GenericModel ==> InAnyCategory(e, [Mass, GenericModel])
  {
    assert Mass in [Mass, GenericModel] && GenericModel in [Mass, GenericModel];
  }

  /** The candidates, in document order, that pass the chained category filter and the point filter. */
  function Candidates(all: seq<MassSource>, cats: seq<Category>, p: Point, g: Oracle): (r: seq<MassSource>)
    ensures forall e :: e in r <==> e in all && PassesChainedCategories(e, cats) && e.bbox.Some? && g.bboxContains(e.bbox.value, p)
  {
    Filter(all, e => PassesChainedCategories(e, cats) && e.bbox.Some? && g.bboxContains(e.bbox.value, p))
  }

  /** The candidates as evidently intended: category one of those listed, box containing the point. */
  function IntendedCandidates(all: seq<MassSource>, cats: seq<Category>, p: Point, g: Oracle): (r: seq<MassSource>)
    ensures forall e :: e in r <==> e in all && InAnyCategory(e, cats) && e.bbox.Some? && g.bboxContains(e.bbox.value, p)
  {
    Filter(all, e => InAnyCategory(e, cats) && e.bbox.Some? && g.bboxContains(e.bbox.value, p))
  }

  /** Scan the candidates with is_point_in_element, first hit wins. */
  function ScanElements(c: Cache, cands: seq<MassSource>, p: Point, g: Oracle): (r: (Option<MassSource>, Cache))
    ensures Extends(c, r.1)
    ensures r.0.Some? ==> r.0.value in cands
    decreases |cands|
  {
    if cands == [] then (None, c)
    else
      var t := ElementTest(c, cands[0], p, g);
      if t.0 then (Some(cands[0]), t.1) else ScanElements(t.1, cands[1..], p, g)
  }

  /** get_containing_element, with the category filter as written. */
  function ElementSearch(c: Cache, t: Target, all: seq<MassSource>, cats: seq<Category>, g: Oracle): (r: (Option<MassSource>, Cache))
    ensures Extends(c, r.1)
    ensures r.0.Some? ==> r.0.value in all && PassesChainedCategories(r.0.value, cats)
    ensures RepresentativePoint(t).None? ==> r == (None, c)
  {
    match RepresentativePoint(t)
    case None => (None, c)
    case Some(p) => ScanElements(c, Candidates(all, cats, p, g), p, g)
  }

  // ------------------------------------------------------------ dispatch and the cache object

  /** What a strategy search found: a room/space id, an area, or a mass element. */
  datatype Container = ZoneFound(zoneId: int) | AreaFound(area: AreaSource) | ElementFound(element: MassSource)

  /** The inputs a search may use: the pre-grouped zones, levels and source elements. */
  datatype SearchInputs = SearchInputs(
    roomsByLevel: ByLevel<int>, spacesByLevel: ByLevel<int>, areasByLevel: ByLevel<AreaSource>,
    levels: seq<real>, sourceElements: seq<MassSource>, sourceCategories: seq<Category>)

  /**
   * The module-level `_geometry_cache`. Its methods are the functions of the
   * module that read or write it.
   */
  class GeometryCache {
    var entries: Cache

    constructor ()
      ensures entries == map[]
    {
      entries := map[];
    }

    /** clear_geometry_cache. */
    method Clear()
      modifies this
      ensures entries == map[]
    {
      entries := map[];
    }

    /** is_point_in_area. */
    method IsPointInArea(a: AreaSource, p: Point, levels: seq<real>, g: Oracle) returns (b: bool)
      modifies this
      ensures (b, entries) == AreaTest(old(entries), a, p, levels, g)
    {
      if a.id in entries {
        var cached := entries[a.id];
        if cached.solid.None? && cached.failed { return false; }
        if cached.bbox.Some? && !g.bboxContains(cached.bbox.value, p) { return false; }
        if cached.solid.Some? { return g.inSolid(cached.solid.value, p); }
        return false;
      }
      if a.bbox.Some? && !g.bboxContains(a.bbox.value, p) { return false; }
      var solid := CreateSolidFromArea(a, levels);
      if solid.None? {
        entries := entries[a.id := CacheEntry(None, a.bbox, true)];
        return false;
      }
      entries := entries[a.id := CacheEntry(solid, a.bbox, false)];
      b := g.inSolid(solid.value, p);
    }

    /** is_point_in_element. */
    method IsPointInElement(e: MassSource, p: Point, g: Oracle) returns (b: bool)
      modifies this
      ensures (b, entries) == ElementTest(old(entries), e, p, g)
    {
      if e.id in entries {
        var cached := entries[e.id];
        if cached.bbox.Some? && !g.bboxContains(cached.bbox.value, p) { return false; }
        if cached.solid.Some? { return g.inSolid(cached.solid.value, p); }
        return false;
      }
      if e.bbox.Some? && !g.bboxContains(e.bbox.value, p) { return false; }
      if e.geometry.None? { return false; }
      var solid := ExtractSolid(e.geometry.value);
      if solid.None? { return false; }
      entries := entries[e.id := CacheEntry(solid, e.bbox, false)];
      b := g.inSolid(solid.value, p);
    }

    /** The failed-skipping scan over (point, area) pairs used by get_containing_area. */
    method ScanAreaPairs(pts: seq<Point>, areas: seq<AreaSource>, levels: seq<real>, g: Oracle)
      returns (r: Option<AreaSource>)
      modifies this
      ensures (r, entries) == ScanAreas(old(entries), Pairs(pts, areas), levels, g)
    {
      ghost var c0 := entries;
      var i := 0;
      while i < |pts|
        invariant 0 <= i <= |pts|
        invariant ScanAreas(c0, Pairs(pts, areas), levels, g) == ScanAreas(entries, Pairs(pts[i..], areas), levels, g)
      {
        var j := 0;
        ScanSplit(entries, PairsWith(pts[i], areas), Pairs(pts[i + 1..], areas), levels, g);
        assert Pairs(pts[i..], areas) == PairsWith(pts[i], areas) + Pairs(pts[i + 1..], areas) by {
          assert pts[i..][0] == pts[i] && pts[i..][1..] == pts[i + 1..];
        }
        ghost var ci := entries;
        while j < |areas|
          invariant 0 <= j <= |areas|
          invariant ScanAreas(ci, PairsWith(pts[i], areas), levels, g) == ScanAreas(entries, PairsWith(pts[i], areas[j..]), levels, g)
        {
          assert PairsWith(pts[i], areas[j..]) == [(pts[i], areas[j])] + PairsWith(pts[i], areas[j + 1..]) by {
            assert areas[j..][0] == areas[j] && areas[j..][1..] == areas[j + 1..];
          }
          var a := areas[j];
          if a.id in entries && entries[a.id].failed {
            j := j + 1;
            continue;
          }
          var hit := IsPointInArea(a, pts[i], levels, g);
          if hit {
            return Some(a);
          }
          j := j + 1;
        }
        assert areas[|areas|..] == [];
        i := i + 1;
      }
      assert pts[|pts|..] == [];
      r := None;
    }

    /** get_containing_area. */
    method GetContainingArea(t: Target, byLevel: ByLevel<AreaSource>, levels: seq<real>, g: Oracle)
      returns (r: Option<AreaSource>)
      modifies this
      ensures (r, entries) == AreaSearch(old(entries), TestPoints(t), t.levelId, byLevel, levels, g)
    {
      var pts := GetElementTestPoints(t);
      if pts == [] {
        return None;
      }
      var checked := 0;
      if t.levelId.Some? {
        var same := LevelZones(byLevel, t.levelId.value);
        checked := |pts| * |same|;
        r := ScanAreaPairs(pts, same, levels, g);
        if r.Some? {
          return;
        }
      }
      if t.levelId.None? || checked == 0 {
        r := ScanAreaPairs(pts, AllZones(byLevel), levels, g);
      }
    }

    /** The `for source_el in candidate_elements` scan of get_containing_element. */
    method ScanCandidates(cands: seq<MassSource>, p: Point, g: Oracle) returns (r: Option<MassSource>)
      modifies this
      ensures (r, entries) == ScanElements(old(entries), cands, p, g)
    {
      var i := 0;
      while i < |cands|
        invariant 0 <= i <= |cands|
        invariant ScanElements(old(entries), cands, p, g) == ScanElements(entries, cands[i..], p, g)
      {
        assert cands[i..][0] == cands[i] && cands[i..][1..] == cands[i + 1..];
        var hit := IsPointInElement(cands[i], p, g);
        if hit {
          return Some(cands[i]);
        }
        i := i + 1;
      }
      r := None;
    }

    /** get_containing_element_by_strategy: an unknown strategy finds nothing. */
    method ContainerByStrategy(t: Target, strategy: string, inputs: SearchInputs, g: Oracle)
      returns (r: Option<Container>)
      modifies this
      ensures strategy !in {"room", "space", "area", "element"} ==> r == None && entries == old(entries)
      ensures strategy == "room" ==> (entries == old(entries) &&
        r == MapZone(ZoneSearch(TestPoints(t), t.levelId, inputs.roomsByLevel, g.inRoom)))
      ensures strategy == "space" ==> (entries == old(entries) &&
        r == MapZone(ZoneSearch(TestPoints(t), t.levelId, inputs.spacesByLevel, g.inSpace)))
      ensures strategy == "area" ==>
        var s := AreaSearch(old(entries), TestPoints(t), t.levelId, inputs.areasByLevel, inputs.levels, g);
        entries == s.1 && r == (if s.0.Some? then Some(AreaFound(s.0.value)) else None)
      ensures strategy == "element" ==>
        var s := ElementSearch(old(entries), t, inputs.sourceElements, inputs.sourceCategories, g);
        entries == s.1 && r == (if s.0.Some? then Some(ElementFound(s.0.value)) else None)
    {
      if strategy == "room" {
        var z := GetContainingZone(t, inputs.roomsByLevel, g.inRoom);
        r := MapZone(z);
      } else if strategy == "space" {
        var z := GetContainingZone(t, inputs.spacesByLevel, g.inSpace);
        r := MapZone(z);
      } else if strategy == "area" {
        var a := GetContainingArea(t, inputs.areasByLevel, inputs.levels, g);
        r := if a.Some? then Some(AreaFound(a.value)) else None;
      } else if strategy == "element" {
        var p := RepresentativePoint(t);
        if p.None? {
          return None;
        }
        var e := ScanCandidates(Candidates(inputs.sourceElements, inputs.sourceCategories, p.value, g), p.value, g);
        r := if e.Some? then Some(ElementFound(e.value)) else None;
      } else {
        r := None;
      }
    }

    /** precompute_geometries. */
    method Precompute(elems: seq<SourceElement>, levels: seq<real>)
      modifies this
      ensures entries == PrecomputeAll(old(entries), elems, levels)
    {
      var i := 0;
      while i < |elems|
        invariant 0 <= i <= |elems|
        invariant PrecomputeAll(old(entries), elems, levels) == PrecomputeAll(entries, elems[i..], levels)
      {
        assert elems[i..][0] == elems[i] && elems[i..][1..] == elems[i + 1..];
        var e := elems[i];
        if e.Id() !in entries {
          match e {
            case AreaElem(a) =>
              var solid := CreateSolidFromArea(a, levels);
              if solid.Some? {
                entries := entries[a.id := CacheEntry(solid, a.bbox, false)];
              } else {
                entries := entries[a.id := CacheEntry(None, a.bbox, true)];
              }
            case MassElem(m) =>
              if m.geometry.Some? {
                var solid := ExtractSolid(m.geometry.value);
                if solid.Some? {
                  entries := entries[m.id := CacheEntry(solid, m.bbox, false)];
                }
              }
          }
        }
        i := i + 1;
      }
    }
  }

  function MapZone(z: Option<int>): Option<Container>
  {
    if z.Some? then Some(ZoneFound(z.value)) else None
  }

  /** Splitting the pair list: the scan of A + B continues with B exactly when A found nothing. */
  lemma {:induction false} ScanSplit(c: Cache, a: seq<(Point, AreaSource)>, b: seq<(Point, AreaSource)>, levels: seq<real>, g: Oracle)
    ensures var ra := ScanAreas(c, a, levels, g);
      ScanAreas(c, a + b, levels, g) == if ra.0.Some? then ra else ScanAreas(ra.1, b, levels, g)
    decreases |a|
  {
    if a == [] {
      assert a + b == b;
    } else {
      assert (a + b)[0] == a[0] && (a + b)[1..] == a[1..] + b;
      var p := a[0].0;
      var ar := a[0].1;
      if FailedIn(c, ar.id) {
        ScanSplit(c, a[1..], b, levels, g);
      } else {
        var t := AreaTest(c, ar, p, levels, g);
        ScanSplit(t.1, a[1..], b, levels, g);
      }
    }
  }

  /** An element handed to precompute_geometries: an Area or a Mass/Generic Model. */
  datatype SourceElement = AreaElem(area: AreaSource) | MassElem(mass: MassSource)
  {
    function Id(): int
    {
      match this
      case AreaElem(a) => a.id
      case MassElem(m) => m.id
    }
  }

  /** The cache after precomputing one element. */
  function PrecomputeOne(c: Cache, e: SourceElement, levels: seq<real>): (r: Cache)
    ensures Extends(c, r)
  {
    if e.Id() in c then c
    else match e
      case AreaElem(a) =>
        var s := CreateSolidFromArea(a, levels);
        if s.Some? then c[a.id := CacheEntry(s, a.bbox, false)] else c[a.id := CacheEntry(None, a.bbox, true)]
      case MassElem(m) =>
        if m.geometry.None? then c
        else
          var s := ExtractedSolid(m.geometry.value, None);
          if s.Some? then c[m.id := CacheEntry(s, m.bbox, false)] else c
  }

  function PrecomputeAll(c: Cache, elems: seq<SourceElement>, levels: seq<real>): (r: Cache)
    ensures Extends(c, r)
    decreases |elems|
  {
    if elems == [] then c else PrecomputeAll(PrecomputeOne(c, elems[0], levels), elems[1..], levels)
  }

  /**
   * precompute_geometries (lines 899-942): ids already cached keep their
   * entry, every Area ends up with an entry (solid or failed), and a
   * Mass/Generic element without a positive-volume solid gets none.
   */
  lemma {:induction false} PrecomputeRules(c: Cache, elems: seq<SourceElement>, levels: seq<real>)
    decreases |elems|
    ensures Extends(c, PrecomputeAll(c, elems, levels))
    ensures forall e :: e in elems && e.AreaElem? ==> e.Id() in PrecomputeAll(c, elems, levels)
    ensures forall k :: k in PrecomputeAll(c, elems, levels) ==>
      k in c || exists e :: e in elems && e.Id() == k && (e.AreaElem? || SolidOf'(e).Some?)
  {
    if elems != [] {
      var c1 := PrecomputeOne(c, elems[0], levels);
      PrecomputeRules(c1, elems[1..], levels);
      var r := PrecomputeAll(c, elems, levels);
      forall k | k in r ensures k in c || exists e :: e in elems && e.Id() == k && (e.AreaElem? || SolidOf'(e).Some?) {
        if k !in c1 {
          var e :| e in elems[1..] && e.Id() == k && (e.AreaElem? || SolidOf'(e).Some?);
        } else if k !in c {
          assert elems[0].Id() == k;
        }
      }
    }
  }

  /** The solid a Mass/Generic element yields, None for an Area. */
  function SolidOf'(e: SourceElement): Option<Solid>
  {
    match e
    case AreaElem(_) => None
    case MassElem(m) => if m.geometry.None? then None else ExtractedSolid(m.geometry.value, None)
  }
}
