/** A concrete instance of the locator: axis-aligned rectangles on an integer
    grid stand for the polygons, and the unit square is scaled by four (so
    0.25 is 1, 0.5 is 2 and 1.5 is 6). Zone A is the left half of the
    municipality and zone B the right half; the districts split it the same
    way; one collection area covers all of it. */
module Scenario {
  import opened Wrappers
  import Selection
  import ZoneCode
  import opened Zonalda

  /** The closed rectangle [x0, x1] x [y0, y1]; a point is a rectangle with
      no extent. Proper rectangles have x0 < x1 and y0 < y1. */
  datatype Rect = Rect(x0: int, y0: int, x1: int, y1: int)

  predicate IsPoint(r: Rect) {
    r.x0 == r.x1 && r.y0 == r.y1
  }

  /** `a.contains(b)` for a proper `a`: a point must lie in the interior
      (a point on the edge is not contained); a proper rectangle must lie
      within the closed rectangle. */
  predicate RectContains(a: Rect, b: Rect) {
    if IsPoint(b) then a.x0 < b.x0 < a.x1 && a.y0 < b.y0 < a.y1
    else a.x0 <= b.x0 && b.x1 <= a.x1 && a.y0 <= b.y0 && b.y1 <= a.y1
  }

  /** `a.intersects(b)`: the closed rectangles share a point. */
  predicate RectIntersects(a: Rect, b: Rect) {
    a.x0 <= b.x1 && b.x0 <= a.x1 && a.y0 <= b.y1 && b.y0 <= a.y1
  }

  function RectPoint(x: int, y: int): (p: Rect) {
    Rect(x, y, x, y)
  }

  function RectGeo(): (geo: Geo<Rect, int>) {
    Geo(RectContains, RectIntersects, RectPoint)
  }

  const Square := Rect(0, 0, 4, 4)
  const LeftHalf := Rect(0, 0, 2, 4)
  const RightHalf := Rect(2, 0, 4, 4)
  /** A zone straddling the line between the two districts, filed as "C 1". */
  const Middle := Rect(1, 0, 3, 1)

  const DistrictOne := Record(LeftHalf, 1)
  const DistrictTwo := Record(RightHalf, 2)
  const Everywhere := Record(Square, "lundi")

  function RawZones(): (zs: seq<Zone<Rect, ()>>) {
    [Record(LeftHalf, ZoneAttrs("A", ())), Record(RightHalf, ZoneAttrs("B", ())), Record(Middle, ZoneAttrs("C 1", ()))]
  }

  function Town(): (st: Store<Rect, int, (), string>) {
    Load(Square, [DistrictOne, DistrictTwo], RawZones(), [Everywhere])
  }

  function StoredZones(): (zs: seq<Zone<Rect, ()>>) {
    [Record(LeftHalf, ZoneAttrs("A", ())), Record(RightHalf, ZoneAttrs("B", ())), Record(Middle, ZoneAttrs("C1", ()))]
  }

  /** The store as loaded. */
  function Stored(): (st: Store<Rect, int, (), string>) {
    Store(Square, [DistrictOne, DistrictTwo], StoredZones(), [Everywhere])
  }

  /** Loading removes the space from "C 1" and leaves the other codes alone. */
  lemma TownLoaded()
    ensures Town() == Stored()
  {
    ZoneCode.StripSpacesNoSpace("A");
    ZoneCode.StripSpacesNoSpace("B");
    assert ZoneCode.StripSpaces("C 1") == "C1" by {
      assert "C 1" == ['C'] + " 1";
      assert " 1" == [' '] + "1";
      ZoneCode.StripSpacesNoSpace("1");
    }
    assert Town().zones == StoredZones();
  }

  /** The masks of the rectangle geometry apply its predicates. */
  lemma RectMasks<A>(r: Record<Rect, A>, g: Rect)
    ensures ContainsGeom(RectGeo(), g)(r) == RectContains(r.geom, g)
    ensures IntersectsGeom(RectGeo(), g)(r) == RectIntersects(r.geom, g)
  {
  }

  /** Filtering a two-element layer, one step at a time. */
  lemma FilterTwo<T>(a: T, b: T, keep: T -> bool)
    ensures Selection.Filter([a, b], keep)
      == (if keep(a) then [a] else []) + (if keep(b) then [b] else [])
  {
    Selection.FilterCons(a, [b], keep);
    Selection.FilterCons(b, [], keep);
    assert [a, b] == [a] + [b];
    assert [b] == [b] + [];
  }

  lemma FilterThree<T>(a: T, b: T, c: T, keep: T -> bool)
    ensures Selection.Filter([a, b, c], keep)
      == (if keep(a) then [a] else []) + (if keep(b) then [b] else []) + (if keep(c) then [c] else [])
  {
    Selection.FilterCons(a, [b, c], keep);
    FilterTwo(b, c, keep);
    assert [a, b, c] == [a] + [b, c];
  }

  lemma FilterOne<T>(a: T, keep: T -> bool)
    ensures Selection.Filter([a], keep) == if keep(a) then [a] else []
  {
    Selection.FilterCons(a, [], keep);
    assert [a] == [a] + [];
  }

  /** Point (0.25, 0.5): zone A, district one, the collection area, no warning. */
  lemma InsideZoneA()
    ensures Locate(RectGeo(), Stored(), 2, 1)
      == Success(Found(Some(DistrictOne), Some(StoredZones()[0]), Some(Everywhere), {}))
  {
    var p := RectPoint(1, 2);
    var zs := StoredZones();
    var k1: Record<Rect, int> -> bool := ContainsGeom(RectGeo(), p);
    RectMasks(DistrictOne, p);
    RectMasks(DistrictTwo, p);
    assert k1(DistrictOne) && !k1(DistrictTwo);
    FilterTwo(DistrictOne, DistrictTwo, k1);
    assert Selection.Filter([DistrictOne, DistrictTwo], k1) == [DistrictOne];
    var k2: Zone<Rect, ()> -> bool := ContainsGeom(RectGeo(), p);
    RectMasks(zs[0], p);
    RectMasks(zs[1], p);
    RectMasks(zs[2], p);
    assert k2(zs[0]) && !k2(zs[1]) && !k2(zs[2]);
    FilterThree(zs[0], zs[1], zs[2], k2);
    assert Selection.Filter(zs, k2) == [zs[0]];
    var k3: Record<Rect, string> -> bool := ContainsGeom(RectGeo(), p);
    RectMasks(Everywhere, p);
    FilterOne(Everywhere, k3);
    assert Selection.Filter([Everywhere], k3) == [Everywhere];
  }

  /** Point (0.5, 0.5), on the edge shared by zones A and B: both intersect
      it, neither contains it, and the point lookup, which has no
      intersection fallback, finds no zone and no district. */
  lemma OnSharedEdge()
    ensures RectIntersects(LeftHalf, RectPoint(2, 2)) && RectIntersects(RightHalf, RectPoint(2, 2))
    ensures Locate(RectGeo(), Stored(), 2, 2) == Success(Found(None, None, Some(Everywhere), {}))
  {
    var p := RectPoint(2, 2);
    var zs := StoredZones();
    var k1: Record<Rect, int> -> bool := ContainsGeom(RectGeo(), p);
    RectMasks(DistrictOne, p);
    RectMasks(DistrictTwo, p);
    FilterTwo(DistrictOne, DistrictTwo, k1);
    assert Selection.Filter([DistrictOne, DistrictTwo], k1) == [];
    var k2: Zone<Rect, ()> -> bool := ContainsGeom(RectGeo(), p);
    RectMasks(zs[0], p);
    RectMasks(zs[1], p);
    RectMasks(zs[2], p);
    FilterThree(zs[0], zs[1], zs[2], k2);
    assert Selection.Filter(zs, k2) == [];
    var k3: Record<Rect, string> -> bool := ContainsGeom(RectGeo(), p);
    RectMasks(Everywhere, p);
    FilterOne(Everywhere, k3);
    assert Selection.Filter([Everywhere], k3) == [Everywhere];
  }

  /** Point (1.5, 0.5) lies outside the municipality. */
  lemma OutsideTown()
    ensures Locate(RectGeo(), Stored(), 2, 6) == Failure(MunicipalityError(Rect(6, 2, 6, 2)))
  {
  }

  /** Zone "C 1" is stored as "C1". Looking it up by its stored code falls
      back to intersection for the district (neither contains it, both
      intersect it), picks the first district and logs the district
      warning; the spelling with the space is not found. */
  lemma NameLookupFallsBack()
    ensures LookupZone(RectGeo(), Stored(), "C1")
      == Success(Found(Some(DistrictOne), Some(StoredZones()[2]), Some(Everywhere), {DistrictLayer}))
    ensures LookupZone(RectGeo(), Stored(), "C 1") == Failure(KeyError("C 1"))
  {
    var zs := StoredZones();
    FilterThree(zs[0], zs[1], zs[2], HasCode("C1"));
    var g := Middle;
    FilterTwo(DistrictOne, DistrictTwo, ContainsGeom(RectGeo(), g));
    FilterTwo(DistrictOne, DistrictTwo, IntersectsGeom(RectGeo(), g));
    FilterOne(Everywhere, ContainsGeom(RectGeo(), g));
    LookupZoneVerbatim(RectGeo(), Stored(), "C 1");
  }
}
