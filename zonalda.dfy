/** The `Zonalda` locator: four read-only layers (municipal boundary,
    districts, zoning, waste-collection areas) and its two queries, the
    lookup by zone name and the lookup by point.

    Geometry is left abstract. `G` is the type of geometries (polygons and
    points alike) and `N` the type of a coordinate; the geometry library's
    `contains`, `intersects` and `Point` constructor are the fields of a
    `Geo` value, about which nothing is assumed. */
module Zonalda {
  import opened Wrappers
  import opened Selection
  import opened ZoneCode

  /** One row of a layer: its geometry and its other columns. */
  datatype Record<G, A> = Record(geom: G, attrs: A)

  /** The columns of a zoning row: the `ZONE` code and the rest
      (land-use type, description, ...). */
  datatype ZoneAttrs<Z> = ZoneAttrs(code: string, other: Z)

  type Zone<G, Z> = Record<G, ZoneAttrs<Z>>

  /** The geometry library: `contains(a, b)` is `a.contains(b)`,
      `intersects(a, b)` is `a.intersects(b)`, `point(x, y)` is `Point(x, y)`. */
  datatype Geo<!G, -N> = Geo(contains: (G, G) -> bool, intersects: (G, G) -> bool, point: (N, N) -> G)

  /** The four layers, in the order their files list the rows. */
  datatype Store<G, D, Z, C> = Store(
    boundary: G,
    districts: seq<Record<G, D>>,
    zones: seq<Zone<G, Z>>,
    collections: seq<Record<G, C>>)

  /** The layers a query may log an ambiguity warning for. */
  datatype Layer = DistrictLayer | ZoneLayer | CollectionLayer

  /** The `(district, zone, collecte)` triple a query returns, each part
      `None` when nothing was found, together with the warnings logged. */
  datatype Found<G, D, Z, C> = Found(
    district: Option<Record<G, D>>,
    zone: Option<Zone<G, Z>>,
    collection: Option<Record<G, C>>,
    warnings: set<Layer>)

  /** `KeyError` for an unknown zone name; `MunicipalityError` for a point
      outside the municipal boundary. */
  datatype LookupError<G> = KeyError(name: string) | MunicipalityError(point: G)

  /* ---------------------------------------------------------------- load */

  function NormaliseZone<G, Z>(z: Zone<G, Z>): (n: Zone<G, Z>) {
    z.(attrs := z.attrs.(code := StripSpaces(z.attrs.code)))
  }

  /** No stored zone code holds a space. */
  ghost predicate CodesNormalised<G, D, Z, C>(st: Store<G, D, Z, C>) {
    forall i :: 0 <= i < |st.zones| ==> ' ' !in st.zones[i].attrs.code
  }

  /** The constructor, given the four layers as read from their files: the
      zoning layer's `ZONE` column has its spaces removed, nothing else
      changes. */
  function Load<G, D, Z, C>(
    boundary: G, districts: seq<Record<G, D>>, rawZones: seq<Zone<G, Z>>, collections: seq<Record<G, C>>
  ): (st: Store<G, D, Z, C>)
    ensures st.boundary == boundary && st.districts == districts && st.collections == collections
    ensures |st.zones| == |rawZones|
    ensures forall i :: 0 <= i < |rawZones| ==>
      && st.zones[i].geom == rawZones[i].geom
      && st.zones[i].attrs.other == rawZones[i].attrs.other
      && st.zones[i].attrs.code == StripSpaces(rawZones[i].attrs.code)
    ensures CodesNormalised(st)
  {
    Store(boundary, districts, seq(|rawZones|, i requires 0 <= i < |rawZones| => NormaliseZone(rawZones[i])), collections)
  }

  /** Loading an already loaded store again changes nothing. */
  lemma LoadIdempotent<G, D, Z, C>(
    boundary: G, districts: seq<Record<G, D>>, rawZones: seq<Zone<G, Z>>, collections: seq<Record<G, C>>)
    ensures var st := Load(boundary, districts, rawZones, collections);
      Load(st.boundary, st.districts, st.zones, st.collections) == st
  {
    var st := Load(boundary, districts, rawZones, collections);
    var again := Load(st.boundary, st.districts, st.zones, st.collections);
    forall i | 0 <= i < |st.zones| ensures again.zones[i] == st.zones[i] {
      StripSpacesIdempotent(rawZones[i].attrs.code);
    }
  }

  /* ------------------------------------------------------------- testers */

  /** The mask `zonage["ZONE"] == name`. */
  function HasCode<G, Z>(name: string): (mask: Zone<G, Z> -> bool) {
    (z: Zone<G, Z>) => z.attrs.code == name
  }

  /** The mask `layer.contains(g)`. */
  function ContainsGeom<G, N, A>(geo: Geo<G, N>, g: G): (mask: Record<G, A> -> bool) {
    (r: Record<G, A>) => geo.contains(r.geom, g)
  }

  /** The mask `layer.intersects(g)`. */
  function IntersectsGeom<G, N, A>(geo: Geo<G, N>, g: G): (mask: Record<G, A> -> bool) {
    (r: Record<G, A>) => geo.intersects(r.geom, g)
  }

  function Warnings(district: bool, zone: bool, collection: bool): (w: set<Layer>)
    ensures DistrictLayer in w <==> district
    ensures ZoneLayer in w <==> zone
    ensures CollectionLayer in w <==> collection
  {
    (if district then {DistrictLayer} else {})
    + (if zone then {ZoneLayer} else {})
    + (if collection then {CollectionLayer} else {})
  }

  /* ---------------------------------------------------- lookup by name */

  /** `zonalda[name]`: the first zone whose code is `name`, with the district
      and the collection area chosen for its geometry by containment, then by
      intersection. */
  function LookupZone<G, N, D, Z, C>(geo: Geo<G, N>, st: Store<G, D, Z, C>, name: string)
    : (r: Result<Found<G, D, Z, C>, LookupError<G>>)
    ensures r.Failure? ==> r.error == KeyError(name)
    ensures r.Success? ==> r.value.zone.Some? && r.value.zone.value in st.zones && ZoneLayer !in r.value.warnings
  {
    var zones := Filter(st.zones, HasCode(name));
    if |zones| == 0 then Failure(KeyError(name))
    else
      var zone := zones[0];
      var d := SelectWithFallback(st.districts, ContainsGeom(geo, zone.geom), IntersectsGeom(geo, zone.geom));
      var c := SelectWithFallback(st.collections, ContainsGeom(geo, zone.geom), IntersectsGeom(geo, zone.geom));
      Success(Found(d.pick, Some(zone), c.pick, Warnings(d.warned, false, c.warned)))
  }

  /** The name lookup fails exactly when no stored code equals the query,
      and otherwise returns the first zone in stored order with that code. */
  lemma LookupZoneFindsFirst<G, N, D, Z, C>(geo: Geo<G, N>, st: Store<G, D, Z, C>, name: string)
    ensures LookupZone(geo, st, name).Failure? <==>
      forall i :: 0 <= i < |st.zones| ==> st.zones[i].attrs.code != name
    ensures LookupZone(geo, st, name).Success? ==>
      exists i :: 0 <= i < |st.zones|
        && st.zones[i].attrs.code == name
        && (forall j :: 0 <= j < i ==> st.zones[j].attrs.code != name)
        && LookupZone(geo, st, name).value.zone == Some(st.zones[i])
  {
    SelectFirstSpec(st.zones, HasCode(name));
  }

  /** The district of a name lookup: the first district containing the
      zone's geometry; only when none does, the first one intersecting it;
      `None` when neither exists. The district warning fires exactly when
      the candidate set used has two or more members. */
  lemma LookupZoneDistrict<G, N, D, Z, C>(geo: Geo<G, N>, st: Store<G, D, Z, C>, name: string)
    requires LookupZone(geo, st, name).Success?
    ensures var r := LookupZone(geo, st, name).value;
      var g := r.zone.value.geom;
      if !NoMatch(st.districts, ContainsGeom(geo, g)) then
        && ChosenFirst(r.district, st.districts, ContainsGeom(geo, g))
        && (DistrictLayer in r.warnings <==> SeveralMatches(st.districts, ContainsGeom(geo, g)))
      else
        && ChosenFirst(r.district, st.districts, IntersectsGeom(geo, g))
        && (DistrictLayer in r.warnings <==> SeveralMatches(st.districts, IntersectsGeom(geo, g)))
  {
    var g := LookupZone(geo, st, name).value.zone.value.geom;
    SelectWithFallbackSpec(st.districts, ContainsGeom(geo, g), IntersectsGeom(geo, g));
  }

  /** The same contains-then-intersects rule chooses the collection area. */
  lemma LookupZoneCollection<G, N, D, Z, C>(geo: Geo<G, N>, st: Store<G, D, Z, C>, name: string)
    requires LookupZone(geo, st, name).Success?
    ensures var r := LookupZone(geo, st, name).value;
      var g := r.zone.value.geom;
      if !NoMatch(st.collections, ContainsGeom(geo, g)) then
        && ChosenFirst(r.collection, st.collections, ContainsGeom(geo, g))
        && (CollectionLayer in r.warnings <==> SeveralMatches(st.collections, ContainsGeom(geo, g)))
      else
        && ChosenFirst(r.collection, st.collections, IntersectsGeom(geo, g))
        && (CollectionLayer in r.warnings <==> SeveralMatches(st.collections, IntersectsGeom(geo, g)))
  {
    var g := LookupZone(geo, st, name).value.zone.value.geom;
    SelectWithFallbackSpec(st.collections, ContainsGeom(geo, g), IntersectsGeom(geo, g));
  }

  /** The collection area does not depend on the districts: two stores that
      differ only in their district layer agree on it and on its warning. */
  lemma LookupZoneCollectionIndependent<G, N, D, Z, C>(
    geo: Geo<G, N>, st1: Store<G, D, Z, C>, st2: Store<G, D, Z, C>, name: string)
    requires st1.zones == st2.zones && st1.collections == st2.collections
    ensures LookupZone(geo, st1, name).Success? == LookupZone(geo, st2, name).Success?
    ensures LookupZone(geo, st1, name).Success? ==>
      && LookupZone(geo, st1, name).value.collection == LookupZone(geo, st2, name).value.collection
      && (CollectionLayer in LookupZone(geo, st1, name).value.warnings
          <==> CollectionLayer in LookupZone(geo, st2, name).value.warnings)
  {
  }

  /** The query name is compared verbatim: on a loaded store a name holding
      a space never matches. */
  lemma LookupZoneVerbatim<G, N, D, Z, C>(geo: Geo<G, N>, st: Store<G, D, Z, C>, name: string)
    requires CodesNormalised(st) && ' ' in name
    ensures LookupZone(geo, st, name) == Failure(KeyError(name))
  {
    LookupZoneFindsFirst(geo, st, name);
  }

  /* --------------------------------------------------- lookup by point */

  /** `zonalda(latitude, longitude)`: the point is `Point(longitude,
      latitude)`; outside the boundary it is an error, inside it each layer
      independently gives its first record containing the point. */
  function Locate<G, N, D, Z, C>(geo: Geo<G, N>, st: Store<G, D, Z, C>, latitude: N, longitude: N)
    : (r: Result<Found<G, D, Z, C>, LookupError<G>>)
    ensures r.Failure? ==> r.error == MunicipalityError(geo.point(longitude, latitude))
  {
    var p := geo.point(longitude, latitude);
    if !geo.contains(st.boundary, p) then Failure(MunicipalityError(p))
    else
      var d := SelectFirst(st.districts, ContainsGeom(geo, p));
      var z := SelectFirst(st.zones, ContainsGeom(geo, p));
      var c := SelectFirst(st.collections, ContainsGeom(geo, p));
      Success(Found(d.pick, z.pick, c.pick, Warnings(d.warned, z.warned, c.warned)))
  }

  /** The point lookup fails exactly when the boundary does not contain the
      point built with longitude first. */
  lemma LocateOutside<G, N, D, Z, C>(geo: Geo<G, N>, st: Store<G, D, Z, C>, latitude: N, longitude: N)
    ensures Locate(geo, st, latitude, longitude).Failure? <==>
      !geo.contains(st.boundary, geo.point(longitude, latitude))
  {
  }

  /** For a point inside the boundary, each layer gives its first record
      containing the point, or `None`; its warning fires exactly when two or
      more of its records contain the point. */
  lemma LocateFirstContaining<G, N, D, Z, C>(geo: Geo<G, N>, st: Store<G, D, Z, C>, latitude: N, longitude: N)
    requires Locate(geo, st, latitude, longitude).Success?
    ensures var r := Locate(geo, st, latitude, longitude).value;
      var p := geo.point(longitude, latitude);
      && ChosenFirst(r.district, st.districts, ContainsGeom(geo, p))
      && ChosenFirst(r.zone, st.zones, ContainsGeom(geo, p))
      && ChosenFirst(r.collection, st.collections, ContainsGeom(geo, p))
      && (DistrictLayer in r.warnings <==> SeveralMatches(st.districts, ContainsGeom(geo, p)))
      && (ZoneLayer in r.warnings <==> SeveralMatches(st.zones, ContainsGeom(geo, p)))
      && (CollectionLayer in r.warnings <==> SeveralMatches(st.collections, ContainsGeom(geo, p)))
  {
    var p := geo.point(longitude, latitude);
    SelectFirstSpec(st.districts, ContainsGeom(geo, p));
    SelectFirstSpec(st.zones, ContainsGeom(geo, p));
    SelectFirstSpec(st.collections, ContainsGeom(geo, p));
  }

  /** There is no intersection fallback on the point path: the result does
      not depend on the library's `intersects` at all. */
  lemma LocateIgnoresIntersects<G, N, D, Z, C>(
    geo1: Geo<G, N>, geo2: Geo<G, N>, st: Store<G, D, Z, C>, latitude: N, longitude: N)
    requires geo1.contains == geo2.contains && geo1.point == geo2.point
    ensures Locate(geo1, st, latitude, longitude) == Locate(geo2, st, latitude, longitude)
  {
  }

  /** Every record either query returns is a row of its own layer. */
  lemma ResultsAreMembers<G, N, D, Z, C>(
    geo: Geo<G, N>, st: Store<G, D, Z, C>, name: string, latitude: N, longitude: N)
    ensures var r := LookupZone(geo, st, name);
      r.Success? ==>
        && (r.value.district.Some? ==> r.value.district.value in st.districts)
        && (r.value.collection.Some? ==> r.value.collection.value in st.collections)
    ensures var r := Locate(geo, st, latitude, longitude);
      r.Success? ==>
        && (r.value.district.Some? ==> r.value.district.value in st.districts)
        && (r.value.zone.Some? ==> r.value.zone.value in st.zones)
        && (r.value.collection.Some? ==> r.value.collection.value in st.collections)
  {
    if LookupZone(geo, st, name).Success? {
      LookupZoneDistrict(geo, st, name);
      LookupZoneCollection(geo, st, name);
    }
    if Locate(geo, st, latitude, longitude).Success? {
      LocateFirstContaining(geo, st, latitude, longitude);
    }
  }
}
