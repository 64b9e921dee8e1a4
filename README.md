# Zonalda locator, modelled in Dafny

Zonalda answers "which zone, district and waste-collection area applies
here?" for the town of Sainte-Adèle. The `Zonalda` class holds four
read-only layers: the municipal boundary, the districts, the zoning layer
(its `ZONE` codes have their spaces removed when loaded) and the collection
areas. It answers two queries:

- `zonalda[name]` finds the first zone whose code is `name`, or raises
  `KeyError`. For the district and for the collection area it picks the
  first record whose geometry contains the zone's geometry. When none
  contains it, it takes the first record that intersects it. It logs a
  warning when more than one candidate is left.
- `zonalda(latitude, longitude)` builds `Point(longitude, latitude)` and
  raises `MunicipalityError` when the boundary does not contain it.
  Otherwise it picks, separately for each of the three layers, the first
  record containing the point, or `None`. Again it logs a warning when more
  than one record matches.

The model is pure, like the source. The store is an immutable datatype and
the queries are functions that return either a result or an error, plus the
set of layers they warned about. Geometry is abstract. `G` stands for
geometries and `N` for coordinates. The library's `contains`, `intersects`
and `Point` are the fields of a `Geo` value, and nothing is assumed about
them. The selection policy is proved against those predicates.

Files:

- `wrappers.dfy`: `Option` and `Result`.
- `selection.dfy`: generic first-match selection. `Filter` is a geopandas
  boolean mask. `Pick` is `iloc[0]` plus the `len > 1` warning. It also
  holds the selection with a fallback predicate, all proved equal to an
  index-based description ("the first position that matches").
- `zone_code.dfy`: removing spaces from zone codes (`str.replace(" ", "")`).
- `zonalda.dfy`: the layers, loading, both queries, and their properties.
- `scenario.dfy`: a concrete instance with rectangles on an integer grid.
  A unit square is split into two zones (A and B) and two districts, and
  one collection area covers it all. A third zone, filed as "C 1",
  straddles the line between the two districts and overlaps both halves.

The model follows the code in these details, where a reader might expect
otherwise:

- The name lookup compares the query verbatim. Only stored codes are
  normalised, so `"R 1"` does not find a zone stored as `"R1"`.
  `LookupZoneVerbatim` and `Scenario.NameLookupFallsBack` state this.
- The name lookup returns the `(district, zone, collection area)` triple.
  It does not return the zone's representative point. No representative
  point or centroid is computed anywhere.
- The point lookup has no fallback from containment to intersection. A
  point on the edge shared by two zones gets no zone (`Scenario.OnSharedEdge`,
  `LocateIgnoresIntersects`). The fallback exists only in the name lookup.
- Normalisation removes only the space character U+0020. Tabs and other
  whitespace are kept.

## Model

| member | source | states |
|---|---|---|
| `Selection.Filter` | zonalda/__init__.py:45-47 | Filtering by a mask keeps only records that satisfy it, each one a record of the layer, and never more than the layer holds |
| `Selection.Pick` | zonalda/__init__.py:48-51 | The pick is `None` exactly when no candidate is left, and otherwise the first candidate; the warning is raised exactly when two or more candidates are left, and then a record is picked |
| `Selection.FilterEmpty` | zonalda/__init__.py:41-42 | The filtered layer is empty exactly when no record of the layer satisfies the mask |
| `Selection.FilterHead` | zonalda/__init__.py:43 | The first filtered record is the record at the first position that satisfies the mask |
| `Selection.FirstMatchExists` | zonalda/__init__.py:50-51 | When some record matches, there is a first matching position |
| `Selection.FirstMatchUnique` | zonalda/__init__.py:50-51 | The first matching position is unique, so the selection is deterministic for a fixed layer order |
| `Selection.FilterSeveral` | zonalda/__init__.py:48-49 | More than one record survives the filter exactly when two distinct positions match |
| `Selection.SelectFirstSpec` | zonalda/__init__.py:75-79 | Selection by one predicate yields `None` when nothing matches, otherwise the record at the first matching position; the warning fires exactly when two or more match |
| `Selection.SelectWithFallbackSpec` | zonalda/__init__.py:45-51 | When some record satisfies containment, the first such record is chosen and the warning counts containment; when none does, the first record that intersects is chosen (or `None`), and the warning counts intersection |
| `Selection.ChosenIsMember` | zonalda/__init__.py:51 | A chosen record is a record of its layer and satisfies the predicate it was chosen by |
| `ZoneCode.StripSpaces` | zonalda/__init__.py:31 | The normalised code holds no space; every other character occurs as often as in the raw code; it is no longer than the raw code |
| `ZoneCode.StripSpacesNoSpace` | zonalda/__init__.py:31 | A code without spaces is unchanged by normalisation |
| `ZoneCode.StripSpacesIdempotent` | zonalda/__init__.py:31 | Normalising a normalised code changes nothing |
| `ZoneCode.StripSpacesAppend` | zonalda/__init__.py:31 | Normalisation works character by character: normalising a concatenation is concatenating the normalised parts, so non-space characters keep their order |
| `Zonalda.Load` | zonalda/__init__.py:27-32 | Construction keeps the boundary, districts and collection areas as given; each zone keeps its geometry and other columns and its code becomes the raw code with every space removed, so no stored code holds a space |
| `Zonalda.LoadIdempotent` | zonalda/__init__.py:31 | Running the constructor's normalisation over an already loaded store gives the same store |
| `Zonalda.Warnings` | zonalda/__init__.py:76-89 | A layer is in the set of warned layers exactly when its ambiguity flag is raised |
| `Zonalda.LookupZone` | zonalda/__init__.py:34-61 | A failed name lookup raises `KeyError` for that name; a successful one returns a zone that is a record of the zoning layer, and never warns about zones |
| `Zonalda.LookupZoneFindsFirst` | zonalda/__init__.py:40-43 | The name lookup fails exactly when no stored code equals the query, and otherwise returns the zone at the first position whose code equals it |
| `Zonalda.LookupZoneDistrict` | zonalda/__init__.py:44-51 | The district is the first district containing the zone's geometry; only if none does, the first intersecting it; `None` if neither; the district warning fires exactly when the candidate set used has two or more members |
| `Zonalda.LookupZoneCollection` | zonalda/__init__.py:52-60 | The same contains-then-intersects rule, and the same warning rule, choose the collection area |
| `Zonalda.LookupZoneCollectionIndependent` | zonalda/__init__.py:52-60 | The collection area and its warning do not depend on the district layer |
| `Zonalda.LookupZoneVerbatim` | zonalda/__init__.py:40-42 | On a loaded store, a query name that holds a space raises `KeyError` |
| `Zonalda.Locate` | zonalda/__init__.py:63-92 | A failed point lookup raises `MunicipalityError` carrying the point built as `Point(longitude, latitude)` |
| `Zonalda.LocateOutside` | zonalda/__init__.py:69-73 | The point lookup fails exactly when the boundary does not contain `Point(longitude, latitude)` (arguments swapped); no layer result is produced then |
| `Zonalda.LocateFirstContaining` | zonalda/__init__.py:74-92 | For an in-bounds point each of district, zone and collection area is the record at the first position of its own layer that contains the point, or `None`; each layer's warning fires exactly when two or more of its records contain the point |
| `Zonalda.LocateIgnoresIntersects` | zonalda/__init__.py:74-92 | The point lookup never consults `intersects`: two geometry libraries that agree on `contains` and `Point` give the same result |
| `Zonalda.ResultsAreMembers` | zonalda/__init__.py:40-92 | Every record either query returns is a record of its own layer |
| `Scenario.TownLoaded` | zonalda/__init__.py:31 | Loading zones coded "A", "B" and "C 1" stores "A", "B" and "C1" |
| `Scenario.InsideZoneA` | zonalda/__init__.py:63-92 | The point (0.25, 0.5) of the unit square gets zone A, the left district and the collection area, with no warning |
| `Scenario.OnSharedEdge` | zonalda/__init__.py:74-92 | The point (0.5, 0.5) on the edge shared by zones A and B intersects both but gets no zone and no district, since the point lookup has no fallback |
| `Scenario.OutsideTown` | zonalda/__init__.py:69-73 | The point (1.5, 0.5) raises `MunicipalityError` |
| `Scenario.NameLookupFallsBack` | zonalda/__init__.py:40-60 | Zone "C1", which straddles both districts, gets the first district by the intersection fallback, with a district warning; the spelling "C 1" raises `KeyError` |

## Left out

- Geometry: shapely's `contains`, `intersects` and `Point`, and geopandas' element-wise versions of them over floating-point coordinates, are foreign library code. They are abstract parameters here.
- Reading the four GeoJSON files (zonalda/__init__.py:28-32) is I/O. The layers are constructor parameters. The boundary is the geometry of the first row of its file; taking that row (`iloc[0]`) and its failure on an empty file are not modelled.
- A zoning row whose `ZONE` value is missing (pandas keeps it as a null through `str.replace`) is not modelled: every code is a string.
- Logging: only which layers were warned about is modelled. The message text and the logged frames are not.
- The exception messages of `KeyError` and `MunicipalityError` are not modelled beyond the name or point they carry.
- The command-line entry point `main` (zonalda/__init__.py:95-113) and the web API in zonalda/api.py are argument parsing and serialisation glue. This includes the `split(",")` that passes strings rather than numbers to the locator.
- repair_zonage.py repairs invalid polygons offline with shapely's `make_valid` and writes a file: a foreign geometry algorithm plus I/O.
- js/main.ts, src/main.ts and js/config.ts are the browser interface (map, page updates, fetching, geolocation, address autocompletion) and URL constants.
