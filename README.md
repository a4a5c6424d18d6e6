# Health-service access per canton (Costa Rica): a Dafny model of the dashboard's core

The dashboard joins three layers: canton boundaries, census population per canton, and geolocated health facilities. For each canton it reports:

- the number of hospitals;
- the population density;
- the inhabitants per hospital.

It then shows the table filtered by province and canton, lists "saturated" cantons at or above a threshold, and draws a map with facility markers. The map is cached in the session.

This project models the logic under that user interface (all of it in `app.py`) and proves its properties:

- `columns.dfy` (module `Columns`):
  - The alias tables that normalise the population and boundary headers. A rename changes only alias keys that are present.
  - The columns a step selects, where pandas would raise `KeyError`.
  - `detectar_columna_poblacion`, as a loop over the header.
- `facilities.dfy` (module `Facilities`): the category filter. It drops null categories and the nine excluded ones, including `''`.
- `districts.dfy` (module `Districts`): the body of `cargar_datos`.
  - `groupby("CANTON").size()` over the spatial join.
  - The left merge with the population table, which duplicates a canton when the population table repeats its name.
  - The merge of counts and both `fillna(0)`.
  - `densidad`, guarded against a zero area.
  - `HAB_POR_HOSP`, which is missing (not 0) when a canton has no hospital.
- `selection.dfy` (module `Selection`):
  - The province/canton filter.
  - The saturated-canton selection.
  - The map frame (`final[['CANTON', var, 'geometry']].dropna()`).
  - The loop that collects outlines of saturated cantons.
- `markers.dfy` (module `Markers`): the marker loop.
  - The hand-written walk over the parsed GeoJSON coordinates, including the exceptions it can raise.
  - The popup name fallback.
  - The typed Point, Polygon and MultiPolygon geometries of RFC 7946 (sections 3.1.2, 3.1.6 and 3.1.7), with their encoding. A lemma proves that the walk picks the intended vertex for every typed geometry.
- `mapcache.dfy` (module `MapCache`):
  - The three session-state entries as a class, `MapSession`. Its `Refresh` method is proved against the pure transition `Step`.
  - The reverse label lookup used for the legend.
- `frames.dfy` (module `Frames`): boolean-mask row selection (`df[mask]`) and its general lemmas.
- `wrappers.dfy` (module `Wrappers`): `Option` and `Result`.

Inputs that come from libraries are parameters:

- **Spatial join**: only the point-in-polygon test is a parameter, `within(facility, canton row)`. The join itself (`Districts.SpatialJoin`) is built from the filtered facilities and the boundary rows, one `JoinRow` per facility and containing polygon, so only retained facilities are counted.
- **Area**: each boundary row carries its projected area in km² (`areaKm2`).
- **Facility features**: each facility carries its GeoJSON feature as `json.loads` returns it.

Numbers are Dafny `real`.

Three behaviours of the code may differ from what a reader expects. The model follows the code:

- **Ratio can be 0.** The comment at `app.py:85` says only that the ratio is missing when a canton has no hospital. It may be expected to be positive otherwise, but the code gives 0 for a canton that has hospitals and is missing from the population table (`Districts.RatioZeroWithoutPopulation`).
- **Duplicated cantons.** The left merge at `app.py:72-74` repeats a canton once per matching population row, so the final table need not have one row per canton. "Exactly once, in order" holds when population names are unique (`Districts.MergeExactlyOnce`, `Districts.PopulationFilled`).
- **Errors are pandas' own.** `cargar_datos` raises no error of its own. A missing column raises `KeyError`, and a `CANTON` label that renaming makes non-unique raises `ValueError`. Both are modelled in `Districts.LoadError`.

## Model

| member | source | states |
|---|---|---|
| `Columns.DetectPopulationColumn` | app.py:15-21 | Returns None iff no column name, lower-cased, contains "pob" or "poblac". Otherwise returns the first such column in header order. |
| `Columns.PopulationColumnIsPob` | app.py:19 | The "poblac" test never changes the outcome: a name is detected iff its lower-cased form contains "pob". |
| `Columns.Rename` | app.py:39 | `DataFrame.rename(columns=m)` keeps the number of columns and leaves every column that is not a key of `m` unchanged. Keys take their value (`Columns.RenameAliasesPositions`). |
| `Columns.RenameAliases` | app.py:33-48 | The rename of lines 39 and 48 keeps the number of columns and never touches a column that is not an alias key. The full per-position behaviour is `Columns.RenameAliasesPositions`. |
| `Columns.RenameAliasesPositions` | app.py:33-48 | Renaming through an alias table keeps the number of columns. A column that is an alias key takes the canonical name at the same position; every other column keeps its name and position. |
| `Columns.AbsentAliasesIgnored` | app.py:39 | Restricting the alias table to present columns (the dict comprehension) renames exactly as the full table would, so absent alias keys are ignored without error. |
| `Columns.CanonicalNamePresent` | app.py:33-48 | When an alias key is a column, its canonical name is in the renamed header. |
| `Columns.RenameIdempotent` | app.py:39 | When no canonical name is itself an alias key, renaming twice equals renaming once. |
| `Columns.SourceAliasesIdempotent` | app.py:33-48 | The population, boundary and facility alias tables (the last at line 90) can each be applied twice without effect. |
| `Columns.MissingColumns` | app.py:73 | Lists exactly the required columns the header lacks, and nothing when all are present. |
| `Facilities.FilterFacilities` | app.py:61-63 | The filtered table is no longer than the input, and every row in it is an input row that is retained. Completeness and multiplicity are `Facilities.FilterFacilitiesExactly`. |
| `Facilities.FilterFacilitiesExactly` | app.py:56-63 | A facility is kept iff its category is non-null and not in the exclusion list. It is kept with its full multiplicity. |
| `Facilities.NoExcludedCategory` | app.py:56-62 | No retained row has a null, empty or excluded category. |
| `Facilities.FilterFacilitiesAppend` | app.py:61-63 | The filter distributes over concatenation, so retained rows keep their original order and are renumbered from 0. |
| `Facilities.FilterFacilitiesIdempotent` | app.py:61-62 | Filtering an already filtered table changes nothing. |
| `Districts.HospitalsPerCanton` | app.py:69 | The group sizes have one entry per canton name occurring in the join, holding the number of join rows with that name. No other name has an entry. |
| `Districts.JoinedFacilitiesEmpty` | app.py:69 | A canton has no joined facilities iff no join row names it. |
| `Districts.MergePopulation` | app.py:72-74 | The left merge has at least one row per boundary row, and every merged row carries a boundary row. Its exact shape under unique keys is `Districts.MergeExactlyOnce`. |
| `Districts.MergeKeepsEveryBoundary` | app.py:72-74 | The left merge with the population table keeps every boundary row, whatever the population table holds. |
| `Districts.AtMostOneMatch` | app.py:72-74 | If population canton names are unique, a canton matches at most one population row. |
| `Districts.MatchedPopulation` | app.py:72-79 | If population names are unique, a canton has no match iff no population row names it. Otherwise its only match is the row that names it. |
| `Districts.MergeExactlyOnce` | app.py:72-74 | If population names are unique, the merge has exactly one row per boundary row, in order. The row carries the matched POB_2015, or a missing value when there is no match. |
| `Districts.MergedPopulationFromTable` | app.py:72-74 | Every non-missing population value in the merge comes from a population row. |
| `Districts.EveryCantonKept` | app.py:66-88 | Every canton of the boundary table appears in the final table with its province, area and geometry. |
| `Districts.TotalHospitalsIsJoinCount` | app.py:66-78 | Every row's TOTAL_HOSPITALES is the number of join rows naming its canton. It is 0 exactly when no join row names it. |
| `Districts.PopulationFilled` | app.py:72-79 | If population names are unique, the final table has one row per boundary row, in order. POB_2015 is that canton's population value, 0 when the value is missing, and 0 when the canton is absent from the population table. |
| `Districts.Density` | app.py:83 | For a positive area, the density times the area is the population. Otherwise the density is 0. |
| `Districts.PerHospital` | app.py:86-88 | The ratio is missing iff there is no hospital. Otherwise the ratio times the hospital count is the population. |
| `Districts.DeriveRow` | app.py:75-88 | A derived row keeps its boundary columns. Its hospital count is 0 iff the canton has no join count. Its ratio is missing iff that count is 0. |
| `Districts.DeriveDistricts` | app.py:69-88 | The final table has at least one row per boundary row, and in every row the ratio is missing iff TOTAL_HOSPITALES is 0. The column values are `Districts.DerivedColumns`, `Districts.PopulationFilled` and `Districts.TotalHospitalsIsJoinCount`. |
| `Districts.DerivedColumns` | app.py:82-88 | `densidad` is POB_2015 / area when the area is positive and exactly 0 otherwise. HAB_POR_HOSP is missing iff TOTAL_HOSPITALES is 0, and otherwise equals POB_2015 / TOTAL_HOSPITALES. |
| `Districts.DeriveRowColumns` | app.py:83-88 | The same guards, for one derived row. |
| `Districts.NonNegativeColumns` | app.py:72-88 | If population values are non-negative, POB_2015, `densidad` and any HAB_POR_HOSP are non-negative. |
| `Districts.DeriveRowNonNegative` | app.py:79-88 | For one row: a missing or non-negative population gives a non-negative POB_2015, `densidad` and HAB_POR_HOSP. |
| `Districts.LoadData` | app.py:24-91 | `cargar_datos` either raises, in the source's order, a KeyError naming the missing columns or a ValueError on a non-unique CANTON, or it returns the final table, the filtered facilities and the renamed headers. |
| `Districts.FirstLoadError` | app.py:61-79 | The first error the load raises on the renamed headers, in the source's order. The join's CANTON must come from exactly one layer. The population selection is checked before the merge, and the merge's population key before its boundary key. The error is a KeyError naming at least one missing column, or a ValueError on the non-unique label CANTON. |
| `Districts.NoLoadError` | app.py:61-79 | No error is raised iff: the category column is present; the facility layer has no CANTON; each renamed header has CANTON exactly once; the population header has POB_2015; the boundary header has neither TOTAL_HOSPITALES nor POB_2015. |
| `Districts.LoadDataSucceeds` | app.py:61-79 | Loading succeeds iff all of these hold: the facility layer has "#meta+healthcare" and no CANTON (the join would suffix it); the renamed boundary header has CANTON exactly once and neither TOTAL_HOSPITALES nor POB_2015 (the merges would suffix them); the renamed population header has CANTON exactly once and has POB_2015. |
| `Districts.FacilityCantonDefersToPopulation` | app.py:66-74 | With CANTON only in the facility layer, the count succeeds (the join takes CANTON from the facilities), and the population selection raises KeyError naming POB_2015. |
| `Districts.DuplicatedCantonFails` | app.py:33-74 | A population header with both NOM_CANT and CANTON renames to two CANTON labels, and the merge raises ValueError. |
| `Districts.CensusHeaderColumns` | app.py:33-39 | The census header (NOM_PROV, NOM_CANT, PoblaciónCensada2011, PoblaciónEstimada2015) renames to a header with CANTON once and with POB_2015. |
| `Districts.AccentedBoundaryHeaderColumns` | app.py:42-48 | The accented boundary header (CÓDIGO, CANTÓN, "CÓDIGO_DE_PROVINCIA ") renames to a header with CANTON once, and without TOTAL_HOSPITALES or POB_2015. |
| `Districts.AliasedHeadersLoad` | app.py:33-79 | Layers whose headers use only the aliased names load, because the aliases supply the canonical names. |
| `Districts.SpatialJoin` | app.py:66 | Every join row names a facility of the joined table and a canton with a boundary polygon of that name containing that facility. |
| `Districts.JoinOnlyRetained` | app.py:61-66 | Every row of the join of the filtered facilities is a retained facility, lying within a boundary polygon with the row's canton name. |
| `Districts.JoinCountsWithin` | app.py:66-69 | A canton's join count is the number of (facility, polygon) pairs that place a facility within a polygon of that name. |
| `Districts.LoadedHospitalCounts` | app.py:61-78 | After a successful load, each canton's TOTAL_HOSPITALES counts the retained facilities within polygons of its name, and nothing else. |
| `Districts.ExcludedFacilityNotCounted` | app.py:56-78 | Adding a facility the filter excludes (a pharmacy, say) leaves everything loaded unchanged. |
| `Districts.ThreeCantonScenario` | app.py:66-88 | Cantons A, B, C, with population 1000 for A and 2000 for B, and two facilities in A, give: A has 1000 inhabitants, 2 hospitals and a ratio of 500; B has 2000 inhabitants, 0 hospitals and no ratio; C has 0 inhabitants, 0 hospitals and no ratio. |
| `Districts.ScenarioMerge` | app.py:72-79 | In that case, the merge gives A 1000, B 2000 and C a missing population. |
| `Districts.ScenarioCounts` | app.py:69 | In that case, the counts are A = 2, and B and C have no entry. |
| `Districts.RatioZeroWithoutPopulation` | app.py:79-88 | A canton absent from the population table but with one hospital gets a ratio of 0, not a missing ratio. |
| `Districts.DensityScenario` | app.py:83 | 50,000 inhabitants on 100 km² give a density of 500. |
| `Selection.SelectPlace` | app.py:160-164 | The selected rows are rows of the table that match the chosen province and canton, and there are no more of them than rows. Completeness is `Selection.SelectPlaceExactly`. |
| `Selection.SelectPlaceExactly` | app.py:160-164 | A row is selected, with its multiplicity, iff it matches the chosen province (unless "(Todas)") and the chosen canton (unless "(Todos)"). |
| `Selection.SelectPlaceAppend` | app.py:160-164 | The province/canton filter keeps the table's row order. |
| `Selection.Saturated` | app.py:204 | Every saturated row is a row of the table whose ratio is present and at least the threshold. Completeness is `Selection.SaturatedExactly`. |
| `Selection.SaturatedExactly` | app.py:204 | The saturated rows are exactly those whose HAB_POR_HOSP is present and at least the threshold, each with its multiplicity. |
| `Selection.SaturatedMonotone` | app.py:204 | Raising the threshold never adds a saturated canton. |
| `Selection.SaturatedMeansPressure` | app.py:204 | In the derived table, a canton is saturated iff it has a hospital and POB_2015 is at least the threshold times its hospital count. A canton without hospitals is never saturated. |
| `Selection.RowSaturatedMeansPressure` | app.py:204 | The same, for one derived row. |
| `Selection.MapFrame` | app.py:252 | The map frame has no more rows than the table. For population or density it has one row per row of the final table and no HAB_POR_HOSP value in any row. |
| `Selection.OutlinesOf` | app.py:328-333 | There is at most one outline per map-frame row. Which rows give one is `Selection.CollectOutlines` and `Selection.OutlinesForRatioVariable`. |
| `Selection.CollectOutlines` | app.py:328-333 | The loop returns, in order, one outline (name and geometry) for each map-frame row whose HAB_POR_HOSP is present and at least the threshold. |
| `Selection.OutlinesNeedRatioColumn` | app.py:328-330 | As written: when the map shows POB_2015 or `densidad`, the map frame has no HAB_POR_HOSP column and no outline is drawn. |
| `Selection.IntendedOutlinesAreSaturated` | app.py:325-333 | Outlines drawn from a frame that keeps HAB_POR_HOSP are exactly those of the saturated cantons of the whole final table (the predicate of line 204), in order. |
| `Selection.OutlinesForRatioVariable` | app.py:328-333 | When the map shows HAB_POR_HOSP, the loop as written draws exactly the outlines of the saturated cantons. |
| `Markers.AnchorCoordinates` | app.py:299-309 | A Point yields its coordinates. Any other type with null or empty coordinates is skipped. |
| `Markers.AnchorOfEncoded` | app.py:297-309 | For every typed geometry, the walk's outcome is: a Point's position; the first position of a Polygon's first ring; the first position of the first ring of a MultiPolygon's first polygon. Empty coordinates give no marker. An empty inner list raises IndexError. |
| `Markers.WellFormedAnchorNeverFails` | app.py:303-309 | For geometries whose rings have at least four positions, and whose MultiPolygon polygons each have at least one ring, the walk never raises. It finds no vertex only when the coordinates are empty. |
| `Markers.MarkerOfEncoded` | app.py:294-318 | A facility with a well-formed geometry gets a marker at the anchor's latitude and longitude, with its popup name and city, so the popup reads "name - city". It gets no marker when the coordinates are empty. |
| `Markers.PopupName` | app.py:313 | The popup name is never empty. It is "#loc +name" when that is a non-empty string, else "name" when that is, else "Hospital". |
| `Markers.PopupCity` | app.py:314 | The city is "" when the property is absent, and the property's string when it is one. |
| `Markers.PopupText` | app.py:318 | The popup reads as the name, then " - ", then the city, and nothing else. |
| `Markers.MarkerOf` | app.py:295-322 | A feature without geometry gives no marker. A produced marker carries the popup name and city of its feature's properties. |
| `Markers.MarkersOf` | app.py:294-322 | When the loop does not raise, it yields at most one marker per feature. |
| `Markers.CollectMarkers` | app.py:294-322 | The loop returns the markers of the usable features in order, or the first exception raised. |
| `Markers.MarkersOfErrorSticks` | app.py:294-322 | Once a feature raises, the loop's outcome is that exception. |
| `Markers.MarkersOfDecodable` | app.py:294-322 | When every geometry is null or well-formed, the loop never raises and yields at most one marker per feature. |
| `Markers.MarkersNamed` | app.py:313 | Every marker produced has a non-empty popup name. |
| `MapCache.LegibleName` | app.py:268-271 | The legend label is the first label whose column is the chosen variable, or the variable itself when no entry has it. |
| `MapCache.LegibleNameRoundTrip` | app.py:268-271 | When columns are distinct, choosing an option by its label and looking its column back up gives that label. |
| `MapCache.MapOptionsRoundTrip` | app.py:116-126 | The legend of each of the three map options is that option's own label. |
| `MapCache.NeedsRegeneration` | app.py:274 | Skipping regeneration is safe for what the key covers. From a consistent cache, the kept map is drawn for the current variable and palette, with that variable's legend. |
| `MapCache.Render` | app.py:276-353 | A rendered map records the inputs it was drawn from. Its legend is the label of the chosen variable (`MapCache.StepShowsChosenVariable`). |
| `MapCache.Step` | app.py:274-358 | When a regeneration is needed and the marker loop raises, the session keeps its entries. Otherwise, after the run a map is cached and the cached variable and palette equal the current ones. |
| `MapCache.StepShowsChosenVariable` | app.py:274-358 | A run keeps the cache consistent. When the marker loop does not raise, the map shown after the run is drawn for the chosen variable and palette, with the matching legend, and the key needs no regeneration. An immediate second run with the same inputs changes nothing. |
| `MapCache.FailedRegenerationRetries` | app.py:294-358 | A regeneration whose marker loop raises leaves the session unchanged, so the next run with the same choices regenerates again. |
| `MapCache.FirstRunFailureStoresNothing` | app.py:260-358 | On a first run whose marker loop raises, the session stays as initialised and no map is stored. |
| `MapCache.InitialConsistent` | app.py:260-265 | A new session is consistent and regenerates on its first run, whatever variable and palette are chosen. |
| `MapCache.StaleThreshold` | app.py:274 | As written: after threshold 10000 and then 20000 with the same variable and palette, the map shown is still the one drawn for 10000. |
| `MapCache.MapSession.constructor` | app.py:260-265 | A new session starts with the map, variable and palette entries all None. |
| `MapCache.MapSession.Refresh` | app.py:274-361 | A regeneration is attempted iff there is no map, or the variable differs, or the palette differs. It runs the marker loop. The run raises exactly when that loop raises during a regeneration, and then returns that exception. The new entries are `Step` of the old ones, and a map returned is the one stored. |
| `MapCache.KeyedStep` | app.py:274 | A cache keyed by all map inputs records the current inputs as its key, unless a needed regeneration raises in the marker loop. In that case it keeps the old cache. |
| `MapCache.KeyedShowsCurrentInputs` | app.py:274 | With the full key, when the marker loop does not raise, the map shown is the one drawn for the current inputs. Repeating the inputs reuses it. |

## Findings

| source | as written | input that shows it | evidently intended | confidence | as-written member | corrected member |
|---|---|---|---|---|---|---|
| app.py:274 | The map is regenerated only when the variable or the palette changes. The saturation outlines and the markers also depend on the threshold and on the province/canton selection. | First run: HAB_POR_HOSP, YlOrRd, threshold 10000. Second run: the same, but threshold 20000. The map still outlines the cantons for 10000. | Regenerate whenever any input the map is drawn from changes. | medium; not executed | `MapCache.StaleThreshold` | `MapCache.KeyedShowsCurrentInputs` |
| app.py:328-330 | The outline loop reads HAB_POR_HOSP from the map frame. That frame holds only CANTON, the shown variable and the geometry (line 252). | Show "Población total (2015)" with any canton whose ratio is at or above the threshold: no outline is drawn. | Outline the saturated cantons whichever variable is shown. | medium; not executed | `Selection.OutlinesNeedRatioColumn` | `Selection.IntendedOutlinesAreSaturated` |

`MapCache.MapSession` keeps the cache condition as written. The keyed cache and the intended outlines are stated beside the as-written members.

## Left out

- The user interface is not modelled: Streamlit widgets, page layout, messages, the table display, the CSV download, the charts (lines 218-246), the summary totals (lines 366-371) and `time.sleep`.
- Reading the files (`gpd.read_file`) and reprojection (`to_crs`) are library I/O and coordinate maths. Each record is given in canonical column names after renaming.
- The point-in-polygon test of `gpd.sjoin` is a library geometry algorithm. It is the `within` parameter. The join is built from it over the filtered facilities.
- `Districts.LoadData`: of the column names the two layers share in the join, only CANTON is modelled. Only CANTON matters to the later steps, and the join's own `index_right` column is not modelled.
- `Districts.LoadData`: a renamed population header that repeats POB_2015 is not modelled as an error. The pandas failure it leads to, at the derived columns, depends on library internals.
- `Districts.DeriveDistricts`, `Districts.TotalHospitalsIsJoinCount` and the three-canton cases take any join. Only `Districts.LoadData` builds the join from the retained facilities.
- The area (`to_crs(epsg=3857).geometry.area / 10**6`) is library floating-point maths. It is the `areaKm2` input.
- Floating-point rounding is not modelled. Ratios are computed in `real`.
- Folium and Plotly rendering, `to_json` / `json.loads` and `get_root().render()` are foreign libraries. A rendered map is recorded by the inputs it was drawn from (`MapCache.MapView`). A facility carries its GeoJSON feature as already parsed.
- The `except Exception` fallback around `__geo_interface__` (lines 334-339) depends on library behaviour. Only the selection it shares with the main path is modelled.
- The facility marker filter by `addr_city` (lines 166-172) is a UI cross-reference and is not modelled.
- Canton names are assumed non-null. Pandas drops null group keys in `groupby` and matches null keys in `merge`; neither is modelled.
- `Columns.Lower` maps only ASCII letters. Python's full Unicode lower-casing is not modelled.
- `Markers.AnchorCoordinates` assumes the keys that `to_json` always writes: a geometry's "type" and a Point's "coordinates". It also treats an empty geometry object like a null one.
- `Markers.MarkerOf` rejects a location that is not two numbers with a single `BadLocation` error. This stands in for the check the mapping library makes.
- `Markers.PopupName` models the "name" fallback even though the serialised frame (line 257) carries only "#loc +name", "addr_city" and the geometry. In the app that fallback never fires.
- `Districts.LoadData` reports only the first error the code would raise. Columns other than CANTON, PROVINCIA, POB_2015, the area and the geometry (POB_2011, the codes) are not carried.
- The palette selector's table of labels and colour schemes (lines 128-140) is not modelled. The chosen scheme is the `palette` parameter.
- `Columns.DetectPopulationColumn` is defined in the source but never called there. It is modelled on its own.
