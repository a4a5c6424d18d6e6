/**
 * The selections the dashboard makes on the final canton table: the
 * province/canton filter of the sidebar, the cantons over the saturation
 * threshold, and the outlines of saturated cantons drawn on the map.
 */
module Selection {
  import opened Wrappers
  import opened Frames
  import opened Districts
  import Markers

  // ---------------------------------------------------------------------
  // Province and canton filter (lines 160-164)
  // ---------------------------------------------------------------------

  /** The first entry of the province selector: no province filter. */
  const AllProvinces: string := "(Todas)"

  /** The first entry of the canton selector: no canton filter. */
  const AllCantons: string := "(Todos)"

  /** A row passes the sidebar's province and canton selection. */
  predicate MatchesPlace(d: District, province: string, canton: string) {
    (province == AllProvinces || d.province == province) && (canton == AllCantons || d.canton == canton)
  }

  /** Lines 160-164: filter by province unless "(Todas)", then by canton unless "(Todos)". */
  function SelectPlace(rows: seq<District>, province: string, canton: string): (selected: seq<District>)
    ensures |selected| <= |rows|
    ensures forall d :: d in selected ==> d in rows && MatchesPlace(d, province, canton)
  {
    var byProvince := if province != AllProvinces then Where(rows, (d: District) => d.province == province) else rows;
    if canton != AllCantons then Where(byProvince, (d: District) => d.canton == canton) else byProvince
  }

  /** A row is selected, as often as it occurs, exactly when it matches the selection. */
  lemma SelectPlaceExactly(rows: seq<District>, province: string, canton: string, d: District)
    ensures multiset(SelectPlace(rows, province, canton))[d] == if MatchesPlace(d, province, canton) then multiset(rows)[d] else 0
    ensures d in SelectPlace(rows, province, canton) <==> d in rows && MatchesPlace(d, province, canton)
  {
    var byProvince := if province != AllProvinces then Where(rows, (d: District) => d.province == province) else rows;
    if province != AllProvinces {
      WhereMultiset(rows, (d: District) => d.province == province, d);
    }
    if canton != AllCantons {
      WhereMultiset(byProvince, (d: District) => d.canton == canton, d);
    }
  }

  /** The filter keeps the table's row order. */
  lemma SelectPlaceAppend(a: seq<District>, b: seq<District>, province: string, canton: string)
    ensures SelectPlace(a + b, province, canton) == SelectPlace(a, province, canton) + SelectPlace(b, province, canton)
  {
    var pa := if province != AllProvinces then Where(a, (d: District) => d.province == province) else a;
    var pb := if province != AllProvinces then Where(b, (d: District) => d.province == province) else b;
    if province != AllProvinces {
      WhereAppend(a, b, (d: District) => d.province == province);
    }
    if canton != AllCantons {
      WhereAppend(pa, pb, (d: District) => d.canton == canton);
    }
  }

  // ---------------------------------------------------------------------
  // Saturated cantons (line 204)
  // ---------------------------------------------------------------------

  /** The ratio is defined and at least the threshold. */
  predicate IsSaturated(d: District, threshold: real) {
    d.habPorHosp.Some? && d.habPorHosp.value >= threshold
  }

  /** Line 204: the rows whose HAB_POR_HOSP is present and at least the threshold. */
  function Saturated(rows: seq<District>, threshold: real): (saturated: seq<District>)
    ensures |saturated| <= |rows|
    ensures forall d :: d in saturated ==> d in rows && d.habPorHosp.Some? && d.habPorHosp.value >= threshold
  {
    Where(rows, (d: District) => IsSaturated(d, threshold))
  }

  /** The saturated rows are exactly the rows with a defined ratio at or above the threshold. */
  lemma SaturatedExactly(rows: seq<District>, threshold: real, d: District)
    ensures d in Saturated(rows, threshold) <==> d in rows && d.habPorHosp.Some? && d.habPorHosp.value >= threshold
    ensures multiset(Saturated(rows, threshold))[d] == if IsSaturated(d, threshold) then multiset(rows)[d] else 0
  {
    WhereMultiset(rows, (d: District) => IsSaturated(d, threshold), d);
  }

  /** Raising the threshold never adds a saturated canton. */
  lemma SaturatedMonotone(rows: seq<District>, low: real, high: real, d: District)
    requires low <= high
    ensures multiset(Saturated(rows, high))[d] <= multiset(Saturated(rows, low))[d]
  {
    SaturatedExactly(rows, high, d);
    SaturatedExactly(rows, low, d);
  }

  /** The canton has a hospital and at least `threshold` inhabitants for each of them. */
  predicate UnderPressure(d: District, threshold: real) {
    d.totalHospitales > 0 && d.pob2015 >= threshold * d.totalHospitales as real
  }

  /**
   * In the derived table a canton is saturated exactly when it has a
   * hospital and its population is at least threshold times its hospitals;
   * a canton without hospitals is never saturated.
   */
  lemma SaturatedMeansPressure(boundaries: seq<BoundaryRow>, pop: seq<PopulationRow>, join: seq<JoinRow>, j: nat, threshold: real)
    requires j < |DeriveDistricts(boundaries, pop, join)|
    ensures IsSaturated(DeriveDistricts(boundaries, pop, join)[j], threshold) <==>
      UnderPressure(DeriveDistricts(boundaries, pop, join)[j], threshold)
  {
    var merged := MergePopulation(boundaries, pop);
    assert DeriveDistricts(boundaries, pop, join)[j] == DeriveRow(merged[j].0, merged[j].1, HospitalsPerCanton(join));
    RowSaturatedMeansPressure(merged[j].0, merged[j].1, HospitalsPerCanton(join), threshold);
  }

  /** SaturatedMeansPressure for one derived row. */
  lemma RowSaturatedMeansPressure(b: BoundaryRow, pob: Option<real>, counts: map<string, nat>, threshold: real)
    ensures IsSaturated(DeriveRow(b, pob, counts), threshold) <==> UnderPressure(DeriveRow(b, pob, counts), threshold)
  {
    var d := DeriveRow(b, pob, counts);
    if d.totalHospitales > 0 {
      RatioAtLeast(d.pob2015, d.totalHospitales as real, threshold);
    }
  }

  /** For a positive count, the ratio reaches the threshold exactly when the numerator reaches threshold times count. */
  lemma RatioAtLeast(pob: real, n: real, threshold: real)
    requires n > 0.0
    ensures pob / n >= threshold <==> pob >= threshold * n
  {
    assert (pob / n) * n == pob;
    if pob / n >= threshold {
      assert (pob / n) * n >= threshold * n;
    } else {
      assert (pob / n) * n < threshold * n;
    }
  }

  // ---------------------------------------------------------------------
  // Outlines of saturated cantons on the map (lines 252, 325-333)
  // ---------------------------------------------------------------------

  /** The three columns the map can show (the values of the variable selector). */
  predicate IsMapVariable(variable: string) {
    variable == "HAB_POR_HOSP" || variable == "POB_2015" || variable == "densidad"
  }

  /** The value of a row in one of the map columns. */
  function ColumnValue(d: District, variable: string): (value: Option<real>)
    requires IsMapVariable(variable)
  {
    if variable == "HAB_POR_HOSP" then d.habPorHosp
    else if variable == "POB_2015" then Some(d.pob2015)
    else Some(d.densidad)
  }

  /**
   * A row of the map frame: CANTON, the chosen column and the geometry, and
   * what `row.get('HAB_POR_HOSP')` returns on it (None when that column was
   * not selected).
   */
  datatype MapRow = MapRow(canton: string, value: real, ratio: Option<real>, shape: Markers.Geometry)

  /** Line 252: `final[['CANTON', var_mapa, 'geometry']].dropna()`. */
  function MapFrame(final: seq<District>, variable: string): (frame: seq<MapRow>)
    requires IsMapVariable(variable)
    ensures |frame| <= |final|
    ensures variable != "HAB_POR_HOSP" ==> |frame| == |final|
    ensures forall r :: r in frame && variable != "HAB_POR_HOSP" ==> r.ratio.None?
  {
    if final == [] then []
    else
      var d := final[|final| - 1];
      MapFrame(final[..|final| - 1], variable) +
        match ColumnValue(d, variable)
        case None => []
        case Some(v) => [MapRow(d.canton, v, if variable == "HAB_POR_HOSP" then d.habPorHosp else None, d.shape)]
  }

  /** A saturated-canton outline: a feature with the canton's name and geometry. */
  datatype Outline = Outline(canton: string, shape: Markers.Geometry)

  /** The outlines of the saturated rows of the map frame, in order. */
  function OutlinesOf(rows: seq<MapRow>, threshold: real): (outlines: seq<Outline>)
    ensures |outlines| <= |rows|
  {
    if rows == [] then []
    else
      var r := rows[|rows| - 1];
      OutlinesOf(rows[..|rows| - 1], threshold) +
        if r.ratio.Some? && r.ratio.value >= threshold then [Outline(r.canton, r.shape)] else []
  }

  /** Lines 328-333: the loop that appends one outline per saturated row of the map frame. */
  method CollectOutlines(rows: seq<MapRow>, threshold: real) returns (features: seq<Outline>)
    ensures features == OutlinesOf(rows, threshold)
  {
    features := [];
    var i := 0;
    while i < |rows|
      invariant 0 <= i <= |rows|
      invariant features == OutlinesOf(rows[..i], threshold)
    {
      assert rows[..i + 1][..i] == rows[..i];
      var habph := rows[i].ratio;
      if habph.Some? && habph.value >= threshold {
        features := features + [Outline(rows[i].canton, rows[i].shape)];
      }
      i := i + 1;
    }
    assert rows[..i] == rows;
  }

  /** The outlines of a list of cantons, in order. */
  function Outlines(rows: seq<District>): (outlines: seq<Outline>) {
    if rows == [] then []
    else Outlines(rows[..|rows| - 1]) + [Outline(rows[|rows| - 1].canton, rows[|rows| - 1].shape)]
  }

  /**
   * As written, the map frame has a HAB_POR_HOSP column only when that is the
   * variable shown, so for population or density no outline is ever drawn.
   */
  lemma {:induction false} OutlinesNeedRatioColumn(final: seq<District>, variable: string, threshold: real)
    requires IsMapVariable(variable) && variable != "HAB_POR_HOSP"
    ensures OutlinesOf(MapFrame(final, variable), threshold) == []
  {
    if final != [] {
      var init := final[..|final| - 1];
      OutlinesNeedRatioColumn(init, variable, threshold);
      var frame := MapFrame(final, variable);
      assert frame == MapFrame(init, variable) + frame[|MapFrame(init, variable)|..];
      OutlinesAppend(MapFrame(init, variable), frame[|MapFrame(init, variable)|..], threshold);
    }
  }

  /** Outlines of a concatenation are the concatenation of the outlines. */
  lemma {:induction false} OutlinesAppend(a: seq<MapRow>, b: seq<MapRow>, threshold: real)
    ensures OutlinesOf(a + b, threshold) == OutlinesOf(a, threshold) + OutlinesOf(b, threshold)
  {
    if b == [] {
      assert a + b == a;
    } else {
      assert (a + b)[..|a + b| - 1] == a + b[..|b| - 1];
      OutlinesAppend(a, b[..|b| - 1], threshold);
    }
  }

  /**
   * The intended outlines, drawn from a frame that keeps HAB_POR_HOSP
   * whatever the variable shown: exactly the saturated cantons of the table
   * list (line 204) over the whole table, in order.
   */
  function IntendedOutlines(final: seq<District>, threshold: real): (outlines: seq<Outline>) {
    OutlinesOf(MapFrame(final, "HAB_POR_HOSP"), threshold)
  }

  /** The intended outlines are the outlines of `Saturated(final, threshold)`. */
  lemma {:induction false} IntendedOutlinesAreSaturated(final: seq<District>, threshold: real)
    ensures IntendedOutlines(final, threshold) == Outlines(Saturated(final, threshold))
  {
    if final != [] {
      var n := |final|;
      var init, d := final[..n - 1], final[n - 1];
      IntendedOutlinesAreSaturated(init, threshold);
      var tail := RatioRow(d);
      assert MapFrame(final, "HAB_POR_HOSP") == MapFrame(init, "HAB_POR_HOSP") + tail;
      OutlinesAppend(MapFrame(init, "HAB_POR_HOSP"), tail, threshold);
      RatioRowOutline(d, threshold);
      SaturatedLast(final, threshold);
    }
  }

  /** The map-frame rows one canton contributes when HAB_POR_HOSP is shown. */
  function RatioRow(d: District): (r: seq<MapRow>)
    ensures r == MapFrame([d], "HAB_POR_HOSP")
  {
    if d.habPorHosp.Some? then [MapRow(d.canton, d.habPorHosp.value, d.habPorHosp, d.shape)] else []
  }

  /** That one-canton frame yields an outline exactly when the canton is saturated. */
  lemma RatioRowOutline(d: District, threshold: real)
    ensures OutlinesOf(RatioRow(d), threshold) == if IsSaturated(d, threshold) then [Outline(d.canton, d.shape)] else []
  {
    if d.habPorHosp.Some? {
      assert RatioRow(d)[..0] == [];
    }
  }

  /** Outlines of the saturated rows, split at the last row. */
  lemma SaturatedLast(final: seq<District>, threshold: real)
    requires final != []
    ensures Outlines(Saturated(final, threshold)) ==
      Outlines(Saturated(final[..|final| - 1], threshold)) +
      if IsSaturated(final[|final| - 1], threshold) then [Outline(final[|final| - 1].canton, final[|final| - 1].shape)] else []
  {
    var sat := Saturated(final[..|final| - 1], threshold);
    var d := final[|final| - 1];
    if IsSaturated(d, threshold) {
      assert Saturated(final, threshold) == sat + [d];
      assert (sat + [d])[..|sat|] == sat;
    } else {
      assert Saturated(final, threshold) == sat;
    }
  }

  /** When the map shows HAB_POR_HOSP, the loop as written draws the intended outlines. */
  lemma OutlinesForRatioVariable(final: seq<District>, threshold: real)
    ensures OutlinesOf(MapFrame(final, "HAB_POR_HOSP"), threshold) == Outlines(Saturated(final, threshold))
  {
    IntendedOutlinesAreSaturated(final, threshold);
  }
}
