/**
 * The load-and-derive pipeline of `cargar_datos`: normalise the headers,
 * filter the facilities, count the joined facilities per canton, left-merge
 * population and counts onto the boundary table, fill the gaps with 0 and
 * derive the density and the inhabitants per hospital.
 *
 * The point-in-polygon test and the projected area are inputs: the join is
 * built from the filtered facilities with the test `within`, and each
 * boundary row carries its area in square kilometres.
 */
module Districts {
  import opened Wrappers
  import opened Frames
  import opened Columns
  import opened Facilities
  import Markers

  /** A canton of the boundary layer (CANTON, PROVINCIA, its area in km2, its geometry). */
  datatype BoundaryRow = BoundaryRow(canton: string, province: string, areaKm2: real, shape: Markers.Geometry)

  /** A row of the population layer, reduced to CANTON and POB_2015 (None when NaN). */
  datatype PopulationRow = PopulationRow(canton: string, pob2015: Option<real>)

  /** A row of the spatial join: a filtered facility and the CANTON of the polygon it lies within. */
  datatype JoinRow = JoinRow(facility: nat, canton: string)

  /** A row of the final table. */
  datatype District = District(
    canton: string,
    province: string,
    areaKm2: real,
    shape: Markers.Geometry,
    pob2015: real,
    totalHospitales: nat,
    densidad: real,
    habPorHosp: Option<real>)

  /** `d` carries the boundary columns of `b`. */
  predicate FromBoundary(d: District, b: BoundaryRow) {
    d.canton == b.canton && d.province == b.province && d.areaKm2 == b.areaKm2 && d.shape == b.shape
  }

  // ---------------------------------------------------------------------
  // Facilities per canton (line 69)
  // ---------------------------------------------------------------------

  /** The join rows that name canton `name`. */
  function JoinedFacilities(join: seq<JoinRow>, name: string): (rows: seq<JoinRow>) {
    Where(join, (r: JoinRow) => r.canton == name)
  }

  /**
   * `join.groupby("CANTON").size()`: one entry per canton name that occurs in
   * the join, holding the number of join rows that name it.
   */
  function HospitalsPerCanton(join: seq<JoinRow>): (counts: map<string, nat>)
    ensures forall c :: c in counts <==> |JoinedFacilities(join, c)| > 0
    ensures forall c :: c in counts ==> counts[c] == |JoinedFacilities(join, c)|
  {
    if join == [] then map[]
    else
      var n := |join|;
      var counts := HospitalsPerCanton(join[..n - 1]);
      var c := join[n - 1].canton;
      CountStep(join, counts);
      counts[c := (if c in counts then counts[c] else 0) + 1]
  }

  /** Counting the last join row keeps the counts equal to the join rows per canton. */
  lemma CountStep(join: seq<JoinRow>, counts: map<string, nat>)
    requires join != []
    requires forall c :: c in counts <==> |JoinedFacilities(join[..|join| - 1], c)| > 0
    requires forall c :: c in counts ==> counts[c] == |JoinedFacilities(join[..|join| - 1], c)|
    ensures var c := join[|join| - 1].canton;
      var next := counts[c := (if c in counts then counts[c] else 0) + 1];
      && (forall name :: name in next <==> |JoinedFacilities(join, name)| > 0)
      && (forall name :: name in next ==> next[name] == |JoinedFacilities(join, name)|)
  {
    var init, last := join[..|join| - 1], join[|join| - 1];
    forall name
      ensures |JoinedFacilities(join, name)| == |JoinedFacilities(init, name)| + (if last.canton == name then 1 else 0)
    {
      var keep := (r: JoinRow) => r.canton == name;
      assert JoinedFacilities(join, name) == Where(init, keep) + if keep(last) then [last] else [];
    }
  }

  /** A canton has a join count exactly when some join row names it. */
  lemma JoinedFacilitiesEmpty(join: seq<JoinRow>, name: string)
    ensures |JoinedFacilities(join, name)| == 0 <==> forall k :: 0 <= k < |join| ==> join[k].canton != name
  {
    if exists k :: 0 <= k < |join| && join[k].canton == name {
      var k :| 0 <= k < |join| && join[k].canton == name;
      WhereComplete(join, (r: JoinRow) => r.canton == name, join[k]);
    } else {
      WhereNone(join, (r: JoinRow) => r.canton == name);
    }
  }

  // ---------------------------------------------------------------------
  // The spatial join of the filtered facilities (line 66)
  // ---------------------------------------------------------------------

  /**
   * The join rows of facility number `i` of the filtered table: one per
   * boundary polygon that contains it, in boundary order.
   */
  function Placements(i: nat, h: Facility, boundaries: seq<BoundaryRow>, within: (Facility, BoundaryRow) -> bool): (rows: seq<JoinRow>)
    ensures forall r :: r in rows ==> r.facility == i && exists b :: b in boundaries && b.canton == r.canton && within(h, b)
  {
    if boundaries == [] then []
    else
      var n := |boundaries| - 1;
      var b := boundaries[n];
      PlacementsFrom(i, h, boundaries, within);
      Placements(i, h, boundaries[..n], within) + if within(h, b) then [JoinRow(i, b.canton)] else []
  }

  /** The rows placed by the first polygons come from polygons of the whole table. */
  lemma PlacementsFrom(i: nat, h: Facility, boundaries: seq<BoundaryRow>, within: (Facility, BoundaryRow) -> bool)
    requires boundaries != []
    ensures forall b :: b in boundaries[..|boundaries| - 1] ==> b in boundaries
  {
    forall b | b in boundaries[..|boundaries| - 1] ensures b in boundaries {
      var k :| 0 <= k < |boundaries| - 1 && boundaries[..|boundaries| - 1][k] == b;
      assert boundaries[k] == b;
    }
  }

  /**
   * `gpd.sjoin(hospitales, cantones, how="inner", predicate="within")` over
   * the filtered facilities: one row per (facility, containing polygon) pair.
   * Only the point-in-polygon test `within` is a parameter.
   */
  function SpatialJoin(hospitals: seq<Facility>, boundaries: seq<BoundaryRow>, within: (Facility, BoundaryRow) -> bool): (join: seq<JoinRow>)
    ensures forall r :: r in join ==> (r.facility < |hospitals| &&
      exists b :: b in boundaries && b.canton == r.canton && within(hospitals[r.facility], b))
  {
    if hospitals == [] then []
    else
      var n := |hospitals| - 1;
      SpatialJoin(hospitals[..n], boundaries, within) + Placements(n, hospitals[n], boundaries, within)
  }

  /** The number of (facility, polygon) pairs that place a facility within a polygon named `name`. */
  function CountWithin(hospitals: seq<Facility>, boundaries: seq<BoundaryRow>, within: (Facility, BoundaryRow) -> bool, name: string): (count: nat) {
    if hospitals == [] then 0
    else
      var h := hospitals[|hospitals| - 1];
      CountWithin(hospitals[..|hospitals| - 1], boundaries, within, name) +
        |Where(boundaries, (b: BoundaryRow) => b.canton == name && within(h, b))|
  }

  /** One facility's join rows for canton `name` are the polygons of that name containing it. */
  lemma {:induction false} PlacementsCount(i: nat, h: Facility, boundaries: seq<BoundaryRow>, within: (Facility, BoundaryRow) -> bool, name: string)
    ensures |JoinedFacilities(Placements(i, h, boundaries, within), name)| ==
      |Where(boundaries, (b: BoundaryRow) => b.canton == name && within(h, b))|
  {
    if boundaries != [] {
      var n := |boundaries| - 1;
      var b := boundaries[n];
      var init := boundaries[..n];
      PlacementsCount(i, h, init, within, name);
      var t := if within(h, b) then [JoinRow(i, b.canton)] else [];
      assert Placements(i, h, boundaries, within) == Placements(i, h, init, within) + t;
      WhereAppend(Placements(i, h, init, within), t, (r: JoinRow) => r.canton == name);
      assert |JoinedFacilities(t, name)| == if b.canton == name && within(h, b) then 1 else 0;
      assert Where(boundaries, (b: BoundaryRow) => b.canton == name && within(h, b)) ==
        Where(init, (b: BoundaryRow) => b.canton == name && within(h, b)) + if b.canton == name && within(h, b) then [b] else [];
    }
  }

  /** The join count of a canton is the number of retained-facility placements within polygons of that name. */
  lemma {:induction false} JoinCountsWithin(hospitals: seq<Facility>, boundaries: seq<BoundaryRow>, within: (Facility, BoundaryRow) -> bool, name: string)
    ensures |JoinedFacilities(SpatialJoin(hospitals, boundaries, within), name)| == CountWithin(hospitals, boundaries, within, name)
  {
    if hospitals != [] {
      var n := |hospitals| - 1;
      JoinCountsWithin(hospitals[..n], boundaries, within, name);
      PlacementsCount(n, hospitals[n], boundaries, within, name);
      WhereAppend(SpatialJoin(hospitals[..n], boundaries, within), Placements(n, hospitals[n], boundaries, within), (r: JoinRow) => r.canton == name);
    }
  }

  /**
   * Every row of the join of the filtered facilities is a retained facility
   * lying within a polygon of the boundary layer with that canton's name.
   */
  lemma JoinOnlyRetained(facilities: seq<Facility>, boundaries: seq<BoundaryRow>, within: (Facility, BoundaryRow) -> bool, r: JoinRow)
    requires r in SpatialJoin(FilterFacilities(facilities), boundaries, within)
    ensures r.facility < |FilterFacilities(facilities)|
    ensures Retained(FilterFacilities(facilities)[r.facility])
    ensures exists b :: b in boundaries && b.canton == r.canton && within(FilterFacilities(facilities)[r.facility], b)
  {
    var kept := FilterFacilities(facilities);
    assert kept[r.facility] in kept;
  }

  // ---------------------------------------------------------------------
  // Left merge with the population table (lines 72-74)
  // ---------------------------------------------------------------------

  /** The population rows whose CANTON is `name`, in order. */
  function PopulationMatches(pop: seq<PopulationRow>, name: string): (matches: seq<PopulationRow>) {
    Where(pop, (p: PopulationRow) => p.canton == name)
  }

  /**
   * `cantones.merge(poblacion[["CANTON", "POB_2015"]], on="CANTON", how="left")`:
   * each boundary row, in order, once per matching population row (in the
   * population table's order), or once with a missing POB_2015 when none matches.
   */
  function MergePopulation(boundaries: seq<BoundaryRow>, pop: seq<PopulationRow>): (merged: seq<(BoundaryRow, Option<real>)>)
    ensures |merged| >= |boundaries|
    ensures forall m :: m in merged ==> m.0 in boundaries
  {
    if boundaries == [] then []
    else
      var b := boundaries[0];
      var ms := PopulationMatches(pop, b.canton);
      (if ms == [] then [(b, None)] else seq(|ms|, k requires 0 <= k < |ms| => (b, ms[k].pob2015)))
      + MergePopulation(boundaries[1..], pop)
  }

  /** Every boundary row survives the left merge. */
  lemma {:induction false} MergeKeepsEveryBoundary(boundaries: seq<BoundaryRow>, pop: seq<PopulationRow>, i: nat)
    requires i < |boundaries|
    ensures exists j :: 0 <= j < |MergePopulation(boundaries, pop)| && MergePopulation(boundaries, pop)[j].0 == boundaries[i]
  {
    var merged := MergePopulation(boundaries, pop);
    var ms := PopulationMatches(pop, boundaries[0].canton);
    var head := if ms == [] then [(boundaries[0], None)] else seq(|ms|, k requires 0 <= k < |ms| => (boundaries[0], ms[k].pob2015));
    assert merged == head + MergePopulation(boundaries[1..], pop);
    if i == 0 {
      assert merged[0] == head[0];
    } else {
      MergeKeepsEveryBoundary(boundaries[1..], pop, i - 1);
      var j :| 0 <= j < |MergePopulation(boundaries[1..], pop)| && MergePopulation(boundaries[1..], pop)[j].0 == boundaries[1..][i - 1];
      assert merged[|head| + j].0 == boundaries[i];
    }
  }

  /** No two population rows name the same canton. */
  predicate UniqueCantons(pop: seq<PopulationRow>) {
    forall i, j :: 0 <= i < j < |pop| ==> pop[i].canton != pop[j].canton
  }

  /** With unique population keys, a canton matches at most one population row. */
  lemma {:induction false} AtMostOneMatch(pop: seq<PopulationRow>, name: string)
    requires UniqueCantons(pop)
    ensures |PopulationMatches(pop, name)| <= 1
  {
    if pop != [] {
      var n := |pop|;
      var init := pop[..n - 1];
      assert UniqueCantons(init) by {
        forall i, j | 0 <= i < j < |init| ensures init[i].canton != init[j].canton {
          assert init[i] == pop[i] && init[j] == pop[j];
        }
      }
      if pop[n - 1].canton == name {
        forall k | 0 <= k < |init| ensures init[k].canton != name {
          assert init[k] == pop[k];
        }
        WhereNone(init, (p: PopulationRow) => p.canton == name);
      } else {
        AtMostOneMatch(init, name);
      }
    }
  }

  /** The POB_2015 the merge and `fillna(0)` give a canton, from its unique match. */
  lemma MatchedPopulation(pop: seq<PopulationRow>, name: string)
    requires UniqueCantons(pop)
    ensures PopulationMatches(pop, name) == [] <==> forall k :: 0 <= k < |pop| ==> pop[k].canton != name
    ensures forall k :: 0 <= k < |pop| && pop[k].canton == name ==> PopulationMatches(pop, name) == [pop[k]]
  {
    AtMostOneMatch(pop, name);
    var ms := PopulationMatches(pop, name);
    forall k | 0 <= k < |pop| && pop[k].canton == name ensures ms == [pop[k]] {
      WhereComplete(pop, (p: PopulationRow) => p.canton == name, pop[k]);
      assert ms[0] in ms;
      var k' :| 0 <= k' < |pop| && pop[k'] == ms[0];
      assert k' == k;
    }
    if ms != [] {
      assert ms[0] in ms;
    }
  }

  /** With unique population keys the merge keeps every boundary row exactly once, in order. */
  lemma {:induction false} MergeExactlyOnce(boundaries: seq<BoundaryRow>, pop: seq<PopulationRow>)
    requires UniqueCantons(pop)
    ensures |MergePopulation(boundaries, pop)| == |boundaries|
    ensures forall i :: 0 <= i < |boundaries| ==>
      MergePopulation(boundaries, pop)[i].0 == boundaries[i] &&
      MergePopulation(boundaries, pop)[i].1 ==
        (var ms := PopulationMatches(pop, boundaries[i].canton); if ms == [] then None else ms[0].pob2015)
  {
    if boundaries != [] {
      var b := boundaries[0];
      var ms := PopulationMatches(pop, b.canton);
      AtMostOneMatch(pop, b.canton);
      MergeExactlyOnce(boundaries[1..], pop);
      var head := if ms == [] then [(b, None)] else [(b, ms[0].pob2015)];
      var rest := MergePopulation(boundaries[1..], pop);
      assert MergePopulation(boundaries, pop) == head + rest;
      forall i | 0 <= i < |boundaries|
        ensures MergePopulation(boundaries, pop)[i].0 == boundaries[i]
        ensures MergePopulation(boundaries, pop)[i].1 ==
          (var ms' := PopulationMatches(pop, boundaries[i].canton); if ms' == [] then None else ms'[0].pob2015)
      {
        if i > 0 {
          assert boundaries[i] == boundaries[1..][i - 1];
          assert MergePopulation(boundaries, pop)[i] == rest[i - 1];
        }
      }
    }
  }

  // ---------------------------------------------------------------------
  // Derived columns (lines 75-88)
  // ---------------------------------------------------------------------

  /** Line 83: population over area, 0 when the area is not positive. */
  function Density(pob: real, areaKm2: real): (density: real)
    ensures areaKm2 > 0.0 ==> density * areaKm2 == pob
    ensures areaKm2 <= 0.0 ==> density == 0.0
  {
    if areaKm2 > 0.0 then pob / areaKm2 else 0.0
  }

  /** Lines 86-88: population per hospital, missing (pd.NA) when there is no hospital. */
  function PerHospital(pob: real, total: nat): (ratio: Option<real>)
    ensures ratio.None? <==> total == 0
    ensures ratio.Some? ==> ratio.value * total as real == pob
  {
    if total > 0 then Some(pob / total as real) else None
  }

  /** One row of the final table: the count merge with `fillna(0)`, the population `fillna(0)`, the two ratios. */
  function DeriveRow(b: BoundaryRow, pob: Option<real>, counts: map<string, nat>): (d: District)
    ensures FromBoundary(d, b)
    ensures d.totalHospitales == 0 <==> b.canton !in counts || counts[b.canton] == 0
    ensures d.habPorHosp.None? <==> d.totalHospitales == 0
  {
    var p := if pob.Some? then pob.value else 0.0;
    var t := if b.canton in counts then counts[b.canton] else 0;
    District(b.canton, b.province, b.areaKm2, b.shape, p, t, Density(p, b.areaKm2), PerHospital(p, t))
  }

  /** Lines 69-88: the final canton table from the boundary table, the population table and the join. */
  function DeriveDistricts(boundaries: seq<BoundaryRow>, pop: seq<PopulationRow>, join: seq<JoinRow>): (final: seq<District>)
    ensures |final| >= |boundaries|
    ensures forall j :: 0 <= j < |final| ==> (final[j].habPorHosp.None? <==> final[j].totalHospitales == 0)
  {
    var counts := HospitalsPerCanton(join);
    var merged := MergePopulation(boundaries, pop);
    seq(|merged|, i requires 0 <= i < |merged| => DeriveRow(merged[i].0, merged[i].1, counts))
  }

  /** Every canton of the boundary table appears in the final table, whatever the population table holds. */
  lemma EveryCantonKept(boundaries: seq<BoundaryRow>, pop: seq<PopulationRow>, join: seq<JoinRow>, i: nat)
    requires i < |boundaries|
    ensures exists j :: (0 <= j < |DeriveDistricts(boundaries, pop, join)| &&
      FromBoundary(DeriveDistricts(boundaries, pop, join)[j], boundaries[i]))
  {
    MergeKeepsEveryBoundary(boundaries, pop, i);
    var merged := MergePopulation(boundaries, pop);
    var j :| 0 <= j < |merged| && merged[j].0 == boundaries[i];
    assert FromBoundary(DeriveDistricts(boundaries, pop, join)[j], boundaries[i]);
  }

  /**
   * TOTAL_HOSPITALES of every row is the number of join rows naming its
   * canton, and 0 exactly when no join row names it.
   */
  lemma TotalHospitalsIsJoinCount(boundaries: seq<BoundaryRow>, pop: seq<PopulationRow>, join: seq<JoinRow>, j: nat)
    requires j < |DeriveDistricts(boundaries, pop, join)|
    ensures DeriveDistricts(boundaries, pop, join)[j].totalHospitales ==
      |JoinedFacilities(join, DeriveDistricts(boundaries, pop, join)[j].canton)|
    ensures DeriveDistricts(boundaries, pop, join)[j].totalHospitales == 0 <==>
      forall k :: 0 <= k < |join| ==> join[k].canton != DeriveDistricts(boundaries, pop, join)[j].canton
  {
    JoinedFacilitiesEmpty(join, DeriveDistricts(boundaries, pop, join)[j].canton);
  }

  /**
   * With unique population keys: one row per boundary row, in order, whose
   * POB_2015 is the population table's value for the canton, and 0 when the
   * canton is absent there or its value is missing.
   */
  lemma PopulationFilled(boundaries: seq<BoundaryRow>, pop: seq<PopulationRow>, join: seq<JoinRow>, i: nat)
    requires UniqueCantons(pop)
    requires i < |boundaries|
    ensures |DeriveDistricts(boundaries, pop, join)| == |boundaries|
    ensures FromBoundary(DeriveDistricts(boundaries, pop, join)[i], boundaries[i])
    ensures (forall k :: 0 <= k < |pop| ==> pop[k].canton != boundaries[i].canton) ==>
      DeriveDistricts(boundaries, pop, join)[i].pob2015 == 0.0
    ensures forall k :: 0 <= k < |pop| && pop[k].canton == boundaries[i].canton ==>
      DeriveDistricts(boundaries, pop, join)[i].pob2015 == (if pop[k].pob2015.Some? then pop[k].pob2015.value else 0.0)
  {
    MergeExactlyOnce(boundaries, pop);
    MatchedPopulation(pop, boundaries[i].canton);
  }

  /**
   * The derived columns of every row: `densidad` is POB_2015 over the area when
   * the area is positive and exactly 0 otherwise; HAB_POR_HOSP is missing
   * exactly when there is no hospital (never 0 for that reason), and otherwise
   * is POB_2015 over TOTAL_HOSPITALES.
   */
  lemma DerivedColumns(boundaries: seq<BoundaryRow>, pop: seq<PopulationRow>, join: seq<JoinRow>, j: nat)
    requires j < |DeriveDistricts(boundaries, pop, join)|
    ensures var d := DeriveDistricts(boundaries, pop, join)[j];
      && (d.areaKm2 > 0.0 ==> d.densidad == d.pob2015 / d.areaKm2)
      && (d.areaKm2 <= 0.0 ==> d.densidad == 0.0)
      && (d.habPorHosp.None? <==> d.totalHospitales == 0)
      && (d.totalHospitales > 0 ==> d.habPorHosp == Some(d.pob2015 / d.totalHospitales as real))
  {
    var counts := HospitalsPerCanton(join);
    var merged := MergePopulation(boundaries, pop);
    assert DeriveDistricts(boundaries, pop, join)[j] == DeriveRow(merged[j].0, merged[j].1, counts);
    DeriveRowColumns(merged[j].0, merged[j].1, counts);
  }

  /** The ratios of one derived row, see DerivedColumns. */
  lemma DeriveRowColumns(b: BoundaryRow, pob: Option<real>, counts: map<string, nat>)
    ensures var d := DeriveRow(b, pob, counts);
      && (d.areaKm2 > 0.0 ==> d.densidad == d.pob2015 / d.areaKm2)
      && (d.areaKm2 <= 0.0 ==> d.densidad == 0.0)
      && (d.habPorHosp.None? <==> d.totalHospitales == 0)
      && (d.totalHospitales > 0 ==> d.habPorHosp == Some(d.pob2015 / d.totalHospitales as real))
  {
  }

  /** Non-negative population figures give non-negative columns throughout. */
  lemma NonNegativeColumns(boundaries: seq<BoundaryRow>, pop: seq<PopulationRow>, join: seq<JoinRow>, j: nat)
    requires forall k :: 0 <= k < |pop| && pop[k].pob2015.Some? ==> pop[k].pob2015.value >= 0.0
    requires j < |DeriveDistricts(boundaries, pop, join)|
    ensures var d := DeriveDistricts(boundaries, pop, join)[j];
      d.pob2015 >= 0.0 && d.densidad >= 0.0 && (d.habPorHosp.Some? ==> d.habPorHosp.value >= 0.0)
  {
    var counts := HospitalsPerCanton(join);
    var merged := MergePopulation(boundaries, pop);
    assert DeriveDistricts(boundaries, pop, join)[j] == DeriveRow(merged[j].0, merged[j].1, counts);
    MergedPopulationFromTable(boundaries, pop, j);
    DeriveRowNonNegative(merged[j].0, merged[j].1, counts);
  }

  /** NonNegativeColumns for one derived row. */
  lemma DeriveRowNonNegative(b: BoundaryRow, pob: Option<real>, counts: map<string, nat>)
    requires pob.Some? ==> pob.value >= 0.0
    ensures var d := DeriveRow(b, pob, counts);
      d.pob2015 >= 0.0 && d.densidad >= 0.0 && (d.habPorHosp.Some? ==> d.habPorHosp.value >= 0.0)
  {
    var d := DeriveRow(b, pob, counts);
    if b.areaKm2 > 0.0 {
      QuotientNonNegative(d.pob2015, b.areaKm2);
    }
    if d.totalHospitales > 0 {
      QuotientNonNegative(d.pob2015, d.totalHospitales as real);
    }
  }

  /** A non-negative amount shared over a positive quantity is non-negative. */
  lemma QuotientNonNegative(x: real, y: real)
    requires x >= 0.0 && y > 0.0
    ensures x / y >= 0.0
  {
    assert (x / y) * y == x;
  }

  /** A population value in the merged table comes from the population table. */
  lemma {:induction false} MergedPopulationFromTable(boundaries: seq<BoundaryRow>, pop: seq<PopulationRow>, j: nat)
    requires j < |MergePopulation(boundaries, pop)|
    ensures MergePopulation(boundaries, pop)[j].1.Some? ==>
      exists k :: 0 <= k < |pop| && pop[k].pob2015 == MergePopulation(boundaries, pop)[j].1
  {
    var ms := PopulationMatches(pop, boundaries[0].canton);
    var head := if ms == [] then [(boundaries[0], None)] else seq(|ms|, k requires 0 <= k < |ms| => (boundaries[0], ms[k].pob2015));
    var merged := MergePopulation(boundaries, pop);
    assert merged == head + MergePopulation(boundaries[1..], pop);
    if j < |head| {
      if ms != [] {
        assert ms[j] in ms;
        var k :| 0 <= k < |pop| && pop[k] == ms[j];
      }
    } else {
      MergedPopulationFromTable(boundaries[1..], pop, j - |head|);
    }
  }

  // ---------------------------------------------------------------------
  // The whole of cargar_datos (lines 24-91)
  // ---------------------------------------------------------------------

  /**
   * What loading raises: a KeyError with the columns that were missing, or a
   * ValueError on a column label that is not unique.
   */
  datatype LoadError = KeyError(columns: seq<string>) | ValueError(column: string)

  /** What `cargar_datos` returns: the final table, the filtered facilities and the renamed headers. */
  datatype Loaded = Loaded(
    final: seq<District>,
    hospitals: seq<Facility>,
    populationColumns: seq<string>,
    boundaryColumns: seq<string>,
    facilityColumns: seq<string>)

  /**
   * The first error `cargar_datos` raises on the renamed headers, taking the
   * steps that can raise in the source's order:
   * - line 61: the category column must exist;
   * - line 69: `groupby("CANTON")` needs a CANTON in the join, which has
   *   one only when exactly one of the boundary and facility layers has it
   *   (the join suffixes a name both have), and the boundary layer must not
   *   repeat it;
   * - line 73: the population layer must have CANTON and POB_2015;
   * - lines 72-74: the merge looks up the population key, which must be
   *   unique, and then the boundary key, which must exist;
   * - lines 78-79: a boundary layer that already has TOTAL_HOSPITALES or
   *   POB_2015 gets `_x`/`_y` merge suffixes, so reading them fails.
   */
  function FirstLoadError(popCols: seq<string>, boundaryCols: seq<string>, facilityColumns: seq<string>): (e: Option<LoadError>)
    ensures e.Some? && e.value.KeyError? ==> e.value.columns != []
    ensures e.Some? && e.value.ValueError? ==> e.value.column == "CANTON"
  {
    if "#meta+healthcare" !in facilityColumns then Some(KeyError(["#meta+healthcare"]))
    else if ("CANTON" in boundaryCols) == ("CANTON" in facilityColumns) then Some(KeyError(["CANTON"]))
    else if multiset(boundaryCols)["CANTON"] > 1 then Some(ValueError("CANTON"))
    else if MissingColumns(popCols, ["CANTON", "POB_2015"]) != [] then Some(KeyError(MissingColumns(popCols, ["CANTON", "POB_2015"])))
    else if multiset(popCols)["CANTON"] > 1 then Some(ValueError("CANTON"))
    else if "CANTON" !in boundaryCols then Some(KeyError(["CANTON"]))
    else if "TOTAL_HOSPITALES" in boundaryCols then Some(KeyError(["TOTAL_HOSPITALES"]))
    else if "POB_2015" in boundaryCols then Some(KeyError(["POB_2015"]))
    else None
  }

  /**
   * `cargar_datos`: rename the headers through the alias tables, raise the
   * first error of FirstLoadError if there is one, and otherwise derive the
   * final table from the join of the filtered facilities. `within` is the
   * point-in-polygon test of the spatial join.
   */
  function LoadData(
    populationColumns: seq<string>, pop: seq<PopulationRow>,
    boundaryColumns: seq<string>, boundaries: seq<BoundaryRow>,
    facilityColumns: seq<string>, facilities: seq<Facility>,
    within: (Facility, BoundaryRow) -> bool): (r: Result<Loaded, LoadError>)
    ensures r.Err? && r.error.KeyError? ==> r.error.columns != []
    ensures r.Err? && r.error.ValueError? ==> r.error.column == "CANTON"
  {
    var popCols := RenameAliases(populationColumns, PopulationAliases);
    var boundaryCols := RenameAliases(boundaryColumns, BoundaryAliases);
    match FirstLoadError(popCols, boundaryCols, facilityColumns)
    case Some(e) => Err(e)
    case None =>
      var kept := FilterFacilities(facilities);
      Ok(Loaded(
        DeriveDistricts(boundaries, pop, SpatialJoin(kept, boundaries, within)),
        kept,
        popCols,
        boundaryCols,
        Rename(facilityColumns, FacilityAliases)))
  }

  /** The headers raise nothing exactly when they hold the columns the pipeline needs, once where it matters. */
  lemma NoLoadError(popCols: seq<string>, boundaryCols: seq<string>, facilityColumns: seq<string>)
    ensures FirstLoadError(popCols, boundaryCols, facilityColumns).None? <==>
      && "#meta+healthcare" in facilityColumns
      && "CANTON" !in facilityColumns
      && multiset(boundaryCols)["CANTON"] == 1
      && multiset(popCols)["CANTON"] == 1
      && "POB_2015" in popCols
      && "TOTAL_HOSPITALES" !in boundaryCols
      && "POB_2015" !in boundaryCols
  {
    assert "CANTON" in ["CANTON", "POB_2015"] && "POB_2015" in ["CANTON", "POB_2015"];
  }

  /**
   * Loading succeeds exactly when the category column exists, the facility
   * layer has no CANTON, the renamed boundary and population headers each
   * hold CANTON exactly once, the population header holds POB_2015, and the
   * boundary header holds neither TOTAL_HOSPITALES nor POB_2015.
   */
  lemma LoadDataSucceeds(
    populationColumns: seq<string>, pop: seq<PopulationRow>,
    boundaryColumns: seq<string>, boundaries: seq<BoundaryRow>,
    facilityColumns: seq<string>, facilities: seq<Facility>,
    within: (Facility, BoundaryRow) -> bool)
    ensures var popCols := RenameAliases(populationColumns, PopulationAliases);
      var boundaryCols := RenameAliases(boundaryColumns, BoundaryAliases);
      LoadData(populationColumns, pop, boundaryColumns, boundaries, facilityColumns, facilities, within).Ok? <==>
        && "#meta+healthcare" in facilityColumns
        && "CANTON" !in facilityColumns
        && multiset(boundaryCols)["CANTON"] == 1
        && multiset(popCols)["CANTON"] == 1
        && "POB_2015" in popCols
        && "TOTAL_HOSPITALES" !in boundaryCols
        && "POB_2015" !in boundaryCols
  {
    NoLoadError(RenameAliases(populationColumns, PopulationAliases), RenameAliases(boundaryColumns, BoundaryAliases), facilityColumns);
  }

  /** A population header with both the alias NOM_CANT and the canonical CANTON. */
  const DuplicatedCantonHeader: seq<string> := ["NOM_CANT", "CANTON", "POB_2015"]

  /** Renamed, that header has CANTON twice and lacks no selected column. */
  lemma DuplicatedCantonHeaderColumns()
    ensures multiset(RenameAliases(DuplicatedCantonHeader, PopulationAliases))["CANTON"] == 2
    ensures MissingColumns(RenameAliases(DuplicatedCantonHeader, PopulationAliases), ["CANTON", "POB_2015"]) == []
  {
    var renamed: seq<string> := ["CANTON", "CANTON", "POB_2015"];
    assert renamed == ["CANTON"] + ["CANTON"] + ["POB_2015"];
    assert multiset(renamed)["CANTON"] == 2;
    assert MissingColumns(renamed, ["CANTON", "POB_2015"]) == [];
    AbsentAliasesIgnored(DuplicatedCantonHeader, PopulationAliases);
    assert RenameAliases(DuplicatedCantonHeader, PopulationAliases) == renamed;
  }

  /** A boundary header that is just CANTON is left as it is. */
  lemma CantonOnlyBoundaryHeader()
    ensures multiset(RenameAliases(["CANTON"], BoundaryAliases))["CANTON"] == 1
  {
    AbsentAliasesIgnored(["CANTON"], BoundaryAliases);
    assert RenameAliases(["CANTON"], BoundaryAliases) == ["CANTON"];
  }

  /** A population header that repeats CANTON once renamed (NOM_CANT next to CANTON) fails to merge. */
  lemma DuplicatedCantonFails(pop: seq<PopulationRow>, boundaries: seq<BoundaryRow>, facilities: seq<Facility>, within: (Facility, BoundaryRow) -> bool)
    ensures LoadData(DuplicatedCantonHeader, pop, ["CANTON"], boundaries, ["#meta+healthcare"], facilities, within)
      == Err(ValueError("CANTON"))
  {
    DuplicatedCantonHeaderColumns();
    CantonOnlyBoundaryHeader();
    var popCols := RenameAliases(DuplicatedCantonHeader, PopulationAliases);
    var boundaryCols := RenameAliases(["CANTON"], BoundaryAliases);
    assert "CANTON" in boundaryCols;
    assert FirstLoadError(popCols, boundaryCols, ["#meta+healthcare"]) == Some(ValueError("CANTON"));
  }

  /**
   * A facility CANTON with no boundary CANTON passes the count (the join
   * takes CANTON from the facilities), so the population selection of line
   * 73 raises first.
   */
  lemma FacilityCantonDefersToPopulation(pop: seq<PopulationRow>, boundaries: seq<BoundaryRow>, facilities: seq<Facility>, within: (Facility, BoundaryRow) -> bool)
    ensures LoadData(["NOM_CANT"], pop, ["NOMBRE"], boundaries, ["#meta+healthcare", "CANTON"], facilities, within)
      == Err(KeyError(["POB_2015"]))
  {
    CantonOnlyPopulationHeader();
    NoCantonBoundaryHeader();
    var popCols := RenameAliases(["NOM_CANT"], PopulationAliases);
    var boundaryCols := RenameAliases(["NOMBRE"], BoundaryAliases);
    assert "CANTON" in ["#meta+healthcare", "CANTON"];
    assert FirstLoadError(popCols, boundaryCols, ["#meta+healthcare", "CANTON"]) == Some(KeyError(["POB_2015"]));
  }

  /** NOM_CANT alone renames to CANTON alone. */
  lemma CantonOnlyPopulationHeader()
    ensures MissingColumns(RenameAliases(["NOM_CANT"], PopulationAliases), ["CANTON", "POB_2015"]) == ["POB_2015"]
  {
    var renamed: seq<string> := ["CANTON"];
    assert MissingColumns(renamed, ["CANTON", "POB_2015"]) == ["POB_2015"];
    AbsentAliasesIgnored(["NOM_CANT"], PopulationAliases);
    assert RenameAliases(["NOM_CANT"], PopulationAliases) == renamed;
  }

  /** A boundary header without any CANTON alias stays without CANTON. */
  lemma NoCantonBoundaryHeader()
    ensures "CANTON" !in RenameAliases(["NOMBRE"], BoundaryAliases)
  {
    var renamed: seq<string> := ["NOMBRE"];
    assert "CANTON" !in renamed;
    AbsentAliasesIgnored(["NOMBRE"], BoundaryAliases);
    assert RenameAliases(["NOMBRE"], BoundaryAliases) == renamed;
  }

  /** A population header as the census layer writes it. */
  const CensusHeader: seq<string> := ["NOM_PROV", "NOM_CANT", "PoblaciónCensada2011", "PoblaciónEstimada2015", "geometry"]

  /** A boundary header with accented names. */
  const AccentedBoundaryHeader: seq<string> := ["CÓDIGO", "CANTÓN", "CÓDIGO_DE_PROVINCIA ", "geometry"]

  /** A facility header with the humanitarian-exchange category tag. */
  const FacilityHeader: seq<string> := ["#meta+healthcare", "addr:city", "geometry"]

  /** The census header, renamed. */
  lemma CensusHeaderRenamed()
    ensures RenameAliases(CensusHeader, PopulationAliases) == ["PROVINCIA", "CANTON", "POB_2011", "POB_2015", "geometry"]
  {
    AbsentAliasesIgnored(CensusHeader, PopulationAliases);
  }

  /** The accented boundary header, renamed. */
  lemma AccentedBoundaryHeaderRenamed()
    ensures RenameAliases(AccentedBoundaryHeader, BoundaryAliases) == ["CODIGO", "CANTON", "CODIGO_DE_PROVINCIA", "geometry"]
  {
    AbsentAliasesIgnored(AccentedBoundaryHeader, BoundaryAliases);
  }

  /** The renamed census header has CANTON once and POB_2015. */
  lemma CensusHeaderColumns()
    ensures multiset(RenameAliases(CensusHeader, PopulationAliases))["CANTON"] == 1
    ensures "POB_2015" in RenameAliases(CensusHeader, PopulationAliases)
  {
    CensusHeaderRenamed();
    var popCols: seq<string> := ["PROVINCIA", "CANTON", "POB_2011", "POB_2015", "geometry"];
    assert popCols == ["PROVINCIA"] + ["CANTON"] + ["POB_2011", "POB_2015", "geometry"];
    assert popCols[3] == "POB_2015";
  }

  /** The renamed accented boundary header has CANTON once, and neither TOTAL_HOSPITALES nor POB_2015. */
  lemma AccentedBoundaryHeaderColumns()
    ensures multiset(RenameAliases(AccentedBoundaryHeader, BoundaryAliases))["CANTON"] == 1
    ensures "TOTAL_HOSPITALES" !in RenameAliases(AccentedBoundaryHeader, BoundaryAliases)
    ensures "POB_2015" !in RenameAliases(AccentedBoundaryHeader, BoundaryAliases)
  {
    var boundaryCols: seq<string> := ["CODIGO", "CANTON", "CODIGO_DE_PROVINCIA", "geometry"];
    assert boundaryCols == ["CODIGO"] + ["CANTON"] + ["CODIGO_DE_PROVINCIA", "geometry"];
    assert multiset(boundaryCols)["CANTON"] == 1;
    assert "TOTAL_HOSPITALES" !in boundaryCols && "POB_2015" !in boundaryCols;
    AccentedBoundaryHeaderRenamed();
  }

  /** Headers written with the aliased names load: the aliases supply CANTON and POB_2015. */
  lemma AliasedHeadersLoad(pop: seq<PopulationRow>, boundaries: seq<BoundaryRow>, facilities: seq<Facility>, within: (Facility, BoundaryRow) -> bool)
    ensures LoadData(CensusHeader, pop, AccentedBoundaryHeader, boundaries, FacilityHeader, facilities, within).Ok?
  {
    CensusHeaderColumns();
    AccentedBoundaryHeaderColumns();
    assert "CANTON" !in FacilityHeader && "#meta+healthcare" in FacilityHeader;
    LoadDataSucceeds(CensusHeader, pop, AccentedBoundaryHeader, boundaries, FacilityHeader, facilities, within);
  }

  /**
   * After a successful load, TOTAL_HOSPITALES of every canton counts only
   * retained facilities: the placements of filtered facilities within
   * polygons of that canton's name.
   */
  lemma LoadedHospitalCounts(
    populationColumns: seq<string>, pop: seq<PopulationRow>,
    boundaryColumns: seq<string>, boundaries: seq<BoundaryRow>,
    facilityColumns: seq<string>, facilities: seq<Facility>,
    within: (Facility, BoundaryRow) -> bool, j: nat)
    requires LoadData(populationColumns, pop, boundaryColumns, boundaries, facilityColumns, facilities, within).Ok?
    requires j < |LoadData(populationColumns, pop, boundaryColumns, boundaries, facilityColumns, facilities, within).value.final|
    ensures var d := LoadData(populationColumns, pop, boundaryColumns, boundaries, facilityColumns, facilities, within).value.final[j];
      d.totalHospitales == CountWithin(FilterFacilities(facilities), boundaries, within, d.canton)
  {
    var join := SpatialJoin(FilterFacilities(facilities), boundaries, within);
    var final := DeriveDistricts(boundaries, pop, join);
    LoadedFinal(populationColumns, pop, boundaryColumns, boundaries, facilityColumns, facilities, within);
    TotalHospitalsIsJoinCount(boundaries, pop, join, j);
    JoinCountsWithin(FilterFacilities(facilities), boundaries, within, final[j].canton);
  }

  /** The final table of a successful load is derived from the join of the filtered facilities. */
  lemma LoadedFinal(
    populationColumns: seq<string>, pop: seq<PopulationRow>,
    boundaryColumns: seq<string>, boundaries: seq<BoundaryRow>,
    facilityColumns: seq<string>, facilities: seq<Facility>,
    within: (Facility, BoundaryRow) -> bool)
    requires LoadData(populationColumns, pop, boundaryColumns, boundaries, facilityColumns, facilities, within).Ok?
    ensures LoadData(populationColumns, pop, boundaryColumns, boundaries, facilityColumns, facilities, within).value.final ==
      DeriveDistricts(boundaries, pop, SpatialJoin(FilterFacilities(facilities), boundaries, within))
  {
  }

  /** Adding a facility the filter excludes (a pharmacy, say) changes nothing that is loaded. */
  lemma ExcludedFacilityNotCounted(
    populationColumns: seq<string>, pop: seq<PopulationRow>,
    boundaryColumns: seq<string>, boundaries: seq<BoundaryRow>,
    facilityColumns: seq<string>, facilities: seq<Facility>,
    within: (Facility, BoundaryRow) -> bool, f: Facility)
    requires !Retained(f)
    ensures LoadData(populationColumns, pop, boundaryColumns, boundaries, facilityColumns, facilities + [f], within) ==
      LoadData(populationColumns, pop, boundaryColumns, boundaries, facilityColumns, facilities, within)
  {
    FilterFacilitiesAppend(facilities, [f]);
    assert FilterFacilities([f]) == [];
    assert FilterFacilities(facilities + [f]) == FilterFacilities(facilities) + [];
    assert FilterFacilities(facilities) + [] == FilterFacilities(facilities);
  }

  // ---------------------------------------------------------------------
  // Worked cases
  // ---------------------------------------------------------------------

  /** The boundary table of the three-canton case. */
  function ScenarioBoundaries(shape: Markers.Geometry): (boundaries: seq<BoundaryRow>) {
    [BoundaryRow("A", "P", 10.0, shape), BoundaryRow("B", "P", 10.0, shape), BoundaryRow("C", "P", 10.0, shape)]
  }

  /** The population table of the three-canton case: A and B only. */
  function ScenarioPopulation(): (pop: seq<PopulationRow>) {
    [PopulationRow("A", Some(1000.0)), PopulationRow("B", Some(2000.0))]
  }

  /** The spatial join of the three-canton case: two facilities within A. */
  function ScenarioJoin(): (join: seq<JoinRow>) {
    [JoinRow(0, "A"), JoinRow(1, "A")]
  }

  /**
   * Three cantons A, B, C; population 1000 for A and 2000 for B only; two
   * facilities within A: A has 2 hospitals and 500 inhabitants per hospital,
   * B and C have none and no ratio, C has population 0.
   */
  lemma ThreeCantonScenario(shape: Markers.Geometry)
    ensures var final := DeriveDistricts(ScenarioBoundaries(shape), ScenarioPopulation(), ScenarioJoin());
      && |final| == 3
      && final[0].pob2015 == 1000.0 && final[0].totalHospitales == 2 && final[0].habPorHosp == Some(500.0)
      && final[1].pob2015 == 2000.0 && final[1].totalHospitales == 0 && final[1].habPorHosp == None
      && final[2].pob2015 == 0.0 && final[2].totalHospitales == 0 && final[2].habPorHosp == None
  {
    var boundaries, pop, join := ScenarioBoundaries(shape), ScenarioPopulation(), ScenarioJoin();
    ScenarioMerge(shape);
    ScenarioCounts();
    var merged := MergePopulation(boundaries, pop);
    var counts := HospitalsPerCanton(join);
    var final := DeriveDistricts(boundaries, pop, join);
    assert final[0] == DeriveRow(merged[0].0, merged[0].1, counts);
    assert final[1] == DeriveRow(merged[1].0, merged[1].1, counts);
    assert final[2] == DeriveRow(merged[2].0, merged[2].1, counts);
  }

  /** The left merge of the three-canton case. */
  lemma ScenarioMerge(shape: Markers.Geometry)
    ensures var m := MergePopulation(ScenarioBoundaries(shape), ScenarioPopulation());
      && |m| == 3
      && m[0] == (ScenarioBoundaries(shape)[0], Some(1000.0))
      && m[1] == (ScenarioBoundaries(shape)[1], Some(2000.0))
      && m[2] == (ScenarioBoundaries(shape)[2], None)
  {
    var pop := ScenarioPopulation();
    assert UniqueCantons(pop);
    MatchedPopulation(pop, "A");
    MatchedPopulation(pop, "B");
    MatchedPopulation(pop, "C");
    MergeExactlyOnce(ScenarioBoundaries(shape), pop);
  }

  /** The facility counts of the three-canton case. */
  lemma ScenarioCounts()
    ensures var c := HospitalsPerCanton(ScenarioJoin());
      "A" in c && c["A"] == 2 && "B" !in c && "C" !in c
  {
    var join := ScenarioJoin();
    WhereAll(join, (r: JoinRow) => r.canton == "A");
    JoinedFacilitiesEmpty(join, "B");
    JoinedFacilitiesEmpty(join, "C");
  }

  /**
   * A canton that is missing from the population table but has a hospital
   * gets POB_2015 = 0 and a ratio of 0, not a missing ratio.
   */
  lemma RatioZeroWithoutPopulation(shape: Markers.Geometry)
    ensures DeriveDistricts([BoundaryRow("C", "P", 10.0, shape)], [], [JoinRow(0, "C")])[0].habPorHosp == Some(0.0)
  {
    var final := DeriveDistricts([BoundaryRow("C", "P", 10.0, shape)], [], [JoinRow(0, "C")]);
    PopulationFilled([BoundaryRow("C", "P", 10.0, shape)], [], [JoinRow(0, "C")], 0);
    TotalHospitalsIsJoinCount([BoundaryRow("C", "P", 10.0, shape)], [], [JoinRow(0, "C")], 0);
  }

  /** 50,000 inhabitants on 100 km2 is a density of 500 per km2. */
  lemma DensityScenario()
    ensures Density(50000.0, 100.0) == 500.0
  {
  }
}
