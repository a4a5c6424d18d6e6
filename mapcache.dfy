/**
 * The map regeneration cache kept in the session state, and the reverse
 * lookup that turns the chosen column back into its label for the legend.
 */
module MapCache {
  import opened Wrappers
  import Markers

  // ---------------------------------------------------------------------
  // Variable labels (lines 116-126, 268-271)
  // ---------------------------------------------------------------------

  /** `opciones_mapa`: label shown in the selector and the column it stands for, in order. */
  const MapOptions: seq<(string, string)> := [
    ("Habitantes por hospital", "HAB_POR_HOSP"),
    ("Población total (2015)", "POB_2015"),
    ("Densidad poblacional", "densidad")
  ]

  /**
   * `nombre_legible`: the first label whose column is `variable`, or
   * `variable` itself when no entry has it.
   */
  function LegibleName(options: seq<(string, string)>, variable: string): (name: string)
    ensures (forall i :: 0 <= i < |options| ==> options[i].1 != variable) ==> name == variable
    ensures (exists i :: 0 <= i < |options| && options[i].1 == variable) ==>
      exists i :: 0 <= i < |options| && options[i].1 == variable && options[i].0 == name &&
        forall j :: 0 <= j < i ==> options[j].1 != variable
  {
    if options == [] then variable
    else if options[0].1 == variable then options[0].0
    else LegibleName(options[1..], variable)
  }

  /** No two entries stand for the same column. */
  predicate DistinctColumns(options: seq<(string, string)>) {
    forall i, j :: 0 <= i < j < |options| ==> options[i].1 != options[j].1
  }

  /** With distinct columns, the label of the column chosen through a label is that label. */
  lemma LegibleNameRoundTrip(options: seq<(string, string)>, i: nat)
    requires DistinctColumns(options)
    requires i < |options|
    ensures LegibleName(options, options[i].1) == options[i].0
  {
    var k :| 0 <= k < |options| && options[k].1 == options[i].1 && options[k].0 == LegibleName(options, options[i].1) &&
      forall j :: 0 <= j < k ==> options[j].1 != options[i].1;
    assert k == i;
  }

  /** The legend always names the selected option of the dashboard's own table. */
  lemma MapOptionsRoundTrip(i: nat)
    requires i < |MapOptions|
    ensures LegibleName(MapOptions, MapOptions[i].1) == MapOptions[i].0
  {
    LegibleNameRoundTrip(MapOptions, i);
  }

  // ---------------------------------------------------------------------
  // The cache (lines 260-274, 356-361)
  // ---------------------------------------------------------------------

  /** Everything the map is drawn from that changes between runs of the script. */
  datatype MapInputs = MapInputs(variable: string, palette: string, threshold: real, province: string, canton: string)

  /** A rendered map, recorded by what it was drawn from and its legend. */
  datatype MapView = MapView(drawnFrom: MapInputs, legend: string)

  /** Drawing the map (lines 276-353); the HTML itself is produced by the mapping library. */
  function Render(inputs: MapInputs): (view: MapView)
    ensures view.drawnFrom == inputs
  {
    MapView(inputs, LegibleName(MapOptions, inputs.variable))
  }

  /** The three session-state entries: the map HTML, the variable and the palette it was drawn with. */
  datatype CacheState = CacheState(mapHtml: Option<MapView>, lastVariable: Option<string>, palette: Option<string>)

  /** Lines 260-265: a new session has the three entries set to None. */
  const Initial: CacheState := CacheState(None, None, None)

  /**
   * Line 274: regenerate when there is no map, or the variable or the palette
   * differs. Skipping is safe for what the key covers: from a consistent cache,
   * the map kept is drawn for the current variable and palette, with their legend.
   */
  predicate NeedsRegeneration(s: CacheState, variable: string, palette: string)
    ensures Consistent(s) && !NeedsRegeneration(s, variable, palette) ==>
      s.mapHtml.Some? &&
      s.mapHtml.value.drawnFrom.variable == variable &&
      s.mapHtml.value.drawnFrom.palette == palette &&
      s.mapHtml.value.legend == LegibleName(MapOptions, variable)
  {
    s.mapHtml.None? || s.lastVariable != Some(variable) || s.palette != Some(palette)
  }

  /**
   * One run of the script over the cache, given the hospital features the
   * marker loop walks: regenerate and record the key (lines 356-358), or keep
   * it all. When the marker loop raises (lines 294-322), the script stops
   * before lines 356-358 and the session keeps its entries.
   */
  function Step(s: CacheState, inputs: MapInputs, hospitals: seq<Markers.Feature>): (t: CacheState)
    ensures NeedsRegeneration(s, inputs.variable, inputs.palette) && Markers.MarkersOf(hospitals).Err? ==> t == s
    ensures !NeedsRegeneration(s, inputs.variable, inputs.palette) || Markers.MarkersOf(hospitals).Ok? ==>
      t.mapHtml.Some? && t.lastVariable == Some(inputs.variable) && t.palette == Some(inputs.palette)
  {
    if !NeedsRegeneration(s, inputs.variable, inputs.palette) then s
    else if Markers.MarkersOf(hospitals).Err? then s
    else CacheState(Some(Render(inputs)), Some(inputs.variable), Some(inputs.palette))
  }

  /** The cached key is the variable and palette of the cached map, and a map carries the legend of its variable. */
  predicate Consistent(s: CacheState) {
    s.mapHtml.Some? ==>
      s.lastVariable == Some(s.mapHtml.value.drawnFrom.variable) &&
      s.palette == Some(s.mapHtml.value.drawnFrom.palette) &&
      s.mapHtml.value.legend == LegibleName(MapOptions, s.mapHtml.value.drawnFrom.variable)
  }

  /**
   * From a consistent state (the initial one included), one step leaves a
   * consistent state whose map shows the chosen variable, legend and palette;
   * an immediate second step with the same inputs does not regenerate.
   */
  lemma StepShowsChosenVariable(s: CacheState, inputs: MapInputs, hospitals: seq<Markers.Feature>)
    requires Consistent(s)
    ensures Consistent(Step(s, inputs, hospitals))
    ensures Markers.MarkersOf(hospitals).Ok? ==>
      var t := Step(s, inputs, hospitals);
      t.mapHtml.Some? &&
      t.mapHtml.value.drawnFrom.variable == inputs.variable &&
      t.mapHtml.value.drawnFrom.palette == inputs.palette &&
      t.mapHtml.value.legend == LegibleName(MapOptions, inputs.variable) &&
      !NeedsRegeneration(t, inputs.variable, inputs.palette)
    ensures Step(Step(s, inputs, hospitals), inputs, hospitals) == Step(s, inputs, hospitals)
  {
  }

  /**
   * A regeneration whose marker loop raises leaves the session as it was, so
   * the next run with the same choices tries to regenerate again.
   */
  lemma FailedRegenerationRetries(s: CacheState, inputs: MapInputs, hospitals: seq<Markers.Feature>)
    requires NeedsRegeneration(s, inputs.variable, inputs.palette)
    requires Markers.MarkersOf(hospitals).Err?
    ensures Step(s, inputs, hospitals) == s
    ensures NeedsRegeneration(Step(s, inputs, hospitals), inputs.variable, inputs.palette)
  {
  }

  /**
   * On a first run whose marker loop raises, no map is ever stored: the
   * session stays as initialised, whatever the choices.
   */
  lemma FirstRunFailureStoresNothing(inputs: MapInputs, hospitals: seq<Markers.Feature>)
    requires Markers.MarkersOf(hospitals).Err?
    ensures Step(Initial, inputs, hospitals) == Initial
    ensures Step(Initial, inputs, hospitals).mapHtml.None?
  {
    InitialConsistent();
  }

  /** The initial state is consistent. */
  lemma InitialConsistent()
    ensures Consistent(Initial)
    ensures forall variable, palette :: NeedsRegeneration(Initial, variable, palette)
  {
  }

  /**
   * As written, the key leaves out the threshold: after a run with threshold
   * 10000, a run with threshold 20000 and the same variable and palette still
   * shows the map drawn for 10000.
   */
  lemma StaleThreshold()
    ensures var first := MapInputs("HAB_POR_HOSP", "YlOrRd", 10000.0, "(Todas)", "(Todos)");
      var second := MapInputs("HAB_POR_HOSP", "YlOrRd", 20000.0, "(Todas)", "(Todos)");
      var s := Step(Step(Initial, first, []), second, []);
      s.mapHtml.value.drawnFrom.threshold == 10000.0 && s.mapHtml != Some(Render(second))
  {
  }

  /** The session object holding the three entries. */
  class MapSession {
    var mapHtml: Option<MapView>
    var lastVariable: Option<string>
    var palette: Option<string>

    /** The entries as a value. */
    function State(): (s: CacheState)
      reads this
    {
      CacheState(mapHtml, lastVariable, palette)
    }

    /** Lines 260-265. */
    constructor ()
      ensures State() == Initial
    {
      mapHtml, lastVariable, palette := None, None, None;
    }

    /**
     * Lines 274-361: regenerate when line 274 says so, walking the hospital
     * features, and store the new key; return the map that is shown, or the
     * exception the marker loop raised, and whether line 274 asked for a new map.
     */
    method Refresh(inputs: MapInputs, hospitals: seq<Markers.Feature>)
      returns (shown: Result<MapView, Markers.WalkError>, regenerated: bool)
      modifies this
      ensures regenerated <==> NeedsRegeneration(old(State()), inputs.variable, inputs.palette)
      ensures State() == Step(old(State()), inputs, hospitals)
      ensures shown.Err? <==> regenerated && Markers.MarkersOf(hospitals).Err?
      ensures shown.Err? ==> shown.error == Markers.MarkersOf(hospitals).error
      ensures shown.Ok? ==> mapHtml == Some(shown.value)
    {
      regenerated := mapHtml.None? || lastVariable != Some(inputs.variable) || palette != Some(inputs.palette);
      if regenerated {
        var markers := Markers.CollectMarkers(hospitals);
        if markers.Err? {
          return Err(markers.error), regenerated;
        }
        var html := Render(inputs);
        mapHtml := Some(html);
        lastVariable := Some(inputs.variable);
        palette := Some(inputs.palette);
      }
      shown := Ok(mapHtml.value);
    }
  }

  // ---------------------------------------------------------------------
  // A cache keyed by everything the map is drawn from
  // ---------------------------------------------------------------------

  /** The cached map and the full inputs it was drawn from. */
  datatype KeyedCache = KeyedCache(mapHtml: Option<MapView>, key: Option<MapInputs>)

  /**
   * Regenerate when there is no map or any input differs from the key; as in
   * `Step`, a marker loop that raises leaves the cache as it was.
   */
  function KeyedStep(s: KeyedCache, inputs: MapInputs, hospitals: seq<Markers.Feature>): (t: KeyedCache)
    ensures s.key != Some(inputs) && Markers.MarkersOf(hospitals).Err? ==> t == s
    ensures s.key == Some(inputs) || Markers.MarkersOf(hospitals).Ok? ==> t.key == Some(inputs)
  {
    if s.mapHtml.Some? && s.key == Some(inputs) then s
    else if Markers.MarkersOf(hospitals).Err? then s
    else KeyedCache(Some(Render(inputs)), Some(inputs))
  }

  /** The key is what the cached map was drawn from. */
  predicate KeyedConsistent(s: KeyedCache) {
    s.mapHtml.Some? ==> s.key == Some(s.mapHtml.value.drawnFrom) && s.mapHtml == Some(Render(s.mapHtml.value.drawnFrom))
  }

  /**
   * With the full key the map shown is always the one drawn for the current
   * inputs, and repeating the inputs reuses it.
   */
  lemma KeyedShowsCurrentInputs(s: KeyedCache, inputs: MapInputs, hospitals: seq<Markers.Feature>)
    requires KeyedConsistent(s)
    ensures Markers.MarkersOf(hospitals).Ok? ==> KeyedStep(s, inputs, hospitals).mapHtml == Some(Render(inputs))
    ensures KeyedConsistent(KeyedStep(s, inputs, hospitals))
    ensures KeyedStep(KeyedStep(s, inputs, hospitals), inputs, hospitals) == KeyedStep(s, inputs, hospitals)
  {
  }
}
