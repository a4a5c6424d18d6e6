/**
 * Facility markers on the map. Each facility is a GeoJSON feature (RFC 7946);
 * the dashboard walks its geometry by hand to pick one coordinate for a
 * marker, and picks a popup name from its properties.
 *
 * The walk works on the parsed JSON, so it is modelled on an untyped JSON
 * value; the typed geometries of section 3.1 of RFC 7946 and their encoding
 * are stated beside it, with the lemmas that tie the two together.
 */
module Markers {
  import opened Wrappers

  // ---------------------------------------------------------------------
  // Parsed GeoJSON
  // ---------------------------------------------------------------------

  /** A coordinate value as `json.loads` returns it: a number or a list. */
  datatype Json = Num(x: real) | Arr(items: seq<Json>)

  /** A property value: a string, or null (a missing value in the table). */
  datatype Prop = Str(s: string) | Null

  /** A geometry object: its "type" member and its "coordinates" member (None when null). */
  datatype RawGeometry = RawGeometry(kind: string, coordinates: Option<Json>)

  /** A feature: its properties and its geometry (None when null). */
  datatype Feature = Feature(properties: map<string, Prop>, geometry: Option<RawGeometry>)

  /** The exceptions the walk can raise. */
  datatype WalkError =
    | IndexError    // indexing an empty or too short list
    | TypeError     // indexing a number
    | BadLocation   // a marker location that is not two numbers

  /** A circle marker: where it is drawn and the two parts of its popup. */
  datatype Marker = Marker(lat: real, lon: real, name: string, city: string)

  /** Python's `j[k]` on a parsed value. */
  function Index(j: Json, k: nat): (r: Result<Json, WalkError>)
    ensures r.Ok? <==> j.Arr? && k < |j.items|
  {
    match j
    case Num(_) => Err(TypeError)
    case Arr(s) => if k < |s| then Ok(s[k]) else Err(IndexError)
  }

  /** Python truthiness of a parsed value. */
  predicate Truthy(j: Json) {
    match j
    case Num(x) => x != 0.0
    case Arr(s) => |s| > 0
  }

  /**
   * The coordinate the marker loop picks (lines 299-309): a Point's
   * coordinates; otherwise, when the coordinates are a non-empty list, the
   * first entry of its first entry, or one level deeper when that is itself
   * a list. Ok(None) is a skipped feature.
   */
  function AnchorCoordinates(g: RawGeometry): (r: Result<Option<Json>, WalkError>)
    ensures g.kind == "Point" ==> r == Ok(g.coordinates)
    ensures g.kind != "Point" && (g.coordinates.None? || !Truthy(g.coordinates.value)) ==> r == Ok(None)
  {
    if g.kind == "Point" then Ok(g.coordinates)
    else
      var list := if g.coordinates.Some? then g.coordinates.value else Arr([]);
      if !Truthy(list) then Ok(None)
      else
        match Index(list, 0)
        case Err(e) => Err(e)
        case Ok(firstRing) =>
          match Index(firstRing, 0)
          case Err(e) => Err(e)
          case Ok(first) =>
            match Index(first, 0)
            case Err(e) => Err(e)
            case Ok(inner) => if inner.Arr? then Ok(Some(inner)) else Ok(Some(first))
  }

  /** The value of a property when it is a non-empty string (Python's `props.get(key) or ...`). */
  function TruthyString(props: map<string, Prop>, key: string): (value: Option<string>) {
    if key in props && props[key].Str? && props[key].s != "" then Some(props[key].s) else None
  }

  /** The popup name (line 313): "#loc +name", else "name", else "Hospital". */
  function PopupName(props: map<string, Prop>): (name: string)
    ensures name != ""
    ensures TruthyString(props, "#loc +name").Some? ==> name == TruthyString(props, "#loc +name").value
    ensures TruthyString(props, "#loc +name").None? && TruthyString(props, "name").Some? ==>
      name == TruthyString(props, "name").value
    ensures TruthyString(props, "#loc +name").None? && TruthyString(props, "name").None? ==> name == "Hospital"
  {
    match TruthyString(props, "#loc +name")
    case Some(n) => n
    case None =>
      match TruthyString(props, "name")
      case Some(n) => n
      case None => "Hospital"
  }

  /** The city shown after the name (line 314): "" when absent, and Python's "None" when null. */
  function PopupCity(props: map<string, Prop>): (city: string)
    ensures "addr_city" !in props ==> city == ""
    ensures "addr_city" in props && props["addr_city"].Str? ==> city == props["addr_city"].s
  {
    if "addr_city" !in props then ""
    else match props["addr_city"]
      case Str(s) => s
      case Null => "None"
  }

  /** The popup text (line 318). */
  function PopupText(m: Marker): (text: string)
    ensures |text| == |m.name| + 3 + |m.city|
    ensures text[..|m.name|] == m.name && text[|m.name|..|m.name| + 3] == " - " && text[|m.name| + 3..] == m.city
  {
    m.name + " - " + m.city
  }

  /** One iteration of the marker loop (lines 295-322): a marker, a skipped feature, or an exception. */
  function MarkerOf(f: Feature): (r: Result<Option<Marker>, WalkError>)
    ensures f.geometry.None? ==> r == Ok(None)
    ensures r.Ok? && r.value.Some? ==>
      r.value.value.name == PopupName(f.properties) && r.value.value.city == PopupCity(f.properties)
  {
    if f.geometry.None? then Ok(None)
    else
      match AnchorCoordinates(f.geometry.value)
      case Err(e) => Err(e)
      case Ok(None) => Ok(None)
      case Ok(Some(coords)) =>
        match Index(coords, 0)
        case Err(e) => Err(e)
        case Ok(lon) =>
          match Index(coords, 1)
          case Err(e) => Err(e)
          case Ok(lat) =>
            if lon.Num? && lat.Num? then
              Ok(Some(Marker(lat.x, lon.x, PopupName(f.properties), PopupCity(f.properties))))
            else Err(BadLocation)
  }

  /** The markers of the first features, or the first exception raised. */
  function MarkersOf(features: seq<Feature>): (r: Result<seq<Marker>, WalkError>)
    ensures r.Ok? ==> |r.value| <= |features|
  {
    if features == [] then Ok([])
    else
      match MarkersOf(features[..|features| - 1])
      case Err(e) => Err(e)
      case Ok(ms) =>
        match MarkerOf(features[|features| - 1])
        case Err(e) => Err(e)
        case Ok(None) => Ok(ms)
        case Ok(Some(m)) => Ok(ms + [m])
  }

  /** The marker loop (lines 294-322), appending one marker per usable feature. */
  method CollectMarkers(features: seq<Feature>) returns (r: Result<seq<Marker>, WalkError>)
    ensures r == MarkersOf(features)
  {
    var markers: seq<Marker> := [];
    var i := 0;
    while i < |features|
      invariant 0 <= i <= |features|
      invariant MarkersOf(features[..i]) == Ok(markers)
    {
      assert features[..i + 1][..i] == features[..i];
      var m := MarkerOf(features[i]);
      match m {
        case Err(e) =>
          MarkersOfErrorSticks(features, i + 1, e);
          return Err(e);
        case Ok(None) =>
        case Ok(Some(marker)) =>
          markers := markers + [marker];
      }
      i := i + 1;
    }
    assert features[..i] == features;
    return Ok(markers);
  }

  /** Once a feature raises, the loop's outcome is that exception. */
  lemma {:induction false} MarkersOfErrorSticks(features: seq<Feature>, k: nat, e: WalkError)
    requires 0 < k <= |features|
    requires MarkersOf(features[..k]) == Err(e)
    ensures MarkersOf(features) == Err(e)
    decreases |features| - k
  {
    if k < |features| {
      assert features[..k + 1][..k] == features[..k];
      MarkersOfErrorSticks(features, k + 1, e);
    } else {
      assert features[..k] == features;
    }
  }

  // ---------------------------------------------------------------------
  // Typed geometries (RFC 7946, sections 3.1.2, 3.1.6 and 3.1.7)
  // ---------------------------------------------------------------------

  /** A position: longitude, latitude, then any further elements (altitude). */
  datatype Position = Position(lon: real, lat: real, rest: seq<real>)

  /** The three geometry types the layers hold. */
  datatype Geometry =
    | Point(at: Position)
    | Polygon(rings: seq<seq<Position>>)
    | MultiPolygon(polygons: seq<seq<seq<Position>>>)

  /** A linear ring has at least four positions (RFC 7946, section 3.1.6). */
  predicate WellFormedRings(rings: seq<seq<Position>>) {
    forall i :: 0 <= i < |rings| ==> |rings[i]| >= 4
  }

  /** Rings with four or more positions; every polygon of a MultiPolygon has an exterior ring. */
  predicate WellFormed(g: Geometry) {
    match g
    case Point(_) => true
    case Polygon(rings) => WellFormedRings(rings)
    case MultiPolygon(polys) => forall i :: 0 <= i < |polys| ==> |polys[i]| >= 1 && WellFormedRings(polys[i])
  }

  function EncodePosition(p: Position): (encoded: Json) {
    Arr([Num(p.lon), Num(p.lat)] + seq(|p.rest|, i requires 0 <= i < |p.rest| => Num(p.rest[i])))
  }

  function EncodeRing(ring: seq<Position>): (encoded: Json) {
    Arr(seq(|ring|, i requires 0 <= i < |ring| => EncodePosition(ring[i])))
  }

  function EncodeRings(rings: seq<seq<Position>>): (encoded: Json) {
    Arr(seq(|rings|, i requires 0 <= i < |rings| => EncodeRing(rings[i])))
  }

  /** The GeoJSON geometry object of a typed geometry. */
  function Encode(g: Geometry): (raw: RawGeometry) {
    match g
    case Point(p) => RawGeometry("Point", Some(EncodePosition(p)))
    case Polygon(rings) => RawGeometry("Polygon", Some(EncodeRings(rings)))
    case MultiPolygon(polys) =>
      RawGeometry("MultiPolygon", Some(Arr(seq(|polys|, i requires 0 <= i < |polys| => EncodeRings(polys[i])))))
  }

  /**
   * The vertex the walk is meant to take, stated on the typed geometry: a
   * Point's position, the first position of a Polygon's first ring, the
   * first position of the first ring of a MultiPolygon's first polygon;
   * nothing for empty coordinates, and IndexError when an inner list is empty.
   */
  function Anchor(g: Geometry): (r: Result<Option<Position>, WalkError>) {
    match g
    case Point(p) => Ok(Some(p))
    case Polygon(rings) =>
      if rings == [] then Ok(None)
      else if rings[0] == [] then Err(IndexError)
      else Ok(Some(rings[0][0]))
    case MultiPolygon(polys) =>
      if polys == [] then Ok(None)
      else if polys[0] == [] || polys[0][0] == [] then Err(IndexError)
      else Ok(Some(polys[0][0][0]))
  }

  /** The hand-written walk finds exactly the vertex `Anchor` names, for every typed geometry. */
  lemma AnchorOfEncoded(g: Geometry)
    ensures AnchorCoordinates(Encode(g)) ==
      match Anchor(g)
      case Err(e) => Err(e)
      case Ok(None) => Ok(None)
      case Ok(Some(p)) => Ok(Some(EncodePosition(p)))
  {
    match g
    case Point(p) =>
    case Polygon(rings) =>
      if rings != [] && rings[0] != [] {
        assert Index(EncodeRings(rings), 0) == Ok(EncodeRing(rings[0]));
        assert Index(EncodeRing(rings[0]), 0) == Ok(EncodePosition(rings[0][0]));
        assert Index(EncodePosition(rings[0][0]), 0) == Ok(Num(rings[0][0].lon));
      }
    case MultiPolygon(polys) =>
      if polys != [] && polys[0] != [] && polys[0][0] != [] {
        var first := EncodeRings(polys[0]);
        assert Index(first, 0) == Ok(EncodeRing(polys[0][0]));
        assert Index(EncodeRing(polys[0][0]), 0) == Ok(EncodePosition(polys[0][0][0]));
      }
  }

  /** Well-formed geometries never make the walk raise. */
  lemma WellFormedAnchorNeverFails(g: Geometry)
    requires WellFormed(g)
    ensures Anchor(g).Ok?
    ensures Anchor(g).value.None? <==> (g.Polygon? && g.rings == []) || (g.MultiPolygon? && g.polygons == [])
  {
    match g
    case Point(_) =>
    case Polygon(rings) =>
      if rings != [] { assert |rings[0]| >= 4; }
    case MultiPolygon(polys) =>
      if polys != [] { assert |polys[0]| >= 1 && |polys[0][0]| >= 4; }
  }

  /**
   * A facility whose geometry is a well-formed typed geometry gets a marker
   * at the anchor vertex, named by its popup rules, unless its coordinates
   * are empty.
   */
  lemma MarkerOfEncoded(props: map<string, Prop>, g: Geometry)
    requires WellFormed(g)
    ensures MarkerOf(Feature(props, Some(Encode(g)))) ==
      match Anchor(g)
      case Ok(Some(p)) => Ok(Some(Marker(p.lat, p.lon, PopupName(props), PopupCity(props))))
      case _ => Ok(None)
    ensures var r := MarkerOf(Feature(props, Some(Encode(g))));
      r.value.Some? ==> PopupText(r.value.value) == PopupName(props) + " - " + PopupCity(props)
  {
    WellFormedAnchorNeverFails(g);
    AnchorOfEncoded(g);
    match Anchor(g)
    case Ok(Some(p)) =>
      assert Index(EncodePosition(p), 0) == Ok(Num(p.lon));
      assert Index(EncodePosition(p), 1) == Ok(Num(p.lat));
    case _ =>
  }

  /** A feature whose geometry is absent or a well-formed typed geometry. */
  ghost predicate Decodable(f: Feature) {
    f.geometry.None? || exists g :: WellFormed(g) && f.geometry.value == Encode(g)
  }

  /** When every feature is decodable the marker loop never raises, and yields at most one marker per feature. */
  lemma {:induction false} MarkersOfDecodable(features: seq<Feature>)
    requires forall i :: 0 <= i < |features| ==> Decodable(features[i])
    ensures MarkersOf(features).Ok?
    ensures |MarkersOf(features).value| <= |features|
  {
    if features != [] {
      var n := |features|;
      MarkersOfDecodable(features[..n - 1]);
      var f := features[n - 1];
      assert Decodable(f);
      if f.geometry.Some? {
        var g :| WellFormed(g) && f.geometry.value == Encode(g);
        MarkerOfEncoded(f.properties, g);
      }
    }
  }

  /** Every marker the loop produces has a non-empty popup name. */
  lemma {:induction false} MarkersNamed(features: seq<Feature>)
    requires MarkersOf(features).Ok?
    ensures forall m :: m in MarkersOf(features).value ==> m.name != ""
  {
    if features != [] {
      MarkersNamed(features[..|features| - 1]);
    }
  }
}
