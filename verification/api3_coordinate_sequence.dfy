/** `Geos::GoogleMaps::Api3::CoordinateSequence`: a coordinate sequence as an
    array of `LatLng` literals, and as a `google.maps.Polyline` or
    `google.maps.Polygon` whose vertex list is forced into the options. */
module Api3CoordinateSequence {
  import opened Values
  import opened Geometries
  import opened Literals
  import Api3Point

  /** `UNESCAPED_POLY_OPTIONS`: keys whose values are emitted as code. */
  const UnescapedPolyOptions: seq<string> :=
    ["clickable", "fillOpacity", "geodesic", "map", "path", "paths",
     "strokeOpacity", "strokeWeight", "zIndex"]

  /** The two shapes a coordinate sequence renders as. */
  datatype Shape = PolylineShape | PolygonShape {
    /** The `google.maps` constructor. */
    function Ctor(): string {
      match this
      case PolylineShape => "Polyline"
      case PolygonShape => "Polygon"
    }
    /** The option the vertex list is stored under. */
    function PathKey(): string {
      match this
      case PolylineShape => "path"
      case PolygonShape => "paths"
    }
  }

  /** The printed latitude and longitude of each vertex, never flagged. */
  function VertexArgs(cs: seq<Coord>, fmt: real -> string): (r: seq<Args>)
    ensures |r| == |cs|
    ensures forall i :: 0 <= i < |cs| ==> r[i] == Args(fmt(cs[i].y), fmt(cs[i].x), false)
  {
    seq(|cs|, i requires 0 <= i < |cs| => Args(fmt(cs[i].y), fmt(cs[i].x), false))
  }

  /** Every vertex prints as a delimiter-free number pair. */
  predicate Printable(cs: seq<Coord>, fmt: real -> string) {
    forall i :: 0 <= i < |cs| ==> IsToken(fmt(cs[i].y)) && IsToken(fmt(cs[i].x))
  }

  /** `CoordinateSequence#to_g_lat_lng_api3`: one literal per coordinate, in
      order, each exactly what a point at that coordinate prints with no
      options, so never with the no-wrap flag; the options are ignored. */
  function LatLngs(cs: seq<Coord>, options: Options, fmt: real -> string): (r: seq<string>)
    ensures |r| == |cs|
    ensures forall i :: 0 <= i < |cs| ==> r[i] == Api3Point.LatLng(cs[i], map[], fmt)
  {
    seq(|cs|, i requires 0 <= i < |cs| => CallLiteral("LatLng", Args(fmt(cs[i].y), fmt(cs[i].x), false)))
  }

  /** The literals read back as each vertex's latitude then longitude, in
      order, none flagged, whatever options were passed. */
  lemma LatLngsRoundTrip(cs: seq<Coord>, options: Options, fmt: real -> string)
    requires Printable(cs, fmt)
    ensures forall i :: 0 <= i < |cs| ==>
      ParseCall("LatLng", LatLngs(cs, options, fmt)[i]) == Some(Args(fmt(cs[i].y), fmt(cs[i].x), false))
  {
    forall i | 0 <= i < |cs|
      ensures ParseCall("LatLng", LatLngs(cs, options, fmt)[i]) == Some(Args(fmt(cs[i].y), fmt(cs[i].x), false))
    {
      CallRoundTrip("LatLng", Args(fmt(cs[i].y), fmt(cs[i].x), false));
    }
  }

  /** `"[#{to_g_lat_lng_api3(...).join(', ')}]"`, the forced path value. */
  function PathValue(cs: seq<Coord>, options: Options, fmt: real -> string): (r: string)
    ensures Printable(cs, fmt) ==> ParseArray("LatLng", r) == Some(VertexArgs(cs, fmt))
  {
    var lits := LatLngs(cs, options, fmt);
    assert lits == CallLiterals("LatLng", VertexArgs(cs, fmt));
    if Printable(cs, fmt) then
      ArrayRoundTrip("LatLng", VertexArgs(cs, fmt));
      ArrayLiteral(lits)
    else
      ArrayLiteral(lits)
  }

  /** The arguments `to_g_polyline_api3` / `to_g_polygon_api3` hand to
      `escape_json`: the camelized caller options with the shape's path key
      forced to the vertex array, and the default unescaped keys minus the
      caller's `:escape` list. */
  function PolyCall(shape: Shape, cs: seq<Coord>, shapeOptions: Options, options: RenderOptions,
                    h: Helpers): (call: EscapeCall)
    ensures shape.PathKey() in call.opts
    ensures call.opts[shape.PathKey()].Str?
    ensures Printable(cs, h.fmt) ==>
      ParseArray("LatLng", call.opts[shape.PathKey()].s) == Some(VertexArgs(cs, h.fmt))
    ensures forall k :: k != shape.PathKey() ==>
      (k in call.opts <==> k in h.camelizeKeys(shapeOptions))
    ensures forall k :: k != shape.PathKey() && k in call.opts ==>
      call.opts[k] == h.camelizeKeys(shapeOptions)[k]
    ensures forall k :: k in call.unescaped <==> k in UnescapedPolyOptions && k !in options.Escape()
  {
    var opts := h.camelizeKeys(shapeOptions);
    var path := PathValue(cs, options.LatLngOptions(), h.fmt);
    MinusMembers(UnescapedPolyOptions, options.Escape());
    EscapeCall(opts[shape.PathKey() := Str(path)], Minus(UnescapedPolyOptions, options.Escape()))
  }

  /** `to_g_polyline_api3` / `to_g_polygon_api3`: the shape's constructor
      applied to whatever `escape_json` makes of the call's arguments. */
  function Render(shape: Shape, cs: seq<Coord>, shapeOptions: Options, options: RenderOptions,
                  h: Helpers): (r: string)
    ensures var call := PolyCall(shape, cs, shapeOptions, options, h);
      ParseWrapped(shape.Ctor(), r) == Some(h.escapeJson(call.opts, call.unescaped))
  {
    var call := PolyCall(shape, cs, shapeOptions, options, h);
    Wrap(shape.Ctor(), h.escapeJson(call.opts, call.unescaped))
  }

  /** Leaving `:escape` out hands the whole default list, in order, to the
      escaper. */
  lemma DefaultEscapeKeepsAll(shape: Shape, cs: seq<Coord>, shapeOptions: Options,
                              latLngOptions: Option<Options>, h: Helpers)
    ensures PolyCall(shape, cs, shapeOptions, RenderOptions(None, latLngOptions), h).unescaped
         == UnescapedPolyOptions
  {
    MinusNothing(UnescapedPolyOptions);
  }

  /** A caller's own value for the path key never survives: two option
      hashes that camelize alike apart from that key render alike. */
  lemma CallerPathIgnored(shape: Shape, cs: seq<Coord>, o1: Options, o2: Options,
                          options: RenderOptions, h: Helpers)
    requires h.camelizeKeys(o1) - {shape.PathKey()} == h.camelizeKeys(o2) - {shape.PathKey()}
    ensures PolyCall(shape, cs, o1, options, h) == PolyCall(shape, cs, o2, options, h)
  {
    var key := shape.PathKey();
    var path := Str(PathValue(cs, options.LatLngOptions(), h.fmt));
    var c1 := h.camelizeKeys(o1);
    var c2 := h.camelizeKeys(o2);
    assert forall k :: k in c1 && k != key ==> k in c1 - {key};
    assert forall k :: k in c2 && k != key ==> k in c2 - {key};
    assert c1[key := path] == c2[key := path];
  }
}
