/** `Geos::GoogleMaps::Api3::Geometry`, `::Polygon` and `::GeometryCollection`:
    bounds and markers for any geometry, and the polyline / polygon renderers
    as each geometry kind dispatches them. */
module Api3Geometry {
  import opened Values
  import opened Geometries
  import opened Literals
  import Api3Point
  import CS = Api3CoordinateSequence

  /** `UNESCAPED_MARKER_OPTIONS`: keys whose values are emitted as code. */
  const UnescapedMarkerOptions: seq<string> := ["icon", "map", "position", "shadow", "shape"]

  // ---- bounds ----

  /** `Geometry#to_g_lat_lng_bounds_api3`: the lower-left and upper-right
      corners as `LatLng` literals; the options go to both, so `:no_wrap`
      is read from this hash itself. */
  function LatLngBounds(g: Geometry, options: Options, h: Helpers, q: Queries): (r: string)
    ensures var ll := q.lowerLeft(g);
      var ur := q.upperRight(g);
      var wrap := Truthy(Lookup(options, "no_wrap"));
      IsToken(h.fmt(ll.y)) && IsToken(h.fmt(ll.x)) && IsToken(h.fmt(ur.y)) && IsToken(h.fmt(ur.x)) ==>
        ParsePair("LatLngBounds", "LatLng", r)
          == Some((Args(h.fmt(ll.y), h.fmt(ll.x), wrap), Args(h.fmt(ur.y), h.fmt(ur.x), wrap)))
  {
    var ll := q.lowerLeft(g);
    var ur := q.upperRight(g);
    var wrap := Truthy(Lookup(options, "no_wrap"));
    var a := Args(h.fmt(ll.y), h.fmt(ll.x), wrap);
    var b := Args(h.fmt(ur.y), h.fmt(ur.x), wrap);
    var r := Wrap("LatLngBounds", Api3Point.LatLng(ll, options, h.fmt) + ArgSep + Api3Point.LatLng(ur, options, h.fmt));
    if IsToken(a.first) && IsToken(a.second) && IsToken(b.first) && IsToken(b.second) then
      PairRoundTrip("LatLngBounds", "LatLng", a, b);
      r
    else
      r
  }

  // ---- markers ----

  /** The arguments `Geometry#to_g_marker_api3` hands to `escape_json`: the
      camelized marker options with `position` forced to the centroid's
      `LatLng` (built with `options[:lat_lng_options]`), and the default
      unescaped marker keys minus the caller's `:escape` list. */
  function MarkerCall(g: Geometry, markerOptions: Options, options: RenderOptions, h: Helpers,
                      q: Queries): (call: EscapeCall)
    ensures "position" in call.opts
    ensures call.opts["position"] == Str(Api3Point.LatLng(q.centroid(g), options.LatLngOptions(), h.fmt))
    ensures forall k :: k != "position" ==>
      (k in call.opts <==> k in h.camelizeKeys(markerOptions))
    ensures forall k :: k != "position" && k in call.opts ==>
      call.opts[k] == h.camelizeKeys(markerOptions)[k]
    ensures forall k :: k in call.unescaped <==> k in UnescapedMarkerOptions && k !in options.Escape()
  {
    var opts := h.camelizeKeys(markerOptions);
    var position := Api3Point.LatLng(q.centroid(g), options.LatLngOptions(), h.fmt);
    MinusMembers(UnescapedMarkerOptions, options.Escape());
    EscapeCall(opts["position" := Str(position)], Minus(UnescapedMarkerOptions, options.Escape()))
  }

  /** `Geometry#to_g_marker_api3`: a `google.maps.Marker` of whatever
      `escape_json` makes of the marker call's arguments. */
  function Marker(g: Geometry, markerOptions: Options, options: RenderOptions, h: Helpers,
                  q: Queries): (r: string)
    ensures var call := MarkerCall(g, markerOptions, options, h, q);
      ParseWrapped("Marker", r) == Some(h.escapeJson(call.opts, call.unescaped))
  {
    var call := MarkerCall(g, markerOptions, options, h, q);
    Wrap("Marker", h.escapeJson(call.opts, call.unescaped))
  }

  /** The marker's position reads back as the centroid's latitude, then
      longitude, flagged exactly when `options[:lat_lng_options][:no_wrap]`
      is truthy, whatever `position` the caller passed. */
  lemma MarkerPositionIsCentroid(g: Geometry, markerOptions: Options, options: RenderOptions,
                                 h: Helpers, q: Queries)
    requires IsToken(h.fmt(q.centroid(g).y)) && IsToken(h.fmt(q.centroid(g).x))
    ensures var c := q.centroid(g);
      ParseCall("LatLng", MarkerCall(g, markerOptions, options, h, q).opts["position"].s)
        == Some(Args(h.fmt(c.y), h.fmt(c.x), Truthy(Lookup(options.LatLngOptions(), "no_wrap"))))
  {
    Api3Point.LatLngRoundTrip(q.centroid(g), options.LatLngOptions(), h.fmt);
  }

  /** Leaving `:escape` out hands the whole default marker list, in order, to
      the escaper. */
  lemma MarkerDefaultEscapeKeepsAll(g: Geometry, markerOptions: Options,
                                    latLngOptions: Option<Options>, h: Helpers, q: Queries)
    ensures MarkerCall(g, markerOptions, RenderOptions(None, latLngOptions), h, q).unescaped
         == UnescapedMarkerOptions
  {
    MinusNothing(UnescapedMarkerOptions);
  }

  /** Escaping `position` leaves the other four default keys unquoted, and the
      options besides `position` are exactly the camelized caller options
      (`raiseOnDrag` and `cursor` for `:raise_on_drag` and `:cursor`). */
  lemma MarkerEscapePositionExample(g: Geometry, markerOptions: Options, h: Helpers, q: Queries)
    requires h.camelizeKeys(markerOptions) == map["raiseOnDrag" := Bool(true), "cursor" := Str("test")]
    ensures var call := MarkerCall(g, markerOptions, RenderOptions(Some(["position"]), None), h, q);
      && call.unescaped == ["icon", "map", "shadow", "shape"]
      && call.opts - {"position"} == map["raiseOnDrag" := Bool(true), "cursor" := Str("test")]
  {
    EscapePositionList();
    var call := MarkerCall(g, markerOptions, RenderOptions(Some(["position"]), None), h, q);
    PositionDropped(call.opts["position"]);
  }

  lemma EscapePositionList()
    ensures Minus(UnescapedMarkerOptions, ["position"]) == ["icon", "map", "shadow", "shape"]
  {
    var esc: seq<string> := ["position"];
    assert "shape" !in esc && "shadow" !in esc && "map" !in esc && "icon" !in esc;
    MinusCons("shape", [], esc);
    MinusCons("shadow", ["shape"], esc);
    MinusCons("position", ["shadow", "shape"], esc);
    MinusCons("map", ["position", "shadow", "shape"], esc);
    MinusCons("icon", ["map", "position", "shadow", "shape"], esc);
    assert Minus(["shadow", "shape"], esc) == ["shadow", "shape"];
    assert Minus(["map", "position", "shadow", "shape"], esc) == ["map", "shadow", "shape"];
    assert UnescapedMarkerOptions == ["icon"] + ["map", "position", "shadow", "shape"];
  }

  lemma PositionDropped(v: Value)
    ensures var m := map["raiseOnDrag" := Bool(true), "cursor" := Str("test")];
      m["position" := v] - {"position"} == m
  {
    var m := map["raiseOnDrag" := Bool(true), "cursor" := Str("test")];
    assert "position" !in m;
  }

  // ---- polylines and polygons by geometry kind ----

  /** A rendering result: one literal, or (for a collection) a Ruby array of
      the children's results. */
  datatype Rendered = One(s: string) | Many(items: seq<Rendered>)

  /** The coordinates a non-collection geometry renders: a Point's or a
      LineString's own sequence (`coord_seq`), a Polygon's exterior ring. */
  function ShapeCoords(g: Geometry): seq<Coord>
    requires !g.Collection?
  {
    match g
    case Point(c) => [c]
    case LineString(cs) => cs
    case Polygon(shell, _) => shell
  }

  /** `to_g_polyline_api3` / `to_g_polygon_api3` on any geometry: Points and
      LineStrings render their coordinate sequence, a Polygon renders its
      exterior ring only, and a Collection renders each child with the same
      arguments, in order, into an array. */
  function RenderShape(shape: CS.Shape, g: Geometry, shapeOptions: Options, options: RenderOptions,
                       h: Helpers): (r: Rendered)
    ensures g.Collection? <==> r.Many?
    // Definitional unfolding of the non-collection case; the facts it yields
    // are stated by `PointRendersAsOneVertex` and `PolygonDelegatesToShell`.
    ensures !g.Collection? ==> r == One(CS.Render(shape, ShapeCoords(g), shapeOptions, options, h))
    decreases g
  {
    match g
    case Collection(gs) =>
      Many(seq(|gs|, i requires 0 <= i < |gs| => RenderShape(shape, gs[i], shapeOptions, options, h)))
    case _ => One(CS.Render(shape, ShapeCoords(g), shapeOptions, options, h))
  }

  /** A Polygon renders exactly as its exterior ring would on its own, so its
      interior rings never change the output. */
  lemma PolygonDelegatesToShell(shape: CS.Shape, shell: seq<Coord>, holes: seq<seq<Coord>>,
                                other: seq<seq<Coord>>, shapeOptions: Options, options: RenderOptions,
                                h: Helpers)
    ensures RenderShape(shape, Polygon(shell, holes), shapeOptions, options, h)
         == RenderShape(shape, LineString(shell), shapeOptions, options, h)
    ensures RenderShape(shape, Polygon(shell, holes), shapeOptions, options, h)
         == RenderShape(shape, Polygon(shell, other), shapeOptions, options, h)
  {
  }

  /** A Point renders exactly as the one-vertex LineString at its coordinate:
      its coordinate sequence holds that single coordinate. */
  lemma PointRendersAsOneVertex(shape: CS.Shape, c: Coord, shapeOptions: Options,
                                options: RenderOptions, h: Helpers)
    ensures RenderShape(shape, Point(c), shapeOptions, options, h)
         == RenderShape(shape, LineString([c]), shapeOptions, options, h)
  {
  }

  /** A Collection yields one result per child, in child order, each the
      child's own rendering with the same arguments; no children, no results. */
  lemma CollectionMapsChildren(shape: CS.Shape, gs: seq<Geometry>, shapeOptions: Options,
                               options: RenderOptions, h: Helpers)
    ensures var r := RenderShape(shape, Collection(gs), shapeOptions, options, h);
      && |r.items| == |gs|
      && (forall i :: 0 <= i < |gs| ==> r.items[i] == RenderShape(shape, gs[i], shapeOptions, options, h))
      && (gs == [] ==> r == Many([]))
  {
  }

  // ---- flattening: one literal per non-collection geometry ----

  /** Ruby's `Array#flatten` on a rendering result. */
  function Flatten(r: Rendered): seq<string>
    decreases r
  {
    match r
    case One(s) => [s]
    case Many(items) => FlattenAll(items)
  }

  function FlattenAll(items: seq<Rendered>): seq<string>
    decreases items
  {
    if |items| == 0 then [] else Flatten(items[0]) + FlattenAll(items[1..])
  }

  /** The non-collection geometries inside `g`, depth first, in child order. */
  function Leaves(g: Geometry): (r: seq<Geometry>)
    ensures forall i :: 0 <= i < |r| ==> !r[i].Collection?
    decreases g
  {
    match g
    case Collection(gs) => LeavesAll(gs)
    case _ => [g]
  }

  function LeavesAll(gs: seq<Geometry>): (r: seq<Geometry>)
    ensures forall i :: 0 <= i < |r| ==> !r[i].Collection?
    decreases gs
  {
    if |gs| == 0 then [] else Leaves(gs[0]) + LeavesAll(gs[1..])
  }

  /** Each leaf rendered on its own. */
  function RenderLeaves(shape: CS.Shape, leaves: seq<Geometry>, shapeOptions: Options,
                        options: RenderOptions, h: Helpers): (r: seq<string>)
    requires forall i :: 0 <= i < |leaves| ==> !leaves[i].Collection?
    ensures |r| == |leaves|
    ensures forall i :: 0 <= i < |leaves| ==>
      r[i] == CS.Render(shape, ShapeCoords(leaves[i]), shapeOptions, options, h)
  {
    seq(|leaves|, i requires 0 <= i < |leaves| =>
      CS.Render(shape, ShapeCoords(leaves[i]), shapeOptions, options, h))
  }

  lemma RenderLeavesAppend(shape: CS.Shape, a: seq<Geometry>, b: seq<Geometry>, shapeOptions: Options,
                           options: RenderOptions, h: Helpers)
    requires forall i :: 0 <= i < |a| ==> !a[i].Collection?
    requires forall i :: 0 <= i < |b| ==> !b[i].Collection?
    ensures RenderLeaves(shape, a + b, shapeOptions, options, h)
         == RenderLeaves(shape, a, shapeOptions, options, h) + RenderLeaves(shape, b, shapeOptions, options, h)
  {
    var l := RenderLeaves(shape, a + b, shapeOptions, options, h);
    var la := RenderLeaves(shape, a, shapeOptions, options, h);
    var lb := RenderLeaves(shape, b, shapeOptions, options, h);
    forall i | 0 <= i < |l|
      ensures l[i] == (la + lb)[i]
    {
      if i < |a| {
        assert (a + b)[i] == a[i];
        assert (la + lb)[i] == la[i];
      } else {
        assert (a + b)[i] == b[i - |a|];
        assert (la + lb)[i] == lb[i - |a|];
      }
    }
  }

  /** Flattening a geometry's rendering gives exactly one literal per
      non-collection geometry inside it, in depth-first child order, each the
      rendering of that geometry alone. */
  lemma {:induction false} FlattenRendersLeaves(shape: CS.Shape, g: Geometry, shapeOptions: Options,
                                                options: RenderOptions, h: Helpers)
    ensures Flatten(RenderShape(shape, g, shapeOptions, options, h))
         == RenderLeaves(shape, Leaves(g), shapeOptions, options, h)
    decreases g, 1
  {
    match g
    case Collection(gs) =>
      FlattenAllRendersLeaves(shape, gs, shapeOptions, options, h);
    case _ =>
  }

  lemma {:induction false} FlattenAllRendersLeaves(shape: CS.Shape, gs: seq<Geometry>, shapeOptions: Options,
                                                   options: RenderOptions, h: Helpers)
    ensures FlattenAll(seq(|gs|, i requires 0 <= i < |gs| => RenderShape(shape, gs[i], shapeOptions, options, h)))
         == RenderLeaves(shape, LeavesAll(gs), shapeOptions, options, h)
    decreases gs, 0
  {
    var items := seq(|gs|, i requires 0 <= i < |gs| => RenderShape(shape, gs[i], shapeOptions, options, h));
    if |gs| > 0 {
      var rest := seq(|gs| - 1, i requires 0 <= i < |gs| - 1 => RenderShape(shape, gs[1..][i], shapeOptions, options, h));
      forall j | 0 <= j < |rest|
        ensures items[1..][j] == rest[j]
      {
        assert gs[1..][j] == gs[j + 1];
      }
      assert items[1..] == rest;
      FlattenRendersLeaves(shape, gs[0], shapeOptions, options, h);
      FlattenAllRendersLeaves(shape, gs[1..], shapeOptions, options, h);
      RenderLeavesAppend(shape, Leaves(gs[0]), LeavesAll(gs[1..]), shapeOptions, options, h);
    }
  }
}
