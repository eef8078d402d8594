# Google Maps API v3 rendering of GEOS geometries, in Dafny

This project models the Google Maps API v3 renderer of geos-extensions
(`Geos::GoogleMaps::Api3`). The renderer turns a geometry into JavaScript
constructor calls:

- a point into `new google.maps.LatLng(lat, lng[, true])` or
  `new google.maps.Point(x, y)`;
- any geometry's envelope into `new google.maps.LatLngBounds(sw, ne)`;
- any geometry's centroid into `new google.maps.Marker({...})`;
- a coordinate sequence into `new google.maps.Polyline({...})` or
  `new google.maps.Polygon({...})`. The vertex array is forced into the
  `path` / `paths` option.

Polygons render only their exterior ring. Collections render each child into
an array.

Modules:

- `Values` (`values.dfy`): Ruby-side values. It holds option hashes,
  truthiness, `Array#-` (`Minus`), `Array#join`, the defaults of the render
  options hash, and the record of helpers whose text is outside this model.
- `Geometries` (`geometries.dfy`): the geometry datatype (Point, LineString,
  Polygon with shell and holes, Collection). It also holds the record of
  geometry-library queries (centroid, lower-left and upper-right corner).
- `Literals` (`literals.dfy`): the text shapes that are emitted, each with a
  parser. Properties of the output are stated as "parsing it back gives these
  parts". Each parser accepts exactly the printed literals: a call parses
  only if it is the literal of its arguments (`ParseCallSound`), and an array
  only if it is the `, `-joined, bracketed list of its calls' literals
  (`ParseArraySound`). The call printer is one-to-one on delimiter-free arguments
  (`CallLiteralInjective`).
- `Api3Point`, `Api3CoordinateSequence`, `Api3Geometry`: the Ruby modules of
  the same names. `Api3Geometry` also covers the `Polygon` and
  `GeometryCollection` overrides, through the geometry-kind dispatch in
  `RenderShape`.

Three helpers are called but not shown: `Float#to_s`,
`Geos::Helper.camelize_keys` and `Geos::Helper.escape_json`. They are
function-valued fields of `Values.Helpers`. The properties hold for any
implementation of them that ignores key order. The overwrite properties of the
forced `path`, `paths` and `position` keys also assume that `camelize_keys`
returns keys which the renderer's own key replaces (see "Left out"). The same
goes for the geometry-library queries in `Geometries.Queries`. A property about
the printed numbers assumes only that `Float#to_s` prints delimiter-free text
(`Literals.IsToken`). That is true of every finite Ruby float rendering, such
as `10.01` and `-1.5e-05`.

The polyline and polygon renderers pass `options[:lat_lng_options]` on to
`CoordinateSequence#to_g_lat_lng_api3` (api_3.rb:91, :117), as their comments
say (:82-83, :108-109). That method ignores its argument (:65-69), so a
`:no_wrap` there never flags a path vertex. `Api3CoordinateSequence.LatLngs`
and `LatLngsRoundTrip` state this: every vertex literal is unflagged whatever
options are passed.

`lib/geos/google_maps/api_3.rb` contains no polyline encoding and no
API-version check. Polyline encoding lives outside this file (see "Left out").

## Model

| member | source | states |
|---|---|---|
| Values.MinusMembers | lib/geos/google_maps/api_3.rb:92 | A key is handed to the escaper as unescaped exactly when it is in the default list and not in the caller's `:escape` list (both directions) |
| Values.MinusNothing | lib/geos/google_maps/api_3.rb:85-88 | An empty `:escape` list (the default) passes on the whole default list, in its original order |
| Api3Point.LatLngRoundTrip | lib/geos/google_maps/api_3.rb:126-132 | A point's `LatLng` literal reads back as latitude (y), then longitude (x). It carries the `, true` suffix exactly when `options[:no_wrap]` is truthy, and no suffix otherwise |
| Api3Point.LatLngInjective | lib/geos/google_maps/api_3.rb:126-132 | If the number printer tells the two latitudes apart and the two longitudes apart, two equal `LatLng` literals come from the same coordinate and the same wrapping choice |
| Api3Point.PointLiteralRoundTrip | lib/geos/google_maps/api_3.rb:135-137 | The `Point` literal reads back as x, then y, with no swap and never a flag, whatever the options |
| Api3Point.LatLngExample | test/google_maps_api_3_test.rb:21-24 | The point (10.0, 10.01) prints `new google.maps.LatLng(10.01, 10.0)`, and with `:no_wrap => true` it prints `new google.maps.LatLng(10.01, 10.0, true)` |
| Api3CoordinateSequence.LatLngs | lib/geos/google_maps/api_3.rb:65-69 | One literal per coordinate, in input order. Each is exactly the literal of a point at that coordinate with no options, so the options argument never adds a no-wrap flag |
| Api3CoordinateSequence.LatLngsRoundTrip | lib/geos/google_maps/api_3.rb:65-68 | Each vertex literal reads back as that coordinate's y, then x, unflagged, whatever options were passed |
| Literals.ParseArraySound | lib/geos/google_maps/api_3.rb:91 | The array read-back is exact: text the array parser accepts is `"["`, then the call literals of the parsed arguments joined by `", "` with no leading or trailing separator, then `"]"` |
| Api3CoordinateSequence.PathValue | lib/geos/google_maps/api_3.rb:91 | The forced path value, `"[" + literals joined by ", " + "]"`, parses back to the vertices' (lat, lng) pairs, one per coordinate in order. An empty sequence gives an empty array |
| Api3CoordinateSequence.PolyCall | lib/geos/google_maps/api_3.rb:84-121 | Polyline output always sets `path` and polygon output always sets `paths`, to the vertex array. Every other camelized caller option is passed through unchanged, and no other key is added. The unescaped keys are exactly those of `UNESCAPED_POLY_OPTIONS` that are not in `:escape` |
| Api3CoordinateSequence.Render | lib/geos/google_maps/api_3.rb:94-120 | The output is a `Polyline` / `Polygon` constructor call whose argument is exactly the escaper's text for those options and that list |
| Api3CoordinateSequence.DefaultEscapeKeepsAll | lib/geos/google_maps/api_3.rb:85-92 | Leaving `:escape` out hands the full `UNESCAPED_POLY_OPTIONS` list to the escaper |
| Api3CoordinateSequence.CallerPathIgnored | lib/geos/google_maps/api_3.rb:90-91 | A caller-supplied `path` / `paths` value is overwritten: option hashes that camelize alike apart from that key produce escaper arguments that are equal as hashes (`Hash#==`) |
| Api3Geometry.LatLngBounds | lib/geos/google_maps/api_3.rb:14-16 | The bounds literal reads back as the lower-left corner's (lat, lng), then the upper-right's. The no-wrap flag is taken from the same options hash for both |
| Api3Geometry.MarkerCall | lib/geos/google_maps/api_3.rb:37-45 | `position` is always the centroid's `LatLng` literal, built with `options[:lat_lng_options]`, overriding any caller `position`. All other camelized marker options survive unchanged. The unescaped keys are exactly those of `UNESCAPED_MARKER_OPTIONS` that are not in `:escape` |
| Api3Geometry.Marker | lib/geos/google_maps/api_3.rb:47 | The output is a `Marker` constructor call whose argument is exactly the escaper's text for the marker options and list |
| Api3Geometry.MarkerPositionIsCentroid | lib/geos/google_maps/api_3.rb:44 | The marker position reads back as the centroid's latitude, then longitude. It is flagged exactly when `:lat_lng_options` has a truthy `:no_wrap` |
| Api3Geometry.MarkerDefaultEscapeKeepsAll | lib/geos/google_maps/api_3.rb:38-45 | Leaving `:escape` out hands the full `UNESCAPED_MARKER_OPTIONS` list to the escaper |
| Api3Geometry.MarkerEscapePositionExample | test/google_maps_api_3_test.rb:108-129 | With `:escape => ['position']`, the unescaped list is icon, map, shadow, shape. The options besides `position` are exactly the camelized `raiseOnDrag` and `cursor` |
| Api3Geometry.RenderShape | lib/geos/google_maps/api_3.rb:24-31 | A Point or LineString renders its own coordinate sequence as one literal. Only a Collection yields an array |
| Api3Geometry.PolygonDelegatesToShell | lib/geos/google_maps/api_3.rb:144-153 | A Polygon renders, with the same arguments, exactly as its exterior ring. Changing the interior rings never changes the output |
| Api3Geometry.PointRendersAsOneVertex | lib/geos/google_maps/api_3.rb:24-31 | A Point renders exactly as the one-vertex LineString at its coordinate |
| Api3Geometry.CollectionMapsChildren | lib/geos/google_maps/api_3.rb:159-171 | A Collection yields one result per child, in child order. Each result is that child's rendering with the same arguments. An empty collection yields an empty array |
| Api3Geometry.FlattenRendersLeaves | lib/geos/google_maps/api_3.rb:159-171 | Flattening the nested result arrays gives one literal per non-collection geometry inside, in depth-first child order. Each literal is that geometry rendered alone |

## Left out

- `Geometry#to_g_lat_lng_bounds_string_api3` (api_3.rb:19-21) is not modelled. It formats through `to_g_url_value_api3`, which is not part of this model.
- `Geos::GoogleMaps.use_api(3)` (api_3.rb:175) is not modelled. It is process-wide state, and its registry is not part of this model. The marker's call to `to_g_lat_lng` (api_3.rb:44) is taken to reach `Point#to_g_lat_lng_api3`, which is what it does with API 3 selected.
- `Float#to_s`, `Geos::Helper.camelize_keys` and `Geos::Helper.escape_json` are parameters (`Values.Helpers`). Their output format is not specified.
- `centroid`, `lower_left` and `upper_right` are parameters (`Geometries.Queries`), not computed geometry. `Point#lat` / `Point#lng` (defined outside this file) are taken to be y / x.
- Option keys are plain strings. The Ruby Symbol/String distinction is not modelled, so an `:escape` entry given as a Symbol, which Ruby would not subtract, is not modelled either.
- Passing `nil` or a non-hash as an options hash itself raises in Ruby: the defaults merge raises at api_3.rb:38-41, :85-88 and :111-114, and `options[:no_wrap]` raises at :127 when reached from `to_g_lat_lng_bounds_api3` (:15) or `Point#to_g_lat_lng_api3`. An empty collection still returns `[]`, since no child is rendered (:159-171). The model's option types (`Options`, `RenderOptions`) cannot express a missing hash.
- An `:escape` explicitly set to `nil` or to a non-array raises in Ruby (api_3.rb:45, :92, :118). The model's options record has no way to express it.
- A `:lat_lng_options` explicitly set to `nil` or to a non-hash raises only in the marker renderer, where `Point#to_g_lat_lng_api3` reads `options[:no_wrap]` (api_3.rb:44, :127). The polyline and polygon renderers pass it to `CoordinateSequence#to_g_lat_lng_api3`, which ignores it, so they do not raise. The model's options record cannot express the raising case.
- Option hashes are unordered maps. A Ruby `Hash` keeps insertion order: assigning `path`, `paths` or `position` (api_3.rb:44, :91, :117) keeps a caller-supplied key in its slot, or appends the key otherwise, and `escape_json` may print keys in that order. The model covers only escapers that ignore key order, and states equalities of option hashes as `Hash#==`.
- Option values are `nil`, booleans, one numeric kind (`real`, so Ruby's Integer/Float distinction is not modelled), strings and arrays. Nested hashes as option values are not modelled.
- Coordinates carry x and y only. A z ordinate would not be printed by any of these renderers.
- Coordinates are reals. Non-finite values (`Infinity`, `NaN`) and negative zero are not represented.
- Polyline encoding, `to_jsonable`, `to_g_json_point` and `to_g_lat_lon_box` are exercised by test/google_maps_api_3_test.rb but implemented outside this file. The positional-argument `Polygon` / `Polyline` expectations at test lines 49-86 do not match this file's options-object output.
- ActiveRecord geography columns (test/geography_columns_tests.rb) are database I/O.
- Api3Point.LatLngRoundTrip: assumes `Float#to_s` prints delimiter-free text (`IsToken`) for the coordinate, since the parser needs that to find the numbers again.
- Api3Point.PointLiteralRoundTrip: same delimiter-free assumption on the printed numbers.
- Api3Point.LatLngInjective: additionally assumes the number printer tells the two latitudes apart and the two longitudes apart.
- Api3CoordinateSequence.LatLngsRoundTrip: same delimiter-free assumption for every vertex.
- Api3CoordinateSequence.PathValue: its read-back property is stated only when every vertex prints delimiter-free.
- Api3CoordinateSequence.PolyCall: its path read-back clause is stated only when every vertex prints delimiter-free.
- Api3Geometry.LatLngBounds: its read-back property is stated only when both corners print delimiter-free.
- Api3Geometry.MarkerPositionIsCentroid: same delimiter-free assumption for the centroid.
- Api3Geometry.MarkerEscapePositionExample: takes the camelized options as given, because `camelize_keys` is a parameter.
- Api3CoordinateSequence.CallerPathIgnored: assumes `camelize_keys` returns a `path` / `paths` key that the renderer's Symbol key `:path` / `:paths` (api_3.rb:91, :117) replaces. Keys are plain strings in the model. If `camelize_keys` returned String keys, a caller's `path` would survive beside the forced one and reach the escaper.
- Api3Geometry.MarkerCall: its "overrides any caller `position`" clause makes the same assumption about the Symbol key `:position` (api_3.rb:44).
- Api3CoordinateSequence.PolyCall: its forced-key clauses make the same assumption about the Symbol keys `:path` / `:paths` (api_3.rb:91, :117).
