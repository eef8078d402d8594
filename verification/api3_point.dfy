/** `Geos::GoogleMaps::Api3::Point`: a point as a `google.maps.LatLng`
    (latitude first) or as a `google.maps.Point` (x first). */
module Api3Point {
  import opened Values
  import opened Geometries
  import opened Literals

  /** `Point#to_g_lat_lng_api3`: `Point#lat` is `y` and `Point#lng` is `x`;
      a truthy `options[:no_wrap]` appends `, true`. */
  function LatLng(c: Coord, options: Options, fmt: real -> string): string {
    CallLiteral("LatLng", Args(fmt(c.y), fmt(c.x), Truthy(Lookup(options, "no_wrap"))))
  }

  /** `Point#to_g_point_api3`: the options are ignored and no swap happens. */
  function PointLiteral(c: Coord, options: Options, fmt: real -> string): string {
    CallLiteral("Point", Args(fmt(c.x), fmt(c.y), false))
  }

  /** The `LatLng` literal reads back as latitude, then longitude, with the
      `, true` flag present exactly when `options[:no_wrap]` is truthy. */
  lemma LatLngRoundTrip(c: Coord, options: Options, fmt: real -> string)
    requires IsToken(fmt(c.y)) && IsToken(fmt(c.x))
    ensures ParseCall("LatLng", LatLng(c, options, fmt))
         == Some(Args(fmt(c.y), fmt(c.x), Truthy(Lookup(options, "no_wrap"))))
  {
    CallRoundTrip("LatLng", Args(fmt(c.y), fmt(c.x), Truthy(Lookup(options, "no_wrap"))));
  }

  /** When the number printer tells the two latitudes and the two longitudes
      apart, two equal `LatLng` literals come from the same coordinate and the
      same wrapping choice. */
  lemma LatLngInjective(c: Coord, o: Options, d: Coord, p: Options, fmt: real -> string)
    requires fmt(c.y) == fmt(d.y) ==> c.y == d.y
    requires fmt(c.x) == fmt(d.x) ==> c.x == d.x
    requires IsToken(fmt(c.y)) && IsToken(fmt(c.x))
    requires IsToken(fmt(d.y)) && IsToken(fmt(d.x))
    requires LatLng(c, o, fmt) == LatLng(d, p, fmt)
    ensures c == d
    ensures Truthy(Lookup(o, "no_wrap")) == Truthy(Lookup(p, "no_wrap"))
  {
    LatLngRoundTrip(c, o, fmt);
    LatLngRoundTrip(d, p, fmt);
  }

  /** The `Point` literal reads back as x, then y, never flagged, whatever the
      options say. */
  lemma PointLiteralRoundTrip(c: Coord, options: Options, fmt: real -> string)
    requires IsToken(fmt(c.y)) && IsToken(fmt(c.x))
    ensures ParseCall("Point", PointLiteral(c, options, fmt)) == Some(Args(fmt(c.x), fmt(c.y), false))
  {
    CallRoundTrip("Point", Args(fmt(c.x), fmt(c.y), false));
  }

  /** The point (10.0, 10.01) prints as `LatLng(10.01, 10.0)`, and with
      `:no_wrap => true` as `LatLng(10.01, 10.0, true)`. */
  lemma LatLngExample(fmt: real -> string)
    requires fmt(10.0) == "10.0" && fmt(10.01) == "10.01"
    ensures LatLng(Coord(10.0, 10.01), map[], fmt) == "new google.maps.LatLng(10.01, 10.0)"
    ensures LatLng(Coord(10.0, 10.01), map["no_wrap" := Bool(true)], fmt)
         == "new google.maps.LatLng(10.01, 10.0, true)"
  {
    assert Open("LatLng") == "new google.maps.LatLng(";
    assert Close(false) == ")";
    assert Close(true) == ", true)";
    assert "10.0" + ")" == "10.0)";
    assert "10.0" + ", true)" == "10.0, true)";
    assert ", " + "10.0)" == ", 10.0)";
    assert ", " + "10.0, true)" == ", 10.0, true)";
    assert "10.01" + ", 10.0)" == "10.01, 10.0)";
    assert "10.01" + ", 10.0, true)" == "10.01, 10.0, true)";
  }
}
