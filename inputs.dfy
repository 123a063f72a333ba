/** Reading graphql-go input objects the way the resolvers do.  A checked
    assertion (`v, ok := m[k].(float64)`) yields an Option; an unchecked one
    (`m[k].(float64)`) that fails panics, which graphql-go recovers and
    reports as an error of the field, modelled as `Err(MalformedInput)`. */
module Inputs {
  import opened Wrappers
  import opened Models

  function FloatField(m: map<string, Value>, k: string): Option<real> {
    if k in m && m[k].Float? then Some(m[k].f) else None
  }

  function StringField(m: map<string, Value>, k: string): Option<string> {
    if k in m && m[k].Str? then Some(m[k].s) else None
  }

  function TimeField(m: map<string, Value>, k: string): Option<Instant> {
    if k in m && m[k].Time? then Some(m[k].t) else None
  }

  function ObjectField(m: map<string, Value>, k: string): Option<map<string, Value>> {
    if k in m && m[k].Object? then Some(m[k].fields) else None
  }

  function ListField(m: map<string, Value>, k: string): Option<seq<Value>> {
    if k in m && m[k].List? then Some(m[k].items) else None
  }

  /** A `GeoPointInput` object turned into a `models.GeoPoint`: latitude,
      longitude and timestamp are required and copied; altitude, speed and
      accuracy are set exactly when they were supplied as floats. */
  function PointFromInput(m: map<string, Value>): (r: Result<GeoPoint>)
    ensures r.Ok? <==>
      "latitude" in m && m["latitude"].Float? &&
      "longitude" in m && m["longitude"].Float? &&
      "timestamp" in m && m["timestamp"].Time?
    ensures r.Err? ==> r.error == MalformedInput
    ensures r.Ok? ==>
      r.value.latitude == m["latitude"].f &&
      r.value.longitude == m["longitude"].f &&
      r.value.timestamp == m["timestamp"].t
    ensures r.Ok? ==>
      (r.value.altitude.Some? <==> "altitude" in m && m["altitude"].Float?) &&
      (r.value.speed.Some? <==> "speed" in m && m["speed"].Float?) &&
      (r.value.accuracy.Some? <==> "accuracy" in m && m["accuracy"].Float?)
    ensures r.Ok? ==>
      (r.value.altitude.Some? ==> r.value.altitude.value == m["altitude"].f) &&
      (r.value.speed.Some? ==> r.value.speed.value == m["speed"].f) &&
      (r.value.accuracy.Some? ==> r.value.accuracy.value == m["accuracy"].f)
  {
    var lat, lon, ts := FloatField(m, "latitude"), FloatField(m, "longitude"), TimeField(m, "timestamp");
    if lat.None? || lon.None? || ts.None? then Err(MalformedInput)
    else Ok(GeoPoint(lat.value, lon.value, ts.value,
                     FloatField(m, "altitude"), FloatField(m, "speed"), FloatField(m, "accuracy")))
  }

  /** One element of a list of `GeoPointInput`: it must be an input object
      (`pontoInterface.(map[string]interface{})` is unchecked). */
  function ElementFromInput(v: Value): Result<GeoPoint> {
    if v.Object? then PointFromInput(v.fields) else Err(MalformedInput)
  }

  /** The points of a `[GeoPointInput]` list, in list order; the first
      element that does not decode aborts the whole list. */
  function PointsFromInputs(items: seq<Value>): (r: Result<seq<GeoPoint>>)
    ensures r.Ok? <==> forall i :: 0 <= i < |items| ==> ElementFromInput(items[i]).Ok?
    ensures r.Err? ==> r.error == MalformedInput
    ensures r.Ok? ==> |r.value| == |items|
    ensures r.Ok? ==> forall i :: 0 <= i < |items| ==> ElementFromInput(items[i]) == Ok(r.value[i])
    decreases |items|
  {
    if items == [] then Ok([])
    else
      var front := PointsFromInputs(items[..|items| - 1]);
      var last := ElementFromInput(items[|items| - 1]);
      if front.Err? then front
      else if last.Err? then Err(last.error)
      else Ok(front.value + [last.value])
  }

  /** The `GeoPointInput` object a client sends for a point: the required
      fields and the optional fields that are present. */
  function PointToInput(p: GeoPoint): map<string, Value> {
    var required := map["latitude" := Float(p.latitude), "longitude" := Float(p.longitude),
                        "timestamp" := Time(p.timestamp)];
    var withAltitude := if p.altitude.Some? then required["altitude" := Float(p.altitude.value)] else required;
    var withSpeed := if p.speed.Some? then withAltitude["speed" := Float(p.speed.value)] else withAltitude;
    if p.accuracy.Some? then withSpeed["accuracy" := Float(p.accuracy.value)] else withSpeed
  }

  function PointsToInputs(ps: seq<GeoPoint>): seq<Value>
  {
    seq(|ps|, i requires 0 <= i < |ps| => Object(PointToInput(ps[i])))
  }

  /** Decoding the input form of a point gives that point back. */
  lemma PointRoundTrip(p: GeoPoint)
    ensures PointFromInput(PointToInput(p)) == Ok(p)
  {
    var m := PointToInput(p);
    assert "latitude" in m && m["latitude"] == Float(p.latitude);
    assert "longitude" in m && m["longitude"] == Float(p.longitude);
    assert "timestamp" in m && m["timestamp"] == Time(p.timestamp);
    assert FloatField(m, "altitude") == p.altitude;
    assert FloatField(m, "speed") == p.speed;
    assert FloatField(m, "accuracy") == p.accuracy;
  }

  /** Decoding the input form of a point list gives the list back, in order. */
  lemma PointsRoundTrip(ps: seq<GeoPoint>)
    ensures PointsFromInputs(PointsToInputs(ps)) == Ok(ps)
  {
    var items := PointsToInputs(ps);
    forall i | 0 <= i < |ps| ensures ElementFromInput(items[i]) == Ok(ps[i]) {
      PointRoundTrip(ps[i]);
    }
    var r := PointsFromInputs(items);
    assert r.Ok? && |r.value| == |ps|;
    forall i | 0 <= i < |ps| ensures r.value[i] == ps[i] {
      assert ElementFromInput(items[i]) == Ok(r.value[i]);
    }
    assert r.value == ps;
  }

  /** `for _, pontoInterface := range ...` in graphql/schema.go: decode each
      element in turn and append it, stopping at the first that fails. */
  method DecodePointList(items: seq<Value>) returns (r: Result<seq<GeoPoint>>)
    ensures r == PointsFromInputs(items)
  {
    var pontos: seq<GeoPoint> := [];
    var i := 0;
    while i < |items|
      invariant 0 <= i <= |items|
      invariant PointsFromInputs(items[..i]) == Ok(pontos)
    {
      assert items[..i + 1][..i] == items[..i];
      var ponto := ElementFromInput(items[i]);
      if ponto.Err? {
        return Err(ponto.error);
      }
      pontos := pontos + [ponto.value];
      i := i + 1;
    }
    assert items[..i] == items;
    r := Ok(pontos);
  }
}
