/** Filtering of the National Weather Service alert feed into the records the sweeps use.
    The HTTP request itself is an input: `None` stands for a request that raised (timeout,
    HTTP error status, undecodable JSON). A JSON value that is missing, null or empty is
    falsy in the source; a missing text field is `None` and a null or empty one is `Some("")`.
    A feature whose `properties` member is JSON null is kept apart, because `.get` on it
    raises. */
module NwsFeed {
  import opened Wrappers
  import opened Geometry

  // ---------------------------------------------------------------------------------------
  // Alerts at a point (`fetch_alerts_by_point`)

  /** A feature of the point query: its properties' id, event and headline, or properties
      that are JSON null. */
  datatype RawPointAlert =
    | RawPointAlert(id: Option<string>, event: Option<string>, headline: Option<string>)
    | NullAlertProperties

  datatype PointAlert = PointAlert(id: string, event: string, headline: string)

  predicate HasId(a: RawPointAlert) { a.RawPointAlert? && a.id.Some? && a.id.value != "" }

  function ToPointAlert(a: RawPointAlert): PointAlert
    requires HasId(a)
  {
    PointAlert(a.id.value, a.event.GetOr("Weather Alert"), a.headline.GetOr("Check app for details."))
  }

  /** No feature before index `k` has null properties. */
  predicate ReadableUpTo(raw: seq<RawPointAlert>, k: int)
  {
    forall j :: 0 <= j < k && j < |raw| ==> raw[j].RawPointAlert?
  }

  /** Alerts of the point query: nothing when the request failed, otherwise the features'
      alerts as `KeepWithId` gathers them. */
  function PointAlerts(response: Option<seq<RawPointAlert>>): (r: seq<PointAlert>)
    ensures response.None? ==> r == []
    ensures forall i :: 0 <= i < |r| ==> r[i].id != ""
    ensures response.Some? ==>
      forall a :: a in r ==> exists k :: 0 <= k < |response.value| && HasId(response.value[k])
                                         && a == ToPointAlert(response.value[k])
    ensures response.Some? ==>
      forall k :: 0 <= k < |response.value| && HasId(response.value[k]) && ReadableUpTo(response.value, k) ==>
        ToPointAlert(response.value[k]) in r
  {
    if response.None? then [] else KeepWithId(response.value)
  }

  /** The feature loop: an alert for each feature with an id, in feed order, with the event
      and headline defaults applied. Null properties raise; the handler returns what was
      gathered, so the list ends there. */
  function KeepWithId(raw: seq<RawPointAlert>): (r: seq<PointAlert>)
    ensures |r| <= |raw|
    ensures forall i :: 0 <= i < |r| ==> r[i].id != ""
    ensures forall a :: a in r ==> exists k :: 0 <= k < |raw| && HasId(raw[k]) && a == ToPointAlert(raw[k])
    ensures forall k :: 0 <= k < |raw| && HasId(raw[k]) && ReadableUpTo(raw, k) ==> ToPointAlert(raw[k]) in r
  {
    if |raw| == 0 then []
    else if raw[0].NullAlertProperties? then []
    else
      var rest := KeepWithId(raw[1..]);
      assert forall k :: 0 < k < |raw| ==> raw[k] == raw[1..][k - 1];
      assert forall k :: 0 < k < |raw| && ReadableUpTo(raw, k) ==> ReadableUpTo(raw[1..], k - 1);
      if HasId(raw[0]) then [ToPointAlert(raw[0])] + rest else rest
  }

  /** Feed order is kept: the alerts of a readable stretch of features come before those of
      the features after it. */
  lemma {:induction false} KeepWithIdAppend(a: seq<RawPointAlert>, b: seq<RawPointAlert>)
    requires ReadableUpTo(a, |a|)
    ensures KeepWithId(a + b) == KeepWithId(a) + KeepWithId(b)
  {
    if |a| == 0 {
      assert a + b == b;
    } else {
      assert (a + b)[0] == a[0];
      assert (a + b)[1..] == a[1..] + b;
      KeepWithIdAppend(a[1..], b);
    }
  }

  /** A feature with null properties ends the list: nothing from it or after it is kept. */
  lemma {:induction false} KeepWithIdStopsAtNull(raw: seq<RawPointAlert>, k: nat)
    requires k < |raw| && raw[k].NullAlertProperties?
    ensures KeepWithId(raw) == KeepWithId(raw[..k])
  {
    if k > 0 {
      if raw[0].RawPointAlert? {
        KeepWithIdStopsAtNull(raw[1..], k - 1);
        assert raw[1..][..k - 1] == raw[..k][1..];
      }
    } else {
      assert raw[..0] == [];
    }
  }

  // ---------------------------------------------------------------------------------------
  // Warning polygons (`fetch_active_alerts_with_polygons`, `check_locations_against_warnings`)

  /** What `geometry['coordinates'][0]` is: missing (no `coordinates` member, or an empty
      list), a list of positions (a Polygon's outer ring), a list of anything else with its
      length (a MultiPolygon's first polygon, a LineString's first position), or a number (a
      Point's longitude). */
  datatype FirstCoordinate = NoCoordinates | PositionList(ring: Ring) | OtherList(length: nat) | Number

  /** The GeoJSON geometry of a feature: its `type` member, if any, and its first coordinate
      item. */
  datatype Shape = Shape(kind: Option<string>, first: FirstCoordinate)

  datatype Properties = NullProperties | Properties(event: Option<string>)

  datatype Feature = Feature(geometry: Option<Shape>, properties: Properties)

  datatype WarningPolygon = WarningPolygon(ring: Ring, event: string)

  /** The four high-priority warning events both sweeps look for. */
  const WarningEvents: seq<string> :=
    ["Tornado Warning", "Severe Thunderstorm Warning", "Flash Flood Warning", "Extreme Wind Warning"]

  predicate IsWarningEvent(event: Option<string>) { event.Some? && event.value in WarningEvents }

  /** A ring needs at least four coordinates (three corners and the closing repeat). */
  const MinRingLength: nat := 4

  /** Reading the first coordinate item raises: it is missing; `len` is taken of a number; or
      a long enough list that is not a list of positions reaches Shapely's `Polygon`, which
      cannot read its items as coordinates. */
  predicate FirstRaises(x: FirstCoordinate)
  {
    x.NoCoordinates? || x.Number? || (x.OtherList? && x.length >= MinRingLength)
  }

  predicate UsableRing(f: Feature)
  {
    f.geometry.Some? && f.geometry.value.first.PositionList? && |f.geometry.value.first.ring| >= MinRingLength
  }

  function RingOf(f: Feature): Ring
    requires UsableRing(f)
  {
    f.geometry.value.first.ring
  }

  /** The features the alert sweep selects: a Polygon geometry carrying a warning event. */
  predicate SweepCandidate(f: Feature)
  {
    && f.geometry.Some? && f.geometry.value.kind == Some("Polygon")
    && f.properties.Properties? && IsWarningEvent(f.properties.event)
  }

  /** A feature on which the sweep's test or its ring read raises: a geometry without a
      `type`, a Polygon with null properties, or a Polygon warning whose first coordinate
      item raises. */
  predicate SweepRaises(f: Feature)
  {
    && f.geometry.Some?
    && (|| f.geometry.value.kind.None?
        || (&& f.geometry.value.kind == Some("Polygon")
            && (|| f.properties.NullProperties?
                || (IsWarningEvent(f.properties.event) && FirstRaises(f.geometry.value.first)))))
  }

  /** The features the stand-alone flagger selects: a geometry of any type carrying a warning
      event. */
  predicate FlaggerCandidate(f: Feature)
  {
    f.geometry.Some? && f.properties.Properties? && IsWarningEvent(f.properties.event)
  }

  /** A feature on which the flagger's test or its ring read raises: a geometry with null
      properties, or a warning whose first coordinate item raises. */
  predicate FlaggerRaises(f: Feature)
  {
    && f.geometry.Some?
    && (f.properties.NullProperties? || (IsWarningEvent(f.properties.event) && FirstRaises(f.geometry.value.first)))
  }

  function PolygonOf(f: Feature): WarningPolygon
    requires UsableRing(f) && f.properties.Properties? && f.properties.event.Some?
  {
    WarningPolygon(RingOf(f), f.properties.event.value)
  }

  /** The alert sweep's polygon list. The source catches every exception and returns what it
      had gathered, so a feature that raises ends the list early instead of failing. */
  function SweepPolygons(response: Option<seq<Feature>>): (r: seq<WarningPolygon>)
    ensures response.None? ==> r == []
    ensures forall i :: 0 <= i < |r| ==> r[i].event in WarningEvents && |r[i].ring| >= MinRingLength
  {
    if response.None? then [] else GatherSweep(response.value)
  }

  function GatherSweep(features: seq<Feature>): (r: seq<WarningPolygon>)
    ensures |r| <= |features|
    ensures forall i :: 0 <= i < |r| ==> r[i].event in WarningEvents && |r[i].ring| >= MinRingLength
  {
    if |features| == 0 then []
    else
      var f := features[0];
      if SweepRaises(f) then []
      else if SweepCandidate(f) && UsableRing(f) then [PolygonOf(f)] + GatherSweep(features[1..])
      else GatherSweep(features[1..])
  }

  /** Without a feature that raises, the sweep keeps exactly the candidates with a usable
      ring. */
  lemma {:induction false} GatherSweepExact(features: seq<Feature>)
    requires forall i :: 0 <= i < |features| ==> !SweepRaises(features[i])
    ensures forall w :: w in GatherSweep(features) <==>
      exists i :: 0 <= i < |features| && SweepCandidate(features[i]) && UsableRing(features[i])
                  && w == PolygonOf(features[i])
  {
    if |features| > 0 {
      var tail := features[1..];
      assert forall i :: 0 <= i < |tail| ==> tail[i] == features[i + 1];
      GatherSweepExact(tail);
      forall w
        ensures w in GatherSweep(features) <==>
          exists i :: 0 <= i < |features| && SweepCandidate(features[i]) && UsableRing(features[i])
                      && w == PolygonOf(features[i])
      {
        if exists i :: 0 <= i < |features| && SweepCandidate(features[i]) && UsableRing(features[i])
                       && w == PolygonOf(features[i]) {
          var i :| 0 <= i < |features| && SweepCandidate(features[i]) && UsableRing(features[i])
                   && w == PolygonOf(features[i]);
          if i > 0 {
            assert tail[i - 1] == features[i];
          }
        }
      }
    }
  }

  /** A feature that raises cuts the list: nothing from it or after it is kept. */
  lemma {:induction false} GatherSweepStopsAtMalformed(features: seq<Feature>, k: nat)
    requires k < |features| && SweepRaises(features[k])
    ensures GatherSweep(features) == GatherSweep(features[..k])
  {
    if k > 0 {
      if !SweepRaises(features[0]) {
        GatherSweepStopsAtMalformed(features[1..], k - 1);
        assert features[1..][..k - 1] == features[..k][1..];
      }
    } else {
      assert features[..0] == [];
    }
  }

  /** The flagger's polygon rings, or `None` when the task aborts: the request failed or a
      feature raised. The geometry's type is not checked: the first coordinate item of any
      geometry is read as a ring, so a MultiPolygon or LineString warning is usually skipped
      and a Point warning aborts the task. */
  function FlaggerPolygons(response: Option<seq<Feature>>): (r: Option<seq<Ring>>)
    ensures response.None? ==> r.None?
    ensures r.Some? ==> forall i :: 0 <= i < |r.value| ==> |r.value[i]| >= MinRingLength
  {
    if response.None? then None else GatherFlagger(response.value)
  }

  function GatherFlagger(features: seq<Feature>): (r: Option<seq<Ring>>)
    ensures r.None? <==> exists i :: 0 <= i < |features| && FlaggerRaises(features[i])
    ensures r.Some? ==> forall i :: 0 <= i < |r.value| ==> |r.value[i]| >= MinRingLength
    ensures r.Some? ==> forall ring :: ring in r.value <==>
      exists i :: 0 <= i < |features| && FlaggerCandidate(features[i]) && UsableRing(features[i])
                  && ring == RingOf(features[i])
  {
    if |features| == 0 then Some([])
    else
      var f := features[0];
      var tail := features[1..];
      assert forall i :: 0 < i < |features| ==> features[i] == tail[i - 1];
      var rest := GatherFlagger(tail);
      if FlaggerRaises(f) then None
      else if rest.None? then
        var j :| 0 <= j < |tail| && FlaggerRaises(tail[j]);
        assert features[j + 1] == tail[j];
        None
      else if FlaggerCandidate(f) && UsableRing(f) then Some([RingOf(f)] + rest.value)
      else rest
  }

  /** The flagger by geometry type: a Point warning aborts the task, a warning whose first
      coordinate item is a short list (a MultiPolygon's single-ring polygon) adds no ring, and
      a Polygon warning adds its outer ring. */
  lemma FlaggerByGeometry(kind: Option<string>, event: string, rest: seq<Feature>, ring: Ring, n: nat)
    requires event in WarningEvents && |ring| >= MinRingLength && n < MinRingLength
    ensures GatherFlagger([Feature(Some(Shape(kind, Number)), Properties(Some(event)))] + rest).None?
    ensures GatherFlagger([Feature(Some(Shape(kind, OtherList(n))), Properties(Some(event)))] + rest) == GatherFlagger(rest)
    ensures GatherFlagger(rest).Some? ==>
      GatherFlagger([Feature(Some(Shape(kind, PositionList(ring))), Properties(Some(event)))] + rest)
        == Some([ring] + GatherFlagger(rest).value)
  {
    var skip := [Feature(Some(Shape(kind, OtherList(n))), Properties(Some(event)))] + rest;
    assert skip[1..] == rest;
    var keep := [Feature(Some(Shape(kind, PositionList(ring))), Properties(Some(event)))] + rest;
    assert keep[1..] == rest;
  }
}
