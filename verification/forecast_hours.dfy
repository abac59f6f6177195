/** Forecast-hour handling of the model pages (`weather/views.py`): validation and zero padding
    of a requested hour, the hour lists, parameter lookup with its page/API difference, the
    plot image name shared by every producer and consumer, valid times, and the location the
    alerts page shows. */
module ForecastHours {
  import opened Wrappers
  import opened Text
  import opened AlertSweep
  import opened AccountRules

  // ---------------------------------------------------------------------------------------
  // Hour validation

  /** Short numbers render in few digits. */
  lemma ShortRendering(n: nat)
    ensures n < 100 ==> |NatToString(n)| <= 2
    ensures n < 1000 ==> |NatToString(n)| <= 3
  {
    if n >= 10 {
      var q := n / 10;
      assert NatToString(n) == NatToString(q) + [DigitChar(n % 10)];
      if n < 1000 {
        assert q < 100 && (n < 100 ==> q < 10);
        ShortRendering(q);
      }
    }
  }

  /** A `:0Nd` rendering of a number below 10^N has exactly N digits. */
  lemma PaddedWidth(n: nat, width: nat)
    requires (width == 2 && n < 100) || (width == 3 && n < 1000)
    ensures |PyZeroPad(n, width)| == width && AllDigits(PyZeroPad(n, width))
  {
    ShortRendering(n);
  }

  /** The shared shape of both validations: the stripped parameter is read with `int()`; a
      value in `0..maxHour` is zero-padded to `width`, anything else gives `fallback`. */
  function ValidHour(raw: string, maxHour: nat, width: nat, fallback: string): (r: string)
    requires (width == 2 && maxHour < 100) || (width == 3 && maxHour < 1000)
    ensures var v := PyInt(Strip(raw));
      if v.Some? && 0 <= v.value <= maxHour
      then r == PyZeroPad(v.value, width) && |r| == width && AllDigits(r) && PyInt(r) == v
      else r == fallback
  {
    var v := PyInt(Strip(raw));
    if v.Some? && 0 <= v.value <= maxHour then
      PaddedWidth(v.value, width);
      PyIntOfZeroPad(v.value, width);
      PyZeroPad(v.value, width)
    else fallback
  }

  const GfsMaxHour: nat := 384
  const NamMaxHour: nat := 84
  const GfsFallbackHour: string := "006"
  const NamFallbackHour: string := "00"

  lemma FallbackShapes()
    ensures |GfsFallbackHour| == 3 && AllDigits(GfsFallbackHour)
    ensures |NamFallbackHour| == 2 && AllDigits(NamFallbackHour)
  {
  }

  /** The GFS page's hour. `raw` is the query parameter, `006` when absent. The result has
      three digits in `000..384`; an invalid or out-of-range request gives `006`. */
  function GfsHour(raw: string): (r: string)
    ensures |r| == 3 && AllDigits(r)
    ensures var v := PyInt(Strip(raw));
      if v.Some? && 0 <= v.value <= GfsMaxHour then r == PyZeroPad(v.value, 3) && PyInt(r) == v
      else r == GfsFallbackHour
  {
    FallbackShapes();
    ValidHour(raw, GfsMaxHour, 3, GfsFallbackHour)
  }

  /** The NAM page's and API's hour. `raw` is the query parameter, `00` when absent. The result
      has two digits in `00..84`; an invalid or out-of-range request gives `00`. */
  function NamHour(raw: string): (r: string)
    ensures |r| == 2 && AllDigits(r)
    ensures var v := PyInt(Strip(raw));
      if v.Some? && 0 <= v.value <= NamMaxHour then r == PyZeroPad(v.value, 2) && PyInt(r) == v
      else r == NamFallbackHour
  {
    FallbackShapes();
    ValidHour(raw, NamMaxHour, 2, NamFallbackHour)
  }

  // ---------------------------------------------------------------------------------------
  // Hour lists

  /** `range(0, 121, 6)`. */
  function GfsHours(): (r: seq<nat>)
    ensures |r| == 21 && forall i :: 0 <= i < 21 ==> r[i] == 6 * i
  {
    seq(21, i requires 0 <= i < 21 => 6 * i)
  }

  /** `range(0, 37)` followed by `range(39, 85, 3)`. */
  function NamHours(): (r: seq<nat>)
    ensures |r| == 53
    ensures forall i :: 0 <= i < 37 ==> r[i] == i
    ensures forall i :: 37 <= i < 53 ==> r[i] == 39 + 3 * (i - 37)
  {
    seq(37, i requires 0 <= i < 37 => i) + seq(16, i requires 0 <= i < 16 => 39 + 3 * i)
  }

  function Labels(hours: seq<nat>, width: nat): (r: seq<string>)
    ensures |r| == |hours| && forall i :: 0 <= i < |hours| ==> r[i] == PyZeroPad(hours[i], width)
  {
    seq(|hours|, i requires 0 <= i < |hours| => PyZeroPad(hours[i], width))
  }

  function GfsHourLabels(): seq<string> { Labels(GfsHours(), 3) }

  function NamHourLabels(): seq<string> { Labels(NamHours(), 2) }

  predicate StrictlyIncreasing(s: seq<nat>)
  {
    forall i, j :: 0 <= i < j < |s| ==> s[i] < s[j]
  }

  /** Labels of distinct hours are distinct; each is a digit string whose value is its hour,
      and reads back as that hour when it is within `int()`'s digit limit. */
  lemma LabelsReadBack(hours: seq<nat>, width: nat)
    requires StrictlyIncreasing(hours)
    ensures forall i :: 0 <= i < |hours| ==>
      AllDigits(Labels(hours, width)[i]) && DigitsValue(Labels(hours, width)[i]) == hours[i]
    ensures forall i :: 0 <= i < |hours| && |Labels(hours, width)[i]| <= MaxStrDigits ==>
      PyInt(Labels(hours, width)[i]) == Some(hours[i] as int)
    ensures forall i, j :: 0 <= i < j < |hours| ==> Labels(hours, width)[i] != Labels(hours, width)[j]
  {
    var labels := Labels(hours, width);
    forall i | 0 <= i < |hours|
      ensures AllDigits(labels[i]) && DigitsValue(labels[i]) == hours[i]
      ensures |labels[i]| <= MaxStrDigits ==> PyInt(labels[i]) == Some(hours[i] as int)
    {
      assert labels[i] == PadStart(NatToString(hours[i]), width);
      PadStartRoundTrip(hours[i], width);
      PyIntOfZeroPad(hours[i], width);
    }
  }

  /** The GFS list: 21 three-digit labels from `000` to `120`, every sixth hour. */
  lemma GfsListShape()
    ensures |GfsHourLabels()| == 21
    ensures forall i :: 0 <= i < 21 ==> |GfsHourLabels()[i]| == 3 && PyInt(GfsHourLabels()[i]) == Some(6 * i)
    ensures forall i, j :: 0 <= i < j < 21 ==> GfsHourLabels()[i] != GfsHourLabels()[j]
  {
    var hours := GfsHours();
    assert StrictlyIncreasing(hours);
    LabelsReadBack(hours, 3);
    forall i | 0 <= i < 21 ensures |GfsHourLabels()[i]| == 3 {
      PaddedWidth(hours[i], 3);
    }
  }

  /** The NAM list: 53 two-digit labels, strictly increasing hours with no repeats. */
  lemma NamListShape()
    ensures |NamHourLabels()| == 53
    ensures StrictlyIncreasing(NamHours())
    ensures forall i :: 0 <= i < 53 ==> |NamHourLabels()[i]| == 2 && PyInt(NamHourLabels()[i]) == Some(NamHours()[i] as int)
    ensures forall i, j :: 0 <= i < j < 53 ==> NamHourLabels()[i] != NamHourLabels()[j]
  {
    var hours := NamHours();
    assert StrictlyIncreasing(hours);
    LabelsReadBack(hours, 2);
    forall i | 0 <= i < 53 ensures |NamHourLabels()[i]| == 2 {
      PaddedWidth(hours[i], 2);
    }
  }

  /** An hour written with more digits than `int()` accepts falls back, however small its value:
      `"0" * 4300 + "5"` gives the fallback on both pages. */
  lemma LongHourFallsBack(k: nat)
    requires k >= MaxStrDigits
    ensures GfsHour(Zeros(k) + "5") == GfsFallbackHour
    ensures NamHour(Zeros(k) + "5") == NamFallbackHour
  {
    var h := Zeros(k) + "5";
    assert AllDigits(h);
    StripAllDigits(PyBlanks, h);
    PyIntOfDigits(h);
  }

  /** A padded GFS hour in range survives validation unchanged. */
  lemma PaddedGfsHourValidates(n: nat)
    requires n <= GfsMaxHour
    ensures GfsHour(PyZeroPad(n, 3)) == PyZeroPad(n, 3)
  {
    var h := PyZeroPad(n, 3);
    PaddedWidth(n, 3);
    StripAllDigits(PyBlanks, h);
    PyIntOfZeroPad(n, 3);
  }

  /** Every hour the page offers survives validation unchanged. */
  lemma ListedHoursValidate()
    ensures forall i :: 0 <= i < 21 ==> GfsHour(GfsHourLabels()[i]) == GfsHourLabels()[i]
    ensures forall i :: 0 <= i < 53 ==> NamHour(NamHourLabels()[i]) == NamHourLabels()[i]
  {
    GfsListShape();
    NamListShape();
    forall i | 0 <= i < 21 ensures GfsHour(GfsHourLabels()[i]) == GfsHourLabels()[i] {
      var h := GfsHourLabels()[i];
      PaddedWidth(6 * i, 3);
      StripAllDigits(PyBlanks, h);
    }
    forall i | 0 <= i < 53 ensures NamHour(NamHourLabels()[i]) == NamHourLabels()[i] {
      var h := NamHourLabels()[i];
      PaddedWidth(NamHours()[i], 2);
      StripAllDigits(PyBlanks, h);
    }
  }

  // ---------------------------------------------------------------------------------------
  // Parameters

  datatype Param = Param(code: string, prefix: string)

  const GfsParams: seq<Param> := [Param("t2m", "gfs_t2m"), Param("sbcape", "gfs_sbcape"), Param("refc", "gfs_refc")]

  const NamParams: seq<Param> :=
    [Param("refc", "nam_refc"), Param("sbcape", "nam_sbcape"), Param("dewp2m", "nam_dewp2m"),
     Param("scp", "nam_scp"), Param("stp", "nam_stp")]

  function Lookup(table: seq<Param>, code: string): (r: Option<Param>)
    ensures r.Some? ==> r.value in table && r.value.code == code
    ensures r.None? <==> forall i :: 0 <= i < |table| ==> table[i].code != code
  {
    if |table| == 0 then None
    else if table[0].code == code then Some(table[0])
    else
      var rest := Lookup(table[1..], code);
      assert forall i :: 0 < i < |table| ==> table[i] == table[1..][i - 1];
      rest
  }

  /** The requested code as the views read it: stripped and lower-cased, with a default. */
  function RequestedCode(requested: Option<string>, default: string): string
  {
    Lower(Strip(requested.GetOr(default)))
  }

  /** The page falls back to the default parameter when the code is unknown. */
  function PageParam(table: seq<Param>, requested: Option<string>): (r: Param)
    requires |table| > 0
    ensures r in table
    ensures Lookup(table, RequestedCode(requested, table[0].code)).Some? ==>
      r.code == RequestedCode(requested, table[0].code)
    ensures Lookup(table, RequestedCode(requested, table[0].code)).None? ==> r == table[0]
  {
    var found := Lookup(table, RequestedCode(requested, table[0].code));
    if found.Some? then found.value else table[0]
  }

  /** The JSON API refuses an unknown code (status 400), modelled as `None`. */
  function ApiParam(table: seq<Param>, requested: Option<string>): (r: Option<Param>)
    requires |table| > 0
    ensures r.None? <==> forall i :: 0 <= i < |table| ==> table[i].code != RequestedCode(requested, table[0].code)
    ensures r.Some? ==> r.value in table && r.value.code == RequestedCode(requested, table[0].code)
  {
    Lookup(table, RequestedCode(requested, table[0].code))
  }

  /** Page and API agree on every code the API accepts, and the page shows its default exactly
      where the API refuses. */
  lemma PageAndApiAgree(table: seq<Param>, requested: Option<string>)
    requires |table| > 0
    requires forall i, j :: 0 <= i < |table| && 0 <= j < |table| && table[i].code == table[j].code ==> i == j
    ensures ApiParam(table, requested).Some? ==> PageParam(table, requested) == ApiParam(table, requested).value
    ensures ApiParam(table, requested).None? ==> PageParam(table, requested) == table[0]
  {
  }

  // ---------------------------------------------------------------------------------------
  // Image names and valid times

  /** `{prefix}_{date}_{hour}z_f{fhr}.png`, the plot name every producer and consumer builds. */
  function ImageName(prefix: string, date: string, runHour: string, fhr: string): (r: string)
    ensures |r| == |prefix| + |date| + |runHour| + |fhr| + 9
    ensures r[..|prefix|] == prefix && r[|r| - 4..] == ".png"
  {
    prefix + "_" + date + "_" + runHour + "z_f" + fhr + ".png"
  }

  /** With fixed-width date, run hour and forecast hour, the name determines all four parts: in
      particular two plots with different prefixes never share a name. */
  lemma ImageNameInjective(p1: string, d1: string, h1: string, f1: string, p2: string, d2: string, h2: string, f2: string)
    requires |d1| == |d2| && |h1| == |h2| && |f1| == |f2|
    requires ImageName(p1, d1, h1, f1) == ImageName(p2, d2, h2, f2)
    ensures p1 == p2 && d1 == d2 && h1 == h2 && f1 == f2
  {
    assert |p1| == |p2|;
    NameFields(p1, d1, h1, f1);
    NameFields(p2, d2, h2, f2);
  }

  /** Where each part sits in an image name. */
  lemma NameFields(p: string, d: string, h: string, f: string)
    ensures var n := ImageName(p, d, h, f);
      var a := |p| + 1;
      var b := a + |d| + 1;
      var c := b + |h| + 3;
      && n[..|p|] == p && n[a..a + |d|] == d && n[b..b + |h|] == h && n[c..c + |f|] == f
  {
    var n := ImageName(p, d, h, f);
    var a := |p| + 1;
    var b := a + |d| + 1;
    var c := b + |h| + 3;
    assert n[a..a + |d|] == d;
    assert n[b..b + |h|] == h;
    assert n[c..c + |f|] == f;
  }

  /** The hour an image fhr stands for: its digits, or 0 for anything else. */
  function HourOfLabel(fhr: string): (r: nat)
    ensures |fhr| > 0 && AllDigits(fhr) ==> r == DigitsValue(fhr)
  {
    if |fhr| > 0 && AllDigits(fhr) then DigitsValue(fhr) else 0
  }

  /** Seconds from the run time to the time a forecast hour is valid. */
  function ValidTime(runTime: int, fhr: string): (r: int)
    ensures r >= runTime
  {
    runTime + 3600 * HourOfLabel(fhr)
  }

  /** A padded hour stands for the hour it renders. */
  lemma PaddedHourValue(n: nat, width: nat)
    requires (width == 2 && n < 100) || (width == 3 && n < 1000)
    ensures HourOfLabel(PyZeroPad(n, width)) == n
  {
    PadStartRoundTrip(n, width);
    PaddedWidth(n, width);
    assert PyZeroPad(n, width) == PadStart(NatToString(n), width);
  }

  lemma FallbackHourValue()
    ensures HourOfLabel(NamFallbackHour) == 0
  {
    assert NamFallbackHour == Zeros(2);
    ZerosValue(2);
  }

  /** The valid time of a NAM hour label, given how validation chose it from the parsed
      request `v`. */
  lemma ValidTimeOfNamLabel(runTime: int, r: string, v: Option<int>)
    requires v.Some? && 0 <= v.value <= NamMaxHour ==> r == PyZeroPad(v.value, 2)
    requires !(v.Some? && 0 <= v.value <= NamMaxHour) ==> r == NamFallbackHour
    ensures ValidTime(runTime, r) == if v.Some? && 0 <= v.value <= NamMaxHour then runTime + 3600 * v.value else runTime
  {
    if v.Some? && 0 <= v.value <= NamMaxHour {
      PaddedHourValue(v.value, 2);
    } else {
      FallbackHourValue();
    }
  }

  /** A valid NAM request is valid exactly that many hours after the run; any other request is
      valid at the run time itself. */
  lemma NamValidTime(runTime: int, raw: string)
    ensures var v := PyInt(Strip(raw));
      ValidTime(runTime, NamHour(raw)) ==
        if v.Some? && 0 <= v.value <= NamMaxHour then runTime + 3600 * v.value else runTime
  {
    ValidTimeOfNamLabel(runTime, NamHour(raw), PyInt(Strip(raw)));
  }

  /** The NAM page's image for a request. */
  function NamPageImage(paramCode: Option<string>, fhr: string, date: string, runHour: string): (r: string)
    ensures exists p :: p in NamParams && r == ImageName(p.prefix, date, runHour, NamHour(fhr))
  {
    var p := PageParam(NamParams, paramCode);
    ImageName(p.prefix, date, runHour, NamHour(fhr))
  }

  // ---------------------------------------------------------------------------------------
  // The alerts page location

  datatype Place = Place(name: string, latitude: int, longitude: int)

  const SiteDefault: Place := Place("Adair, OK (Site Default)", 36440000, -95280000)

  /** Who is asking: a guest (or a user without a profile), or a user with saved locations in
      primary-key order, the order `.first()` uses since the location model declares none. */
  datatype AlertsViewer = Guest | WithLocations(locs: seq<Location>)

  datatype AlertsLocation = AlertsLocation(place: Place, error: bool)

  function FirstDefault(locs: seq<Location>): (r: Option<Location>)
    ensures r.None? <==> forall i :: 0 <= i < |locs| ==> !locs[i].isDefault
    ensures r.Some? ==> exists i :: 0 <= i < |locs| && locs[i] == r.value && r.value.isDefault
                                    && forall j :: 0 <= j < i ==> !locs[j].isDefault
  {
    if |locs| == 0 then None
    else if locs[0].isDefault then Some(locs[0])
    else
      var rest := FirstDefault(locs[1..]);
      assert forall i :: 0 < i < |locs| ==> locs[i] == locs[1..][i - 1];
      if rest.Some? then
        var i :| 0 <= i < |locs[1..]| && locs[1..][i] == rest.value && rest.value.isDefault
                 && forall j :: 0 <= j < i ==> !locs[1..][j].isDefault;
        assert locs[i + 1] == rest.value;
        rest
      else rest
  }

  /** The alerts page location. A non-blank query wins: its geocode, or the site default with
      an error when the geocoder finds nothing or fails. Without a query a signed-in user's
      first default location is used, and otherwise the site default. */
  function AlertsPlace(query: Option<string>, geocode: Geocode, viewer: AlertsViewer): (r: AlertsLocation)
    ensures Strip(query.GetOr("")) != "" ==>
      r == (if geocode.Found? then AlertsLocation(Place(geocode.address, geocode.latitude, geocode.longitude), false)
            else AlertsLocation(SiteDefault, true))
    ensures Strip(query.GetOr("")) == "" ==> !r.error
    ensures Strip(query.GetOr("")) == "" && viewer.WithLocations? && FirstDefault(viewer.locs).Some? ==>
      var l := FirstDefault(viewer.locs).value;
      r.place == Place(l.name, l.latitude, l.longitude)
    ensures Strip(query.GetOr("")) == "" && (viewer.Guest? || FirstDefault(viewer.locs).None?) ==>
      r.place == SiteDefault
    ensures r.error ==> r.place == SiteDefault
  {
    var q := Strip(query.GetOr(""));
    if q != "" then
      if geocode.Found? then AlertsLocation(Place(geocode.address, geocode.latitude, geocode.longitude), false)
      else AlertsLocation(SiteDefault, true)
    else if viewer.WithLocations? && FirstDefault(viewer.locs).Some? then
      var l := FirstDefault(viewer.locs).value;
      AlertsLocation(Place(l.name, l.latitude, l.longitude), false)
    else AlertsLocation(SiteDefault, false)
  }
}
