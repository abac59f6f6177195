/** Choosing the GFS run to plot and naming its images (`weather/grib_processing.py`). Time is
    UTC seconds since the epoch, passed in; turning a day number into a calendar date is the
    `calendar` input, since the source leaves it to the standard library. */
module GfsRuns {
  import opened Wrappers
  import opened Text
  import opened ForecastHours

  /** Runs are looked for seven hours back, so that their data is likely published. */
  const PublicationDelay: int := 7 * 3600

  datatype Date = Date(year: int, month: int, day: int)

  /** The calendar date of a day number (days since 1970-01-01). */
  type Calendar = int -> Date

  function TargetTime(now: int): (r: int)
    ensures r + PublicationDelay == now
  {
    now - PublicationDelay
  }

  /** The UTC hour of day of a time. */
  function HourOfDay(t: int): (r: nat)
    ensures r < 24
    ensures exists day :: t == day * 86400 + r * 3600 + (t % 3600)
  {
    DaySplit(t);
    (t % 86400) / 3600
  }

  /** A time is its day, its hour of day and its second of the hour. */
  lemma DaySplit(t: int)
    ensures t == (t / 86400) * 86400 + ((t % 86400) / 3600) * 3600 + (t % 3600)
  {
    var day, s := t / 86400, t % 86400;
    var h, sec := s / 3600, s % 3600;
    assert t == day * 86400 + s;
    assert s == h * 3600 + sec;
    assert t == (day * 24 + h) * 3600 + sec;
    assert 0 <= sec < 3600;
  }

  /** `strftime("%Y%m%d")` for four-digit years. */
  function DateString(d: Date): (r: string)
    requires 1000 <= d.year <= 9999 && 1 <= d.month <= 12 && 1 <= d.day <= 31
    ensures |r| == 8 && AllDigits(r)
    ensures DigitsValue(r[..4]) == d.year && DigitsValue(r[4..6]) == d.month && DigitsValue(r[6..]) == d.day
  {
    var y, m, dd := PyZeroPad(d.year, 4), PyZeroPad(d.month, 2), PyZeroPad(d.day, 2);
    PaddedField(d.year, 4);
    PaddedField(d.month, 2);
    PaddedField(d.day, 2);
    var r := y + m + dd;
    assert r[..4] == y && r[4..6] == m && r[6..] == dd;
    r
  }

  /** A date field renders in exactly its width and reads back as itself. */
  lemma PaddedField(n: nat, width: nat)
    requires (width == 2 && n < 100) || (width == 4 && 1000 <= n <= 9999)
    ensures |PyZeroPad(n, width)| == width && AllDigits(PyZeroPad(n, width))
    ensures DigitsValue(PyZeroPad(n, width)) == n
  {
    if width == 2 {
      PaddedWidth(n, 2);
    } else {
      assert NatToString(n) == NatToString(n / 10) + [DigitChar(n % 10)];
      ShortRendering(n / 10);
    }
    PadStartRoundTrip(n, width);
  }

  const RunHours: seq<string> := ["00", "06", "12", "18"]

  /** The run hour for an hour of day: the latest of 00, 06, 12 and 18 not after it. */
  function RunHour(hour: nat): (r: string)
    requires hour < 24
    ensures r in RunHours
    ensures r == RunHours[hour / 6]
  {
    if hour >= 18 then "18"
    else if hour >= 12 then "12"
    else if hour >= 6 then "06"
    else "00"
  }

  /** Each run-hour label stands for the hour it names. */
  lemma RunHoursRead()
    ensures forall k :: 0 <= k < 4 ==> |RunHours[k]| == 2 && AllDigits(RunHours[k]) && DigitsValue(RunHours[k]) == 6 * k
  {
    assert DigitsValue("00") == DigitsValue("0") * 10 + 0;
    assert DigitsValue("06") == DigitsValue("0") * 10 + 6;
    assert DigitsValue("12") == DigitsValue("1") * 10 + 2;
    assert DigitsValue("18") == DigitsValue("1") * 10 + 8;
    assert "00"[..1] == "0" && "06"[..1] == "0" && "12"[..1] == "1" && "18"[..1] == "1";
    assert "0"[..0] == "" && "1"[..0] == "";
  }

  /** The run hour is the largest multiple of six at most the hour. */
  lemma RunHourIsLatest(hour: nat)
    requires hour < 24
    ensures DigitsValue(RunHour(hour)) <= hour < DigitsValue(RunHour(hour)) + 6
    ensures DigitsValue(RunHour(hour)) % 6 == 0
  {
    RunHoursRead();
  }

  datatype Run = Run(date: string, hour: string)

  /** `get_latest_gfs_rundate_and_hour`. */
  function LatestGfsRun(now: int, calendar: Calendar): (r: Run)
    requires var d := calendar(TargetTime(now) / 86400); 1000 <= d.year <= 9999 && 1 <= d.month <= 12 && 1 <= d.day <= 31
    ensures |r.date| == 8 && r.hour in RunHours
    ensures r.date == DateString(calendar(TargetTime(now) / 86400))
    ensures r.hour == RunHours[HourOfDay(TargetTime(now)) / 6]
  {
    var t := TargetTime(now);
    Run(DateString(calendar(t / 86400)), RunHour(HourOfDay(t)))
  }

  // ---------------------------------------------------------------------------------------
  // Plot names

  /** The forecast-hour normalisation of `generate_gfs_plot_for_hour`: `int()` then `:03d`;
      `None` is the `(False, None)` return for a non-integer. */
  function NormalizeGfsHour(fhr: string): (r: Option<string>)
    ensures r.None? <==> PyInt(fhr).None?
    ensures r.Some? && PyInt(fhr).value >= 0 ==>
      |r.value| >= 3 && AllDigits(r.value) && PyInt(r.value) == PyInt(fhr)
  {
    match PyInt(fhr)
    case None => None
    case Some(n) =>
      PaddedReadsBack(n);
      Some(PyZeroPad(n, 3))
  }

  /** A padded non-negative hour reads back as itself when its digits are within the limit. */
  lemma PaddedReadsBack(n: int)
    ensures n >= 0 && |NatToString(Magnitude(n))| <= MaxStrDigits ==>
      |PyZeroPad(n, 3)| >= 3 && AllDigits(PyZeroPad(n, 3)) && PyInt(PyZeroPad(n, 3)) == Some(n)
  {
    if n >= 0 && |NatToString(n)| <= MaxStrDigits {
      assert PyZeroPad(n, 3) == PadStart(NatToString(n), 3);
      PyIntOfZeroPad(n, 3);
    }
  }

  /** An hour with more digits than `int()` accepts gives `(False, None)`, however small its
      value. */
  lemma LongHourRefused(k: nat)
    requires k >= MaxStrDigits
    ensures NormalizeGfsHour(Zeros(k) + "5").None?
  {
    var h := Zeros(k) + "5";
    assert AllDigits(h);
    PyIntOfDigits(h);
  }

  /** Normalising twice is normalising once. */
  lemma NormalizeIdempotent(fhr: string)
    requires PyInt(fhr).Some? && PyInt(fhr).value >= 0
    ensures NormalizeGfsHour(NormalizeGfsHour(fhr).value) == NormalizeGfsHour(fhr)
  {
  }

  const GfsT2mPrefix: string := "gfs_t2m"

  /** The output name of the temperature plot, or `None` for a non-integer hour. */
  function GfsOutputName(date: string, runHour: string, fhr: string): (r: Option<string>)
    ensures r.None? <==> PyInt(fhr).None?
    ensures r.Some? ==> r.value == ImageName(GfsT2mPrefix, date, runHour, NormalizeGfsHour(fhr).value)
  {
    match NormalizeGfsHour(fhr)
    case None => None
    case Some(h) => Some(ImageName(GfsT2mPrefix, date, runHour, h))
  }

  /** The task's hour labels are already normal, so the name it checks for is the name the
      `generate_model_plot` command writes for that hour through `generate_gfs_plot_for_hour`.
      The task's own plots go through `generate_gfs_parameter_plot`, which is not modelled. */
  lemma TaskNamesMatchOutput(date: string, runHour: string, i: nat)
    requires i < 21
    ensures GfsOutputName(date, runHour, GfsHourLabels()[i]) == Some(ImageName(GfsT2mPrefix, date, runHour, GfsHourLabels()[i]))
  {
    GfsListShape();
    var fhr := GfsHourLabels()[i];
    assert fhr == PyZeroPad(6 * i, 3);
    assert NormalizeGfsHour(fhr) == Some(fhr);
  }
}
