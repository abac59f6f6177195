/** The GFS model page script (`weather/static/weather/js/gfs_model_page.js`): the plot URL it
    builds, its preload pool, which neighbouring hours it preloads, and how the hour slider
    snaps. A missing (`null`/`undefined`) string is modelled as the empty string, the one
    falsy string. */
module ModelPage {
  import opened Wrappers
  import opened Text
  import opened ForecastHours

  // ---------------------------------------------------------------------------------------
  // Image URLs

  /** `buildImageUrl`: `None` (`null`) when a part is missing; the hour is left-padded with
      zeros to three characters. */
  function BuildImageUrl(media: string, prefix: string, runDate: string, runHour: string, fhr: string): (r: Option<string>)
    ensures r.None? <==> prefix == "" || runDate == "" || runHour == "" || fhr == ""
    ensures r.Some? ==> r.value == media + ImageName(prefix, runDate, runHour, PadStart(fhr, 3))
  {
    if prefix == "" || runDate == "" || runHour == "" || fhr == "" then None
    else Some(media + ImageName(prefix, runDate, runHour, PadStart(fhr, 3)))
  }

  /** The page's padding agrees with the server's: a bare hour number gives the name the server
      writes under, and a listed three-digit label is used as it is. */
  lemma UrlMatchesServerName(media: string, prefix: string, runDate: string, runHour: string, n: nat, i: nat)
    requires prefix != "" && runDate != "" && runHour != "" && i < 21
    ensures BuildImageUrl(media, prefix, runDate, runHour, NatToString(n)) == Some(media + ImageName(prefix, runDate, runHour, PyZeroPad(n, 3)))
    ensures BuildImageUrl(media, prefix, runDate, runHour, GfsHourLabels()[i]) == Some(media + ImageName(prefix, runDate, runHour, GfsHourLabels()[i]))
  {
    var bare := NatToString(n);
    assert bare != "";
    assert PyZeroPad(n, 3) == PadStart(bare, 3);
    GfsListShape();
    var listed := GfsHourLabels()[i];
    assert |listed| == 3;
    assert PadStart(listed, 3) == listed;
  }

  /** Distinct listed hours give distinct URLs, so the preload pool holds one URL per hour. */
  lemma ListedUrlsDistinct(media: string, prefix: string, runDate: string, runHour: string, i: nat, j: nat)
    requires prefix != "" && runDate != "" && runHour != "" && i < 21 && j < 21
    requires BuildImageUrl(media, prefix, runDate, runHour, GfsHourLabels()[i]) == BuildImageUrl(media, prefix, runDate, runHour, GfsHourLabels()[j])
    ensures i == j
  {
    GfsListShape();
    var a, b := GfsHourLabels()[i], GfsHourLabels()[j];
    assert |a| == 3 && |b| == 3;
    assert PadStart(a, 3) == a && PadStart(b, 3) == b;
    UrlsInjective(media, prefix, runDate, runHour, a, b);
  }

  /** Under one media URL, parameter and run, equal-width hours with the same URL are equal. */
  lemma UrlsInjective(media: string, prefix: string, runDate: string, runHour: string, a: string, b: string)
    requires |a| == |b|
    requires media + ImageName(prefix, runDate, runHour, a) == media + ImageName(prefix, runDate, runHour, b)
    ensures a == b
  {
    var na, nb := ImageName(prefix, runDate, runHour, a), ImageName(prefix, runDate, runHour, b);
    assert na == (media + na)[|media|..];
    assert nb == (media + nb)[|media|..];
    ImageNameInjective(prefix, runDate, runHour, a, prefix, runDate, runHour, b);
  }

  // ---------------------------------------------------------------------------------------
  // Preload pool

  /** What happens to the pool: a preload request for a URL (`""` for `null`), or the failure
      of a started load. */
  datatype PreloadEvent = Request(url: string) | LoadFailed(url: string)

  datatype PoolStep = PoolStep(pool: set<string>, started: bool)

  /** `actualPreloadImage` and the `onerror` handler. A request starts a load only for a URL
      that is present and not already pooled; a failure takes the URL out of the pool. */
  function Step(pool: set<string>, e: PreloadEvent): (r: PoolStep)
    ensures r.started <==> e.Request? && e.url != "" && e.url !in pool
    ensures e.Request? ==> r.pool == if e.url == "" then pool else pool + {e.url}
    ensures e.LoadFailed? ==> r.pool == pool - {e.url}
  {
    match e
    case Request(url) =>
      if url == "" || url in pool then PoolStep(pool, false) else PoolStep(pool + {url}, true)
    case LoadFailed(url) => PoolStep(pool - {url}, false)
  }

  /** How many loads of `u` the events start. */
  function Starts(pool: set<string>, events: seq<PreloadEvent>, u: string): nat
    decreases |events|
  {
    if |events| == 0 then 0
    else
      var s := Step(pool, events[0]);
      (if s.started && events[0].url == u then 1 else 0) + Starts(s.pool, events[1..], u)
  }

  function Failures(events: seq<PreloadEvent>, u: string): nat
  {
    if |events| == 0 then 0
    else (if events[0] == LoadFailed(u) then 1 else 0) + Failures(events[1..], u)
  }

  /** A URL is loaded again only after a failure of it: the loads of `u` started never exceed
      one (none if it is already pooled) plus the failures of `u`. */
  lemma {:induction false} LoadedOncePerFailure(pool: set<string>, events: seq<PreloadEvent>, u: string)
    ensures Starts(pool, events, u) + (if u in pool then 1 else 0) <= 1 + Failures(events, u)
    decreases |events|
  {
    if |events| > 0 {
      var s := Step(pool, events[0]);
      LoadedOncePerFailure(s.pool, events[1..], u);
    }
  }

  // ---------------------------------------------------------------------------------------
  // Neighbour preloading

  /** `list.indexOf(x)`, with `None` for `-1`. */
  function IndexOf(list: seq<string>, x: string): (r: Option<nat>)
    ensures r.None? <==> x !in list
    ensures r.Some? ==> r.value < |list| && list[r.value] == x && x !in list[..r.value]
  {
    if |list| == 0 then None
    else if list[0] == x then Some(0)
    else
      var rest := IndexOf(list[1..], x);
      if rest.None? then None
      else
        assert list[..rest.value + 1] == [list[0]] + list[1..][..rest.value];
        Some(rest.value + 1)
  }

  const DefaultNeighbors: nat := 2

  /** The list indices `preloadNeighboringImages` preloads, in order. Nothing happens without a
      truthy parameter prefix (a missing or empty one stops it) or when the hour is not listed;
      otherwise exactly the indices within `n` of the hour's first position, other than itself,
      are touched. */
  method NeighbourIndices(list: seq<string>, target: string, prefix: Option<string>, n: nat) returns (touched: seq<nat>)
    ensures prefix.None? || prefix.value == "" || target !in list ==> touched == []
    ensures |touched| <= 2 * n
    ensures forall k :: 0 <= k < |touched| ==> touched[k] < |list|
    ensures prefix.Some? && prefix.value != "" && target in list ==> var c := IndexOf(list, target).value;
      forall j :: 0 <= j < |list| ==> (j in touched <==> j != c && c - n <= j <= c + n)
  {
    touched := [];
    if prefix.None? || prefix.value == "" {
      return;
    }
    var found := IndexOf(list, target);
    if found.None? {
      return;
    }
    var c := found.value;
    for i := 1 to n + 1
      invariant |touched| <= 2 * (i - 1)
      invariant forall k :: 0 <= k < |touched| ==> touched[k] < |list|
      invariant forall j :: 0 <= j < |list| ==> (j in touched <==> j != c && c - i < j < c + i)
    {
      if c - i >= 0 {
        touched := touched + [c - i];
      }
      if c + i < |list| {
        touched := touched + [c + i];
      }
    }
  }

  // ---------------------------------------------------------------------------------------
  // Slider snapping

  const DefaultStep: int := 6

  /** `parseInt(step) || 6`: `None` stands for a missing or non-numeric attribute. */
  function SliderStep(stepAttr: Option<int>): (r: int)
    ensures r != 0
    ensures stepAttr.Some? && stepAttr.value != 0 ==> r == stepAttr.value
  {
    if stepAttr.None? || stepAttr.value == 0 then DefaultStep else stepAttr.value
  }

  /** The floor of `a / b`. */
  function FloorDiv(a: int, b: int): (q: int)
    requires b != 0
    ensures b > 0 ==> q * b <= a < q * b + b
    ensures b < 0 ==> q * b >= a > q * b + b
  {
    if b > 0 then a / b else (-a) / (-b)
  }

  /** `Math.round(value / step) * step`: `Math.round(x)` is the floor of `x + 1/2`, that is the
      floor of `(2 value + step) / (2 step)`. The result is the multiple of the step nearest to
      the value, halves going up. */
  function Snap(value: int, step: int): (r: int)
    requires step != 0
    ensures exists q :: r == q * step
    ensures step > 0 ==> -step <= 2 * (value - r) < step
    ensures step < 0 ==> step < 2 * (value - r) <= -step
  {
    var q := FloorDiv(2 * value + step, 2 * step);
    q * step
  }

  /** The hour label the slider shows and requests: the snapped number, `padStart(3, '0')`. */
  function SliderLabel(value: int, stepAttr: Option<int>): string
  {
    PadStart(IntToString(Snap(value, SliderStep(stepAttr))), 3)
  }

  /** The `change` handler: fetch the snapped hour only when it differs from the current one. */
  function SliderFetch(value: int, stepAttr: Option<int>, current: string): (r: Option<string>)
    ensures r.None? <==> SliderLabel(value, stepAttr) == current
    ensures r.Some? ==> r.value == SliderLabel(value, stepAttr)
  {
    var shown := SliderLabel(value, stepAttr);
    if shown == current then None else Some(shown)
  }

  /** A snapped hour in the page's range survives the server's hour validation unchanged, so
      once the page's current hour is the validated one, repeating the same slider change does
      not fetch again. */
  lemma SecondChangeIsQuiet(value: int, stepAttr: Option<int>, current: string)
    requires 0 <= Snap(value, SliderStep(stepAttr)) <= GfsMaxHour
    ensures var f := SliderFetch(value, stepAttr, current);
      f.Some? ==> GfsHour(f.value) == f.value && SliderFetch(value, stepAttr, GfsHour(f.value)).None?
  {
    var n: nat := Snap(value, SliderStep(stepAttr));
    assert SliderLabel(value, stepAttr) == PyZeroPad(n, 3);
    PaddedGfsHourValidates(n);
  }
}
