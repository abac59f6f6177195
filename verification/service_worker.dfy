/** The service worker (`templates/sw.js`): which old caches it deletes on activation, which
    requests it intercepts and how it answers them, how a push payload is merged over the
    notification defaults, and which URL a notification click opens. Template tags are
    rendered by the server; their results are the `Site` input. */
module ServiceWorker {
  import opened Wrappers
  import opened Text

  /** The URLs the template renders into the script. */
  datatype Site = Site(icon: string, badge: string, home: string, offline: string)

  // ---------------------------------------------------------------------------------------
  // Activation

  const CacheFamily: string := "weather-app-cache-"

  const CacheName: string := "weather-app-cache-v2.1"

  /** The caches deleted on activation, in the order listed: this app's caches other than the
      current one. */
  function OldCaches(names: seq<string>): (r: seq<string>)
    ensures forall x :: x in r <==> x in names && StartsWith(x, CacheFamily) && x != CacheName
    ensures |r| <= |names|
  {
    if |names| == 0 then []
    else
      var rest := OldCaches(names[1..]);
      assert forall x :: x in names <==> x == names[0] || x in names[1..];
      if StartsWith(names[0], CacheFamily) && names[0] != CacheName then [names[0]] + rest else rest
  }

  function Remove(names: seq<string>, gone: seq<string>): (r: seq<string>)
    ensures forall x :: x in r <==> x in names && x !in gone
  {
    if |names| == 0 then []
    else
      var rest := Remove(names[1..], gone);
      assert forall x :: x in names <==> x == names[0] || x in names[1..];
      if names[0] in gone then rest else [names[0]] + rest
  }

  /** After activation the only cache of this app left is the current one, and caches of other
      apps are untouched. */
  lemma OnlyCurrentCacheSurvives(names: seq<string>)
    ensures var left := Remove(names, OldCaches(names));
      && (forall x :: x in left && StartsWith(x, CacheFamily) ==> x == CacheName)
      && (forall x :: x in names && !StartsWith(x, CacheFamily) ==> x in left)
      && (CacheName in names ==> CacheName in left)
  {
  }

  // ---------------------------------------------------------------------------------------
  // Fetch handling

  datatype Request = Request(url: string, httpMethod: string, navigate: bool, accept: Option<string>)

  datatype Response = Response(ok: bool, body: string)

  datatype Strategy = Bypass | NetworkFirst | CacheFirst

  /** Only GET requests are intercepted; pages (navigations, or requests accepting HTML) go to
      the network first and everything else to the cache first. */
  function StrategyFor(req: Request): (r: Strategy)
    ensures r == Bypass <==> req.httpMethod != "GET"
    ensures r == NetworkFirst <==>
      req.httpMethod == "GET" && (req.navigate || (req.accept.Some? && req.accept.value != "" && Includes(req.accept.value, "text/html")))
  {
    if req.httpMethod != "GET" then Bypass
    else if req.navigate || (req.accept.Some? && req.accept.value != "" && Includes(req.accept.value, "text/html")) then NetworkFirst
    else CacheFirst
  }

  /** The answer to a request: not intercepted, or a response (`None` when the worker ends up
      with no response, as for an uncached asset while offline). */
  datatype Answer = NotIntercepted | Answered(response: Option<Response>)

  datatype FetchResult = FetchResult(answer: Answer, cache: map<string, Response>)

  /** The network-first fallback: the cached page, else the cached offline page. */
  function CachedOrOffline(site: Site, req: Request, cache: map<string, Response>): Option<Response>
  {
    if req.url in cache then Some(cache[req.url]) else if site.offline in cache then Some(cache[site.offline]) else None
  }

  /** One request. `network` is the result of `fetch` (`None` when it rejects). */
  function HandleFetch(site: Site, req: Request, cache: map<string, Response>, network: Option<Response>): (r: FetchResult)
    ensures StrategyFor(req) == Bypass <==> r.answer == NotIntercepted
    ensures StrategyFor(req) != NetworkFirst ==> r.cache == cache
    ensures StrategyFor(req) == NetworkFirst ==>
      && (network.Some? ==> r.answer == Answered(network))
      && (network.Some? && network.value.ok ==> r.cache == cache[req.url := network.value])
      && (network.Some? && !network.value.ok ==> r.cache == cache)
      && (network.None? ==> r.cache == cache)
      && (network.None? ==> r.answer == Answered(CachedOrOffline(site, req, cache)))
    ensures StrategyFor(req) == CacheFirst ==>
      r.answer == Answered(if req.url in cache then Some(cache[req.url]) else network)
  {
    match StrategyFor(req)
    case Bypass => FetchResult(NotIntercepted, cache)
    case NetworkFirst =>
      if network.Some? then
        var updated := if network.value.ok then cache[req.url := network.value] else cache;
        FetchResult(Answered(network), updated)
      else if req.url in cache then FetchResult(Answered(Some(cache[req.url])), cache)
      else if site.offline in cache then FetchResult(Answered(Some(cache[site.offline])), cache)
      else FetchResult(Answered(None), cache)
    case CacheFirst =>
      if req.url in cache then FetchResult(Answered(Some(cache[req.url])), cache)
      else FetchResult(Answered(network), cache)
  }

  /** A page fetched once while online is served from the cache when the network is gone. */
  lemma OnlinePageServedOffline(site: Site, req: Request, cache: map<string, Response>, resp: Response)
    requires StrategyFor(req) == NetworkFirst && resp.ok
    ensures var online := HandleFetch(site, req, cache, Some(resp));
      HandleFetch(site, req, online.cache, None).answer == Answered(Some(resp))
  {
  }

  // ---------------------------------------------------------------------------------------
  // Push notifications

  datatype PushData = PushData(head: string, body: string, icon: string, badge: string, sound: Option<string>, url: string)

  function Defaults(site: Site): PushData
  {
    PushData("Weather Alert", "New alert received!", site.icon, site.badge, None, site.home)
  }

  /** The push payload: absent, a JSON object (string fields only), or text that does not parse
      as a JSON object. */
  datatype Payload = NoData | JsonObject(fields: map<string, string>) | Unparsable(text: string)

  /** Whether the payload has a truthy value for a key. */
  predicate Has(fields: map<string, string>, key: string)
  {
    key in fields && fields[key] != ""
  }

  function Pick(fields: map<string, string>, key: string, base: string): string
  {
    if Has(fields, key) then fields[key] else base
  }

  /** The override step: each field is replaced only when the payload has a truthy value for
      it. */
  function Merge(base: PushData, fields: map<string, string>): (r: PushData)
    ensures r.head == (if Has(fields, "head") then fields["head"] else base.head)
    ensures r.body == (if Has(fields, "body") then fields["body"] else base.body)
    ensures r.icon == (if Has(fields, "icon") then fields["icon"] else base.icon)
    ensures r.badge == (if Has(fields, "badge") then fields["badge"] else base.badge)
    ensures r.sound == (if Has(fields, "sound") then Some(fields["sound"]) else base.sound)
    ensures r.url == (if Has(fields, "url") then fields["url"] else base.url)
  {
    PushData(Pick(fields, "head", base.head), Pick(fields, "body", base.body), Pick(fields, "icon", base.icon),
             Pick(fields, "badge", base.badge), if Has(fields, "sound") then Some(fields["sound"]) else base.sound,
             Pick(fields, "url", base.url))
  }

  /** Merging the same payload again changes nothing, and an empty object keeps the base. */
  lemma MergeIdempotent(base: PushData, fields: map<string, string>)
    ensures Merge(Merge(base, fields), fields) == Merge(base, fields)
    ensures Merge(base, map[]) == base
  {
  }

  /** The data a push ends with. A text payload replaces only the body, and only when it is
      non-empty. */
  function PushDataFor(site: Site, payload: Payload): (r: PushData)
    ensures payload.NoData? ==> r == Defaults(site)
    ensures payload.JsonObject? ==> r == Merge(Defaults(site), payload.fields)
    ensures payload.Unparsable? ==>
      r == Defaults(site).(body := if payload.text != "" then payload.text else Defaults(site).body)
  {
    match payload
    case NoData => Defaults(site)
    case JsonObject(fields) => Merge(Defaults(site), fields)
    case Unparsable(text) => if text != "" then Defaults(site).(body := text) else Defaults(site)
  }

  /** A shown notification: its title and options, `url` being the data passed to clicks. */
  datatype Notification = Notification(title: string, body: string, icon: string, badge: string, sound: Option<string>, url: string)

  function NotificationOf(d: PushData): Notification
  {
    Notification(d.head, d.body, d.icon, d.badge, d.sound, d.url)
  }

  /** The push handler as written: `showNotification` is called twice with the same title and
      options. */
  function HandlePushAsWritten(site: Site, payload: Payload): (r: seq<Notification>)
    ensures |r| == 2 && r[0] == r[1]
  {
    var n := NotificationOf(PushDataFor(site, payload));
    [n, n]
  }

  /** The push handler with a single `showNotification` call. */
  function HandlePush(site: Site, payload: Payload): (r: seq<Notification>)
    ensures |r| == 1
    ensures var d := PushDataFor(site, payload);
      && r[0].title == d.head && r[0].body == d.body && r[0].icon == d.icon
      && r[0].badge == d.badge && r[0].sound == d.sound && r[0].url == d.url
  {
    [NotificationOf(PushDataFor(site, payload))]
  }

  /** As written, every push is shown twice, whatever the payload. */
  lemma AsWrittenShowsTwice(site: Site, payload: Payload)
    ensures |HandlePushAsWritten(site, payload)| == 2 * |HandlePush(site, payload)|
    ensures forall k :: 0 <= k < 2 ==> HandlePushAsWritten(site, payload)[k] == HandlePush(site, payload)[0]
  {
  }

  // ---------------------------------------------------------------------------------------
  // Notification clicks

  /** The URL a click opens: the notification's `url` when it is truthy, `/` otherwise. */
  function ClickUrl(dataUrl: Option<string>): (r: string)
    ensures r != ""
    ensures dataUrl.Some? && dataUrl.value != "" ==> r == dataUrl.value
    ensures dataUrl.None? || dataUrl.value == "" ==> r == "/"
  {
    if dataUrl.Some? && dataUrl.value != "" then dataUrl.value else "/"
  }

  /** A click on a pushed notification opens the payload's URL, or the home page when the
      payload has none (falling back to `/` only if the home URL renders empty). */
  lemma ClickOpensPushedUrl(site: Site, fields: map<string, string>)
    ensures var n := HandlePush(site, JsonObject(fields))[0];
      ClickUrl(Some(n.url)) == if Has(fields, "url") then fields["url"] else if site.home != "" then site.home else "/"
  {
  }
}
