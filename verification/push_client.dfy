/** The browser-side push helpers shared by `static/js/push_manager_modal.js` and
    `static/js/push_manager.js`: turning the base64url VAPID key into bytes (section 5 of
    RFC 4648), reading the CSRF cookie, and choosing the request that registers or removes a
    subscription. `window.atob` and `decodeURIComponent` are browser built-ins and are passed
    in. */
module PushClient {
  import opened Wrappers
  import opened Text
  import opened Billing

  // ---------------------------------------------------------------------------------------
  // Base64url to bytes

  /** The number of `=` appended: what takes the length to a multiple of four. */
  function Padding(len: nat): (r: nat)
    ensures r < 4 && (len + r) % 4 == 0
  {
    (4 - len % 4) % 4
  }

  function Repeat(c: char, n: nat): (r: string)
    ensures |r| == n && forall i :: 0 <= i < n ==> r[i] == c
  {
    seq(n, i => c)
  }

  /** The base64url to base64 character mapping. */
  function StandardChar(c: char): char
  {
    if c == '-' then '+' else if c == '_' then '/' else c
  }

  /** The base64 to base64url character mapping. */
  function UrlChar(c: char): char
  {
    if c == '+' then '-' else if c == '/' then '_' else c
  }

  function ToStandard(s: string): (r: string)
    ensures |r| == |s| && '-' !in r && '_' !in r
    ensures forall i :: 0 <= i < |s| && s[i] != '-' && s[i] != '_' ==> r[i] == s[i]
  {
    seq(|s|, i requires 0 <= i < |s| => StandardChar(s[i]))
  }

  function ToUrl(s: string): (r: string)
    ensures |r| == |s| && '+' !in r && '/' !in r
    ensures forall i :: 0 <= i < |s| && s[i] != '+' && s[i] != '/' ==> r[i] == s[i]
  {
    seq(|s|, i requires 0 <= i < |s| => UrlChar(s[i]))
  }

  /** The two alphabets correspond one to one: mapping a base64url text to base64 and back
      gives it back, and so does the other way round. */
  lemma AlphabetsCorrespond(s: string, t: string)
    ensures '+' !in s && '/' !in s ==> ToUrl(ToStandard(s)) == s
    ensures '-' !in t && '_' !in t ==> ToStandard(ToUrl(t)) == t
  {
    if '+' !in s && '/' !in s {
      var u := ToUrl(ToStandard(s));
      forall i | 0 <= i < |s| ensures u[i] == s[i] {
        assert s[i] != '+' && s[i] != '/';
      }
    }
    if '-' !in t && '_' !in t {
      var v := ToStandard(ToUrl(t));
      forall i | 0 <= i < |t| ensures v[i] == t[i] {
        assert t[i] != '-' && t[i] != '_';
      }
    }
  }

  /** The base64 text handed to `atob`: the key padded with `=` and mapped to the standard
      alphabet. */
  function Base64Form(key: string): (r: string)
    ensures |r| % 4 == 0 && |key| <= |r| < |key| + 4
    ensures r[..|key|] == ToStandard(key)
    ensures forall i :: |key| <= i < |r| ==> r[i] == '='
    ensures '-' !in r && '_' !in r
  {
    var r := ToStandard(key + Repeat('=', Padding(|key|)));
    assert r[..|key|] == ToStandard(key);
    r
  }

  /** `urlBase64ToUint8Array`; `None` is the exception `atob` throws on bad input. Storing a
      character code into a `Uint8Array` keeps it modulo 256. */
  function UrlBase64ToBytes(key: string, atob: string -> Option<string>): (r: Option<seq<int>>)
    ensures r.None? <==> atob(Base64Form(key)).None?
    ensures r.Some? ==> var raw := atob(Base64Form(key)).value;
      && |r.value| == |raw|
      && (forall i :: 0 <= i < |raw| ==> 0 <= r.value[i] < 256)
      && (forall i :: 0 <= i < |raw| && (raw[i] as int) < 256 ==> r.value[i] == raw[i] as int)
  {
    match atob(Base64Form(key))
    case None => None
    case Some(raw) => Some(seq(|raw|, i requires 0 <= i < |raw| => (raw[i] as int) % 256))
  }

  // ---------------------------------------------------------------------------------------
  // Cookies

  /** JavaScript's `s.split(sep)`. */
  function Split(s: string, sep: char): (r: seq<string>)
    ensures |r| >= 1
    ensures forall i :: 0 <= i < |r| ==> sep !in r[i]
  {
    if |s| == 0 then [""]
    else
      var rest := Split(s[1..], sep);
      if s[0] == sep then [""] + rest
      else [[s[0]] + rest[0]] + rest[1..]
  }

  /** The pieces joined back with the separator. */
  function Join(pieces: seq<string>, sep: char): string
    requires |pieces| >= 1
  {
    if |pieces| == 1 then pieces[0] else pieces[0] + [sep] + Join(pieces[1..], sep)
  }

  /** Splitting loses nothing: joining the pieces gives the text back. */
  lemma {:induction false} SplitJoin(s: string, sep: char)
    ensures Join(Split(s, sep), sep) == s
  {
    if |s| > 0 {
      var rest := Split(s[1..], sep);
      SplitJoin(s[1..], sep);
      if s[0] == sep {
        assert ([""] + rest)[1..] == rest;
      } else {
        var r := [[s[0]] + rest[0]] + rest[1..];
        if |rest| > 1 {
          assert r[1..] == rest[1..];
        }
      }
    }
  }

  /** Whether a trimmed cookie piece is the cookie called `name`. */
  predicate Names(piece: string, name: string)
  {
    StartsWith(piece, name + "=")
  }

  /** The pieces of the cookie string, each trimmed. */
  function Trimmed(pieces: seq<string>): (r: seq<string>)
    ensures |r| == |pieces| && forall i :: 0 <= i < |pieces| ==> r[i] == Trim(pieces[i])
  {
    seq(|pieces|, i requires 0 <= i < |pieces| => Trim(pieces[i]))
  }

  /** The reference lookup: the decoded value of the first piece naming the cookie. */
  function FirstCookie(pieces: seq<string>, name: string, decode: string -> string): (r: Option<string>)
  {
    if |pieces| == 0 then None
    else if Names(pieces[0], name) then Some(decode(pieces[0][|name| + 1..]))
    else FirstCookie(pieces[1..], name, decode)
  }

  /** The lookup finds nothing exactly when no piece names the cookie, and otherwise gives the
      value of the first piece that does. */
  lemma {:induction false} FirstCookieIsFirst(pieces: seq<string>, name: string, decode: string -> string)
    ensures FirstCookie(pieces, name, decode).None? <==> forall i :: 0 <= i < |pieces| ==> !Names(pieces[i], name)
    ensures FirstCookie(pieces, name, decode).Some? ==> exists k ::
      && 0 <= k < |pieces|
      && Names(pieces[k], name)
      && (forall i :: 0 <= i < k ==> !Names(pieces[i], name))
      && FirstCookie(pieces, name, decode).value == decode(pieces[k][|name| + 1..])
  {
    if |pieces| > 0 && !Names(pieces[0], name) {
      var tail := pieces[1..];
      FirstCookieIsFirst(tail, name, decode);
      assert forall i :: 0 < i < |pieces| ==> pieces[i] == tail[i - 1];
      var r := FirstCookie(tail, name, decode);
      if r.Some? {
        var k :| && 0 <= k < |tail|
                 && Names(tail[k], name)
                 && (forall i :: 0 <= i < k ==> !Names(tail[i], name))
                 && r.value == decode(tail[k][|name| + 1..]);
        assert pieces[k + 1] == tail[k];
      }
    }
  }

  /** `getCookie`: `None` (`null`) for an empty cookie string, and otherwise a scan of the
      trimmed `;`-separated pieces that stops at the first one naming the cookie. */
  method GetCookie(cookie: string, name: string, decode: string -> string) returns (value: Option<string>)
    ensures |cookie| == 0 ==> value.None?
    ensures |cookie| > 0 ==> value == FirstCookie(Trimmed(Split(cookie, ';')), name, decode)
  {
    value := None;
    if |cookie| > 0 {
      var cookies := Split(cookie, ';');
      ghost var trimmed := Trimmed(cookies);
      var i := 0;
      while i < |cookies|
        invariant 0 <= i <= |cookies|
        invariant FirstCookie(trimmed, name, decode) == FirstCookie(trimmed[i..], name, decode)
      {
        var c := Trim(cookies[i]);
        assert trimmed[i..][0] == c;
        if StartsWith(c, name + "=") {
          value := Some(decode(c[|name| + 1..]));
          return;
        }
        assert trimmed[i..][1..] == trimmed[i + 1..];
        i := i + 1;
      }
    }
  }

  // ---------------------------------------------------------------------------------------
  // Registering with the server

  datatype SubscriptionData = SubscriptionData(endpoint: string, p256dh: string, auth: string)

  datatype RequestBody = FullSubscription(sub: SubscriptionData) | EndpointOnly(endpoint: string)

  datatype ServerRequest = ServerRequest(url: string, httpMethod: string, body: RequestBody)

  /** The URL and body `sendSubscriptionToServer` uses. */
  function SubscriptionRequest(sub: SubscriptionData, httpMethod: string, saveUrl: string, deleteUrl: string): (r: ServerRequest)
    ensures r.httpMethod == httpMethod
    ensures r.body.FullSubscription? <==> httpMethod == "POST"
    ensures r.url == if httpMethod == "POST" then saveUrl else deleteUrl
    ensures (if r.body.FullSubscription? then r.body.sub.endpoint else r.body.endpoint) == sub.endpoint
  {
    if httpMethod == "POST" then ServerRequest(saveUrl, httpMethod, FullSubscription(sub))
    else ServerRequest(deleteUrl, httpMethod, EndpointOnly(sub.endpoint))
  }

  /** The JSON object the server receives for a body. */
  function Received(body: RequestBody): (r: PushBody)
    ensures r.Body? && r.endpoint.Str?
  {
    match body
    case FullSubscription(sub) => Body(Str(sub.endpoint), Some(PushKeys(Str(sub.p256dh), Str(sub.auth))))
    case EndpointOnly(endpoint) => Body(Str(endpoint), None)
  }

  /** What the browser posts is what the save view accepts: with a working database the
      device is stored active under the subscription's endpoint and keys. An endpoint-only
      body would be refused. */
  lemma PostIsAccepted(sub: SubscriptionData, saveUrl: string, deleteUrl: string, devices: seq<Device>, user: nat)
    ensures var req := SubscriptionRequest(sub, "POST", saveUrl, deleteUrl);
      && req.url == saveUrl
      && var saved := SavePushSubscription(devices, user, Received(req.body), true);
      && saved.status == 200
      && Device(user, sub.endpoint, sub.p256dh, sub.auth, true) in saved.devices
    ensures SavePushSubscription(devices, user, Received(EndpointOnly(sub.endpoint)), true).status == 400
  {
  }
}
