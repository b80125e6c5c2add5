/** lib/screenshot.ts: the ScreenshotOne request URL for a page, built from
  * the API key and the percent-encoded page address. Nothing is fetched. */
module Screenshot {
  import opened Types
  import opened JsText

  // ---------------------------------------------------------------------
  // encodeURIComponent (ECMA-262, section 19.2.6.5)
  // ---------------------------------------------------------------------

  /** The characters `encodeURIComponent` leaves as they are. */
  predicate Unreserved(c: char) {
    ('A' <= c <= 'Z') || ('a' <= c <= 'z') || ('0' <= c <= '9')
    || c == '-' || c == '_' || c == '.' || c == '!' || c == '~' || c == '*'
    || c == '\'' || c == '(' || c == ')'
  }

  /** The UTF-8 bytes of a code point. */
  function Utf8(c: char): (bytes: seq<nat>)
    ensures 1 <= |bytes| <= 4
    ensures forall k :: 0 <= k < |bytes| ==> bytes[k] < 256
    ensures (c as int) < 0x80 ==> bytes == [c as int]
  {
    var cp := c as int;
    if cp < 0x80 then [cp]
    else if cp < 0x800 then [0xC0 + cp / 0x40, 0x80 + cp % 0x40]
    else if cp < 0x1_0000 then [0xE0 + cp / 0x1000, 0x80 + (cp / 0x40) % 0x40, 0x80 + cp % 0x40]
    else [0xF0 + cp / 0x4_0000, 0x80 + (cp / 0x1000) % 0x40, 0x80 + (cp / 0x40) % 0x40, 0x80 + cp % 0x40]
  }

  /** An upper-case hexadecimal digit. */
  function HexDigit(d: nat): (c: char)
    requires d < 16
    ensures Unreserved(c)
  {
    if d < 10 then ('0' as int + d) as char else ('A' as int + d - 10) as char
  }

  /** `%XY` for one byte. */
  function PercentByte(b: nat): (r: string)
    requires b < 256
    ensures |r| == 3 && r[0] == '%' && Unreserved(r[1]) && Unreserved(r[2])
  {
    ['%', HexDigit(b / 16), HexDigit(b % 16)]
  }

  function PercentBytes(bytes: seq<nat>): (r: string)
    requires forall k :: 0 <= k < |bytes| ==> bytes[k] < 256
    ensures forall k :: 0 <= k < |r| ==> Unreserved(r[k]) || r[k] == '%'
    decreases |bytes|
  {
    if bytes == [] then [] else PercentByte(bytes[0]) + PercentBytes(bytes[1..])
  }

  function EncodeChar(c: char): (r: string)
    ensures forall k :: 0 <= k < |r| ==> Unreserved(r[k]) || r[k] == '%'
  {
    if Unreserved(c) then [c] else PercentBytes(Utf8(c))
  }

  /** `encodeURIComponent(s)`: unreserved characters stay, every other
    * character becomes the `%XY` escapes of its UTF-8 bytes, so the result
    * holds no `&`, `=`, `?`, `#` or space. */
  function EncodeUriComponent(s: string): (r: string)
    ensures forall k :: 0 <= k < |r| ==> Unreserved(r[k]) || r[k] == '%'
    ensures (forall k :: 0 <= k < |s| ==> Unreserved(s[k])) ==> r == s
    decreases |s|
  {
    if s == [] then [] else EncodeChar(s[0]) + EncodeUriComponent(s[1..])
  }

  function HexValue(c: char): nat {
    if '0' <= c <= '9' then c as int - '0' as int
    else if 'A' <= c <= 'F' then c as int - 'A' as int + 10
    else 0
  }

  /** `decodeURIComponent` restricted to single-byte escapes: every `%XY`
    * becomes the character with code XY. */
  function DecodeAscii(s: string): string
    decreases |s|
  {
    if |s| >= 3 && s[0] == '%' then [(HexValue(s[1]) * 16 + HexValue(s[2])) as char] + DecodeAscii(s[3..])
    else if s == [] then []
    else [s[0]] + DecodeAscii(s[1..])
  }

  lemma HexRoundTrip(d: nat)
    requires d < 16
    ensures HexValue(HexDigit(d)) == d
  {
  }

  /** For an address written in ASCII, decoding the encoded form gives the
    * address back. */
  lemma {:induction false} DecodeEncodeAscii(s: string)
    requires forall k :: 0 <= k < |s| ==> (s[k] as int) < 0x80
    ensures DecodeAscii(EncodeUriComponent(s)) == s
    decreases |s|
  {
    if s != [] {
      var c := s[0];
      var rest := EncodeUriComponent(s[1..]);
      DecodeEncodeAscii(s[1..]);
      if Unreserved(c) {
        assert EncodeUriComponent(s) == [c] + rest;
        assert c != '%';
        assert ([c] + rest)[1..] == rest;
      } else {
        var b := c as int;
        HexRoundTrip(b / 16);
        HexRoundTrip(b % 16);
        var e := PercentByte(b);
        assert EncodeChar(c) == e + [];
        assert EncodeUriComponent(s) == e + rest;
        assert (e + rest)[3..] == rest;
        assert (HexValue(e[1]) * 16 + HexValue(e[2])) as char == c;
      }
    }
  }

  // ---------------------------------------------------------------------
  // generateScreenshot
  // ---------------------------------------------------------------------

  const Endpoint := "https://api.screenshotone.com/take?"

  /** How `${process.env.SCREENSHOTONE_API_KEY}` renders: the key, or the
    * text "undefined" when the variable is not set. */
  function KeyText(key: Option<string>): (r: string)
    ensures key.Some? ==> r == key.value
  {
    match key
    case Some(k) => k
    case None => "undefined"
  }

  /** The fixed query parameters after `url`, in order. */
  const FixedParameters: seq<string> := [
    "viewport_width=1920", "viewport_height=1080", "device_scale_factor=1",
    "format=png", "image_quality=80", "block_ads=true", "block_cookie_banners=true",
    "block_trackers=true", "cache=true", "cache_ttl=2592000"]

  /** Each parameter preceded by `sep`, concatenated: `&viewport_width=1920&…`. */
  function Prefixed(ps: seq<string>, sep: string): string
    decreases |ps|
  {
    if ps == [] then [] else sep + ps[0] + Prefixed(ps[1..], sep)
  }

  /** `generateScreenshot(url)`: the endpoint, the key, the encoded page
    * address and the fixed rendering and caching parameters. */
  function ScreenshotUrl(key: Option<string>, url: string): (r: string)
    ensures StartsWith(r, Endpoint + "access_key=" + KeyText(key))
  {
    Endpoint + "access_key=" + KeyText(key) + "&url=" + EncodeUriComponent(url)
    + Prefixed(FixedParameters, "&")
  }

  /** The query's parameters, in order. */
  function Parameters(key: Option<string>, url: string): seq<string> {
    ["access_key=" + KeyText(key), "url=" + EncodeUriComponent(url)] + FixedParameters
  }

  lemma {:induction false} JoinPrefixed(x: string, ps: seq<string>, sep: string)
    ensures Join([x] + ps, sep) == x + Prefixed(ps, sep)
    decreases |ps|
  {
    if ps != [] {
      JoinPrefixed(ps[0], ps[1..], sep);
      assert ([x] + ps)[1..] == [ps[0]] + ps[1..];
    }
  }

  lemma FixedParametersHaveNoAmpersand()
    ensures forall k :: 0 <= k < |FixedParameters| ==> '&' !in FixedParameters[k]
  {
  }

  lemma NoAmpersandAfter(prefix: string, t: string)
    requires '&' !in prefix && '&' !in t
    ensures '&' !in prefix + t
  {
    forall k | 0 <= k < |prefix + t| ensures (prefix + t)[k] != '&' {
      if k >= |prefix| { assert (prefix + t)[k] == t[k - |prefix|]; }
    }
  }

  /** Splitting `a&b&p1&…&pn` on `&` when no piece holds an `&`. */
  lemma {:induction false} SplitQuery(a: string, b: string, fixed: seq<string>)
    requires '&' !in a && '&' !in b
    requires forall k :: 0 <= k < |fixed| ==> '&' !in fixed[k]
    ensures Join([a, b] + fixed, "&") == a + "&" + b + Prefixed(fixed, "&")
    ensures Split(a + "&" + b + Prefixed(fixed, "&"), '&') == [a, b] + fixed
  {
    var ps := [a, b] + fixed;
    JoinPrefixed(b, fixed, "&");
    JoinPrefixed(a, [b] + fixed, "&");
    assert ([b] + fixed)[1..] == fixed;
    assert Prefixed([b] + fixed, "&") == "&" + b + Prefixed(fixed, "&");
    assert [a] + ([b] + fixed) == ps;
    forall k | 0 <= k < |ps| ensures '&' !in ps[k] {
      if k >= 2 { assert ps[k] == fixed[k - 2]; }
    }
    SplitJoin(ps, '&');
    assert "&" == ['&'];
    assert Join(ps, "&") == a + ("&" + b + Prefixed(fixed, "&"));
    assert a + "&" + b + Prefixed(fixed, "&") == Join(ps, "&");
  }

  lemma Regroup(x: string, y: string, k: string, z: string, e: string, p: string)
    ensures x + y + k + ("&" + z) + e + p == x + ((y + k) + "&" + (z + e) + p)
  {
  }

  /** `ScreenshotUrl` with its `&url=` separator split off, for regrouping. */
  lemma ScreenshotUrlShape(key: Option<string>, url: string)
    ensures ScreenshotUrl(key, url) ==
      Endpoint + "access_key=" + KeyText(key) + ("&" + "url=") + EncodeUriComponent(url) + Prefixed(FixedParameters, "&")
  {
    assert "&url=" == "&" + "url=";
  }

  lemma ParametersSplit(key: Option<string>, url: string)
    requires '&' !in KeyText(key)
    ensures Split(Join(Parameters(key, url), "&"), '&') == Parameters(key, url)
  {
    var k := KeyText(key);
    var e := EncodeUriComponent(url);
    var a := "access_key=" + k;
    var b := "url=" + e;
    NoAmpersandAfter("access_key=", k);
    NoAmpersandAfter("url=", e);
    FixedParametersHaveNoAmpersand();
    var f := FixedParameters;
    SplitQuery(a, b, f);
    var ps := Parameters(key, url);
    assert ps == [a, b] + f;
    var q := a + "&" + b + Prefixed(f, "&");
    assert Join(ps, "&") == q;
    assert Split(q, '&') == ps;
  }

  /** With a key free of `&`, the URL is the endpoint followed by the
    * parameters joined with `&`, and splitting that query on `&` gives back
    * exactly the key, the encoded page address and the fixed parameters:
    * the address cannot inject or override a parameter. */
  lemma ScreenshotQuery(key: Option<string>, url: string)
    requires '&' !in KeyText(key)
    ensures ScreenshotUrl(key, url) == Endpoint + Join(Parameters(key, url), "&")
    ensures Split(Join(Parameters(key, url), "&"), '&') == Parameters(key, url)
  {
    ParametersSplit(key, url);
    ScreenshotUrlShape(key, url);
    var k := KeyText(key);
    var e := EncodeUriComponent(url);
    var a := "access_key=" + k;
    var b := "url=" + e;
    NoAmpersandAfter("access_key=", k);
    NoAmpersandAfter("url=", e);
    FixedParametersHaveNoAmpersand();
    SplitQuery(a, b, FixedParameters);
    assert Parameters(key, url) == [a, b] + FixedParameters;
    Regroup(Endpoint, "access_key=", k, "url=", e, Prefixed(FixedParameters, "&"));
  }

  // ---------------------------------------------------------------------
  // What the sync stores (app/api/scrape/all/route.ts:117)
  // ---------------------------------------------------------------------

  /** How a value assigned to a row field reaches the datastore once the row
    * is serialised as JSON: a string as itself, an object such as a pending
    * Promise as `{}`. */
  datatype Stored = StoredText(text: string) | StoredEmptyObject

  /** The sync assigns `generateScreenshot(primary)` without `await`: the
    * field holds the Promise of the URL, which serialises as `{}`. */
  function StoredScreenshotAsWritten(key: Option<string>, primary: string): (v: Stored)
    ensures !v.StoredText?
  {
    StoredEmptyObject
  }

  /** Awaiting the call stores the URL itself. */
  function StoredScreenshot(key: Option<string>, primary: string): (v: Stored)
    ensures v.StoredText? && StartsWith(v.text, Endpoint + "access_key=" + KeyText(key))
  {
    StoredText(ScreenshotUrl(key, primary))
  }

  /** As written, no screenshot URL ever reaches the datastore. */
  lemma ScreenshotPromiseIsLost(key: Option<string>, primary: string)
    ensures StoredScreenshotAsWritten(key, primary) != StoredScreenshot(key, primary)
    ensures forall u :: StoredScreenshotAsWritten(key, primary) != StoredText(u)
  {
  }
}
