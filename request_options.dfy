/** The request description of http-request-options.ts: the URL, the verb,
    the body, and two NamedValues collections (headers and query parameters)
    that the constructor copies and completes with a Content-Type and an
    Accepts header. The pure functions below are what getContentType,
    getSerializedBody and getUrl compute from the current state. */
module RequestOptions {
  import opened Strings
  import opened JsValues
  import opened StringMaps
  import opened UriEncoding
  import opened NamedValuesLib

  datatype HttpMethod = GET | POST | PUT | PATCH | DELETE | HEAD

  const ContentTypeKey: string := "Content-Type"
  const AcceptsKey: string := "Accepts"
  const JsonType: string := "application/json"
  const TextType: string := "text/plain"
  const DefaultAccepts: string := "application/json, text/plain, */*"

  /** getContentType: a truthy declared Content-Type wins; otherwise a falsy
      or `typeof 'object'` body means JSON and anything else plain text. */
  function ContentTypeFor(headers: StringMap, body: JsValue): (r: JsValue)
    ensures Truthy(r)
    ensures Truthy(Get(headers, ContentTypeKey)) ==> r == Get(headers, ContentTypeKey)
    ensures !Truthy(Get(headers, ContentTypeKey)) ==>
              (r == Str(JsonType) <==> !Truthy(body) || TypeofObject(body))
    ensures !Truthy(Get(headers, ContentTypeKey)) ==> r == Str(JsonType) || r == Str(TextType)
  {
    var specified := Get(headers, ContentTypeKey);
    if Truthy(specified) then specified
    else if !Truthy(body) || TypeofObject(body) then Str(JsonType)
    else Str(TextType)
  }

  /** The headers the constructor leaves: a missing Content-Type is set to
      the detected type, then a missing Accepts to the default list. A key
      that is present keeps its value, even a falsy one. */
  function DefaultedHeaders(headers: StringMap, body: JsValue): (r: StringMap)
    ensures Has(r, ContentTypeKey) && Has(r, AcceptsKey)
    ensures Has(headers, ContentTypeKey) ==> Get(r, ContentTypeKey) == Get(headers, ContentTypeKey)
    ensures !Has(headers, ContentTypeKey) ==>
              Get(r, ContentTypeKey) == (if !Truthy(body) || TypeofObject(body) then Str(JsonType) else Str(TextType))
    ensures Has(headers, AcceptsKey) ==> Get(r, AcceptsKey) == Get(headers, AcceptsKey)
    ensures !Has(headers, AcceptsKey) ==> Get(r, AcceptsKey) == Str(DefaultAccepts)
    ensures forall k :: k != ContentTypeKey && k != AcceptsKey ==>
              Has(r, k) == Has(headers, k) && Get(r, k) == Get(headers, k)
    ensures |r.keys| >= |headers.keys| && r.keys[..|headers.keys|] == headers.keys
  {
    var withType := if Has(headers, ContentTypeKey) then headers
                    else Put(headers, ContentTypeKey, ContentTypeFor(headers, body));
    if Has(withType, AcceptsKey) then withType else Put(withType, AcceptsKey, Str(DefaultAccepts))
  }

  /** The content type detected while constructing is the one reported later:
      completing the headers does not change getContentType's answer. */
  lemma ContentTypeStable(headers: StringMap, body: JsValue)
    ensures ContentTypeFor(DefaultedHeaders(headers, body), body) == ContentTypeFor(headers, body)
  {
    var r := DefaultedHeaders(headers, body);
    if !Has(headers, ContentTypeKey) {
      assert Get(headers, ContentTypeKey) == Undefined;
      assert Truthy(Get(r, ContentTypeKey));
    }
  }

  /** getSerializedBody: null for a falsy body, JSON text when the content
      type is exactly `application/json`, String(body) otherwise. */
  function SerializedBody(headers: StringMap, body: JsValue): (r: Option<string>)
    ensures r.None? <==> !Truthy(body)
    ensures Truthy(body) && ContentTypeFor(headers, body) == Str(JsonType) ==> r == Json(body)
    ensures Truthy(body) && ContentTypeFor(headers, body) != Str(JsonType) ==> r == Some(ToText(body))
  {
    if !Truthy(body) then None
    else if ContentTypeFor(headers, body) == Str(JsonType) then Json(body)
    else Some(ToText(body))
  }

  /** Without a declared Content-Type an object or array body is sent as
      JSON and any other truthy body as its text; a falsy body is not sent. */
  lemma DetectedSerialization(headers: StringMap, body: JsValue)
    requires !Truthy(Get(headers, ContentTypeKey))
    ensures SerializedBody(headers, body) ==
              if !Truthy(body) then None
              else if InstanceOfObject(body) then Json(body)
              else Some(ToText(body))
  {
  }

  /** What separates the URL from the appended query: `?` when the URL has
      none, nothing when its only `?` is its last character, `&` otherwise. */
  function Separator(url: string): (r: string)
    ensures r == "?" <==> '?' !in url
    ensures r == "" <==> '?' in url && url[|url| - 1] == '?' && '?' !in url[..|url| - 1]
    ensures r == "?" || r == "" || r == "&"
  {
    var q := IndexOf(url, '?');
    if q < 0 then "?" else if q < |url| - 1 then "&" else ""
  }

  /** `key=value` with both sides query-encoded; the value through String(). */
  function QueryPair(key: string, value: JsValue): string
  {
    StandardQueryEncoding(key) + "=" + StandardQueryEncoding(ToText(value))
  }

  /** One pair per key of the map, in key order. */
  function QueryPairs(params: StringMap): (r: seq<string>)
    ensures |r| == |params.keys|
    ensures forall i :: 0 <= i < |r| ==> r[i] == QueryPair(params.keys[i], Get(params, params.keys[i]))
  {
    seq(|params.keys|, i requires 0 <= i < |params.keys| => QueryPair(params.keys[i], Get(params, params.keys[i])))
  }

  function QueryString(params: StringMap): string
  {
    Join(QueryPairs(params), "&")
  }

  /** getUrl: the URL alone when there are no parameters, otherwise the URL,
      the separator and the encoded pairs joined by `&`. */
  function UrlWithQuery(url: string, params: StringMap): (r: string)
    ensures Size(params) == 0 ==> r == url
    ensures Size(params) > 0 ==> r == url + Separator(url) + QueryString(params)
    ensures |url| <= |r| && r[..|url|] == url
  {
    if Size(params) == 0 then url else url + Separator(url) + QueryString(params)
  }

  predicate Ascii(s: string)
  {
    forall i :: 0 <= i < |s| ==> (s[i] as int) < 128
  }

  /** One pair per key of params, in key order, each pair's first `=` ending
      the key, and percent-decoding the two sides giving the key and
      String(value) back. */
  predicate DecodesTo(pairs: seq<string>, params: StringMap)
  {
    && |pairs| == |params.keys|
    && forall i :: 0 <= i < |pairs| ==>
         var j := IndexOf(pairs[i], '=');
         && 0 <= j
         && PercentDecode(pairs[i][..j]) == params.keys[i]
         && PercentDecode(pairs[i][j + 1..]) == ToText(Get(params, params.keys[i]))
  }

  /** The query string can be read back: split at `&` it gives one pair per
      parameter in key order, each pair's first `=` ends the key, and
      percent-decoding the two sides gives the key and String(value) back,
      for ASCII text and keys without `=`. */
  lemma {:induction false} QueryStringParses(params: StringMap)
    requires Size(params) > 0
    requires forall k :: k in params.keys ==> '=' !in k && Ascii(k) && Ascii(ToText(Get(params, k)))
    ensures DecodesTo(Split(QueryString(params), '&'), params)
  {
    SplitQueryString(params);
    PairsParse(params);
  }

  /** Splitting the query string at `&` gives its pairs back. */
  lemma SplitQueryString(params: StringMap)
    requires Size(params) > 0
    ensures Split(QueryString(params), '&') == QueryPairs(params)
  {
    PairsNoAmpersand(params);
    SplitJoin(QueryPairs(params), '&');
  }

  /** Each encoded pair reads back as its key and value text. */
  lemma PairsParse(params: StringMap)
    requires forall k :: k in params.keys ==> '=' !in k && Ascii(k) && Ascii(ToText(Get(params, k)))
    ensures DecodesTo(QueryPairs(params), params)
  {
    var ps := QueryPairs(params);
    forall i | 0 <= i < |ps|
      ensures var j := IndexOf(ps[i], '=');
        && 0 <= j
        && PercentDecode(ps[i][..j]) == params.keys[i]
        && PercentDecode(ps[i][j + 1..]) == ToText(Get(params, params.keys[i]))
    {
      var k := params.keys[i];
      PairParses(k, ToText(Get(params, k)));
    }
  }

  lemma PairsNoAmpersand(params: StringMap)
    ensures forall i :: 0 <= i < |QueryPairs(params)| ==> '&' !in QueryPairs(params)[i]
  {
    var ps := QueryPairs(params);
    forall i | 0 <= i < |ps| ensures '&' !in ps[i] {
      var k := params.keys[i];
      NoAmpersand(k);
      NoAmpersand(ToText(Get(params, k)));
    }
  }

  lemma PairParses(key: string, text: string)
    requires '=' !in key && Ascii(key) && Ascii(text)
    ensures var p := StandardQueryEncoding(key) + "=" + StandardQueryEncoding(text);
      var j := IndexOf(p, '=');
      && j == |StandardQueryEncoding(key)|
      && PercentDecode(p[..j]) == key
      && PercentDecode(p[j + 1..]) == text
  {
    var ek, et := StandardQueryEncoding(key), StandardQueryEncoding(text);
    var p := ek + "=" + et;
    AbsentStaysAbsent(key, '=');
    IndexOfAfter(ek, '=', et);
    assert p[..|ek|] == ek;
    assert p[|ek| + 1..] == et;
    DecodeInvertsEncoding(key);
    DecodeInvertsEncoding(text);
  }

  /** Why the round trip needs keys without `=`: `=` is un-escaped, so the
      key `a=b` with value `c` and the key `a` with value `b=c` give the same
      pair `a=b=c`, for any texts a, b and c the encoding keeps as they are. */
  lemma KeyWithEqualsAmbiguous(a: string, b: string, c: string)
    requires KeptAsIs(a) && KeptAsIs(b) && KeptAsIs(c)
    ensures a + "=" + b != a && c != b + "=" + c
    ensures QueryPair(a + "=" + b, Str(c)) == a + "=" + b + "=" + c
    ensures QueryPair(a, Str(b + "=" + c)) == a + "=" + b + "=" + c
  {
    KeptAsIsAppend(a, "=");
    KeptAsIsAppend(a + "=", b);
    KeptAsIsAppend(b, "=");
    KeptAsIsAppend(b + "=", c);
    SafeTextUnchanged(a + "=" + b);
    SafeTextUnchanged(b + "=" + c);
    SafeTextUnchanged(a);
    SafeTextUnchanged(c);
    Regroup(a, "=", b, "=", c);
  }

  /** The constructor's completion of its headers copy: Content-Type from
      the detection getContentType performs, then Accepts. */
  method CompleteHeaders(headers: NamedValues, body: JsValue)
    modifies headers
    ensures headers.values == DefaultedHeaders(old(headers.values), body)
  {
    if !headers.Contains(ContentTypeKey) {
      headers.Set(ContentTypeKey, ContentTypeFor(headers.values, body));
    }
    if !headers.Contains(AcceptsKey) {
      headers.Set(AcceptsKey, Str(DefaultAccepts));
    }
  }

  /** The request data of http-request-options.ts. The two collections are
      the object's own: fresh copies of what the caller passed. */
  class HttpRequestOptions {
    const url: string
    const verb: HttpMethod
    const body: JsValue
    const headers: NamedValues
    const params: NamedValues

    /** An undefined body becomes null; missing collections become empty
        ones; Content-Type and Accepts are filled in when absent. */
    constructor (url: string, verb: HttpMethod, body: JsValue, headers: NamedValues?, params: NamedValues?)
      ensures this.url == url && this.verb == verb
      ensures this.body == if body.Undefined? then Null else body
      ensures fresh(this.headers) && fresh(this.params) && this.headers != this.params
      ensures this.headers.values ==
                DefaultedHeaders(if headers == null then EmptyMap() else headers.values, this.body)
      ensures this.params.values == if params == null then EmptyMap() else params.values
    {
      this.url := url;
      this.verb := verb;
      var sentBody := if body.Undefined? then Null else body;
      this.body := sentBody;
      ghost var given := if headers == null then EmptyMap() else headers.values;
      ghost var query := if params == null then EmptyMap() else params.values;
      var empty := new NamedValues(None);
      var copy := new NamedValues(Some((if params == null then empty else params).values));
      assert copy.values == query;
      this.params := copy;
      var own := new NamedValues(Some((if headers == null then empty else headers).values));
      assert own.values == given;
      CompleteHeaders(own, sentBody);
      this.headers := own;
    }

    /** The Content-Type this request is sent with. */
    function GetContentType(): (r: JsValue)
      reads headers
      ensures Truthy(r)
      ensures Truthy(headers.Get(ContentTypeKey)) ==> r == headers.Get(ContentTypeKey)
      ensures !Truthy(headers.Get(ContentTypeKey)) ==>
                (r == Str(JsonType) <==> !Truthy(body) || TypeofObject(body))
      ensures !Truthy(headers.Get(ContentTypeKey)) ==> r == Str(JsonType) || r == Str(TextType)
    {
      ContentTypeFor(headers.values, body)
    }

    /** The body as sent, or None for null. */
    function GetSerializedBody(): (r: Option<string>)
      reads headers
      ensures r.None? <==> !Truthy(body)
      ensures Truthy(body) && GetContentType() == Str(JsonType) ==> r == Json(body)
      ensures Truthy(body) && GetContentType() != Str(JsonType) ==> r == Some(ToText(body))
    {
      SerializedBody(headers.values, body)
    }

    /** The URL with the encoded query parameters appended. */
    function GetUrl(): (r: string)
      reads params
      ensures params.Length() == 0 ==> r == url
      ensures params.Length() > 0 ==> r == url + Separator(url) + QueryString(params.values)
      ensures |url| <= |r| && r[..|url|] == url
    {
      SizeIsEntryCount(params.values);
      UrlWithQuery(url, params.values)
    }
  }
}
