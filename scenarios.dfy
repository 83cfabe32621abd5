/** Client code written against the model: the situations the repository's
    specs describe for the REST client, the request options and the mock
    service, with their expectations as postconditions proved from the
    contracts of the modules they use. */
module Scenarios {
  import opened Strings
  import opened JsValues
  import opened StringMaps
  import opened NamedValuesLib
  import opened RequestOptions
  import opened Binding
  import opened MockHttp

  /** The decorators of `testPost(@Body body, @Path(name) id)` with
      `@POST(before + '{' + name + '}' + after)`; the repository's spec uses
      `/test-post/{id}/endpoint`. The compiler applies the parameter
      decorators last parameter first. */
  method DecoratePost(propertyKey: string, before: string, name: string, after: string) returns (b: MethodBinding)
    ensures b.verb == POST && b.url == before + "{" + name + "}" + after && b.headers == None
    ensures b.pathParams == [Parameter(name, 1)] && b.bodyParams == [Parameter(BodyKey, 0)]
    ensures b.queryParams == [] && b.headerParams == []
  {
    var registry := new ParameterRegistry();
    MetadataKeysDistinct(propertyKey, PathParam, propertyKey, BodyParam);
    MetadataKeysDistinct(propertyKey, QueryParam, propertyKey, BodyParam);
    MetadataKeysDistinct(propertyKey, HeaderParam, propertyKey, BodyParam);
    MetadataKeysDistinct(propertyKey, QueryParam, propertyKey, PathParam);
    MetadataKeysDistinct(propertyKey, HeaderParam, propertyKey, PathParam);
    registry.Register(propertyKey, PathParam, name, 1);
    registry.Register(propertyKey, BodyParam, BodyKey, 0);
    b := registry.BindMethod(propertyKey, POST, before + "{" + name + "}" + after, None);
  }

  /** Calling the decorated `testPost` on a client with a base URL: the
      placeholder is replaced by the id and the body is JSON-encoded. */
  method PostWithPathScenario(baseUrl: string, before: string, name: string, after: string, body: JsValue, id: nat)
    returns (request: HttpRequestOptions)
    requires '{' !in before && !body.Undefined?
    ensures request.verb == POST
    ensures request.url == baseUrl + (before + NatText(id) + after)
    ensures request.body == JsonValue(body)
    ensures request.params.values == EmptyMap()
  {
    var b := DecoratePost("testPost", before, name, after);
    var cfg := WithBaseUrl(RestClientDefaults, baseUrl);
    request := Assemble(cfg, b, [body, Num(id)]);
    PostParts(cfg, b, before, name, after, body, id);
  }

  /** What `Assemble` computes from the `testPost` binding: the URL with the
      id in place of the placeholder, the JSON body and no query. */
  lemma PostParts(cfg: ClientConfig, b: MethodBinding, before: string, name: string, after: string, body: JsValue, id: nat)
    requires cfg.baseUrl.Some? && b.url == before + "{" + name + "}" + after
    requires b.pathParams == [Parameter(name, 1)] && b.bodyParams == [Parameter(BodyKey, 0)] && b.queryParams == []
    requires '{' !in before
    ensures FinalUrl(cfg, b, [body, Num(id)]) == cfg.baseUrl.value + (before + NatText(id) + after)
    ensures BodyFor(b, [body, Num(id)]) == JsonValue(body)
    ensures QueryParamsFor(b.queryParams, [body, Num(id)]) == EmptyMap()
  {
    var args := [body, Num(id)];
    assert ToText(Arg(args, 1)) == NatText(id);
    assert '$' !in NatText(id);
    OnePathBinding(b.url, Parameter(name, 1), args, before, after);
  }

  /** A template with one placeholder and one Path binding for it: the
      placeholder is replaced by the argument's text, provided nothing before
      it opens a brace and the text holds no `$` pattern. */
  lemma OnePathBinding(template: string, p: Parameter, args: seq<JsValue>, before: string, after: string)
    requires template == before + "{" + p.key + "}" + after
    requires '{' !in before && '$' !in ToText(Arg(args, p.parameterIndex))
    ensures ResolvePath(template, [p], args) == before + ToText(Arg(args, p.parameterIndex)) + after
  {
    assert [p][..0] == [];
    assert template == before + ("{" + p.key + "}") + after;
    ReplaceAfterClean(before, "{" + p.key + "}", ToText(Arg(args, p.parameterIndex)), after);
  }

  /** The decorators of `testDelete(@Header(headerName) value)` with
      `@DELETE('/test-delete')`; the repository's spec uses `myHeader`. */
  method DecorateDelete(propertyKey: string, headerName: string) returns (b: MethodBinding)
    ensures b.verb == DELETE && b.url == "/test-delete" && b.headers == None
    ensures b.headerParams == [Parameter(headerName, 0)]
    ensures b.pathParams == [] && b.bodyParams == [] && b.queryParams == []
  {
    var registry := new ParameterRegistry();
    MetadataKeysDistinct(propertyKey, PathParam, propertyKey, HeaderParam);
    MetadataKeysDistinct(propertyKey, QueryParam, propertyKey, HeaderParam);
    MetadataKeysDistinct(propertyKey, BodyParam, propertyKey, HeaderParam);
    registry.Register(propertyKey, HeaderParam, headerName, 0);
    b := registry.BindMethod(propertyKey, DELETE, "/test-delete", None);
  }

  /** Calling the decorated `testDelete` on a client with a base URL whose
      default headers hold only Accepts: the request goes to the base URL plus
      the template, and its headers are exactly the default Accepts, the
      detected JSON content type and the bound header. */
  method HeaderParamScenario(baseUrl: string, headerName: string, defaultAccepts: JsValue, value: JsValue)
    returns (request: HttpRequestOptions)
    requires headerName != AcceptsKey && headerName != ContentTypeKey
    ensures request.verb == DELETE
    ensures request.url == baseUrl + "/test-delete"
    ensures Get(request.headers.values, AcceptsKey) == defaultAccepts
    ensures Get(request.headers.values, ContentTypeKey) == Str(JsonType)
    ensures Get(request.headers.values, headerName) == value
    ensures forall k :: Has(request.headers.values, k) <==> k == AcceptsKey || k == ContentTypeKey || k == headerName
  {
    var b := DecorateDelete("testDelete", headerName);
    var defaults := WithDefaultHeaders(RestClientDefaults, Put(EmptyMap(), AcceptsKey, defaultAccepts));
    var cfg := WithBaseUrl(defaults, baseUrl);
    request := Assemble(cfg, b, [value]);
    OneHeaderBinding(cfg, defaultAccepts, b, headerName, value);
  }

  /** One Header binding and class defaults that hold only Accepts: the
      resolved headers are exactly the default Accepts and the bound value,
      so no content type is declared. */
  lemma OneHeaderBinding(cfg: ClientConfig, defaultAccepts: JsValue, b: MethodBinding, key: string, value: JsValue)
    requires cfg.defaultHeaders == Some(Put(EmptyMap(), AcceptsKey, defaultAccepts))
    requires b.headers.None? && b.headerParams == [Parameter(key, 0)]
    requires key != AcceptsKey && key != ContentTypeKey
    ensures var headers := HeadersFor(cfg, b, [value]);
      && Get(headers, AcceptsKey) == defaultAccepts
      && Get(headers, key) == value
      && forall k :: Has(headers, k) <==> k == AcceptsKey || k == key
  {
    HeaderPrecedence(cfg, b, [value], key);
    HeaderPrecedence(cfg, b, [value], AcceptsKey);
    forall k ensures Has(HeadersFor(cfg, b, [value]), k) <==> k == AcceptsKey || k == key {
      HeaderPrecedence(cfg, b, [value], k);
    }
  }

  /** The decorators of `testPut(@Query(idKey) id, @Query(hrefKey) href)`
      with `@PUT('/test-put')`; the repository's spec uses `id` and `href`. */
  method DecoratePut(propertyKey: string, idKey: string, hrefKey: string) returns (b: MethodBinding)
    ensures b.verb == PUT && b.url == "/test-put" && b.headers == None
    ensures b.queryParams == [Parameter(hrefKey, 1), Parameter(idKey, 0)]
    ensures b.pathParams == [] && b.bodyParams == [] && b.headerParams == []
  {
    var registry := new ParameterRegistry();
    MetadataKeysDistinct(propertyKey, PathParam, propertyKey, QueryParam);
    MetadataKeysDistinct(propertyKey, BodyParam, propertyKey, QueryParam);
    MetadataKeysDistinct(propertyKey, HeaderParam, propertyKey, QueryParam);
    registry.Register(propertyKey, QueryParam, hrefKey, 1);
    registry.Register(propertyKey, QueryParam, idKey, 0);
    b := registry.BindMethod(propertyKey, PUT, "/test-put", None);
  }

  /** Calling the decorated `testPut` on a client with a base URL, with a
      string and an object: a PUT to the base URL plus the template, the
      string stored as it is, the object as its JSON text, and no body. */
  method QueryParamScenario(baseUrl: string, idKey: string, hrefKey: string, id: string, href: seq<Prop>)
    returns (request: HttpRequestOptions)
    requires idKey != hrefKey && id != ""
    ensures request.verb == PUT
    ensures request.url == baseUrl + "/test-put"
    ensures Get(request.params.values, idKey) == Str(id)
    ensures Get(request.params.values, hrefKey) == JsonValue(Obj(href))
    ensures request.body == Null
  {
    var b := DecoratePut("testPut", idKey, hrefKey);
    var cfg := WithBaseUrl(RestClientDefaults, baseUrl);
    request := Assemble(cfg, b, [Str(id), Obj(href)]);
    PutParts(cfg, b, idKey, hrefKey, id, href);
  }

  /** What `Assemble` computes from the `testPut` binding: the URL, the two
      stored query values and no body. */
  lemma PutParts(cfg: ClientConfig, b: MethodBinding, idKey: string, hrefKey: string, id: string, href: seq<Prop>)
    requires cfg.baseUrl.Some? && b.url == "/test-put" && b.pathParams == [] && b.bodyParams == []
    requires b.queryParams == [Parameter(hrefKey, 1), Parameter(idKey, 0)]
    requires idKey != hrefKey && id != ""
    ensures FinalUrl(cfg, b, [Str(id), Obj(href)]) == cfg.baseUrl.value + "/test-put"
    ensures Get(QueryParamsFor(b.queryParams, [Str(id), Obj(href)]), idKey) == Str(id)
    ensures Get(QueryParamsFor(b.queryParams, [Str(id), Obj(href)]), hrefKey) == JsonValue(Obj(href))
    ensures BodyFor(b, [Str(id), Obj(href)]) == Null
  {
    TwoQueryBindings(hrefKey, Obj(href), idKey, Str(id));
  }

  /** Two truthy Query arguments under different keys, the second argument
      registered first, are both stored. */
  lemma TwoQueryBindings(k1: string, v1: JsValue, k2: string, v0: JsValue)
    requires k1 != k2 && Truthy(v1) && Truthy(v0)
    ensures Get(QueryParamsFor([Parameter(k1, 1), Parameter(k2, 0)], [v0, v1]), k1) == QueryValue(v1)
    ensures Get(QueryParamsFor([Parameter(k1, 1), Parameter(k2, 0)], [v0, v1]), k2) == QueryValue(v0)
  {
    var ps := [Parameter(k1, 1), Parameter(k2, 0)];
    assert ps[..1] == [Parameter(k1, 1)] && ps[..1][..0] == [];
    QueryParamsLastTruthyWins(ps, [v0, v1], k1);
    QueryParamsLastTruthyWins(ps, [v0, v1], k2);
  }

  /** The mock's life cycle: no request before the first one, `{}` for the
      first, the thrown error for missing options, the configured error
      after `response(body, 404, ...)`, the progress event when offline. */
  method MockServiceScenario(request: HttpRequestOptions, body: JsValue, invoke: (Handler, HttpRequestOptions) -> Completion)
    returns (before: bool, first: RequestOutcome, missing: RequestOutcome, notFound: RequestOutcome, offline: RequestOutcome)
    requires Truthy(body)
    ensures before
    ensures first == Emitted(Of(Obj([])))
    ensures missing == InvalidRequestData
    ensures notFound == Emitted(ThrowError(RaisedHttpError(HttpErrorResponse(body, None, 404, Some("Bad Request"), request.url))))
    ensures offline == Emitted(ThrowError(RaisedHttpError(HttpErrorResponse(OfflineEvent, None, 0, Some(UnknownError), request.url))))
  {
    var service := new MockHttpService();
    before := service.requestOptions == null;
    first := service.Request(request, invoke);
    missing := service.Request(null, invoke);
    assert service.requestOptions == request;
    service.Response(body, Some(404), Some("Bad Request"), None);
    notFound := service.Request(request, invoke);
    service.Offline();
    offline := service.Request(request, invoke);
  }

  /** In callback mode the mock answers with what the callback does with the
      very request it was given. */
  method CallbackScenario(request: HttpRequestOptions, handler: Handler, invoke: (Handler, HttpRequestOptions) -> Completion)
    returns (outcome: RequestOutcome)
    ensures outcome == Emitted(match invoke(handler, request)
                               case Returned(v) => Of(v)
                               case Threw(e) => ThrowError(e))
  {
    var service := new MockHttpService();
    service.Callback(handler);
    outcome := service.Request(request, invoke);
  }

  /** The request options keep their own copy of the headers: changing the
      caller's collection afterwards does not reach them. */
  method HeadersCopiedScenario(initial: StringMap, key: string, value: JsValue) returns (sent: StringMap, callerNow: StringMap)
    ensures sent == DefaultedHeaders(initial, Null)
    ensures callerNow == Put(initial, key, value)
  {
    var caller := new NamedValues(Some(initial));
    var request := new HttpRequestOptions("", POST, Undefined, caller, null);
    caller.Set(key, value);
    sent := request.headers.values;
    callerNow := caller.values;
  }
}
