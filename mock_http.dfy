/** The MockHttpService of mock-http-service.ts: a test double that records
    the last request it was given and answers it according to a response
    configuration that its mode setters replace as a whole. The RxJS
    observable it returns is a value here: either one emitted value or one
    raised error. */
module MockHttp {
  import opened JsValues
  import opened StringMaps
  import opened RequestOptions

  /** A callback installed with `callback(handler)`. Only its identity is
      stored; what it computes is supplied to Request as a function. */
  datatype Handler = Handler(id: nat)

  /** The HttpResponseOptions record: an absent optional field is None. */
  datatype ResponseOptions = ResponseOptions(
    status: int,
    statusText: Option<string>,
    body: JsValue,
    headers: Option<StringMap>,
    error: JsValue,
    callback: Option<Handler>)

  /** The initializer an HttpErrorResponse is built from. */
  datatype HttpErrorResponse = HttpErrorResponse(
    error: JsValue,
    headers: Option<StringMap>,
    status: int,
    statusText: Option<string>,
    url: string)

  /** Something thrown: a plain value or an HttpErrorResponse. */
  datatype Raised = RaisedValue(value: JsValue) | RaisedHttpError(response: HttpErrorResponse)

  /** How a call into a callback ended. */
  datatype Completion = Returned(value: JsValue) | Threw(raised: Raised)

  /** `of(value)` or `throwError(error)`. */
  datatype Observable = Of(value: JsValue) | ThrowError(error: Raised)

  /** What `request` does: return an observable, or throw the synchronous
      "Invalid request data" error. */
  datatype RequestOutcome = Emitted(observable: Observable) | InvalidRequestData

  /** The ProgressEvent('error', {loaded: 0, lengthComputable: false, total: 0})
      that `offline` stores, as a plain object value. */
  const OfflineEvent: JsValue :=
    Obj([Prop("type", Str("error")), Prop("loaded", Num(0)),
         Prop("lengthComputable", Bool(false)), Prop("total", Num(0))])

  const UnknownError: string := "Unknown Error"

  /** What the constructor installs: success with body `{}` and status 200. */
  function InitialConfig(): (r: ResponseOptions)
    ensures r.callback.None? && r.status == 200 && r.body == Obj([]) && r.error == Null
  {
    ResponseOptions(200, None, Obj([]), None, Null, None)
  }

  /** `callback(handler)` */
  function CallbackConfig(handler: Handler): (r: ResponseOptions)
    ensures r.callback == Some(handler)
  {
    ResponseOptions(0, None, Null, None, Null, Some(handler))
  }

  /** `response(body = {}, status = 200, statusText?, headers?)`: an undefined
      body or status takes its default. */
  function ResponseConfig(body: JsValue, status: Option<int>, statusText: Option<string>, headers: Option<StringMap>): (r: ResponseOptions)
    ensures r.callback.None? && r.error == Null
    ensures r.body == if body.Undefined? then Obj([]) else body
    ensures r.status == if status.None? then 200 else status.value
    ensures r.statusText == statusText && r.headers == headers
  {
    ResponseOptions(if status.None? then 200 else status.value, statusText,
      if body.Undefined? then Obj([]) else body, headers, Null, None)
  }

  /** `clientError(error)` */
  function ClientErrorConfig(error: JsValue): (r: ResponseOptions)
    ensures r.callback.None? && r.status == 0 && r.body == Null && r.error == error
  {
    ResponseOptions(0, None, Null, None, error, None)
  }

  /** `offline()` */
  function OfflineConfig(): (r: ResponseOptions)
    ensures r.callback.None? && r.status == 0 && r.body == Null
    ensures r.statusText == Some(UnknownError) && r.error == OfflineEvent
  {
    ResponseOptions(0, Some(UnknownError), Null, None, OfflineEvent, None)
  }

  /** The status range `request` treats as success. */
  predicate SuccessStatus(status: int)
  {
    200 <= status < 400
  }

  /** The observable `request` returns for an accepted request, given what
      the installed callback (if any) does. */
  function Respond(cfg: ResponseOptions, url: string, invoke: Handler -> Completion): (r: Observable)
    ensures cfg.callback.Some? && invoke(cfg.callback.value).Returned? ==>
              r == Of(invoke(cfg.callback.value).value)
    ensures cfg.callback.Some? && invoke(cfg.callback.value).Threw? ==>
              r == ThrowError(invoke(cfg.callback.value).raised)
    ensures cfg.callback.None? ==> (r.Of? <==> SuccessStatus(cfg.status))
    ensures cfg.callback.None? && SuccessStatus(cfg.status) ==> r == Of(cfg.body)
    ensures cfg.callback.None? && !SuccessStatus(cfg.status) ==>
              r == ThrowError(RaisedHttpError(HttpErrorResponse(
                     if Truthy(cfg.body) then cfg.body else cfg.error,
                     cfg.headers, cfg.status, cfg.statusText, url)))
  {
    if cfg.callback.Some? then
      match invoke(cfg.callback.value)
      case Returned(v) => Of(v)
      case Threw(e) => ThrowError(e)
    else if SuccessStatus(cfg.status) then Of(cfg.body)
    else ThrowError(RaisedHttpError(HttpErrorResponse(
           if Truthy(cfg.body) then cfg.body else cfg.error,
           cfg.headers, cfg.status, cfg.statusText, url)))
  }

  class MockHttpService {
    var requestOptions: HttpRequestOptions?
    var responseOptions: ResponseOptions

    /** No request yet; answer with `{}` and status 200. */
    constructor ()
      ensures requestOptions == null && responseOptions == InitialConfig()
    {
      requestOptions := null;
      responseOptions := InitialConfig();
    }

    method Callback(handler: Handler)
      modifies this
      ensures responseOptions == CallbackConfig(handler)
      ensures requestOptions == old(requestOptions)
    {
      responseOptions := CallbackConfig(handler);
    }

    method Response(body: JsValue, status: Option<int>, statusText: Option<string>, headers: Option<StringMap>)
      modifies this
      ensures responseOptions == ResponseConfig(body, status, statusText, headers)
      ensures requestOptions == old(requestOptions)
    {
      responseOptions := ResponseConfig(body, status, statusText, headers);
    }

    method ClientError(error: JsValue)
      modifies this
      ensures responseOptions == ClientErrorConfig(error)
      ensures requestOptions == old(requestOptions)
    {
      responseOptions := ClientErrorConfig(error);
    }

    method Offline()
      modifies this
      ensures responseOptions == OfflineConfig()
      ensures requestOptions == old(requestOptions)
    {
      responseOptions := OfflineConfig();
    }

    /** Records the request and answers it. `run(h, options)` is what the
        callback h does when called with options; it is called at most once,
        and only in callback mode. */
    method Request(options: HttpRequestOptions?, run: (Handler, HttpRequestOptions) -> Completion)
      returns (outcome: RequestOutcome)
      modifies this
      ensures responseOptions == old(responseOptions)
      ensures options == null ==> outcome == InvalidRequestData && requestOptions == old(requestOptions)
      ensures options != null ==> requestOptions == options
      ensures options != null ==>
                outcome == Emitted(Respond(responseOptions, options.url, h => run(h, options)))
    {
      if options == null {
        return InvalidRequestData;
      }
      requestOptions := options;
      var cfg := responseOptions;
      if cfg.callback.Some? {
        var completion := run(cfg.callback.value, options);
        match completion {
          case Returned(v) => outcome := Emitted(Of(v));
          case Threw(e) => outcome := Emitted(ThrowError(e));
        }
        return;
      }
      if SuccessStatus(cfg.status) {
        return Emitted(Of(cfg.body));
      }
      outcome := Emitted(ThrowError(RaisedHttpError(HttpErrorResponse(
        if Truthy(cfg.body) then cfg.body else cfg.error,
        cfg.headers, cfg.status, cfg.statusText, requestOptions.url))));
    }
  }

  // ---------------------------------------------------------------------------
  // The modes

  /** A fresh service answers every request with `{}`. */
  lemma InitialModeSucceeds(url: string, invoke: Handler -> Completion)
    ensures Respond(InitialConfig(), url, invoke) == Of(Obj([]))
  {
  }

  /** `response(...)` clears any callback: the answer depends only on the
      status; a failure carries the body when it is truthy and null
      otherwise, with the configured status, status text and headers. */
  lemma ResponseModeOutcome(body: JsValue, status: Option<int>, statusText: Option<string>,
                            headers: Option<StringMap>, url: string, invoke: Handler -> Completion)
    ensures var cfg := ResponseConfig(body, status, statusText, headers);
      var sent := if body.Undefined? then Obj([]) else body;
      Respond(cfg, url, invoke) ==
        if SuccessStatus(cfg.status) then Of(sent)
        else ThrowError(RaisedHttpError(HttpErrorResponse(
               if Truthy(sent) then sent else Null, headers, cfg.status, statusText, url)))
  {
  }

  /** `clientError(e)` fails every request with e as the error and status 0. */
  lemma ClientErrorFails(error: JsValue, url: string, invoke: Handler -> Completion)
    ensures Respond(ClientErrorConfig(error), url, invoke)
         == ThrowError(RaisedHttpError(HttpErrorResponse(error, None, 0, None, url)))
  {
  }

  /** `offline()` fails every request with the progress event, status 0 and
      status text "Unknown Error". */
  lemma OfflineFails(url: string, invoke: Handler -> Completion)
    ensures Respond(OfflineConfig(), url, invoke)
         == ThrowError(RaisedHttpError(HttpErrorResponse(OfflineEvent, None, 0, Some(UnknownError), url)))
  {
  }

  /** In callback mode the outcome is exactly what the callback did: its
      value is emitted, what it threw is raised unchanged. */
  lemma CallbackModeForwards(handler: Handler, url: string, invoke: Handler -> Completion)
    ensures Respond(CallbackConfig(handler), url, invoke) ==
      match invoke(handler)
      case Returned(v) => Of(v)
      case Threw(e) => ThrowError(e)
  {
  }
}
