# ts-rest-client request assembly, modelled in Dafny

ts-rest-client turns decorated TypeScript methods into HTTP requests. A
client class extends `RestClient` and is configured with `@BaseUrl` and
`@DefaultHeaders`. Each method carries a verb decorator (`@GET`, `@POST`, …)
and an optional `@Headers` map, and its parameters are tagged with `@Path`,
`@Query`, `@Body` and `@Header`. The parameter decorators record
`{key, parameterIndex}` entries per method and role. When the method is
called, the verb decorator's generated function builds an
`HttpRequestOptions` from those lists and the call arguments and hands it to
an `HttpService`. `NamedValues` is the string-keyed collection used for
headers and query parameters, and `MockHttpService` is the test double that
records requests and answers them according to a configurable mode.

The project models those four parts:

- `strings.dfy` holds the string helpers the other files need: concatenation, join, `indexOf`, first occurrence and split.
- `js_values.dfy` holds a JavaScript value datatype with truthiness, `typeof`, `instanceof Object`, `String()` and `JSON.stringify`.
- `string_maps.dfy` models a plain object used as a dictionary: own keys in insertion order plus their values.
- `named_values.dfy` is the `NamedValues` class.
- `uri_encoding.dfy` models `encodeURIComponent` (UTF-8, upper-case escapes) and the nine case-insensitive replacements of `standardQueryEncoding`. It proves that this chain equals a per-character definition and that the result decodes back for ASCII text.
- `request_options.dfy` is `HttpRequestOptions`: its constructor, `getContentType`, `getSerializedBody` and `getUrl`.
- `binding.dfy` is the decorator metadata (`ParameterRegistry`) and the generated request function (`Assemble`, with one method per loop).
- `mock_http.dfy` is `MockHttpService`.
- `scenarios.dfy` contains client code: the situations of the repository's spec files, each proved from the contracts.

The model follows the code where the code and its tests or intended design
part ways:

- **Query encoding.** `standardQueryEncoding` turns `%2B %3D %3A %2F` back into `+ = : /`. The test at `src/http-request-options.spec.ts:11` expects them to stay encoded; the model follows the code (`UriEncoding.PlusAndEqualsKept`).
- **Path placeholders.** Each `@Path` binding replaces only the first `{key}`. `String.prototype.replace` also expands `$` patterns in the argument text, and the model includes that.
- **Body encoding.** The generated function JSON-encodes the body eagerly. A body-carrying request without a declared Content-Type is therefore labelled `text/plain`. A declared `application/json` encodes the body a second time.
- **Missing base URL.** With no base URL, the literal text `null` is prepended.

## Model

| member | source | states |
|---|---|---|
| StringMaps.Put | src/named-values.ts:27-29 | the key gets the value, every other key keeps its presence and value, the size grows by one exactly when the key is new, and the existing key order is kept |
| StringMaps.Remove | src/named-values.ts:43-45 | the key is absent afterwards, every other key is unchanged, the size drops by one exactly when the key was present, and a missing key leaves the map as it was |
| StringMaps.Get | src/named-values.ts:35-37 | a missing key reads as undefined |
| StringMaps.PutPut | src/named-values.ts:27-29 | setting a key twice keeps only the later value |
| StringMaps.RemoveIdempotent | src/named-values.ts:43-45 | removing twice is the same as removing once |
| StringMaps.RemoveUndoesPut | src/named-values.ts:27-45 | setting a new key and then removing it restores the map, key order included |
| StringMaps.SizeIsEntryCount | src/http-request-options.ts:70 | the key count equals the number of stored entries |
| NamedValuesLib.NamedValues.constructor | src/named-values.ts:18-20 | the collection holds the initializer's entries, or none without an initializer |
| NamedValuesLib.NamedValues.Set | src/named-values.ts:27-29 | the stored map becomes the old map with the key set |
| NamedValuesLib.NamedValues.Get | src/named-values.ts:35-37 | the stored value under the key, undefined when missing; reads only |
| NamedValuesLib.NamedValues.Remove | src/named-values.ts:43-45 | the stored map becomes the old map without the key; a missing key is no error |
| NamedValuesLib.NamedValues.Contains | src/http-request-options.ts:26 | true exactly when the key is an own key |
| NamedValuesLib.NamedValues.Length | src/http-request-options.ts:70 | the number of stored keys |
| NamedValuesLib.CollectionScenario | src/named-values.spec.ts:18-41 | set then get gives the value and grows the collection exactly for a new key; a second set overwrites it without changing the size; remove makes it undefined, and after a second remove it is still undefined |
| Strings.IndexOf | src/http-request-options.ts:79 | `indexOf` for one character: -1 exactly when it is absent, otherwise its first position |
| Strings.Join | src/http-request-options.ts:77 | definition of `.join('&')`; SplitJoin states that splitting gives the parts back when no part holds the separator |
| JsValues.Truthy | src/rest-client.ts:154 | definition of JavaScript truthiness (`filter`, `if (x)`, `!x` in the request options); false exactly for undefined, null, false, 0 and the empty string |
| JsValues.TypeofObject | src/http-request-options.ts:44 | definition of `typeof x === 'object'`: null, arrays and objects |
| JsValues.InstanceOfObject | src/rest-client.ts:158 | definition of `x instanceof Object`: arrays and objects, not null |
| JsValues.ToText | src/http-request-options.ts:63 | definition of `String(x)` / `toString()` on the modelled values, the text `replace` and the query encoding see |
| JsValues.Json | src/http-request-options.ts:60 | JSON text exists exactly for defined values and is never empty |
| JsValues.JsonValue | src/rest-client.ts:139 | `JSON.stringify` gives undefined exactly for undefined, otherwise a non-empty string |
| UriEncoding.EncodeURIComponent | src/http-request-options.ts:87 | definition: the UTF-8 bytes of every character outside the unreserved set, each written `%XY` in upper case; its meaning is stated through QueryEncodingIsPerCharacter |
| UriEncoding.StandardQueryEncoding | src/http-request-options.ts:86-97 | definition: EncodeURIComponent followed by the nine case-insensitive replacements, in source order; QueryEncodingIsPerCharacter, DecodeInvertsEncoding, EncodingInjective and NoAmpersand state what it means |
| UriEncoding.QueryEncodingIsPerCharacter | src/http-request-options.ts:86-97 | the replacement chain equals the per-character encoding: unreserved characters and `@ : $ , ; + = ? /` are kept, and every other character becomes the escapes of its UTF-8 bytes |
| UriEncoding.SafeTextUnchanged | src/http-request-options.ts:86-97 | text made only of unreserved and query-safe characters is left unchanged |
| UriEncoding.PlusAndEqualsKept | src/http-request-options.ts:93-94 | `1+5=6` is encoded as itself |
| UriEncoding.EscapedAscii | src/http-request-options.ts:86-87 | every other ASCII character becomes its `%XY` escape |
| UriEncoding.SpaceAndAmpersand | src/http-request-options.ts:86-97 | a space is written `%20` and `&` is written `%26` |
| UriEncoding.NoAmpersand | src/http-request-options.ts:74-77 | encoded text never contains `&`, the pair separator |
| UriEncoding.AbsentStaysAbsent | src/http-request-options.ts:86-97 | a character other than `%` and hex digits appears in the encoding only if it was in the text |
| UriEncoding.DecodeInvertsEncoding | src/http-request-options.ts:86-97 | percent-decoding the encoding of ASCII text gives the text back |
| UriEncoding.EncodingInjective | src/http-request-options.ts:86-97 | distinct ASCII texts have distinct encodings |
| RequestOptions.ContentTypeFor | src/http-request-options.ts:38-49 | a truthy declared Content-Type wins; otherwise the type is `application/json` exactly when the body is falsy or `typeof 'object'`, and `text/plain` otherwise |
| RequestOptions.DefaultedHeaders | src/http-request-options.ts:26-32 | Content-Type and Accepts are always present; present keys keep their values; a missing Content-Type gets the detected type and a missing Accepts gets `application/json, text/plain, */*`; every other key and the key order are unchanged |
| RequestOptions.ContentTypeStable | src/http-request-options.ts:26-49 | completing the headers does not change what getContentType reports |
| RequestOptions.SerializedBody | src/http-request-options.ts:54-64 | null exactly for a falsy body; JSON text when the content type is exactly `application/json`; `String(body)` otherwise |
| RequestOptions.DetectedSerialization | src/http-request-options.ts:44-63 | without a declared type, object and array bodies are sent as JSON and other truthy bodies as their text |
| RequestOptions.Separator | src/http-request-options.ts:79-80 | `?` exactly when the URL has no `?`; empty exactly when its only `?` is the last character; `&` otherwise |
| RequestOptions.QueryPairs | src/http-request-options.ts:74-76 | one `enc(key)=enc(String(value))` per key, in key order |
| RequestOptions.UrlWithQuery | src/http-request-options.ts:69-83 | without parameters the URL is unchanged; otherwise it is the URL, the separator and the `&`-joined pairs, so the URL is always a prefix |
| RequestOptions.SplitQueryString | src/http-request-options.ts:74-77 | splitting a non-empty query string at `&` gives back its pairs |
| RequestOptions.PairsParse | src/http-request-options.ts:74-77 | every pair holds an `=`, and decoding the text before and after it gives the key and the value text back (for ASCII text and keys without `=`) |
| RequestOptions.QueryStringParses | src/http-request-options.ts:74-77 | splitting the query at `&` gives one pair per key; decoding each pair's two sides gives the key and the value text back (for ASCII text and keys without `=`) |
| RequestOptions.KeyWithEqualsAmbiguous | src/http-request-options.ts:94 | because `=` is un-escaped, the key `a=b` with value `c` and the key `a` with value `b=c` give the same pair `a=b=c`, for any texts the encoding keeps as they are; this is why the round trip requires keys without `=` |
| RequestOptions.CompleteHeaders | src/http-request-options.ts:26-32 | the headers become the defaulted headers of the old ones |
| RequestOptions.HttpRequestOptions.constructor | src/http-request-options.ts:15-33 | an undefined body becomes null; headers and params are fresh, distinct copies; headers are the defaulted copy and params are a copy or empty |
| RequestOptions.HttpRequestOptions.GetContentType | src/http-request-options.ts:38-49 | always truthy; the stored Content-Type when it is truthy; otherwise JSON exactly for a falsy or `typeof 'object'` body and plain text for any other (computed by ContentTypeFor) |
| RequestOptions.HttpRequestOptions.GetSerializedBody | src/http-request-options.ts:54-64 | nothing exactly for a falsy body; the JSON text when GetContentType is `application/json`; the body's text otherwise (computed by SerializedBody) |
| RequestOptions.HttpRequestOptions.GetUrl | src/http-request-options.ts:69-83 | the URL alone when the collection is empty; otherwise the URL, the separator and the joined pairs, so the URL is always a prefix (computed by UrlWithQuery) |
| Binding.MetadataKeyInjective | src/rest-client.ts:78 | different method names or roles never share a metadata key |
| Binding.MetadataKeysDistinct | src/rest-client.ts:78 | the contrapositive form used by clients of the registry |
| Binding.ParameterRegistry.constructor | src/rest-client.ts:84-87 | a class without parameter decorators has no list under any metadata key |
| Binding.ParameterRegistry.Register | src/rest-client.ts:75-91 | the record is appended to its method and role list; every other list is unchanged and nothing is removed |
| Binding.ParameterRegistry.BindMethod | src/rest-client.ts:128-134 | the binding carries the verb, the template, the static headers and the four registered lists |
| Binding.WithBaseUrl | src/rest-client.ts:66-73 | `@BaseUrl` replaces only the base URL |
| Binding.WithDefaultHeaders | src/rest-client.ts:51-59 | `@DefaultHeaders` replaces only the default headers |
| Binding.BaseUrlText | src/rest-client.ts:34-36 | a missing base URL is the text `null` |
| Binding.BodyFor | src/rest-client.ts:137-140 | null without a Body binding; otherwise the JSON of the first Body binding's argument; always null, undefined or a truthy string |
| Binding.Substitute | src/rest-client.ts:146 | a replacement without `$` is inserted as it is |
| Binding.ReplaceFirst | src/rest-client.ts:146 | definition of `String.prototype.replace` with a string pattern; ReplaceFirstSpec, LaterOccurrenceKept and ReplaceAfterClean state what it does |
| Binding.ReplaceFirstSpec | src/rest-client.ts:146 | a template without the placeholder is unchanged; otherwise exactly the first occurrence is replaced |
| Binding.LaterOccurrenceKept | src/rest-client.ts:146 | a second occurrence of the placeholder survives the replacement |
| Binding.ReplaceAfterClean | src/rest-client.ts:146 | a placeholder preceded by brace-free text is the one replaced |
| Binding.ResolvePath | src/rest-client.ts:142-149 | definition: the Path bindings applied in list order; ResolveTemplate is proved equal to it and OnePathBinding states its result for one placeholder |
| Binding.FinalUrl | src/rest-client.ts:179 | definition: the base URL text followed by the resolved template; Assemble's request URL, and BaseUrlText states the `null` case |
| Binding.QueryStep | src/rest-client.ts:154-161 | definition of one Query binding: a falsy argument is skipped, an object is stored as JSON text; QueryValuesTruthy and QueryFoldLastTruthy state what it means |
| Binding.QueryFold | src/rest-client.ts:152-162 | definition: the Query bindings applied in list order; QueryFoldLastTruthy states which binding wins |
| Binding.QueryParamsFor | src/rest-client.ts:151-163 | definition: QueryFold from an empty collection; QueryParamsLastTruthyWins states its contents and CollectQuery is proved equal to it |
| Binding.QueryParamsLastTruthyWins | src/rest-client.ts:151-163 | a key is a query parameter exactly when some binding for it has a truthy argument; the last such binding gives the value, objects as JSON text |
| Binding.QueryFoldLastTruthy | src/rest-client.ts:152-162 | the same over any starting collection |
| Binding.QueryValuesTruthy | src/rest-client.ts:154 | a stored query value is never falsy |
| Binding.Overlay | src/rest-client.ts:166-170 | definition: the `@Headers` values copied over the defaults key by key; OverlayGet states its contents and ApplyStaticHeaders is proved equal to it |
| Binding.HeaderParamFold | src/rest-client.ts:171-177 | definition: the Header bindings applied in list order; HeaderParamFoldGet states its contents and ApplyHeaderParams is proved equal to it |
| Binding.HeadersFor | src/rest-client.ts:165-177 | definition: the defaults, overlaid by `@Headers`, then by the Header bindings; HeaderPrecedence states its contents and CollectHeaders is proved equal to it |
| Binding.OverlayGet | src/rest-client.ts:166-170 | after the `@Headers` copy, its keys carry its values and other keys are unchanged |
| Binding.HeaderParamFoldGet | src/rest-client.ts:171-177 | after the Header bindings, the last binding for a key gives its argument, even an undefined one |
| Binding.HeaderPrecedence | src/rest-client.ts:165-177 | a Header binding beats `@Headers`, which beats the class defaults, for both value and presence |
| Binding.UnboundArgumentsIgnored | src/rest-client.ts:136-180 | arguments that no binding reads do not change the body, URL, query or headers |
| Binding.ResolveTemplate | src/rest-client.ts:142-149 | the path loop computes ResolvePath: the bindings applied in list order |
| Binding.CollectQuery | src/rest-client.ts:151-163 | the query loop yields a fresh collection equal to QueryParamsFor |
| Binding.ApplyStaticHeaders | src/rest-client.ts:166-170 | the headers become the old ones overlaid with the `@Headers` map's values at the given keys, in order (every key of the map when called from CollectHeaders) |
| Binding.ApplyHeaderParams | src/rest-client.ts:171-177 | the headers become the old ones with each binding's argument set, in list order |
| Binding.CollectHeaders | src/rest-client.ts:165-177 | a fresh collection equal to HeadersFor |
| Binding.Assemble | src/rest-client.ts:136-180 | the request has the decorator's verb, the base text plus resolved template as URL, the body with undefined turned into null, the defaulted resolved headers and the collected query parameters |
| Binding.BodyRequestIsTextPlain | src/rest-client.ts:139 | a defined body argument without a declared Content-Type is labelled `text/plain` and sent as its JSON text |
| Binding.DeclaredJsonEncodesTwice | src/rest-client.ts:139 | a declared `application/json` sends a JSON string literal of the argument's JSON text |
| MockHttp.Respond | src/mock-http-service.ts:87-107 | in callback mode, the callback's value is emitted and what it threw is raised; otherwise a status in [200, 400) emits the body and any other status raises an error response carrying the body if truthy (else the error), headers, status, status text and URL |
| MockHttp.InitialConfig | src/mock-http-service.ts:29-34 | the constructor's configuration: `{}`, status 200, no callback and a null error; InitialModeSucceeds states the outcome |
| MockHttp.CallbackConfig | src/mock-http-service.ts:46 | the configuration `callback(handler)` installs: only the handler matters; CallbackModeForwards states the outcome |
| MockHttp.ResponseConfig | src/mock-http-service.ts:56-57 | the configuration `response(...)` installs, with `{}` and 200 for undefined arguments and no callback; ResponseModeOutcome states the outcome |
| MockHttp.ClientErrorConfig | src/mock-http-service.ts:65 | the configuration `clientError(e)` installs: status 0, null body, the error, no callback; ClientErrorFails states the outcome |
| MockHttp.OfflineConfig | src/mock-http-service.ts:72-77 | the configuration `offline()` installs: status 0, null body, the progress event and "Unknown Error"; OfflineFails states the outcome |
| MockHttp.MockHttpService.constructor | src/mock-http-service.ts:27-35 | no request is recorded and the mode is success with `{}` and 200 |
| MockHttp.MockHttpService.Callback | src/mock-http-service.ts:45-47 | the whole configuration becomes callback mode; the recorded request is kept |
| MockHttp.MockHttpService.Response | src/mock-http-service.ts:56-58 | the whole configuration becomes the given response, with `{}` and 200 for undefined arguments |
| MockHttp.MockHttpService.ClientError | src/mock-http-service.ts:64-66 | the whole configuration becomes a failure with the given error |
| MockHttp.MockHttpService.Offline | src/mock-http-service.ts:71-78 | the whole configuration becomes the offline failure |
| MockHttp.MockHttpService.Request | src/mock-http-service.ts:80-108 | null options fail with "Invalid request data" and the recorded request is kept; otherwise the options are recorded and the outcome is Respond for the current configuration |
| MockHttp.InitialModeSucceeds | src/mock-http-service.ts:27-35 | a fresh service answers `{}` |
| MockHttp.ResponseModeOutcome | src/mock-http-service.ts:56-58 | after `response`, no callback is used and the outcome depends only on the status |
| MockHttp.ClientErrorFails | src/mock-http-service.ts:64-66 | after `clientError(e)`, every request fails with `e` and status 0 |
| MockHttp.OfflineFails | src/mock-http-service.ts:71-78 | after `offline`, every request fails with the progress event, status 0 and "Unknown Error" |
| MockHttp.CallbackModeForwards | src/mock-http-service.ts:89-95 | in callback mode, the outcome is exactly what the callback did |
| Scenarios.DecoratePost | src/rest-client.spec.ts:65-66 | the decorators of `testPost` give one Path binding for the template's placeholder and one Body binding |
| Scenarios.PostWithPathScenario | src/rest-client.spec.ts:102-110 | `testPost(body, id)` is a POST to the base URL plus the template with the id in place of its placeholder (`/test-post/<id>/endpoint` in the spec), with the JSON body and no query |
| Scenarios.PostParts | src/rest-client.ts:136-179 | for the `testPost` binding the assembled URL is the base URL plus the template with the id in place of its placeholder, the body is the argument's JSON text and no query value is stored |
| Scenarios.OnePathBinding | src/rest-client.ts:142-149 | one binding for a template's only placeholder puts the argument's text in its place, when the text before it has no brace and the argument's text no `$` |
| Scenarios.DecorateDelete | src/rest-client.spec.ts:71-72 | the decorators of `testDelete` give one Header binding |
| Scenarios.HeaderParamScenario | src/rest-client.spec.ts:124-134 | `testDelete(value)` on a client with a base URL and default Accepts is a DELETE to the base URL plus `/test-delete`, whose headers are exactly the default Accepts, the JSON content type and the bound header (`myHeader` in the spec) |
| Scenarios.OneHeaderBinding | src/rest-client.ts:165-177 | with class defaults holding only Accepts and one Header binding, the resolved headers are exactly the default Accepts and the bound value, so no Content-Type is declared |
| Scenarios.DecoratePut | src/rest-client.spec.ts:68-69 | the decorators of `testPut` give two Query bindings under any two names (`id` and `href` in the source), the second parameter's registered first |
| Scenarios.QueryParamScenario | src/rest-client.spec.ts:112-122 | `testPut(id, href)`, under any two distinct query names, on a client with a base URL is a PUT to the base URL plus `/test-put`; the string query argument is stored as it is, the object as its JSON text, and there is no body |
| Scenarios.PutParts | src/rest-client.ts:136-179 | for the `testPut` binding the assembled URL is the base URL plus `/test-put`, the string query value is stored as it is and the object as its JSON text, and there is no body |
| Scenarios.TwoQueryBindings | src/rest-client.ts:151-163 | two truthy Query arguments under different keys are both stored, the object as its JSON text |
| Scenarios.MockServiceScenario | src/mock-http-service.spec.ts:15-80 | the mock's life cycle: no request at first, `{}`, the failure for missing options, the 404 failure with the body, then the offline failure |
| Scenarios.CallbackScenario | src/mock-http-service.spec.ts:97-125 | callback mode answers with what the callback does with the very request given |
| Scenarios.HeadersCopiedScenario | src/http-request-options.ts:22-24 | changing the caller's collection after construction does not reach the request's headers |

## Left out

- Decorators and prototype metaprogramming are replaced by an explicit registry object and a `MethodBinding` record. The order in which TypeScript applies parameter decorators (last parameter first) is written out by the client code in `scenarios.dfy`.
- `RestClient`'s constructor and `setRequestInterceptor` only store and forward a service object. The interceptor is never applied by the code shown, and `MockHttpService` does not implement it, so interception is not modelled.
- Handing the request to the HTTP service (`src/rest-client.ts:182`) is not modelled; `Assemble` returns the request, and the mock's `Request` is a separate method.
- RxJS observables are values: one emitted value or one raised error. Asynchrony and subscription are not modelled.
- `http-error-response.ts` is not part of this model. An `HttpErrorResponse` is the plain record of its initializer: error, headers, status, status text and URL. Its message and normalisation are not modelled.
- `http-service.ts` is an interface without logic and is not modelled.
- `ProgressEvent` and `ErrorEvent` are plain object values.
- The `callback` handler is stored only as an identity. What it computes is a function parameter of `Request`, so a handler that behaves differently on different calls, or that mutates the request, is not captured. The model does not state that the callback is invoked exactly once.
- Numbers are integers: `NaN`, `-0`, fractions and exponent notation in `String()` and `JSON.stringify` are not modelled. Symbols, functions, `toJSON` and cyclic objects are not modelled either.
- NamedValuesLib.NamedValues.constructor: plain objects, arrays and request bodies are immutable values here (`StringMap`, `JsValue`), without identity. The constructor's copy `{ ...(initializer || {}) }` (`src/named-values.ts:19`), and its independence from the initializer in both directions, therefore hold by representation rather than by proof; the model would be the same if the source stored the initializer without copying. Mutation through a plain object shared after it is stored is not captured: a body the caller changes after `new HttpRequestOptions(...)` and before `getSerializedBody`, the public `values` field handed out and changed, and object-valued header arguments stored by reference. Copies of `NamedValues` objects themselves do have identity here (see `HttpRequestOptions.constructor` and `Scenarios.HeadersCopiedScenario`).
- Plain-object name quirks are not modelled: in the source, `get('toString')` on a collection without that key returns the inherited function where the model gives undefined, and `set('__proto__', v)` changes the prototype instead of adding a key.
- Object key order is insertion order. JavaScript's rule that integer-like keys come first is not modelled, and neither are inherited enumerable keys seen by `for…in`.
- `contains` and `length`, which `src/http-request-options.ts` calls but `src/named-values.ts` does not define, are taken as own-key membership and own-key count.
- Strings are sequences of Unicode scalar values. The `URIError` that `encodeURIComponent` raises on a lone surrogate cannot arise, so it is not modelled.
- UriEncoding.PercentDecode: decodes only `%XY` escapes one byte at a time, so the round trip `DecodeInvertsEncoding` and `QueryStringParses` are stated for ASCII text only.
- A role list that was never registered is `undefined` in the source and an empty list here. paramBuilder (`src/rest-client.ts:84-88`) never creates an empty list, so an empty list here stands only for a role that was never registered; the `pBody[0]` access on an empty list, which would throw, cannot arise.
- Body bindings after the first are ignored, as in the code; no error is raised for them.
