/** The binding engine of rest-client.ts. Parameter decorators record
    `{key, parameterIndex}` entries under a per-method, per-role metadata key;
    a verb decorator reads those lists once and installs a function that turns
    call arguments into an HttpRequestOptions. Here the metadata store is a
    registry object, the installed function's inputs are an explicit
    MethodBinding record plus the client's configuration, and the installed
    function itself is the method Assemble. */
module Binding {
  import opened Strings
  import opened JsValues
  import opened StringMaps
  import opened NamedValuesLib
  import opened RequestOptions

  // ---------------------------------------------------------------------------
  // Parameter registration (paramBuilder)

  datatype Role = PathParam | QueryParam | BodyParam | HeaderParam

  /** The paramName each decorator factory was built with. */
  function RoleName(role: Role): (r: string)
    ensures |r| >= 4 && '_' !in r
  {
    match role
    case PathParam => "Path"
    case QueryParam => "Query"
    case BodyParam => "Body"
    case HeaderParam => "Header"
  }

  /** The key the `@Body` decorator registers under. */
  const BodyKey: string := "Body"

  const MetadataSuffix: string := "_parameters"

  /** `${propertyKey}_${paramName}_parameters` */
  function MetadataKey(propertyKey: string, role: Role): string
  {
    propertyKey + "_" + RoleName(role) + MetadataSuffix
  }

  predicate EndsWith(t: string, suffix: string)
  {
    |suffix| <= |t| && t[|t| - |suffix|..] == suffix
  }

  /** The role a `<propertyKey>_<paramName>` text ends with. */
  function RoleOf(t: string): Option<Role>
  {
    if EndsWith(t, "_Path") then Some(PathParam)
    else if EndsWith(t, "_Query") then Some(QueryParam)
    else if EndsWith(t, "_Body") then Some(BodyParam)
    else if EndsWith(t, "_Header") then Some(HeaderParam)
    else None
  }

  lemma EndsWithAt(t: string, suffix: string, k: nat)
    requires EndsWith(t, suffix) && k < |suffix|
    ensures t[|t| - |suffix| + k] == suffix[k]
  {
    assert t[|t| - |suffix|..][k] == suffix[k];
  }

  lemma RoleOfPath(pk: string)
    ensures RoleOf(pk + "_Path") == Some(PathParam)
  {
    var t := pk + "_Path";
    assert t[|t| - 5..] == "_Path";
  }

  lemma RoleOfQuery(pk: string)
    ensures RoleOf(pk + "_Query") == Some(QueryParam)
  {
    var t := pk + "_Query";
    assert t[|t| - 6..] == "_Query";
    assert t[|t| - 1] == 'y';
  }

  lemma RoleOfBody(pk: string)
    ensures RoleOf(pk + "_Body") == Some(BodyParam)
  {
    var t := pk + "_Body";
    assert t[|t| - 5..] == "_Body";
    assert t[|t| - 1] == 'y' && t[|t| - 5] == '_';
    if EndsWith(t, "_Query") { EndsWithAt(t, "_Query", 1); }
  }

  lemma RoleOfHeader(pk: string)
    ensures RoleOf(pk + "_Header") == Some(HeaderParam)
  {
    var t := pk + "_Header";
    assert t[|t| - 7..] == "_Header";
    assert t[|t| - 1] == 'r';
  }

  lemma RoleOfTail(pk: string, role: Role)
    ensures RoleOf(pk + "_" + RoleName(role)) == Some(role)
  {
    match role {
      case PathParam =>
        assert pk + "_" + "Path" == pk + "_Path";
        RoleOfPath(pk);
      case QueryParam =>
        assert pk + "_" + "Query" == pk + "_Query";
        RoleOfQuery(pk);
      case BodyParam =>
        assert pk + "_" + "Body" == pk + "_Body";
        RoleOfBody(pk);
      case HeaderParam =>
        assert pk + "_" + "Header" == pk + "_Header";
        RoleOfHeader(pk);
    }
  }

  /** Distinct methods or roles never share a metadata slot: the role is
      read back from the end of the key, and the property key is what
      precedes it. */
  lemma MetadataKeyInjective(pk1: string, r1: Role, pk2: string, r2: Role)
    requires MetadataKey(pk1, r1) == MetadataKey(pk2, r2)
    ensures pk1 == pk2 && r1 == r2
  {
    var t1, t2 := pk1 + "_" + RoleName(r1), pk2 + "_" + RoleName(r2);
    assert MetadataKey(pk1, r1) == t1 + MetadataSuffix;
    assert MetadataKey(pk2, r2) == t2 + MetadataSuffix;
    assert t1 == (t1 + MetadataSuffix)[..|t1|];
    assert t2 == (t2 + MetadataSuffix)[..|t2|];
    RoleOfTail(pk1, r1);
    RoleOfTail(pk2, r2);
    assert pk1 == t1[..|pk1|];
    assert pk2 == t2[..|pk2|];
  }

  /** Registrations for one method and role never touch another's list. */
  lemma MetadataKeysDistinct(pk1: string, r1: Role, pk2: string, r2: Role)
    requires pk1 != pk2 || r1 != r2
    ensures MetadataKey(pk1, r1) != MetadataKey(pk2, r2)
  {
    if MetadataKey(pk1, r1) == MetadataKey(pk2, r2) {
      MetadataKeyInjective(pk1, r1, pk2, r2);
    }
  }

  /** One `{key, parameterIndex}` record. */
  datatype Parameter = Parameter(key: string, parameterIndex: nat)

  /** The list stored under a metadata key; a missing key reads as empty. */
  function Registered(slots: map<string, seq<Parameter>>, metadataKey: string): (r: seq<Parameter>)
    ensures metadataKey !in slots ==> r == []
  {
    if metadataKey in slots then slots[metadataKey] else []
  }

  /** The metadata a client class's prototype carries. */
  class ParameterRegistry {
    var slots: map<string, seq<Parameter>>

    constructor ()
      ensures slots == map[]
    {
      slots := map[];
    }

    /** What `@Path(key)`, `@Query(key)`, `@Header(key)` and `@Body` (whose
        key is always "Body") do to the method's list for their role: append
        the record, creating the list on first use. Nothing is ever removed. */
    method Register(propertyKey: string, role: Role, key: string, parameterIndex: nat)
      modifies this
      ensures Registered(slots, MetadataKey(propertyKey, role))
           == Registered(old(slots), MetadataKey(propertyKey, role)) + [Parameter(key, parameterIndex)]
      ensures forall mk :: mk != MetadataKey(propertyKey, role) ==> Registered(slots, mk) == Registered(old(slots), mk)
      ensures slots.Keys == old(slots).Keys + {MetadataKey(propertyKey, role)}
    {
      var mk := MetadataKey(propertyKey, role);
      var entry := Parameter(key, parameterIndex);
      if mk in slots {
        slots := slots[mk := slots[mk] + [entry]];
      } else {
        slots := slots[mk := [entry]];
      }
    }

    /** What a verb decorator reads when it decorates a method. */
    function BindMethod(propertyKey: string, verb: HttpMethod, url: string, staticHeaders: Option<StringMap>): (b: MethodBinding)
      reads this
      ensures b.verb == verb && b.url == url && b.headers == staticHeaders
      ensures b.pathParams == Registered(slots, MetadataKey(propertyKey, PathParam))
      ensures b.queryParams == Registered(slots, MetadataKey(propertyKey, QueryParam))
      ensures b.bodyParams == Registered(slots, MetadataKey(propertyKey, BodyParam))
      ensures b.headerParams == Registered(slots, MetadataKey(propertyKey, HeaderParam))
    {
      MethodBinding(verb, url,
        Registered(slots, MetadataKey(propertyKey, PathParam)),
        Registered(slots, MetadataKey(propertyKey, QueryParam)),
        Registered(slots, MetadataKey(propertyKey, BodyParam)),
        Registered(slots, MetadataKey(propertyKey, HeaderParam)),
        staticHeaders)
    }
  }

  // ---------------------------------------------------------------------------
  // What the generated method works from

  /** A decorated method: its verb and URL template, its four role lists
      (an empty list stands for a role that was never registered, the only
      way the code can find one empty) and the `@Headers` map, if any. */
  datatype MethodBinding = MethodBinding(
    verb: HttpMethod,
    url: string,
    pathParams: seq<Parameter>,
    queryParams: seq<Parameter>,
    bodyParams: seq<Parameter>,
    headerParams: seq<Parameter>,
    headers: Option<StringMap>)

  /** What getBaseUrl and getDefaultHeaders return for a client class. */
  datatype ClientConfig = ClientConfig(baseUrl: Option<string>, defaultHeaders: Option<StringMap>)

  /** RestClient's own getBaseUrl and getDefaultHeaders both return null. */
  const RestClientDefaults: ClientConfig := ClientConfig(None, None)

  /** `@BaseUrl(url)` */
  function WithBaseUrl(cfg: ClientConfig, url: string): (r: ClientConfig)
    ensures r.baseUrl == Some(url) && r.defaultHeaders == cfg.defaultHeaders
  {
    cfg.(baseUrl := Some(url))
  }

  /** `@DefaultHeaders(headers)` */
  function WithDefaultHeaders(cfg: ClientConfig, headers: StringMap): (r: ClientConfig)
    ensures r.defaultHeaders == Some(headers) && r.baseUrl == cfg.baseUrl
  {
    cfg.(defaultHeaders := Some(headers))
  }

  /** `args[i]`: undefined past the end of the argument list. */
  function Arg(args: seq<JsValue>, i: nat): (r: JsValue)
    ensures i >= |args| ==> r == Undefined
  {
    if i < |args| then args[i] else Undefined
  }

  // ---------------------------------------------------------------------------
  // Body

  /** null without a Body binding, otherwise JSON.stringify of the argument
      the first Body binding names (undefined when that argument is). */
  function BodyFor(b: MethodBinding, args: seq<JsValue>): (r: JsValue)
    ensures |b.bodyParams| == 0 ==> r == Null
    ensures |b.bodyParams| > 0 ==> r == JsonValue(Arg(args, b.bodyParams[0].parameterIndex))
    ensures r.Null? || r.Undefined? || (r.Str? && Truthy(r))
  {
    if |b.bodyParams| == 0 then Null else JsonValue(Arg(args, b.bodyParams[0].parameterIndex))
  }

  // ---------------------------------------------------------------------------
  // Path: String.prototype.replace with a string pattern

  /** GetSubstitution without captures: `$$`, `$&`, `` $` `` and `$'` are
      expanded, every other character is copied. */
  function Substitute(replacement: string, matched: string, before: string, after: string): (r: string)
    ensures '$' !in replacement ==> r == replacement
  {
    if |replacement| == 0 then ""
    else if replacement[0] == '$' && |replacement| >= 2 && replacement[1] == '$' then
      "$" + Substitute(replacement[2..], matched, before, after)
    else if replacement[0] == '$' && |replacement| >= 2 && replacement[1] == '&' then
      matched + Substitute(replacement[2..], matched, before, after)
    else if replacement[0] == '$' && |replacement| >= 2 && replacement[1] == '`' then
      before + Substitute(replacement[2..], matched, before, after)
    else if replacement[0] == '$' && |replacement| >= 2 && replacement[1] == '\'' then
      after + Substitute(replacement[2..], matched, before, after)
    else
      [replacement[0]] + Substitute(replacement[1..], matched, before, after)
  }

  /** s.replace(pattern, replacement) for a string pattern: only the first
      occurrence is replaced. */
  function ReplaceFirst(s: string, pattern: string, replacement: string): string
  {
    var i := Find(s, pattern);
    if i < 0 then s
    else s[..i] + Substitute(replacement, pattern, s[..i], s[i + |pattern|..]) + s[i + |pattern|..]
  }

  /** A template without the pattern is left unchanged; otherwise, for a
      replacement without `$`, the first occurrence and only it is replaced
      by the replacement text, and the text after it is kept as it is. */
  lemma ReplaceFirstSpec(s: string, pattern: string, replacement: string)
    ensures (forall j: nat :: j <= |s| ==> !OccursAt(s, pattern, j)) ==> ReplaceFirst(s, pattern, replacement) == s
    ensures '$' !in replacement && Find(s, pattern) >= 0 ==>
              var i := Find(s, pattern);
              && OccursAt(s, pattern, i)
              && (forall j: nat :: j < i ==> !OccursAt(s, pattern, j))
              && ReplaceFirst(s, pattern, replacement) == s[..i] + replacement + s[i + |pattern|..]
  {
  }

  /** A second occurrence of the pattern survives the replacement, shifted
      by the difference in length. */
  lemma LaterOccurrenceKept(s: string, pattern: string, replacement: string, j: nat)
    requires '$' !in replacement
    requires OccursAt(s, pattern, j)
    requires Find(s, pattern) >= 0 && j >= Find(s, pattern) + |pattern|
    ensures OccursAt(ReplaceFirst(s, pattern, replacement), pattern, j - |pattern| + |replacement|)
  {
    var i := Find(s, pattern);
    assert ReplaceFirst(s, pattern, replacement) == s[..i] + replacement + s[i + |pattern|..];
    OccurrenceAfterReplaced(s, pattern, replacement, i, j);
  }

  /** Replacing the text at i by something else moves a later occurrence by
      the difference in length. */
  lemma OccurrenceAfterReplaced(s: string, pattern: string, replacement: string, i: nat, j: nat)
    requires OccursAt(s, pattern, j) && i + |pattern| <= j
    ensures OccursAt(s[..i] + replacement + s[i + |pattern|..], pattern, j - |pattern| + |replacement|)
  {
    var tail := s[i + |pattern|..];
    assert OccursAt(tail, pattern, j - i - |pattern|) by {
      assert tail[j - i - |pattern|..j - i] == s[j..j + |pattern|];
    }
    OccursAfterPrefix(s[..i] + replacement, tail, pattern, j - i - |pattern|);
  }

  /** A placeholder preceded only by text free of its first character is
      the occurrence that gets replaced. */
  lemma ReplaceAfterClean(a: string, pattern: string, replacement: string, c: string)
    requires |pattern| > 0 && pattern[0] !in a && '$' !in replacement
    ensures ReplaceFirst(a + pattern + c, pattern, replacement) == a + replacement + c
  {
    var s := a + pattern + c;
    assert OccursAt(s, pattern, |a|) by {
      assert s[|a|..|a| + |pattern|] == pattern;
    }
    assert s[..|a|] == a;
    assert s[|a| + |pattern|..] == c;
  }

  /** One Path binding: replace `{key}` with the argument's text. */
  function PathStep(template: string, p: Parameter, args: seq<JsValue>): string
  {
    ReplaceFirst(template, "{" + p.key + "}", ToText(Arg(args, p.parameterIndex)))
  }

  /** The template after the Path bindings, applied in list order. */
  function ResolvePath(template: string, ps: seq<Parameter>, args: seq<JsValue>): string
    decreases |ps|
  {
    if |ps| == 0 then template
    else PathStep(ResolvePath(template, ps[..|ps| - 1], args), ps[|ps| - 1], args)
  }

  /** getBaseUrl() + resUrl: a missing base URL is the text "null". */
  function BaseUrlText(cfg: ClientConfig): (r: string)
    ensures cfg.baseUrl.None? ==> r == "null"
    ensures cfg.baseUrl.Some? ==> r == cfg.baseUrl.value
  {
    if cfg.baseUrl.Some? then cfg.baseUrl.value else "null"
  }

  function FinalUrl(cfg: ClientConfig, b: MethodBinding, args: seq<JsValue>): string
  {
    BaseUrlText(cfg) + ResolvePath(b.url, b.pathParams, args)
  }

  // ---------------------------------------------------------------------------
  // Query parameters

  /** One Query binding: a truthy argument is stored, as JSON text when it is
      an object; a falsy one is skipped. */
  function QueryStep(m: StringMap, p: Parameter, args: seq<JsValue>): StringMap
  {
    var v := Arg(args, p.parameterIndex);
    if !Truthy(v) then m
    else Put(m, p.key, if InstanceOfObject(v) then JsonValue(v) else v)
  }

  function QueryFold(m: StringMap, ps: seq<Parameter>, args: seq<JsValue>): StringMap
    decreases |ps|
  {
    if |ps| == 0 then m else QueryStep(QueryFold(m, ps[..|ps| - 1], args), ps[|ps| - 1], args)
  }

  function QueryParamsFor(ps: seq<Parameter>, args: seq<JsValue>): StringMap
  {
    QueryFold(EmptyMap(), ps, args)
  }

  /** The last binding with this key whose argument is truthy. */
  function LastTruthyWithKey(ps: seq<Parameter>, key: string, args: seq<JsValue>): (r: Option<Parameter>)
    ensures r.Some? ==> r.value in ps && r.value.key == key && Truthy(Arg(args, r.value.parameterIndex))
    decreases |ps|
  {
    if |ps| == 0 then None
    else if ps[|ps| - 1].key == key && Truthy(Arg(args, ps[|ps| - 1].parameterIndex)) then Some(ps[|ps| - 1])
    else LastTruthyWithKey(ps[..|ps| - 1], key, args)
  }

  /** The value a query argument is stored as. */
  function QueryValue(v: JsValue): (r: JsValue)
    ensures Truthy(v) ==> Truthy(r)
  {
    if InstanceOfObject(v) then JsonValue(v) else v
  }

  /** A key is a query parameter exactly when some binding for it got a
      truthy argument; the last such binding wins, objects as JSON text. */
  lemma {:induction false} QueryParamsLastTruthyWins(ps: seq<Parameter>, args: seq<JsValue>, key: string)
    ensures var found := LastTruthyWithKey(ps, key, args);
      && (Has(QueryParamsFor(ps, args), key) <==> found.Some?)
      && Get(QueryParamsFor(ps, args), key)
         == (if found.Some? then QueryValue(Arg(args, found.value.parameterIndex)) else Undefined)
  {
    QueryFoldLastTruthy(EmptyMap(), ps, args, key);
  }

  lemma {:induction false} QueryFoldLastTruthy(m: StringMap, ps: seq<Parameter>, args: seq<JsValue>, key: string)
    ensures var found := LastTruthyWithKey(ps, key, args);
      && (Has(QueryFold(m, ps, args), key) <==> found.Some? || Has(m, key))
      && Get(QueryFold(m, ps, args), key)
         == (if found.Some? then QueryValue(Arg(args, found.value.parameterIndex)) else Get(m, key))
    decreases |ps|
  {
    if |ps| > 0 {
      QueryFoldLastTruthy(m, ps[..|ps| - 1], args, key);
    }
  }

  /** Every stored query value is truthy, so a falsy argument never shows up. */
  lemma {:induction false} QueryValuesTruthy(ps: seq<Parameter>, args: seq<JsValue>, key: string)
    requires Has(QueryParamsFor(ps, args), key)
    ensures Truthy(Get(QueryParamsFor(ps, args), key))
  {
    QueryParamsLastTruthyWins(ps, args, key);
  }

  // ---------------------------------------------------------------------------
  // Headers

  /** new NamedValues(getDefaultHeaders()) */
  function DefaultHeadersOf(cfg: ClientConfig): StringMap
  {
    if cfg.defaultHeaders.Some? then cfg.defaultHeaders.value else EmptyMap()
  }

  /** The `@Headers` entries copied over the defaults, key by key. */
  function Overlay(m: StringMap, extra: StringMap, keys: seq<string>): StringMap
    decreases |keys|
  {
    if |keys| == 0 then m
    else Put(Overlay(m, extra, keys[..|keys| - 1]), keys[|keys| - 1], Get(extra, keys[|keys| - 1]))
  }

  function HeaderParamStep(m: StringMap, p: Parameter, args: seq<JsValue>): StringMap
  {
    Put(m, p.key, Arg(args, p.parameterIndex))
  }

  function HeaderParamFold(m: StringMap, ps: seq<Parameter>, args: seq<JsValue>): StringMap
    decreases |ps|
  {
    if |ps| == 0 then m else HeaderParamStep(HeaderParamFold(m, ps[..|ps| - 1], args), ps[|ps| - 1], args)
  }

  function StaticHeadersApplied(cfg: ClientConfig, b: MethodBinding): StringMap
  {
    var start := DefaultHeadersOf(cfg);
    if b.headers.Some? then Overlay(start, b.headers.value, b.headers.value.keys) else start
  }

  /** The headers handed to HttpRequestOptions. */
  function HeadersFor(cfg: ClientConfig, b: MethodBinding, args: seq<JsValue>): StringMap
  {
    HeaderParamFold(StaticHeadersApplied(cfg, b), b.headerParams, args)
  }

  /** The last binding with this key. */
  function LastWithKey(ps: seq<Parameter>, key: string): (r: Option<Parameter>)
    ensures r.Some? ==> r.value in ps && r.value.key == key
    ensures r.None? ==> forall i :: 0 <= i < |ps| ==> ps[i].key != key
    decreases |ps|
  {
    if |ps| == 0 then None
    else if ps[|ps| - 1].key == key then Some(ps[|ps| - 1])
    else LastWithKey(ps[..|ps| - 1], key)
  }

  lemma {:induction false} OverlayGet(m: StringMap, extra: StringMap, keys: seq<string>, key: string)
    ensures Has(Overlay(m, extra, keys), key) <==> key in keys || Has(m, key)
    ensures Get(Overlay(m, extra, keys), key) == if key in keys then Get(extra, key) else Get(m, key)
    decreases |keys|
  {
    if |keys| > 0 {
      OverlayGet(m, extra, keys[..|keys| - 1], key);
      assert keys == keys[..|keys| - 1] + [keys[|keys| - 1]];
    }
  }

  lemma {:induction false} HeaderParamFoldGet(m: StringMap, ps: seq<Parameter>, args: seq<JsValue>, key: string)
    ensures var found := LastWithKey(ps, key);
      && (Has(HeaderParamFold(m, ps, args), key) <==> found.Some? || Has(m, key))
      && Get(HeaderParamFold(m, ps, args), key)
         == (if found.Some? then Arg(args, found.value.parameterIndex) else Get(m, key))
    decreases |ps|
  {
    if |ps| > 0 {
      HeaderParamFoldGet(m, ps[..|ps| - 1], args, key);
    }
  }

  /** Header precedence: a Header binding (the last one for the key) beats
      the method's `@Headers`, which beat the class's default headers. */
  lemma HeaderPrecedence(cfg: ClientConfig, b: MethodBinding, args: seq<JsValue>, key: string)
    ensures var found := LastWithKey(b.headerParams, key);
      Get(HeadersFor(cfg, b, args), key) ==
        if found.Some? then Arg(args, found.value.parameterIndex)
        else if b.headers.Some? && Has(b.headers.value, key) then Get(b.headers.value, key)
        else Get(DefaultHeadersOf(cfg), key)
    ensures Has(HeadersFor(cfg, b, args), key) <==>
      || LastWithKey(b.headerParams, key).Some?
      || (b.headers.Some? && Has(b.headers.value, key))
      || Has(DefaultHeadersOf(cfg), key)
  {
    HeaderParamFoldGet(StaticHeadersApplied(cfg, b), b.headerParams, args, key);
    if b.headers.Some? {
      OverlayGet(DefaultHeadersOf(cfg), b.headers.value, b.headers.value.keys, key);
    }
  }

  // ---------------------------------------------------------------------------
  // Arguments no binding names

  predicate AgreeOn(ps: seq<Parameter>, args1: seq<JsValue>, args2: seq<JsValue>)
  {
    forall i :: 0 <= i < |ps| ==> Arg(args1, ps[i].parameterIndex) == Arg(args2, ps[i].parameterIndex)
  }

  /** The two argument lists agree at every position a binding reads: all
      Path, Query and Header bindings and the first Body binding. */
  predicate SameBoundArguments(b: MethodBinding, args1: seq<JsValue>, args2: seq<JsValue>)
  {
    && AgreeOn(b.pathParams, args1, args2)
    && AgreeOn(b.queryParams, args1, args2)
    && AgreeOn(b.headerParams, args1, args2)
    && (|b.bodyParams| > 0 ==>
          Arg(args1, b.bodyParams[0].parameterIndex) == Arg(args2, b.bodyParams[0].parameterIndex))
  }

  lemma {:induction false} ResolvePathBound(t: string, ps: seq<Parameter>, args1: seq<JsValue>, args2: seq<JsValue>)
    requires AgreeOn(ps, args1, args2)
    ensures ResolvePath(t, ps, args1) == ResolvePath(t, ps, args2)
    decreases |ps|
  {
    if |ps| > 0 {
      ResolvePathBound(t, ps[..|ps| - 1], args1, args2);
    }
  }

  lemma {:induction false} QueryFoldBound(m: StringMap, ps: seq<Parameter>, args1: seq<JsValue>, args2: seq<JsValue>)
    requires AgreeOn(ps, args1, args2)
    ensures QueryFold(m, ps, args1) == QueryFold(m, ps, args2)
    decreases |ps|
  {
    if |ps| > 0 {
      QueryFoldBound(m, ps[..|ps| - 1], args1, args2);
    }
  }

  lemma {:induction false} HeaderParamFoldBound(m: StringMap, ps: seq<Parameter>, args1: seq<JsValue>, args2: seq<JsValue>)
    requires AgreeOn(ps, args1, args2)
    ensures HeaderParamFold(m, ps, args1) == HeaderParamFold(m, ps, args2)
    decreases |ps|
  {
    if |ps| > 0 {
      HeaderParamFoldBound(m, ps[..|ps| - 1], args1, args2);
    }
  }

  /** Arguments that no binding reads, including those of Body bindings
      after the first, have no effect on the request. */
  lemma UnboundArgumentsIgnored(cfg: ClientConfig, b: MethodBinding, args1: seq<JsValue>, args2: seq<JsValue>)
    requires SameBoundArguments(b, args1, args2)
    ensures BodyFor(b, args1) == BodyFor(b, args2)
    ensures FinalUrl(cfg, b, args1) == FinalUrl(cfg, b, args2)
    ensures QueryParamsFor(b.queryParams, args1) == QueryParamsFor(b.queryParams, args2)
    ensures HeadersFor(cfg, b, args1) == HeadersFor(cfg, b, args2)
  {
    ResolvePathBound(b.url, b.pathParams, args1, args2);
    QueryFoldBound(EmptyMap(), b.queryParams, args1, args2);
    HeaderParamFoldBound(StaticHeadersApplied(cfg, b), b.headerParams, args1, args2);
  }

  // ---------------------------------------------------------------------------
  // The generated method

  /** The path loop: each Path binding in list order replaces its placeholder. */
  method ResolveTemplate(url: string, ps: seq<Parameter>, args: seq<JsValue>) returns (resUrl: string)
    ensures resUrl == ResolvePath(url, ps, args)
  {
    resUrl := url;
    var i := 0;
    while i < |ps|
      invariant 0 <= i <= |ps|
      invariant resUrl == ResolvePath(url, ps[..i], args)
    {
      var p := ps[i];
      resUrl := ReplaceFirst(resUrl, "{" + p.key + "}", ToText(Arg(args, p.parameterIndex)));
      assert ps[..i + 1][..i] == ps[..i];
      i := i + 1;
    }
    assert ps[..i] == ps;
  }

  /** The query loop: a fresh collection holding the truthy Query arguments. */
  method CollectQuery(ps: seq<Parameter>, args: seq<JsValue>) returns (params: NamedValues)
    ensures fresh(params)
    ensures params.values == QueryParamsFor(ps, args)
  {
    params := new NamedValues(None);
    var i := 0;
    while i < |ps|
      invariant 0 <= i <= |ps|
      invariant params.values == QueryFold(EmptyMap(), ps[..i], args)
    {
      var p := ps[i];
      var value := Arg(args, p.parameterIndex);
      if Truthy(value) {
        if InstanceOfObject(value) {
          value := JsonValue(value);
        }
        params.Set(p.key, value);
      }
      assert ps[..i + 1][..i] == ps[..i];
      i := i + 1;
    }
    assert ps[..i] == ps;
  }

  /** The `@Headers` loop: for each of the keys (the own keys of the static
      map, in order) the map's value is set. */
  method ApplyStaticHeaders(headers: NamedValues, extra: StringMap, keys: seq<string>)
    modifies headers
    ensures headers.values == Overlay(old(headers.values), extra, keys)
  {
    ghost var start := headers.values;
    var i := 0;
    while i < |keys|
      invariant 0 <= i <= |keys|
      invariant headers.values == Overlay(start, extra, keys[..i])
    {
      var k := keys[i];
      headers.Set(k, StringMaps.Get(extra, k));
      assert keys[..i + 1][..i] == keys[..i];
      i := i + 1;
    }
    assert keys[..i] == keys;
  }

  /** The Header-binding loop: each binding sets its argument, in list order. */
  method ApplyHeaderParams(headers: NamedValues, ps: seq<Parameter>, args: seq<JsValue>)
    modifies headers
    ensures headers.values == HeaderParamFold(old(headers.values), ps, args)
  {
    ghost var start := headers.values;
    var i := 0;
    while i < |ps|
      invariant 0 <= i <= |ps|
      invariant headers.values == HeaderParamFold(start, ps[..i], args)
    {
      var p := ps[i];
      headers.Set(p.key, Arg(args, p.parameterIndex));
      assert ps[..i + 1][..i] == ps[..i];
      i := i + 1;
    }
    assert ps[..i] == ps;
  }

  /** The headers: defaults, then the `@Headers` entries, then the Header
      arguments, each set over the previous ones. */
  method CollectHeaders(cfg: ClientConfig, b: MethodBinding, args: seq<JsValue>) returns (headers: NamedValues)
    ensures fresh(headers)
    ensures headers.values == HeadersFor(cfg, b, args)
  {
    headers := new NamedValues(cfg.defaultHeaders);
    if b.headers.Some? {
      ApplyStaticHeaders(headers, b.headers.value, b.headers.value.keys);
    }
    ApplyHeaderParams(headers, b.headerParams, args);
  }

  /** The request the decorated method builds from its arguments, before it
      hands the request to the client's HTTP service. */
  method Assemble(cfg: ClientConfig, b: MethodBinding, args: seq<JsValue>) returns (request: HttpRequestOptions)
    ensures fresh(request) && fresh(request.headers) && fresh(request.params)
    ensures request.verb == b.verb
    ensures request.url == FinalUrl(cfg, b, args)
    ensures request.body == if BodyFor(b, args).Undefined? then Null else BodyFor(b, args)
    ensures request.headers.values == DefaultedHeaders(HeadersFor(cfg, b, args), request.body)
    ensures request.params.values == QueryParamsFor(b.queryParams, args)
  {
    var body := Null;
    if |b.bodyParams| > 0 {
      body := JsonValue(Arg(args, b.bodyParams[0].parameterIndex));
    }
    var resUrl := ResolveTemplate(b.url, b.pathParams, args);
    var params := CollectQuery(b.queryParams, args);
    var headers := CollectHeaders(cfg, b, args);
    var finalUrl := BaseUrlText(cfg) + resUrl;
    request := new HttpRequestOptions(finalUrl, b.verb, body, headers, params);
  }

  // ---------------------------------------------------------------------------
  // Consequences of the eager JSON body

  /** With a Body binding whose argument is defined and no truthy
      Content-Type among the resolved headers, the request is labelled
      text/plain (the body is already a JSON string) and its serialized body
      is exactly the JSON text of the argument. */
  lemma BodyRequestIsTextPlain(cfg: ClientConfig, b: MethodBinding, args: seq<JsValue>)
    requires |b.bodyParams| > 0 && !Arg(args, b.bodyParams[0].parameterIndex).Undefined?
    requires !Truthy(Get(HeadersFor(cfg, b, args), ContentTypeKey))
    ensures var body := BodyFor(b, args);
      && ContentTypeFor(HeadersFor(cfg, b, args), body) == Str(TextType)
      && SerializedBody(HeadersFor(cfg, b, args), body) == Json(Arg(args, b.bodyParams[0].parameterIndex))
  {
  }

  /** With a declared Content-Type of exactly application/json, the already
      encoded body is encoded a second time: the text sent is a JSON string
      literal whose content is the argument's JSON text. */
  lemma DeclaredJsonEncodesTwice(cfg: ClientConfig, b: MethodBinding, args: seq<JsValue>)
    requires |b.bodyParams| > 0 && !Arg(args, b.bodyParams[0].parameterIndex).Undefined?
    requires Get(HeadersFor(cfg, b, args), ContentTypeKey) == Str(JsonType)
    ensures var text := Json(Arg(args, b.bodyParams[0].parameterIndex)).value;
      SerializedBody(HeadersFor(cfg, b, args), BodyFor(b, args)) == Some(JsonQuote(text))
  {
  }
}
