/** The JavaScript values that flow through request assembly, with the
    conversions the code applies to them: truthiness, `typeof v === 'object'`,
    `v instanceof Object`, String(v) and JSON.stringify(v).
    Numbers are integers here; see README for what that leaves out. */
module JsValues {
  import opened Strings

  datatype Option<+T> = None | Some(value: T)

  /** One own property of a plain object, in insertion order. */
  datatype Prop = Prop(name: string, value: JsValue)

  datatype JsValue =
    | Undefined
    | Null
    | Bool(b: bool)
    | Num(n: int)
    | Str(s: string)
    | Arr(items: seq<JsValue>)
    | Obj(props: seq<Prop>)

  /** JavaScript's ToBoolean: the values `if (v)` accepts. */
  predicate Truthy(v: JsValue)
  {
    match v
    case Undefined => false
    case Null => false
    case Bool(b) => b
    case Num(n) => n != 0
    case Str(s) => s != ""
    case Arr(_) => true
    case Obj(_) => true
  }

  /** `typeof v === 'object'` (true of null as well). */
  predicate TypeofObject(v: JsValue)
  {
    v.Null? || v.Arr? || v.Obj?
  }

  /** `v instanceof Object` (false of null). */
  predicate InstanceOfObject(v: JsValue)
  {
    v.Arr? || v.Obj?
  }

  function DigitText(d: nat): (r: string)
    requires d < 10
  {
    ["0123456789"[d]]
  }

  /** The decimal text of a non-negative integer. */
  function NatText(n: nat): (r: string)
    ensures |r| > 0
    ensures forall i :: 0 <= i < |r| ==> '0' <= r[i] <= '9'
  {
    if n < 10 then DigitText(n) else NatText(n / 10) + DigitText(n % 10)
  }

  /** Number.prototype.toString() of an integer. */
  function IntText(n: int): (r: string)
    ensures |r| > 0
  {
    if n < 0 then "-" + NatText(-n) else NatText(n)
  }

  function HexLower(d: nat): char
    requires d < 16
  {
    "0123456789abcdef"[d]
  }

  /** How JSON.stringify writes one character of a string (QuoteJSONString). */
  function JsonEscape(c: char): string
  {
    var code := c as int;
    if c == '"' then "\\\""
    else if c == '\\' then "\\\\"
    else if code == 8 then "\\b"
    else if code == 9 then "\\t"
    else if code == 10 then "\\n"
    else if code == 12 then "\\f"
    else if code == 13 then "\\r"
    else if code < 32 then "\\u00" + [HexLower(code / 16), HexLower(code % 16)]
    else [c]
  }

  function JsonEscapeAll(s: string): string
  {
    if |s| == 0 then "" else JsonEscape(s[0]) + JsonEscapeAll(s[1..])
  }

  /** JSON.stringify of a string: the escaped text between double quotes. */
  function JsonQuote(s: string): (r: string)
    ensures |r| >= 2 && r[0] == '"'
  {
    "\"" + JsonEscapeAll(s) + "\""
  }

  /** The `"name":value` members of an object, skipping undefined values. */
  function JsonMembers(names: seq<string>, texts: seq<Option<string>>): seq<string>
    requires |names| == |texts|
  {
    if |names| == 0 then []
    else
      var rest := JsonMembers(names[1..], texts[1..]);
      match texts[0]
      case None => rest
      case Some(t) => [JsonQuote(names[0]) + ":" + t] + rest
  }

  /** JSON.stringify(v): undefined for undefined, otherwise the JSON text.
      Inside an array an undefined element is written as null. */
  function Json(v: JsValue): (r: Option<string>)
    ensures r.Some? <==> !v.Undefined?
    ensures r.Some? ==> |r.value| > 0
  {
    match v
    case Undefined => None
    case Null => Some("null")
    case Bool(b) => Some(if b then "true" else "false")
    case Num(n) => Some(IntText(n))
    case Str(s) => Some(JsonQuote(s))
    case Arr(items) =>
      var texts := seq(|items|, i requires 0 <= i < |items| =>
        var t := Json(items[i]); if t.Some? then t.value else "null");
      Some("[" + Join(texts, ",") + "]")
    case Obj(props) =>
      var names := seq(|props|, i requires 0 <= i < |props| => props[i].name);
      var texts := seq(|props|, i requires 0 <= i < |props| => Json(props[i].value));
      Some("{" + Join(JsonMembers(names, texts), ",") + "}")
  }

  /** The value JSON.stringify(v) returns: a string, or undefined. */
  function JsonValue(v: JsValue): (r: JsValue)
    ensures r.Undefined? <==> v.Undefined?
    ensures !v.Undefined? ==> r.Str? && Truthy(r)
  {
    match Json(v)
    case None => Undefined
    case Some(t) => Str(t)
  }

  /** String(v). An array joins its elements with commas, writing null and
      undefined elements as empty text. */
  function ToText(v: JsValue): string
  {
    match v
    case Undefined => "undefined"
    case Null => "null"
    case Bool(b) => if b then "true" else "false"
    case Num(n) => IntText(n)
    case Str(s) => s
    case Arr(items) =>
      Join(seq(|items|, i requires 0 <= i < |items| =>
        if items[i].Undefined? || items[i].Null? then "" else ToText(items[i])), ",")
    case Obj(_) => "[object Object]"
  }
}
