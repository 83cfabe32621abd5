/** The query-string encoding of http-request-options.ts: encodeURIComponent
    (ECMA-262 6th edition, section 18.2.6.5) followed by nine global,
    case-insensitive replacements that turn `%40 %3A %24 %2C %3B %2B %3D %3F %2F`
    back into `@ : $ , ; + = ? /`. Characters are Unicode scalar values, so
    every string here is well-formed UTF-16 and encodeURIComponent never throws. */
module UriEncoding {
  import opened Strings

  /** The characters encodeURIComponent leaves as they are. */
  predicate Unreserved(c: char)
  {
    || ('A' <= c <= 'Z') || ('a' <= c <= 'z') || ('0' <= c <= '9')
    || c == '-' || c == '_' || c == '.' || c == '!' || c == '~' || c == '*' || c == '\'' || c == '(' || c == ')'
  }

  /** The characters the query encoding turns back into literals. */
  predicate QuerySafe(c: char)
  {
    c == '@' || c == ':' || c == '$' || c == ',' || c == ';' || c == '+' || c == '=' || c == '?' || c == '/'
  }

  /** An upper-case hexadecimal digit. */
  function HexUpper(d: nat): (c: char)
    requires d < 16
    ensures c != '%' && !('a' <= c <= 'z') && IsHex(c)
  {
    if d < 10 then ('0' as int + d) as char else ('A' as int + d - 10) as char
  }

  /** One byte written as `%XY`. */
  function Escape(b: nat): (r: string)
    requires b < 256
    ensures |r| == 3 && r[0] == '%' && r[1] != '%' && r[2] != '%'
    ensures IsHex(r[1]) && IsHex(r[2])
  {
    ['%', HexUpper(b / 16), HexUpper(b % 16)]
  }

  /** The UTF-8 bytes of a character. */
  function Utf8(c: char): (bytes: seq<nat>)
    ensures 1 <= |bytes| <= 4
    ensures forall i :: 0 <= i < |bytes| ==> bytes[i] < 256
    ensures (c as int) < 128 ==> bytes == [c as int]
    ensures (c as int) >= 128 ==> forall i :: 0 <= i < |bytes| ==> 128 <= bytes[i]
  {
    var cp := c as int;
    if cp < 0x80 then [cp]
    else if cp < 0x800 then [0xC0 + cp / 0x40, 0x80 + cp % 0x40]
    else if cp < 0x10000 then [0xE0 + cp / 0x1000, 0x80 + (cp / 0x40) % 0x40, 0x80 + cp % 0x40]
    else [0xF0 + cp / 0x40000, 0x80 + (cp / 0x1000) % 0x40, 0x80 + (cp / 0x40) % 0x40, 0x80 + cp % 0x40]
  }

  /** A piece of encoded text: one character that is not `%`, or one `%XY` escape. */
  predicate PieceOk(p: string)
  {
    || (|p| == 1 && p[0] != '%')
    || (|p| == 3 && p[0] == '%' && p[1] != '%' && p[2] != '%')
  }

  function EscapeBytes(bytes: seq<nat>): (r: seq<string>)
    requires forall i :: 0 <= i < |bytes| ==> bytes[i] < 256
    ensures |r| == |bytes|
    ensures forall i :: 0 <= i < |r| ==> PieceOk(r[i]) && r[i] == Escape(bytes[i])
  {
    seq(|bytes|, i requires 0 <= i < |bytes| => Escape(bytes[i]))
  }

  /** What encodeURIComponent writes for one character, piece by piece. */
  function CharPieces(c: char): (r: seq<string>)
    ensures forall i :: 0 <= i < |r| ==> PieceOk(r[i])
  {
    if Unreserved(c) then [[c]] else EscapeBytes(Utf8(c))
  }

  function Pieces(s: string): (r: seq<string>)
    ensures forall i :: 0 <= i < |r| ==> PieceOk(r[i])
  {
    if |s| == 0 then [] else CharPieces(s[0]) + Pieces(s[1..])
  }

  /** encodeURIComponent(s) */
  function EncodeURIComponent(s: string): string
  {
    Concat(Pieces(s))
  }

  /** The case-insensitive comparison of the `i` regular-expression flag on ASCII letters. */
  function CaseFold(c: char): char
  {
    if 'a' <= c <= 'z' then (c as int - 32) as char else c
  }

  /** s.replace(/%HL/gi, lit): each occurrence of `%`, then hi, then lo (either
      case), found left to right without overlap, becomes `lit`. */
  function UnescapeAll(s: string, hi: char, lo: char, lit: char): string
  {
    if |s| == 0 then ""
    else if |s| >= 3 && s[0] == '%' && CaseFold(s[1]) == CaseFold(hi) && CaseFold(s[2]) == CaseFold(lo)
    then [lit] + UnescapeAll(s[3..], hi, lo, lit)
    else [s[0]] + UnescapeAll(s[1..], hi, lo, lit)
  }

  /** One `.replace(/%HL/gi, 'c')` step of the chain. */
  datatype Unescape = Unescape(hi: char, lo: char, lit: char)

  /** The replacements of standardQueryEncoding, in the order the code applies them. */
  const QueryUnescapes: seq<Unescape> := [
    Unescape('4', '0', '@'), Unescape('3', 'A', ':'), Unescape('2', '4', '$'),
    Unescape('2', 'C', ','), Unescape('3', 'B', ';'), Unescape('2', 'B', '+'),
    Unescape('3', 'D', '='), Unescape('3', 'F', '?'), Unescape('2', 'F', '/')]

  function UnescapeChain(s: string, steps: seq<Unescape>): string
    decreases |steps|
  {
    if |steps| == 0 then s
    else UnescapeChain(UnescapeAll(s, steps[0].hi, steps[0].lo, steps[0].lit), steps[1..])
  }

  /** standardQueryEncoding(v) */
  function StandardQueryEncoding(v: string): string
  {
    UnescapeChain(EncodeURIComponent(v), QueryUnescapes)
  }

  // ---------------------------------------------------------------------------
  // A character-by-character definition of the same encoding

  /** What the query encoding writes for one character. */
  function QueryChar(c: char): string
  {
    if Unreserved(c) || QuerySafe(c) then [c] else Concat(EscapeBytes(Utf8(c)))
  }

  function QueryEncodeRef(s: string): string
  {
    if |s| == 0 then "" else QueryChar(s[0]) + QueryEncodeRef(s[1..])
  }

  // ---------------------------------------------------------------------------
  // Proof that the replacement chain acts piece by piece

  function UnescapePiece(p: string, u: Unescape): (r: string)
    requires PieceOk(p) && u.lit != '%'
    ensures PieceOk(r)
  {
    if |p| == 3 && p[0] == '%' && CaseFold(p[1]) == CaseFold(u.hi) && CaseFold(p[2]) == CaseFold(u.lo)
    then [u.lit] else p
  }

  /** One replacement step treats a leading piece on its own. */
  lemma UnescapeFront(p: string, rest: string, u: Unescape)
    requires PieceOk(p) && u.lit != '%'
    ensures UnescapeAll(p + rest, u.hi, u.lo, u.lit) == UnescapePiece(p, u) + UnescapeAll(rest, u.hi, u.lo, u.lit)
  {
    var s := p + rest;
    var tail := UnescapeAll(rest, u.hi, u.lo, u.lit);
    if |p| == 1 {
      assert s[1..] == rest;
    } else if CaseFold(p[1]) == CaseFold(u.hi) && CaseFold(p[2]) == CaseFold(u.lo) {
      assert s[3..] == rest;
    } else {
      assert s[1..] == [p[1], p[2]] + rest;
      assert s[1..][1..] == [p[2]] + rest;
      assert s[1..][1..][1..] == rest;
      assert UnescapeAll([p[2]] + rest, u.hi, u.lo, u.lit) == [p[2]] + tail;
      assert UnescapeAll([p[1], p[2]] + rest, u.hi, u.lo, u.lit) == [p[1], p[2]] + tail;
    }
  }

  lemma {:induction false} UnescapeAllPieces(ps: seq<string>, u: Unescape)
    requires forall i :: 0 <= i < |ps| ==> PieceOk(ps[i])
    requires u.lit != '%'
    ensures UnescapeAll(Concat(ps), u.hi, u.lo, u.lit)
         == Concat(seq(|ps|, i requires 0 <= i < |ps| => UnescapePiece(ps[i], u)))
  {
    var mapped := seq(|ps|, i requires 0 <= i < |ps| => UnescapePiece(ps[i], u));
    if |ps| > 0 {
      UnescapeFront(ps[0], Concat(ps[1..]), u);
      UnescapeAllPieces(ps[1..], u);
      assert mapped[1..] == seq(|ps[1..]|, i requires 0 <= i < |ps[1..]| => UnescapePiece(ps[1..][i], u));
    }
  }

  function PieceThrough(p: string, steps: seq<Unescape>): (r: string)
    requires PieceOk(p)
    requires forall j :: 0 <= j < |steps| ==> steps[j].lit != '%'
    ensures PieceOk(r)
    decreases |steps|
  {
    if |steps| == 0 then p else PieceThrough(UnescapePiece(p, steps[0]), steps[1..])
  }

  /** Every piece passed through the whole chain. */
  function ThroughAll(ps: seq<string>, steps: seq<Unescape>): (r: seq<string>)
    requires forall i :: 0 <= i < |ps| ==> PieceOk(ps[i])
    requires forall j :: 0 <= j < |steps| ==> steps[j].lit != '%'
    ensures |r| == |ps|
    ensures forall i :: 0 <= i < |ps| ==> r[i] == PieceThrough(ps[i], steps)
  {
    seq(|ps|, i requires 0 <= i < |ps| => PieceThrough(ps[i], steps))
  }

  lemma {:induction false} ChainPieces(ps: seq<string>, steps: seq<Unescape>)
    requires forall i :: 0 <= i < |ps| ==> PieceOk(ps[i])
    requires forall j :: 0 <= j < |steps| ==> steps[j].lit != '%'
    ensures UnescapeChain(Concat(ps), steps) == Concat(ThroughAll(ps, steps))
    decreases |steps|
  {
    if |steps| > 0 {
      var u := steps[0];
      var mapped := seq(|ps|, i requires 0 <= i < |ps| => UnescapePiece(ps[i], u));
      UnescapeAllPieces(ps, u);
      ChainPieces(mapped, steps[1..]);
      assert ThroughAll(ps, steps) == ThroughAll(mapped, steps[1..]);
    } else {
      assert ThroughAll(ps, steps) == ps;
    }
  }

  /** A step that replaces the escape of its own character. */
  predicate StepFor(u: Unescape)
  {
    && u.lit as int < 128 && u.lit != '%'
    && u.hi == HexUpper(u.lit as int / 16) && u.lo == HexUpper(u.lit as int % 16)
  }

  predicate AllStepsFor(steps: seq<Unescape>)
    decreases |steps|
  {
    |steps| > 0 ==> StepFor(steps[0]) && AllStepsFor(steps[1..])
  }

  /** Some step of the chain turns the escape of byte b back into its character. */
  predicate Replaces(steps: seq<Unescape>, b: nat)
    decreases |steps|
  {
    |steps| > 0 && (steps[0].lit as int == b || Replaces(steps[1..], b))
  }

  lemma {:induction false} AllStepsForNoPercent(steps: seq<Unescape>)
    requires AllStepsFor(steps)
    ensures forall j :: 0 <= j < |steps| ==> steps[j].lit != '%'
    decreases |steps|
  {
    if |steps| > 0 {
      AllStepsForNoPercent(steps[1..]);
      assert forall j :: 1 <= j < |steps| ==> steps[j] == steps[1..][j - 1];
    }
  }

  lemma HexUpperInjective(d: nat, e: nat)
    requires d < 16 && e < 16 && HexUpper(d) == HexUpper(e)
    ensures d == e
  {
  }

  lemma {:induction false} SingleThrough(c: char, steps: seq<Unescape>)
    requires c != '%'
    requires forall j :: 0 <= j < |steps| ==> steps[j].lit != '%'
    ensures PieceThrough([c], steps) == [c]
    decreases |steps|
  {
    if |steps| > 0 {
      SingleThrough(c, steps[1..]);
    }
  }

  lemma {:induction false} EscapeThrough(b: nat, steps: seq<Unescape>)
    requires b < 256
    requires AllStepsFor(steps)
    ensures forall j :: 0 <= j < |steps| ==> steps[j].lit != '%'
    ensures PieceThrough(Escape(b), steps) == if Replaces(steps, b) then [b as char] else Escape(b)
    decreases |steps|
  {
    AllStepsForNoPercent(steps);
    if |steps| > 0 {
      var u := steps[0];
      var e := Escape(b);
      AllStepsForNoPercent(steps[1..]);
      if b == u.lit as int {
        assert UnescapePiece(e, u) == [u.lit];
        SingleThrough(u.lit, steps[1..]);
      } else {
        if CaseFold(e[1]) == CaseFold(u.hi) && CaseFold(e[2]) == CaseFold(u.lo) {
          HexUpperInjective(b / 16, u.lit as int / 16);
          HexUpperInjective(b % 16, u.lit as int % 16);
        }
        assert UnescapePiece(e, u) == e;
        EscapeThrough(b, steps[1..]);
      }
    }
  }

  /** A chain whose steps un-escape exactly the query-safe characters. */
  predicate QuerySteps(steps: seq<Unescape>)
  {
    && AllStepsFor(steps)
    && forall b: nat {:trigger Replaces(steps, b)} :: b < 128 ==> (Replaces(steps, b) <==> QuerySafe(b as char))
  }

  lemma QueryUnescapesAreQuerySteps()
    ensures QuerySteps(QueryUnescapes)
  {
  }

  lemma {:induction false} CharThroughChain(c: char, steps: seq<Unescape>)
    requires QuerySteps(steps)
    ensures forall j :: 0 <= j < |steps| ==> steps[j].lit != '%'
    ensures Concat(ThroughAll(CharPieces(c), steps)) == QueryChar(c)
  {
    AllStepsForNoPercent(steps);
    var ps := CharPieces(c);
    var mapped := ThroughAll(ps, steps);
    if Unreserved(c) {
      assert c != '%';
      SingleThrough(c, steps);
      assert mapped == [[c]];
    } else if (c as int) < 128 {
      var b := c as int;
      assert ps == [Escape(b)];
      EscapeThrough(b, steps);
      assert (b as char) == c;
      assert Replaces(steps, b) <==> QuerySafe(c);
      assert mapped == [QueryChar(c)];
    } else {
      var bytes := Utf8(c);
      assert !QuerySafe(c);
      assert ps == EscapeBytes(bytes);
      forall i | 0 <= i < |ps| ensures mapped[i] == ps[i] {
        assert ps[i] == Escape(bytes[i]);
        EscapeThrough(bytes[i], steps);
        ReplacesOnlyAscii(steps, bytes[i]);
      }
      assert mapped == ps;
    }
  }

  lemma {:induction false} ReplacesOnlyAscii(steps: seq<Unescape>, b: nat)
    requires AllStepsFor(steps) && b >= 128
    ensures !Replaces(steps, b)
    decreases |steps|
  {
    if |steps| > 0 {
      ReplacesOnlyAscii(steps[1..], b);
    }
  }

  lemma {:induction false} ThroughAllAppend(a: seq<string>, b: seq<string>, steps: seq<Unescape>)
    requires forall i :: 0 <= i < |a| ==> PieceOk(a[i])
    requires forall i :: 0 <= i < |b| ==> PieceOk(b[i])
    requires forall j :: 0 <= j < |steps| ==> steps[j].lit != '%'
    ensures ThroughAll(a + b, steps) == ThroughAll(a, steps) + ThroughAll(b, steps)
  {
  }

  lemma {:induction false} PerCharacter(s: string, steps: seq<Unescape>)
    requires QuerySteps(steps)
    ensures forall j :: 0 <= j < |steps| ==> steps[j].lit != '%'
    ensures Concat(ThroughAll(Pieces(s), steps)) == QueryEncodeRef(s)
  {
    AllStepsForNoPercent(steps);
    if |s| > 0 {
      var head, tail := CharPieces(s[0]), Pieces(s[1..]);
      assert Pieces(s) == head + tail;
      ThroughAllAppend(head, tail, steps);
      ConcatAppend(ThroughAll(head, steps), ThroughAll(tail, steps));
      CharThroughChain(s[0], steps);
      PerCharacter(s[1..], steps);
    }
  }

  lemma {:induction false} ChainIsPerCharacter(s: string, steps: seq<Unescape>)
    requires QuerySteps(steps)
    ensures UnescapeChain(EncodeURIComponent(s), steps) == QueryEncodeRef(s)
  {
    AllStepsForNoPercent(steps);
    ChainPieces(Pieces(s), steps);
    PerCharacter(s, steps);
  }

  /** The replacement chain equals the character-by-character definition:
      unreserved characters and `@ : $ , ; + = ? /` stay as they are, every
      other character becomes the `%XY` escapes of its UTF-8 bytes. */
  lemma {:induction false} QueryEncodingIsPerCharacter(s: string)
    ensures StandardQueryEncoding(s) == QueryEncodeRef(s)
  {
    QueryUnescapesAreQuerySteps();
    ChainIsPerCharacter(s, QueryUnescapes);
  }

  // ---------------------------------------------------------------------------
  // Properties of the encoding

  /** Text made only of characters the query encoding writes as they are. */
  predicate KeptAsIs(s: string)
  {
    forall i :: 0 <= i < |s| ==> Unreserved(s[i]) || QuerySafe(s[i])
  }

  lemma KeptAsIsAppend(s: string, t: string)
    requires KeptAsIs(s) && KeptAsIs(t)
    ensures KeptAsIs(s + t)
  {
    assert forall i :: |s| <= i < |s + t| ==> (s + t)[i] == t[i - |s|];
  }

  /** A string of unreserved and query-safe characters is left as it is. */
  lemma {:induction false} SafeTextUnchanged(s: string)
    requires KeptAsIs(s)
    ensures StandardQueryEncoding(s) == s
  {
    QueryEncodingIsPerCharacter(s);
    SafeRef(s);
  }

  lemma {:induction false} SafeRef(s: string)
    requires forall i :: 0 <= i < |s| ==> Unreserved(s[i]) || QuerySafe(s[i])
    ensures QueryEncodeRef(s) == s
  {
    if |s| > 0 {
      SafeRef(s[1..]);
    }
  }

  /** An ASCII character that is neither unreserved nor query-safe is written
      as its `%XY` escape, upper-case hexadecimal digits. */
  lemma {:induction false} EscapedAscii(c: char)
    requires (c as int) < 128 && !Unreserved(c) && !QuerySafe(c)
    ensures StandardQueryEncoding([c]) == Escape(c as int)
  {
    QueryEncodingIsPerCharacter([c]);
    assert QueryEncodeRef([c]) == QueryChar(c) + QueryEncodeRef([]);
  }

  /** A space is written `%20` and an ampersand `%26`. */
  lemma SpaceAndAmpersand()
    ensures StandardQueryEncoding(" ") == "%20"
    ensures StandardQueryEncoding("&") == "%26"
  {
    EscapedAscii(' ');
    assert ' ' as int == 32 && 32 / 16 == 2 && 32 % 16 == 0;
    EscapedAscii('&');
    assert '&' as int == 38 && 38 / 16 == 2 && 38 % 16 == 6;
  }

  /** `1+5=6` is sent as it is: `+` and `=` are turned back into literals. */
  lemma PlusAndEqualsKept()
    ensures StandardQueryEncoding("1+5=6") == "1+5=6"
  {
    SafeTextUnchanged("1+5=6");
  }

  /** No encoded text contains `&`, so `&` can separate encoded pairs. */
  lemma {:induction false} NoAmpersand(s: string)
    ensures '&' !in StandardQueryEncoding(s)
  {
    QueryEncodingIsPerCharacter(s);
    RefAvoids(s, '&');
  }

  /** A character that is neither `%` nor a hexadecimal digit appears in the
      encoding only where it appeared, unescaped, in the text. */
  lemma {:induction false} AbsentStaysAbsent(s: string, c: char)
    requires c != '%' && !IsHex(c) && c !in s
    ensures c !in StandardQueryEncoding(s)
  {
    QueryEncodingIsPerCharacter(s);
    RefAvoids(s, c);
  }

  /** The reference encoding contains c only as a character kept from s. */
  lemma {:induction false} RefAvoids(s: string, c: char)
    requires c != '%' && !IsHex(c)
    ensures c in QueryEncodeRef(s) ==> c in s && (Unreserved(c) || QuerySafe(c))
  {
    if |s| > 0 {
      var c0 := s[0];
      if !(Unreserved(c0) || QuerySafe(c0)) {
        ConcatEscapesAvoid(EscapeBytes(Utf8(c0)), c);
      }
      RefAvoids(s[1..], c);
      assert QueryEncodeRef(s) == QueryChar(c0) + QueryEncodeRef(s[1..]);
    }
  }

  lemma {:induction false} ConcatEscapesAvoid(es: seq<string>, c: char)
    requires forall i :: 0 <= i < |es| ==> |es[i]| == 3 && es[i][0] == '%' && IsHex(es[i][1]) && IsHex(es[i][2])
    requires c != '%' && !IsHex(c)
    ensures c !in Concat(es)
  {
    if |es| > 0 {
      ConcatEscapesAvoid(es[1..], c);
    }
  }

  // ---------------------------------------------------------------------------
  // Decoding: the query encoding is reversible on ASCII text

  predicate IsHex(c: char)
  {
    ('0' <= c <= '9') || ('A' <= c <= 'F') || ('a' <= c <= 'f')
  }

  function HexValue(c: char): (d: nat)
    requires IsHex(c)
    ensures d < 16
  {
    if '0' <= c <= '9' then c as int - '0' as int
    else if 'A' <= c <= 'F' then c as int - 'A' as int + 10
    else c as int - 'a' as int + 10
  }

  /** decodeURIComponent restricted to escapes of ASCII characters. */
  function PercentDecode(s: string): string
  {
    if |s| == 0 then ""
    else if |s| >= 3 && s[0] == '%' && IsHex(s[1]) && IsHex(s[2])
    then [(HexValue(s[1]) * 16 + HexValue(s[2])) as char] + PercentDecode(s[3..])
    else [s[0]] + PercentDecode(s[1..])
  }

  /** Decoding the query encoding of ASCII text gives the text back. */
  lemma {:induction false} DecodeInvertsEncoding(s: string)
    requires forall i :: 0 <= i < |s| ==> (s[i] as int) < 128
    ensures PercentDecode(StandardQueryEncoding(s)) == s
  {
    QueryEncodingIsPerCharacter(s);
    DecodeRef(s);
  }

  lemma {:induction false} DecodeRef(s: string)
    requires forall i :: 0 <= i < |s| ==> (s[i] as int) < 128
    ensures PercentDecode(QueryEncodeRef(s)) == s
  {
    if |s| > 0 {
      var c := s[0];
      var rest := QueryEncodeRef(s[1..]);
      var e := QueryChar(c) + rest;
      DecodeRef(s[1..]);
      if Unreserved(c) || QuerySafe(c) {
        assert e[1..] == rest;
      } else {
        var b := c as int;
        assert QueryChar(c) == Escape(b);
        assert HexValue(HexUpper(b / 16)) == b / 16;
        assert HexValue(HexUpper(b % 16)) == b % 16;
        assert e[3..] == rest;
      }
    }
  }

  /** Distinct ASCII texts have distinct encodings. */
  lemma EncodingInjective(s: string, t: string)
    requires forall i :: 0 <= i < |s| ==> (s[i] as int) < 128
    requires forall i :: 0 <= i < |t| ==> (t[i] as int) < 128
    requires StandardQueryEncoding(s) == StandardQueryEncoding(t)
    ensures s == t
  {
    DecodeInvertsEncoding(s);
    DecodeInvertsEncoding(t);
  }
}
