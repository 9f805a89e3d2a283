/**
 * `JSON.stringify` and `JSON.parse` over the value model, as the cache
 * layer uses them: values are stored as JSON text and read back. The
 * encoder follows the standard rules (an `undefined` array element becomes
 * `null`, an `undefined` property is left out, `JSON.stringify(undefined)`
 * gives `undefined`). The parser accepts JSON text, except numbers with a
 * fraction or exponent and `\u` escapes of surrogate halves (see README).
 */
module Json {
  import opened Options
  import opened Dicts
  import opened Strings
  import opened JsValues
  import opened Sequences

  // ---------------------------------------------------------------------
  // Encoding

  /** The lower-case hexadecimal digit for `d`. */
  function HexDigit(d: nat): char
    requires d < 16
  {
    if d < 10 then ('0' as int + d) as char else ('a' as int + d - 10) as char
  }

  /** The escape sequence `JSON.stringify` writes for one character of a string. */
  function EscChar(c: char): string {
    if c == '"' then "\\\""
    else if c == '\\' then "\\\\"
    else if c == '\U{8}' then "\\b"
    else if c == '\U{C}' then "\\f"
    else if c == '\n' then "\\n"
    else if c == '\r' then "\\r"
    else if c == '\t' then "\\t"
    else if c < ' ' then "\\u00" + [HexDigit(c as int / 16), HexDigit(c as int % 16)]
    else [c]
  }

  function EscapeStr(s: string): string {
    if |s| == 0 then "" else EscChar(s[0]) + EscapeStr(s[1..])
  }

  /** A JSON string literal. */
  function Quote(s: string): string {
    "\"" + EscapeStr(s) + "\""
  }

  /** The JSON text of a value that sits inside an array (where `undefined` becomes `null`). */
  function Enc(v: JsValue): string
    decreases v
  {
    match v
    case Undefined => "null"
    case Null => "null"
    case Bool(b) => if b then "true" else "false"
    case Num(n) => IntToString(n)
    case Str(s) => Quote(s)
    case Arr(es) => "[" + EncElems(es) + "]"
    case Obj(ps) => "{" + EncMembers(ps, true) + "}"
  }

  function EncElems(es: seq<JsValue>): string
    decreases es
  {
    if |es| == 0 then ""
    else if |es| == 1 then Enc(es[0])
    else Enc(es[0]) + "," + EncElems(es[1..])
  }

  /**
   * The members of an object, each but the first preceded by a comma
   * (`first` says whether one was written yet); properties whose value is
   * `undefined` are left out.
   */
  function EncMembers(ps: Dict<JsValue>, first: bool): string
    decreases ps
  {
    if |ps| == 0 then ""
    else if ps[0].1.Undefined? then EncMembers(ps[1..], first)
    else
      var p := ps[0];
      assert p in ps;
      var x := p.1;
      assert x < p;
      (if first then "" else ",") + Quote(p.0) + ":" + Enc(x) + EncMembers(ps[1..], false)
  }

  /** `JSON.stringify(v)`: `None` where JavaScript returns `undefined`. */
  function Stringify(v: JsValue): (r: Option<string>)
    ensures r.None? <==> v.Undefined?
    ensures r.Some? ==> r.value != ""
  {
    if v.Undefined? then None else Some(Enc(v))
  }

  // ---------------------------------------------------------------------
  // Decoding

  predicate IsWs(c: char) {
    c == ' ' || c == '\t' || c == '\n' || c == '\r'
  }

  function SkipWs(s: string): (r: string)
    ensures |r| <= |s|
    decreases |s|
  {
    if |s| > 0 && IsWs(s[0]) then SkipWs(s[1..]) else s
  }

  function HexVal(c: char): int {
    if '0' <= c <= '9' then c as int - '0' as int
    else if 'a' <= c <= 'f' then c as int - 'a' as int + 10
    else if 'A' <= c <= 'F' then c as int - 'A' as int + 10
    else -1
  }

  /** The value of four hexadecimal digits, or -1. */
  function Hex4(s: string): int
    requires |s| >= 4
  {
    var a, b, c, d := HexVal(s[0]), HexVal(s[1]), HexVal(s[2]), HexVal(s[3]);
    if a < 0 || b < 0 || c < 0 || d < 0 then -1 else ((a * 16 + b) * 16 + c) * 16 + d
  }

  /** The character a two-character escape `\\e` stands for, if `e` is one. */
  function Unescaped(e: char): Option<char> {
    if e == '"' || e == '\\' || e == '/' then Some(e)
    else if e == 'b' then Some('\U{8}')
    else if e == 'f' then Some('\U{C}')
    else if e == 'n' then Some('\n')
    else if e == 'r' then Some('\r')
    else if e == 't' then Some('\t')
    else None
  }

  /** The body of a string literal after its opening quote; `acc` holds what was read so far. */
  function ParseStr(s: string, acc: string): (r: Option<(string, string)>)
    ensures r.Some? ==> |r.value.1| < |s|
    decreases |s|
  {
    if |s| == 0 then None
    else if s[0] == '"' then Some((acc, s[1..]))
    else if s[0] == '\\' then
      if |s| < 2 then None
      else if s[1] == 'u' then
        if |s| < 6 then None
        else
          var code := Hex4(s[2..6]);
          if code < 0 || 0xD800 <= code <= 0xDFFF then None
          else ParseStr(s[6..], acc + [code as char])
      else match Unescaped(s[1])
        case None => None
        case Some(c) => ParseStr(s[2..], acc + [c])
    else if s[0] < ' ' then None
    else ParseStr(s[1..], acc + [s[0]])
  }

  /** The length of the run of decimal digits that starts `s`. */
  function DigitRun(s: string): (n: nat)
    ensures n <= |s|
  {
    if |s| > 0 && IsDigit(s[0]) then 1 + DigitRun(s[1..]) else 0
  }

  function DigitVal(c: char): nat {
    if IsDigit(c) then c as int - '0' as int else 0
  }

  /** The number a string of decimal digits denotes, read from its last digit. */
  function DigitsValue(d: string): nat {
    if |d| == 0 then 0 else DigitsValue(d[..|d| - 1]) * 10 + DigitVal(d[|d| - 1])
  }

  /** A digit run without a leading zero (or a single `0`), not followed by a fraction or exponent. */
  function ParseUnsigned(u: string): (r: Option<(nat, string)>)
    ensures r.Some? ==> |r.value.1| < |u|
  {
    if |u| == 0 || !IsDigit(u[0]) then None
    else
      var n := if u[0] == '0' then 1 else DigitRun(u);
      var rest := u[n..];
      if |rest| > 0 && (rest[0] == '.' || rest[0] == 'e' || rest[0] == 'E') then None
      else Some((DigitsValue(u[..n]), rest))
  }

  /** An integer literal: an optional minus, then an unsigned digit run. */
  function ParseNumber(t: string): (r: Option<(JsValue, string)>)
    ensures r.Some? ==> |r.value.1| < |t|
  {
    var neg := |t| > 0 && t[0] == '-';
    match ParseUnsigned(if neg then t[1..] else t)
    case None => None
    case Some((m, rest)) => Some((Num(if neg then -(m as int) else m), rest))
  }

  /** One JSON value at the start of `s`, after any white space, and the text after it. */
  function ParseValue(s: string): (r: Option<(JsValue, string)>)
    ensures r.Some? ==> |r.value.1| < |s| && !r.value.0.Undefined?
    decreases |s|, 2
  {
    ParseToken(SkipWs(s))
  }

  /** One JSON value starting at the first character of `t`. */
  function ParseToken(t: string): (r: Option<(JsValue, string)>)
    ensures r.Some? ==> |r.value.1| < |t| && !r.value.0.Undefined?
    decreases |t|, 1
  {
    if |t| == 0 then None
    else if t[0] == 'n' then (if StartsWith(t, "null") then Some((Null, t[4..])) else None)
    else if t[0] == 't' then (if StartsWith(t, "true") then Some((Bool(true), t[4..])) else None)
    else if t[0] == 'f' then (if StartsWith(t, "false") then Some((Bool(false), t[5..])) else None)
    else if t[0] == '"' then
      (match ParseStr(t[1..], "")
       case Some((str, rest)) => Some((Str(str), rest))
       case None => None)
    else if t[0] == '[' then ParseArray(t[1..])
    else if t[0] == '{' then ParseObject(t[1..])
    else ParseNumber(t)
  }

  /** The rest of an array after its `[`. */
  function ParseArray(s: string): (r: Option<(JsValue, string)>)
    ensures r.Some? ==> |r.value.1| < |s| && r.value.0.Arr?
    decreases |s|, 5
  {
    var t := SkipWs(s);
    if |t| > 0 && t[0] == ']' then Some((Arr([]), t[1..])) else ParseElems(t, [])
  }

  /** Array elements, each followed by `,` or the closing `]`; `acc` holds the elements read so far. */
  function ParseElems(s: string, acc: seq<JsValue>): (r: Option<(JsValue, string)>)
    ensures r.Some? ==> |r.value.1| < |s| && r.value.0.Arr?
    decreases |s|, 3
  {
    match ParseValue(s)
    case None => None
    case Some((v, rest)) =>
      var t := SkipWs(rest);
      if |t| == 0 then None
      else if t[0] == ',' then ParseElems(t[1..], acc + [v])
      else if t[0] == ']' then Some((Arr(acc + [v]), t[1..]))
      else None
  }

  /** The rest of an object after its `{`. */
  function ParseObject(s: string): (r: Option<(JsValue, string)>)
    ensures r.Some? ==> |r.value.1| < |s| && r.value.0.Obj?
    decreases |s|, 5
  {
    var t := SkipWs(s);
    if |t| > 0 && t[0] == '}' then Some((Obj([]), t[1..])) else ParseMembers(t, [])
  }

  /** One member `"key": value` at the start of `s` (after white space), and the text after it. */
  function ParseMember(s: string): (r: Option<(string, JsValue, string)>)
    ensures r.Some? ==> |r.value.2| < |s|
    decreases |s|, 3
  {
    var t := SkipWs(s);
    if |t| == 0 || t[0] != '"' then None
    else match ParseStr(t[1..], "")
      case None => None
      case Some((key, r1)) =>
        var t1 := SkipWs(r1);
        if |t1| == 0 || t1[0] != ':' then None
        else match ParseValue(t1[1..])
          case None => None
          case Some((v, r2)) => Some((key, v, r2))
  }

  /**
   * Object members, each followed by `,` or the closing `}`; `acc` holds
   * the members read so far. A repeated key keeps its first position and
   * takes the last value.
   */
  function ParseMembers(s: string, acc: Dict<JsValue>): (r: Option<(JsValue, string)>)
    ensures r.Some? ==> |r.value.1| < |s| && r.value.0.Obj?
    decreases |s|, 4
  {
    match ParseMember(s)
    case None => None
    case Some((key, v, r2)) =>
      var acc' := Put(acc, key, v);
      var t2 := SkipWs(r2);
      if |t2| == 0 then None
      else if t2[0] == ',' then ParseMembers(t2[1..], acc')
      else if t2[0] == '}' then Some((Obj(acc'), t2[1..]))
      else None
  }

  /** `JSON.parse(s)`: `None` where JavaScript throws a SyntaxError. */
  function Parse(s: string): (r: Option<JsValue>)
    ensures SkipWs(s) == "" ==> r.None?
    ensures r.Some? ==> !r.value.Undefined?
  {
    match ParseValue(s)
    case None => None
    case Some((v, rest)) => if SkipWs(rest) == "" then Some(v) else None
  }

  // ---------------------------------------------------------------------
  // The round trip

  /** Values that survive `JSON.stringify` unchanged: no `undefined` anywhere, unique keys. */
  predicate Serializable(v: JsValue)
    decreases v
  {
    match v
    case Undefined => false
    case Arr(es) => AllSerializable(es)
    case Obj(ps) => UniqueKeys(ps) && MembersSerializable(ps)
    case _ => true
  }

  predicate AllSerializable(es: seq<JsValue>)
    decreases es
  {
    |es| == 0 || (Serializable(es[0]) && AllSerializable(es[1..]))
  }

  predicate MembersSerializable(ps: Dict<JsValue>)
    decreases ps
  {
    |ps| == 0 ||
      (var p := ps[0];
       assert p in ps;
       var x := p.1;
       assert x < p;
       Serializable(x) && MembersSerializable(ps[1..]))
  }

  /** What may follow a value inside JSON text without changing how it is read. */
  predicate Delimited(rest: string) {
    |rest| == 0 || rest[0] == ',' || rest[0] == ']' || rest[0] == '}'
  }

  lemma {:induction false} DigitRunAppend(p: string, rest: string)
    requires forall i :: 0 <= i < |p| ==> IsDigit(p[i])
    requires |rest| == 0 || !IsDigit(rest[0])
    ensures DigitRun(p + rest) == |p|
  {
    if |p| > 0 {
      assert (p + rest)[1..] == p[1..] + rest;
      DigitRunAppend(p[1..], rest);
    } else {
      assert p + rest == rest;
    }
  }

  lemma {:induction false} DigitsValueOfNat(k: nat)
    ensures DigitsValue(NatToString(k)) == k
  {
    var d := NatToString(k);
    if k >= 10 {
      DigitsValueOfNat(k / 10);
      assert d[..|d| - 1] == NatToString(k / 10);
    } else {
      assert d[..|d| - 1] == "";
    }
  }

  /** The digits of a natural number, read back. */
  lemma NatRoundTrip(k: nat, rest: string)
    requires Delimited(rest)
    ensures ParseUnsigned(NatToString(k) + rest) == Some((k, rest))
  {
    var d := NatToString(k);
    var u := d + rest;
    assert u[0] == d[0];
    DigitsValueOfNat(k);
    if d[0] == '0' {
      assert u[1..] == rest;
      assert u[..1] == d;
    } else {
      DigitRunAppend(d, rest);
      assert u[|d|..] == rest;
      assert u[..|d|] == d;
    }
  }

  lemma NumberRoundTrip(n: int, rest: string)
    requires Delimited(rest)
    ensures ParseNumber(IntToString(n) + rest) == Some((Num(n), rest))
  {
    var k: nat := if n < 0 then -n else n;
    var u := NatToString(k) + rest;
    NatRoundTrip(k, rest);
    if n < 0 {
      AppendAssoc("-", NatToString(k), rest);
      NegativeRead(u);
    } else {
      assert IsDigit(u[0]);
    }
  }

  /** A minus sign followed by a digit run is read as the negated number. */
  lemma NegativeRead(u: string)
    ensures ParseNumber("-" + u) ==
      match ParseUnsigned(u) case None => None case Some((m, r)) => Some((Num(-(m as int)), r))
  {
    assert ("-" + u)[1..] == u;
  }

  lemma EscCharRead(c: char, tail: string, acc: string)
    ensures ParseStr(EscChar(c) + tail, acc) == ParseStr(tail, acc + [c])
  {
    var e := EscChar(c) + tail;
    if c == '"' || c == '\\' || c == '\U{8}' || c == '\U{C}' || c == '\n' || c == '\r' || c == '\t' {
      assert e[2..] == tail;
    } else if c < ' ' {
      var hi, lo := c as int / 16, c as int % 16;
      assert e[2..6] == ['0', '0', HexDigit(hi), HexDigit(lo)];
      assert Hex4(e[2..6]) == c as int;
      assert e[6..] == tail;
    } else {
      assert e[1..] == tail;
    }
  }

  lemma {:induction false} EscapeRead(s: string, rest: string, acc: string)
    ensures ParseStr(EscapeStr(s) + "\"" + rest, acc) == Some((acc + s, rest))
  {
    if |s| == 0 {
      assert EscapeStr(s) + "\"" + rest == "\"" + rest;
      assert acc + s == acc;
    } else {
      var e, r := EscChar(s[0]), EscapeStr(s[1..]);
      var tail := r + "\"" + rest;
      assert EscapeStr(s) == e + r;
      AppendAssoc(e, r, "\"");
      AppendAssoc(e, r + "\"", rest);
      EscCharRead(s[0], tail, acc);
      EscapeRead(s[1..], rest, acc + [s[0]]);
      assert acc + [s[0]] + s[1..] == acc + s;
    }
  }

  lemma QuoteRead(s: string, rest: string)
    ensures Quote(s) + rest == "\"" + (EscapeStr(s) + "\"" + rest)
    ensures ParseStr(EscapeStr(s) + "\"" + rest, "") == Some((s, rest))
  {
    EscapeRead(s, rest, "");
    assert "" + s == s;
  }

  /** Encoded text never starts with white space, `]` or `}`. */
  lemma EncStart(v: JsValue)
    ensures |Enc(v)| > 0
    ensures !IsWs(Enc(v)[0]) && Enc(v)[0] != ']' && Enc(v)[0] != '}'
  {
    if v.Num? {
      var k: nat := if v.n < 0 then -v.n else v.n;
      assert IsDigit(NatToString(k)[0]);
    }
  }

  /** Encoded text never starts with white space, so reading it skips nothing. */
  lemma SkipNone(v: JsValue, rest: string)
    ensures ParseValue(Enc(v) + rest) == ParseToken(Enc(v) + rest)
  {
    EncStart(v);
    var s := Enc(v) + rest;
    assert s[0] == Enc(v)[0];
  }

  lemma LiteralRead(lit: string, v: JsValue, rest: string)
    requires (lit == "null" && v == Null) || (lit == "true" && v == Bool(true)) || (lit == "false" && v == Bool(false))
    ensures ParseToken(lit + rest) == Some((v, rest))
  {
    var s := lit + rest;
    assert s[..|lit|] == lit;
    assert s[|lit|..] == rest;
  }

  lemma NumberRead(n: int, rest: string)
    requires Delimited(rest)
    ensures ParseToken(IntToString(n) + rest) == Some((Num(n), rest))
  {
    NumberRoundTrip(n, rest);
    NumberStart(n, rest);
    TokenNumber(IntToString(n) + rest);
  }

  /** The text of a number starts with a minus sign or a digit. */
  lemma NumberStart(n: int, rest: string)
    ensures |IntToString(n) + rest| > 0
    ensures (IntToString(n) + rest)[0] == '-' || IsDigit((IntToString(n) + rest)[0])
  {
    var k: nat := if n < 0 then -n else n;
    assert IsDigit(NatToString(k)[0]);
  }

  /** Text that starts with a minus sign or a digit is read as a number. */
  lemma TokenNumber(t: string)
    requires |t| > 0 && (t[0] == '-' || IsDigit(t[0]))
    ensures ParseToken(t) == ParseNumber(t)
  {
    var c := t[0];
    assert c != 'n' && c != 't' && c != 'f' && c != '"' && c != '[' && c != '{';
  }

  lemma StringRead(str: string, rest: string)
    ensures ParseToken(Quote(str) + rest) == Some((Str(str), rest))
  {
    var s := Quote(str) + rest;
    QuoteRead(str, rest);
    assert s[1..] == EscapeStr(str) + "\"" + rest;
  }

  /** The encodings of `null`, booleans, numbers and strings are read back. */
  lemma ScalarRoundTrip(v: JsValue, rest: string)
    requires v.Null? || v.Bool? || v.Num? || v.Str?
    requires Delimited(rest)
    ensures ParseToken(Enc(v) + rest) == Some((v, rest))
  {
    match v
    case Null => LiteralRead("null", v, rest);
    case Bool(b) => if b { LiteralRead("true", v, rest); } else { LiteralRead("false", v, rest); }
    case Num(n) => NumberRead(n, rest);
    case Str(str) => StringRead(str, rest);
  }

  lemma TokenArray(body: string)
    ensures ParseToken("[" + body) == ParseArray(body)
  {
    assert ("[" + body)[1..] == body;
  }

  lemma TokenObject(body: string)
    ensures ParseToken("{" + body) == ParseObject(body)
  {
    assert ("{" + body)[1..] == body;
  }

  /** Reading back the encoding of a serializable value yields the value and stops right after it. */
  lemma {:induction false} ValueRoundTrip(v: JsValue, rest: string)
    requires Serializable(v) && Delimited(rest)
    ensures ParseValue(Enc(v) + rest) == Some((v, rest))
    decreases v
  {
    SkipNone(v, rest);
    var s := Enc(v) + rest;
    match v
    case Arr(es) =>
      assert s == "[" + (EncElems(es) + "]" + rest);
      TokenArray(EncElems(es) + "]" + rest);
      ArrayRoundTrip(es, rest);
    case Obj(ps) =>
      assert s == "{" + (EncMembers(ps, true) + "}" + rest);
      TokenObject(EncMembers(ps, true) + "}" + rest);
      ObjectRoundTrip(ps, rest);
    case _ => ScalarRoundTrip(v, rest);
  }

  lemma {:induction false} ArrayRoundTrip(es: seq<JsValue>, rest: string)
    requires Delimited(rest)
    requires AllSerializable(es)
    ensures ParseArray(EncElems(es) + "]" + rest) == Some((Arr(es), rest))
    decreases es, 2
  {
    var body := EncElems(es) + "]" + rest;
    if |es| == 0 {
      assert body == "]" + rest;
    } else {
      ElemsRoundTrip(es, rest, []);
      EncStart(es[0]);
      assert EncElems(es)[0] == Enc(es[0])[0];
      assert SkipWs(body) == body;
      assert [] + es == es;
    }
  }

  lemma {:induction false} ObjectRoundTrip(ps: Dict<JsValue>, rest: string)
    requires Delimited(rest) && UniqueKeys(ps)
    requires MembersSerializable(ps)
    ensures ParseObject(EncMembers(ps, true) + "}" + rest) == Some((Obj(ps), rest))
    decreases ps, 2
  {
    var body := EncMembers(ps, true) + "}" + rest;
    if |ps| == 0 {
      assert body == "}" + rest;
    } else {
      assert [] + ps == ps;
      assert ps[0..] == ps && ps[..0] == [];
      MembersRoundTrip(ps, 0, rest);
      assert Serializable(ps[0].1);
      MembersStart(ps, rest);
    }
  }

  /** The text of members whose first value is defined starts with a quote. */
  lemma MembersStart(ps: Dict<JsValue>, rest: string)
    requires |ps| > 0 && !ps[0].1.Undefined?
    ensures SkipWs(EncMembers(ps, true) + "}" + rest) == EncMembers(ps, true) + "}" + rest
    ensures (EncMembers(ps, true) + "}" + rest)[0] == '"'
  {
    MembersText(ps, rest);
  }

  /** Reading the first element either closes the array or leaves the other elements to read. */
  lemma ElemsFirst(es: seq<JsValue>, rest: string, acc: seq<JsValue>)
    requires |es| >= 1 && Delimited(rest)
    requires AllSerializable(es)
    ensures ParseElems(EncElems(es) + "]" + rest, acc) ==
      if |es| == 1 then Some((Arr(acc + es), rest))
      else ParseElems(EncElems(es[1..]) + "]" + rest, acc + [es[0]])
    decreases es, 0
  {
    if |es| == 1 {
      AppendAssoc(Enc(es[0]), "]", rest);
      ValueRoundTrip(es[0], "]" + rest);
      assert ("]" + rest)[1..] == rest;
      assert acc + [es[0]] == acc + es;
    } else {
      var tail := EncElems(es[1..]) + "]" + rest;
      ElemsText(es, rest);
      ValueRoundTrip(es[0], "," + tail);
      assert ("," + tail)[1..] == tail;
    }
  }

  lemma {:induction false} ElemsRoundTrip(es: seq<JsValue>, rest: string, acc: seq<JsValue>)
    requires |es| >= 1 && Delimited(rest)
    requires AllSerializable(es)
    ensures ParseElems(EncElems(es) + "]" + rest, acc) == Some((Arr(acc + es), rest))
    decreases es, 1
  {
    ElemsFirst(es, rest, acc);
    if |es| > 1 {
      ElemsRoundTrip(es[1..], rest, acc + [es[0]]);
      assert acc + [es[0]] + es[1..] == acc + es;
    }
  }

  /** The text of two or more elements: the first, a comma, and the text of the others. */
  lemma ElemsText(es: seq<JsValue>, rest: string)
    requires |es| > 1
    ensures EncElems(es) + "]" + rest == Enc(es[0]) + ("," + (EncElems(es[1..]) + "]" + rest))
  {
    var e, t := Enc(es[0]), EncElems(es[1..]);
    assert EncElems(es) == e + "," + t;
    AppendAssoc(e, ",", t);
    AppendAssoc(e, "," + t, "]");
    AppendAssoc(e, "," + t + "]", rest);
    AppendAssoc(",", t, "]");
    AppendAssoc(",", t + "]", rest);
  }

  /** One member `"k":v` is read back, and reading stops right after it. */
  lemma {:induction false} MemberRead(p: (string, JsValue), after: string)
    requires Serializable(p.1) && Delimited(after)
    ensures ParseMember(Quote(p.0) + ":" + Enc(p.1) + after) == Some((p.0, p.1, after))
    decreases p
  {
    var k, v := p.0, p.1;
    AppendAssoc(Quote(k) + ":", Enc(v), after);
    MemberShape(k, Enc(v) + after);
    assert v < p;
    ValueRoundTrip(v, after);
  }

  /** A quoted key and a colon are read, and what follows is read as the member's value. */
  lemma MemberShape(k: string, x: string)
    ensures ParseMember(Quote(k) + ":" + x) ==
      match ParseValue(x) case None => None case Some((v, r2)) => Some((k, v, r2))
  {
    var r1 := ":" + x;
    var s := Quote(k) + ":" + x;
    AppendAssoc(Quote(k), ":", x);
    QuoteRead(k, r1);
    assert SkipWs(s) == s;
    assert s[1..] == EscapeStr(k) + "\"" + r1;
    assert SkipWs(r1) == r1;
    assert r1[1..] == x;
  }

  /** A key that comes later in a list with unique keys is not among the earlier keys. */
  lemma FreshKey(acc: Dict<JsValue>, ps: Dict<JsValue>)
    requires |ps| >= 1 && UniqueKeys(acc + ps)
    ensures ps[0].0 !in Keys(acc)
    ensures Put(acc, ps[0].0, ps[0].1) == acc + [ps[0]]
    ensures |ps| > 1 ==> UniqueKeys(acc + [ps[0]] + ps[1..])
  {
    assert acc + [ps[0]] + ps[1..] == acc + ps;
    forall i | 0 <= i < |acc| ensures acc[i].0 != ps[0].0 {
      assert (acc + ps)[i] == acc[i] && (acc + ps)[|acc|] == ps[0];
    }
  }

  /** After a member is read, the next separator decides whether reading goes on. */
  lemma MembersStep(s: string, acc: Dict<JsValue>, p: (string, JsValue), after: string)
    requires ParseMember(s) == Some((p.0, p.1, after))
    requires |after| > 0 && !IsWs(after[0])
    ensures ParseMembers(s, acc) ==
      if after[0] == ',' then ParseMembers(after[1..], Put(acc, p.0, p.1))
      else if after[0] == '}' then Some((Obj(Put(acc, p.0, p.1)), after[1..]))
      else None
  {
    assert SkipWs(after) == after;
  }

  /** What follows the first member: `,` and the next member, or the closing `}`. */
  lemma AfterMember(ps: Dict<JsValue>, rest: string)
    requires MembersSerializable(ps)
    ensures var after := EncMembers(ps, false) + "}" + rest;
      |after| > 0 && !IsWs(after[0]) && Delimited(after) &&
      (|ps| == 0 ==> after[1..] == rest) &&
      (|ps| > 0 ==> after[0] == ',' && after[1..] == EncMembers(ps, true) + "}" + rest)
  {
    if |ps| > 0 {
      assert Serializable(ps[0].1);
      EncMembersLater(ps);
      var m := EncMembers(ps, true);
      AppendAssoc(",", m, "}");
      AppendAssoc(",", m + "}", rest);
    } else {
      assert EncMembers(ps, false) == "";
      assert "" + "}" + rest == "}" + rest;
    }
  }

  /** A member that is not the first is written with a comma before it. */
  lemma EncMembersLater(ps: Dict<JsValue>)
    requires |ps| > 0 && !ps[0].1.Undefined?
    ensures EncMembers(ps, false) == "," + EncMembers(ps, true)
  {
    var q, e, r := Quote(ps[0].0), Enc(ps[0].1), EncMembers(ps[1..], false);
    assert EncMembers(ps, false) == "," + q + ":" + e + r;
    assert EncMembers(ps, true) == "" + q + ":" + e + r;
    assert "" + q == q;
    AppendAssoc(",", q, ":");
    AppendAssoc(",", q + ":", e);
    AppendAssoc(",", q + ":" + e, r);
  }

  /** The text of the members from the first one on: that member, then what follows it. */
  lemma MembersText(ps: Dict<JsValue>, rest: string)
    requires |ps| > 0 && !ps[0].1.Undefined?
    ensures EncMembers(ps, true) + "}" + rest ==
      Quote(ps[0].0) + ":" + Enc(ps[0].1) + (EncMembers(ps[1..], false) + "}" + rest)
  {
    var q, e, r := Quote(ps[0].0), Enc(ps[0].1), EncMembers(ps[1..], false);
    var h := q + ":" + e;
    assert EncMembers(ps, true) == "" + q + ":" + e + r;
    assert "" + q == q;
    AppendAssoc(h, r, "}");
    AppendAssoc(h, r + "}", rest);
  }

  /**
   * Reading the member at position `k` of `all`, with the members before it
   * already read, either closes the object or leaves the later members to read.
   */
  lemma MembersFirst(all: Dict<JsValue>, k: nat, rest: string)
    requires k < |all| && Delimited(rest)
    requires UniqueKeys(all)
    requires MembersSerializable(all[k..])
    ensures ParseMembers(EncMembers(all[k..], true) + "}" + rest, all[..k]) ==
      if k + 1 == |all| then Some((Obj(all), rest))
      else ParseMembers(EncMembers(all[k + 1..], true) + "}" + rest, all[..k + 1])
    ensures k + 1 < |all| ==> MembersSerializable(all[k + 1..])
    decreases all[k..], 0
  {
    var ps, acc := all[k..], all[..k];
    assert acc + ps == all;
    assert ps[1..] == all[k + 1..];
    assert acc + [ps[0]] == all[..k + 1];
    var p := ps[0];
    assert Serializable(p.1) && MembersSerializable(ps[1..]);
    var after := EncMembers(ps[1..], false) + "}" + rest;
    AfterMember(ps[1..], rest);
    assert p in ps;
    MemberRead(p, after);
    MembersText(ps, rest);
    MembersStep(EncMembers(ps, true) + "}" + rest, acc, p, after);
    FreshKey(acc, ps);
    if k + 1 == |all| {
      assert all[..k + 1] == all;
    }
  }

  /** Reading the members from position `k` on, with the ones before it already read, gives the object. */
  lemma {:induction false} MembersRoundTrip(all: Dict<JsValue>, k: nat, rest: string)
    requires k < |all| && Delimited(rest)
    requires UniqueKeys(all)
    requires MembersSerializable(all[k..])
    ensures ParseMembers(EncMembers(all[k..], true) + "}" + rest, all[..k]) == Some((Obj(all), rest))
    decreases all[k..], 1
  {
    MembersFirst(all, k, rest);
    if k + 1 < |all| {
      MembersRoundTrip(all, k + 1, rest);
    }
  }

  /** `JSON.parse(JSON.stringify(v))` gives back `v` for every serializable value. */
  lemma ParseStringify(v: JsValue)
    requires Serializable(v)
    ensures Stringify(v).Some? && Parse(Stringify(v).value) == Some(v)
  {
    ValueRoundTrip(v, "");
    assert Enc(v) + "" == Enc(v);
  }
}
