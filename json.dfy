/** The part of JSON the receipt-removal field travels through: the browser
    sends `JSON.stringify` of an array of id strings, and the server runs
    `JSON.parse` on whatever text arrives. `Parse` follows the JSON grammar
    (RFC 8259) as `JSON.parse` does; `StringifyStrings` is `JSON.stringify` on
    an array of strings. */
module Json {
  import opened Common

  datatype Json =
    | JNull
    | JBool(b: bool)
    | JNumber(text: string)
    | JString(s: string)
    | JArray(items: seq<Json>)
    | JObject(members: seq<(string, Json)>)

  /** The mantissa of a number literal (the text before any exponent) has no
      non-zero digit, so the number is 0 or -0. */
  predicate ZeroNumber(text: string)
    decreases |text|
  {
    text == [] || text[0] == 'e' || text[0] == 'E'
    || ((text[0] == '0' || text[0] == '-' || text[0] == '.') && ZeroNumber(text[1..]))
  }

  /** JavaScript truthiness of a parsed value. */
  predicate IsTruthy(v: Json)
  {
    match v
    case JNull => false
    case JBool(b) => b
    case JNumber(text) => !ZeroNumber(text)
    case JString(s) => s != ""
    case _ => true
  }

  /** The array of the given strings, as a JSON value. */
  function Strings(ids: seq<string>): (r: seq<Json>)
    ensures |r| == |ids|
    ensures forall i :: 0 <= i < |ids| ==> r[i] == JString(ids[i])
  {
    if ids == [] then [] else [JString(ids[0])] + Strings(ids[1..])
  }

  // ---------------------------------------------------------------------------
  // JSON.stringify of an array of strings

  function HexDigitLower(d: nat): (c: char)
    requires d < 16
  {
    if d < 10 then DigitChar(d) else (('a' as int) + d - 10) as char
  }

  /** The `u00hh` that follows the backslash in a `\u` escape. */
  function HexEscape(c: char): string
    requires c < ' '
  {
    ['u', '0', '0', HexDigitLower((c as int) / 16), HexDigitLower((c as int) % 16)]
  }

  /** The escape `JSON.stringify` writes for one character of a string. */
  function EscapeChar(c: char): string
  {
    if c == '"' then "\\\""
    else if c == '\\' then "\\\\"
    else if c == '\U{0008}' then "\\b"
    else if c == '\U{000C}' then "\\f"
    else if c == '\n' then "\\n"
    else if c == '\r' then "\\r"
    else if c == '\t' then "\\t"
    else if c < ' ' then ['\\'] + HexEscape(c)
    else [c]
  }

  function Escape(s: string): string
    decreases |s|
  {
    if s == [] then "" else EscapeChar(s[0]) + Escape(s[1..])
  }

  function Quote(s: string): string
  {
    "\"" + Escape(s) + "\""
  }

  function StringifyItems(ids: seq<string>): string
    decreases |ids|
  {
    if ids == [] then ""
    else if |ids| == 1 then Quote(ids[0])
    else Quote(ids[0]) + "," + StringifyItems(ids[1..])
  }

  /** `JSON.stringify(ids)` for an array of strings. */
  function StringifyStrings(ids: seq<string>): string
  {
    "[" + StringifyItems(ids) + "]"
  }

  // ---------------------------------------------------------------------------
  // JSON.parse

  predicate IsWs(c: char)
  {
    c == ' ' || c == '\t' || c == '\n' || c == '\r'
  }

  function SkipWs(s: string): (r: string)
    ensures |r| <= |s|
    decreases |s|
  {
    if s != [] && IsWs(s[0]) then SkipWs(s[1..]) else s
  }

  function HexVal(c: char): Option<nat>
  {
    if '0' <= c <= '9' then Some((c as int) - ('0' as int))
    else if 'a' <= c <= 'f' then Some((c as int) - ('a' as int) + 10)
    else if 'A' <= c <= 'F' then Some((c as int) - ('A' as int) + 10)
    else None
  }

  function Hex4(t: string): (r: Option<nat>)
    requires |t| == 4
    ensures r.Some? ==> r.value < 0x1_0000
  {
    match (HexVal(t[0]), HexVal(t[1]), HexVal(t[2]), HexVal(t[3]))
    case (Some(a), Some(b), Some(c), Some(d)) =>
      if a < 16 && b < 16 && c < 16 && d < 16 then Some(((a * 16 + b) * 16 + c) * 16 + d) else None
    case _ => None
  }

  function SurrogatePair(hi: nat, lo: nat): (c: char)
    requires 0xD800 <= hi <= 0xDBFF && 0xDC00 <= lo <= 0xDFFF
  {
    var h := hi - 0xD800;
    assert h * 0x400 <= 0x3FF * 0x400;
    (0x1_0000 + h * 0x400 + (lo - 0xDC00)) as char
  }

  /** The character a backslash escape stands for, and the text after it
      (`t` starts just after the backslash). */
  function Unescape(t: string): (r: Option<(char, string)>)
    ensures r.Some? ==> |r.value.1| < |t|
  {
    if t == [] then None
    else if t[0] == '"' || t[0] == '\\' || t[0] == '/' then Some((t[0], t[1..]))
    else if t[0] == 'b' then Some(('\U{0008}', t[1..]))
    else if t[0] == 'f' then Some(('\U{000C}', t[1..]))
    else if t[0] == 'n' then Some(('\n', t[1..]))
    else if t[0] == 'r' then Some(('\r', t[1..]))
    else if t[0] == 't' then Some(('\t', t[1..]))
    else if t[0] == 'u' && |t| >= 5 then
      match Hex4(t[1..5])
      case None => None
      case Some(code) =>
        if 0xD800 <= code <= 0xDBFF then
          if |t| >= 11 && t[5] == '\\' && t[6] == 'u' then
            match Hex4(t[7..11])
            case Some(lo) =>
              if 0xDC00 <= lo <= 0xDFFF then Some((SurrogatePair(code, lo), t[11..])) else None
            case None => None
          else None
        else if 0xDC00 <= code <= 0xDFFF then None
        else Some((code as char, t[5..]))
    else None
  }

  /** The body of a string literal up to its closing quote (`s` starts just
      after the opening quote); `acc` holds what was read so far. */
  function ParseString(s: string, acc: string): (r: Option<(string, string)>)
    ensures r.Some? ==> |r.value.1| < |s|
    decreases |s|
  {
    if s == [] then None
    else if s[0] == '"' then Some((acc, s[1..]))
    else if s[0] == '\\' then
      match Unescape(s[1..])
      case None => None
      case Some((c, rest)) => ParseString(rest, acc + [c])
    else if s[0] < ' ' then None
    else ParseString(s[1..], acc + [s[0]])
  }

  function LeadingDigits(s: string): (n: nat)
    ensures n <= |s| && AllDigits(s[..n])
    ensures n < |s| ==> !IsDigit(s[n])
    decreases |s|
  {
    if s != [] && IsDigit(s[0]) then
      var k := 1 + LeadingDigits(s[1..]);
      assert s[..k] == [s[0]] + s[1..][..k - 1];
      k
    else 0
  }

  /** The length of the number literal at the start of `s`, if there is one:
      `-? (0 | [1-9][0-9]*) (. [0-9]+)? ([eE] [+-]? [0-9]+)?`. */
  function NumberLength(s: string): (r: Option<nat>)
    ensures r.Some? ==> 0 < r.value <= |s|
  {
    var i0 := if s != [] && s[0] == '-' then 1 else 0;
    if i0 >= |s| || !IsDigit(s[i0]) then None
    else
      var i1 := if s[i0] == '0' then i0 + 1 else i0 + LeadingDigits(s[i0..]);
      if i1 < |s| && s[i1] == '.' && (i1 + 1 >= |s| || !IsDigit(s[i1 + 1])) then None
      else
        var i2 := if i1 < |s| && s[i1] == '.' then i1 + 1 + LeadingDigits(s[i1 + 1..]) else i1;
        if i2 < |s| && (s[i2] == 'e' || s[i2] == 'E') then
          var j := if i2 + 1 < |s| && (s[i2 + 1] == '+' || s[i2 + 1] == '-') then i2 + 2 else i2 + 1;
          if j >= |s| || !IsDigit(s[j]) then None
          else Some(j + LeadingDigits(s[j..]))
        else Some(i2)
  }

  /** One value at the start of `s` (no leading white space) and the text after it. */
  function ParseValue(s: string): (r: Option<(Json, string)>)
    ensures r.Some? ==> |r.value.1| < |s|
    decreases |s|, 0
  {
    if s == [] then None
    else if s[0] == '"' then
      match ParseString(s[1..], "")
      case Some((str, rest)) => Some((JString(str), rest))
      case None => None
    else if s[0] == '[' then ParseArray(s[1..])
    else if s[0] == '{' then ParseObject(s[1..])
    else if StartsWith(s, "true") then Some((JBool(true), s[4..]))
    else if StartsWith(s, "false") then Some((JBool(false), s[5..]))
    else if StartsWith(s, "null") then Some((JNull, s[4..]))
    else
      match NumberLength(s)
      case Some(n) => Some((JNumber(s[..n]), s[n..]))
      case None => None
  }

  /** An array after its opening bracket. */
  function ParseArray(s: string): (r: Option<(Json, string)>)
    ensures r.Some? ==> |r.value.1| < |s|
    decreases |s|, 2
  {
    var t := SkipWs(s);
    if t != [] && t[0] == ']' then Some((JArray([]), t[1..]))
    else ParseItems(t, [])
  }

  /** The elements of an array, each followed by `,` or the closing bracket. */
  function ParseItems(s: string, acc: seq<Json>): (r: Option<(Json, string)>)
    ensures r.Some? ==> |r.value.1| < |s|
    decreases |s|, 1
  {
    match ParseValue(SkipWs(s))
    case None => None
    case Some((v, rest)) =>
      var t := SkipWs(rest);
      if t != [] && t[0] == ',' then ParseItems(t[1..], acc + [v])
      else if t != [] && t[0] == ']' then Some((JArray(acc + [v]), t[1..]))
      else None
  }

  /** An object after its opening brace. */
  function ParseObject(s: string): (r: Option<(Json, string)>)
    ensures r.Some? ==> |r.value.1| < |s|
    decreases |s|, 2
  {
    var t := SkipWs(s);
    if t != [] && t[0] == '}' then Some((JObject([]), t[1..]))
    else ParseMembers(t, [])
  }

  /** The `"key": value` members of an object, each followed by `,` or the closing brace. */
  function ParseMembers(s: string, acc: seq<(string, Json)>): (r: Option<(Json, string)>)
    ensures r.Some? ==> |r.value.1| < |s|
    decreases |s|, 1
  {
    var t := SkipWs(s);
    if t == [] || t[0] != '"' then None
    else
      match ParseString(t[1..], "")
      case None => None
      case Some((key, r1)) =>
        var r2 := SkipWs(r1);
        if r2 == [] || r2[0] != ':' then None
        else
          match ParseValue(SkipWs(r2[1..]))
          case None => None
          case Some((v, r3)) =>
            var r4 := SkipWs(r3);
            if r4 != [] && r4[0] == ',' then ParseMembers(r4[1..], acc + [(key, v)])
            else if r4 != [] && r4[0] == '}' then Some((JObject(acc + [(key, v)]), r4[1..]))
            else None
  }

  /** `JSON.parse(text)`: one value with only white space around it; `None`
      stands for the `SyntaxError` it throws. */
  function Parse(text: string): Option<Json>
  {
    match ParseValue(SkipWs(text))
    case Some((v, rest)) => if SkipWs(rest) == [] then Some(v) else None
    case None => None
  }

  // ---------------------------------------------------------------------------
  // round trip

  lemma HexDigitRoundTrip(d: nat)
    requires d < 16
    ensures HexVal(HexDigitLower(d)) == Some(d)
  {
  }

  /** A backslash followed by an escape that reads as `c` adds `c`. */
  lemma BackslashStep(c: char, e: string, tail: string, acc: string)
    requires Unescape(e + tail) == Some((c, tail))
    ensures ParseString(['\\'] + (e + tail), acc) == ParseString(tail, acc + [c])
  {
    assert (['\\'] + (e + tail))[1..] == e + tail;
  }

  lemma UnicodeEscapeStep(c: char, tail: string, acc: string)
    requires c < ' '
    ensures ParseString(EscapeChar(c) + tail, acc) == ParseString(tail, acc + [c])
  {
    var e := ControlEscape(c, tail);
    BackslashStep(c, e, tail, acc);
  }

  /** A control character's escape is a backslash and a tail that reads back
      as the character. */
  lemma ControlEscape(c: char, tail: string) returns (e: string)
    requires c < ' '
    ensures EscapeChar(c) + tail == ['\\'] + (e + tail)
    ensures Unescape(e + tail) == Some((c, tail))
  {
    if c == '\U{0008}' || c == '\U{000C}' || c == '\n' || c == '\r' || c == '\t' {
      e := ShortControlEscape(c, tail);
    } else {
      e := HexEscape(c);
      HexEscapeReads(c, tail);
    }
  }

  /** The five control characters with a one-letter escape. */
  lemma ShortControlEscape(c: char, tail: string) returns (e: string)
    requires c == '\U{0008}' || c == '\U{000C}' || c == '\n' || c == '\r' || c == '\t'
    ensures EscapeChar(c) + tail == ['\\'] + (e + tail)
    ensures Unescape(e + tail) == Some((c, tail))
  {
    e := [if c == '\U{0008}' then 'b' else if c == '\U{000C}' then 'f'
          else if c == '\n' then 'n' else if c == '\r' then 'r' else 't'];
    assert EscapeChar(c) == ['\\', e[0]];
    assert (e + tail)[0] == e[0] && (e + tail)[1..] == tail;
  }

  lemma Hex4Low(c: char)
    requires c < ' '
    ensures Hex4(HexEscape(c)[1..5]) == Some(c as int)
  {
    var hi, lo := (c as int) / 16, (c as int) % 16;
    HexDigitRoundTrip(hi);
    HexDigitRoundTrip(lo);
    assert HexEscape(c)[1..5] == ['0', '0', HexDigitLower(hi), HexDigitLower(lo)];
  }

  lemma HexEscapeReads(c: char, tail: string)
    requires c < ' '
    ensures Unescape(HexEscape(c) + tail) == Some((c, tail))
  {
    var t := HexEscape(c) + tail;
    assert t[1..5] == HexEscape(c)[1..5];
    Hex4Low(c);
    assert t[5..] == tail;
  }

  /** Reading one escaped character consumes exactly its escape. */
  lemma EscapeCharStep(c: char, tail: string, acc: string)
    ensures ParseString(EscapeChar(c) + tail, acc) == ParseString(tail, acc + [c])
  {
    if c == '"' || c == '\\' {
      assert EscapeChar(c) + tail == ['\\'] + ([c] + tail);
      assert ([c] + tail)[1..] == tail;
      BackslashStep(c, [c], tail, acc);
    } else if c < ' ' {
      UnicodeEscapeStep(c, tail, acc);
    } else {
      assert EscapeChar(c) + tail == [c] + tail;
      assert ([c] + tail)[1..] == tail;
    }
  }

  lemma EscapeCons(s: string, after: string)
    requires s != []
    ensures Escape(s) + after == EscapeChar(s[0]) + (Escape(s[1..]) + after)
  {
  }

  lemma ParseEscaped(s: string, rest: string, acc: string)
    ensures ParseString(Escape(s) + "\"" + rest, acc) == Some((acc + s, rest))
  {
    assert Escape(s) + "\"" + rest == Escape(s) + ("\"" + rest);
    ParseEscapedClosed(s, rest, acc);
  }

  /** The escaped body and its closing quote read back as the body. */
  lemma {:induction false} ParseEscapedClosed(s: string, rest: string, acc: string)
    ensures ParseString(Escape(s) + ("\"" + rest), acc) == Some((acc + s, rest))
    decreases |s|
  {
    if s == [] {
      ClosingQuote(rest, acc);
      assert acc + s == acc;
    } else {
      var after := Escape(s[1..]) + ("\"" + rest);
      calc {
        ParseString(Escape(s) + ("\"" + rest), acc);
        { EscapeCons(s, "\"" + rest); }
        ParseString(EscapeChar(s[0]) + after, acc);
        { EscapeCharStep(s[0], after, acc); }
        ParseString(after, acc + [s[0]]);
        { ParseEscapedClosed(s[1..], rest, acc + [s[0]]); }
        Some((acc + [s[0]] + s[1..], rest));
        { assert acc + [s[0]] + s[1..] == acc + s; }
        Some((acc + s, rest));
      }
    }
  }

  lemma ClosingQuote(rest: string, acc: string)
    ensures ParseString(Escape([]) + ("\"" + rest), acc) == Some((acc, rest))
  {
    var closed := "\"" + rest;
    assert Escape([]) + closed == closed;
    assert closed[0] == '"' && closed[1..] == rest;
  }

  /** A quoted string followed by anything parses back to the string. */
  lemma QuotedValue(x: string, tail: string)
    ensures ParseValue(Quote(x) + tail) == Some((JString(x), tail))
  {
    var s := Quote(x) + tail;
    assert s[0] == '"';
    assert s[1..] == Escape(x) + "\"" + tail;
    ParseEscaped(x, tail, "");
    assert "" + x == x;
  }

  lemma SkipWsStops(s: string)
    requires s != [] && !IsWs(s[0])
    ensures SkipWs(s) == s
  {
  }

  lemma ItemLast(x: string, rest: string, acc: seq<Json>)
    ensures ParseItems(Quote(x) + "]" + rest, acc) == Some((JArray(acc + [JString(x)]), rest))
  {
    var s := Quote(x) + "]" + rest;
    var more := "]" + rest;
    assert s == Quote(x) + more;
    SkipWsStops(s);
    QuotedValue(x, more);
    SkipWsStops(more);
    assert more[1..] == rest;
  }

  lemma ItemNext(x: string, more: string, acc: seq<Json>)
    requires more != [] && more[0] == ','
    ensures ParseItems(Quote(x) + more, acc) == ParseItems(more[1..], acc + [JString(x)])
  {
    var s := Quote(x) + more;
    SkipWsStops(s);
    QuotedValue(x, more);
    SkipWsStops(more);
  }

  lemma StringsCons(ids: seq<string>, acc: seq<Json>)
    requires ids != []
    ensures acc + [JString(ids[0])] + Strings(ids[1..]) == acc + Strings(ids)
  {
    assert Strings(ids) == [JString(ids[0])] + Strings(ids[1..]);
  }

  lemma Regroup(a: string, b: string, rest: string)
    ensures (a + "," + b) + "]" + rest == a + ("," + (b + "]" + rest))
  {
  }

  lemma StringifyItemsCons(ids: seq<string>, rest: string)
    requires |ids| > 1
    ensures StringifyItems(ids) + "]" + rest == Quote(ids[0]) + ("," + (StringifyItems(ids[1..]) + "]" + rest))
  {
    var a, b := Quote(ids[0]), StringifyItems(ids[1..]);
    assert StringifyItems(ids) == a + "," + b;
    Regroup(a, b, rest);
  }

  lemma {:induction false} ParseStringifiedItems(ids: seq<string>, rest: string, acc: seq<Json>)
    requires ids != []
    ensures ParseItems(StringifyItems(ids) + "]" + rest, acc) == Some((JArray(acc + Strings(ids)), rest))
    decreases |ids|
  {
    if |ids| == 1 {
      ItemLast(ids[0], rest, acc);
      assert Strings(ids) == [JString(ids[0])];
    } else {
      var tail := StringifyItems(ids[1..]) + "]" + rest;
      StringifyItemsCons(ids, rest);
      ItemNext(ids[0], "," + tail, acc);
      assert ("," + tail)[1..] == tail;
      ParseStringifiedItems(ids[1..], rest, acc + [JString(ids[0])]);
      StringsCons(ids, acc);
    }
  }

  /** The items after the opening bracket parse back to the list. */
  lemma ArrayBody(ids: seq<string>)
    ensures ParseArray(StringifyItems(ids) + "]") == Some((JArray(Strings(ids)), ""))
  {
    var body := StringifyItems(ids) + "]";
    if ids == [] {
      assert body == "]";
    } else {
      assert body == StringifyItems(ids) + "]" + "";
      assert body[0] == '"';
      SkipWsStops(body);
      ParseStringifiedItems(ids, "", []);
      assert [] + Strings(ids) == Strings(ids);
    }
  }

  /** What the browser sends for a list of receipt ids, `JSON.parse` turns back
      into the same list. */
  lemma StringifyParseRoundTrip(ids: seq<string>)
    ensures Parse(StringifyStrings(ids)) == Some(JArray(Strings(ids)))
  {
    var text := StringifyStrings(ids);
    SkipWsStops(text);
    assert text[1..] == StringifyItems(ids) + "]";
    ArrayBody(ids);
    assert ParseValue(text) == Some((JArray(Strings(ids)), ""));
  }
}
