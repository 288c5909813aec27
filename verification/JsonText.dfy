/**
  The text of a JSON value: `json.dumps` with fixed separators and no ASCII escaping, and a
  parser for the grammar of RFC 8259, which also reads `NaN`, `Infinity` and `-Infinity` as Python does.
*/
module JsonText {
  import opened Wrappers
  import opened Digits
  import opened Json

  // ---------------------------------------------------------------- printing

  function Abs(n: int): nat {
    if n < 0 then -n else n
  }

  function PrintInt(n: int): string {
    if n < 0 then "-" + PrintNat(Abs(n)) else PrintNat(Abs(n))
  }

  function HexDigit(d: int): char
    requires 0 <= d < 16
  {
    if d < 10 then '0' + d as char else 'a' + (d - 10) as char
  }

  /** Section 7 of RFC 8259: quotation mark, reverse solidus and control characters are escaped. */
  function EscapeChar(c: char): string {
    if c == '"' then "\\\""
    else if c == '\\' then "\\\\"
    else if c == '\n' then "\\n"
    else if c == '\r' then "\\r"
    else if c == '\t' then "\\t"
    else if c as int == 12 then "\\f"
    else if c as int == 8 then "\\b"
    else if c as int < 32 then "\\u00" + [HexDigit(c as int / 16), HexDigit(c as int % 16)]
    else [c]
  }

  /** The characters of a string with its closing quotation mark. */
  function PrintChars(s: string): string {
    if s == "" then "\"" else EscapeChar(s[0]) + PrintChars(s[1..])
  }

  function Print(v: Json): string
    decreases v, 0
  {
    match v
    case Null => "null"
    case Bool(b) => if b then "true" else "false"
    case Int(n) => PrintInt(n)
    case Float(text) => text
    case Str(s) => "\"" + PrintChars(s)
    case Arr(items) => if items == [] then "[]" else "[" + PrintItems(items)
    case Obj(fields) => if fields == [] then "{}" else "{" + PrintFields(fields)
  }

  function PrintItems(items: seq<Json>): string
    requires items != []
    decreases items
  {
    Print(items[0]) + if |items| == 1 then "]" else "," + PrintItems(items[1..])
  }

  function PrintFields(fields: seq<Field>): string
    requires fields != []
    decreases fields
  {
    PairText(fields[0], if |fields| == 1 then "}" else "," + PrintFields(fields[1..]))
  }

  /** A member of an object and what follows it. */
  function PairText(f: Field, end: string): string
    decreases f
  {
    "\"" + (PrintChars(f.key) + (":" + (Print(f.value) + end)))
  }

  // ---------------------------------------------------------------- parsing

  /** What was read, and the text that follows it. */
  type Parsed<T> = Option<(T, string)>

  function SkipSpace(s: string): (r: string)
    ensures |r| <= |s|
  {
    if s != "" && s[0] in " \t\n\r" then SkipSpace(s[1..]) else s
  }

  function HexValue(c: char): (r: Option<int>)
    ensures r.Some? ==> 0 <= r.value < 16
  {
    if '0' <= c <= '9' then Some(c as int - '0' as int)
    else if 'a' <= c <= 'f' then Some(c as int - 'a' as int + 10)
    else if 'A' <= c <= 'F' then Some(c as int - 'A' as int + 10)
    else None
  }

  function ParseHex4(s: string): (r: Option<int>)
    ensures r.Some? ==> |s| >= 4 && 0 <= r.value < 0x1_0000
  {
    if |s| < 4 then None
    else
      var a :- HexValue(s[0]);
      var b :- HexValue(s[1]);
      var c :- HexValue(s[2]);
      var d :- HexValue(s[3]);
      Some(((a * 16 + b) * 16 + c) * 16 + d)
  }

  /** The character escaped by `\uXXXX`, or by a pair of them; a lone surrogate names no character. */
  function ParseUnicode(s: string): (r: Parsed<char>)
    ensures r.Some? ==> |r.value.1| < |s|
  {
    var n :- ParseHex4(s);
    if 0xD800 <= n < 0xDC00 then
      if "\\u" <= s[4..] then
        var m :- ParseHex4(s[6..]);
        if 0xDC00 <= m < 0xE000 then
          Some(((0x1_0000 + (n - 0xD800) * 0x400 + (m - 0xDC00)) as char, s[10..]))
        else None
      else None
    else if 0xDC00 <= n < 0xE000 then None
    else Some((n as char, s[4..]))
  }

  function ParseEscape(s: string): (r: Parsed<char>)
    ensures r.Some? ==> |r.value.1| < |s|
  {
    if s == "" then None
    else match s[0]
      case '"' => Some(('"', s[1..]))
      case '\\' => Some(('\\', s[1..]))
      case '/' => Some(('/', s[1..]))
      case 'b' => Some((8 as char, s[1..]))
      case 'f' => Some((12 as char, s[1..]))
      case 'n' => Some(('\n', s[1..]))
      case 'r' => Some(('\r', s[1..]))
      case 't' => Some(('\t', s[1..]))
      case 'u' => ParseUnicode(s[1..])
      case _ => None
  }

  /** The rest of a string, after its opening quotation mark. */
  function ParseChars(s: string): (r: Parsed<string>)
    ensures r.Some? ==> |r.value.1| < |s|
  {
    if s == "" then None
    else if s[0] == '"' then Some(("", s[1..]))
    else if s[0] == '\\' then
      var (c, t) :- ParseEscape(s[1..]);
      var (rest, u) :- ParseChars(t);
      Some(([c] + rest, u))
    else if s[0] as int < 32 then None
    else
      var (rest, u) :- ParseChars(s[1..]);
      Some(([s[0]] + rest, u))
  }

  /** The length of a fraction such as `.25`, or 0. */
  function FractionLength(s: string): (n: nat)
    ensures n <= |s|
  {
    if |s| >= 2 && s[0] == '.' && IsDigit(s[1]) then 1 + Span(s[1..]) else 0
  }

  /** The length of an exponent such as `e-3`, or 0. */
  function ExponentLength(s: string): (n: nat)
    ensures n <= |s|
  {
    if s == "" || s[0] !in "eE" then 0
    else
      var sign := if |s| >= 2 && s[1] in "+-" then 2 else 1;
      var digits := Span(s[sign..]);
      if digits == 0 then 0 else sign + digits
  }

  function Signed(negative: bool, n: nat): int {
    if negative then 0 - n else n
  }

  /** The digits of a number after its sign, if it has one. */
  function ParseUnsigned(t: string, negative: bool): (r: Parsed<Json>)
    ensures r.Some? ==> |r.value.1| < |t|
  {
    var span := Span(t);
    if span == 0 then None
    else
      var n := if t[0] == '0' then 1 else span;
      assert AllDigits(t[..n]) by { assert t[..n] == t[..span][..n]; }
      var f := FractionLength(t[n..]);
      var e := ExponentLength(t[n + f..]);
      if f + e == 0 then Some((Int(Signed(negative, Value(t[..n]))), t[n..]))
      else Some((Float((if negative then "-" else "") + t[..n + f + e]), t[n + f + e..]))
  }

  /** Section 6 of RFC 8259. */
  function ParseNumber(s: string): (r: Parsed<Json>)
    ensures r.Some? ==> |r.value.1| < |s|
  {
    if s != "" && s[0] == '-' then ParseUnsigned(s[1..], true) else ParseUnsigned(s, false)
  }

  function ParseLiteral(s: string, word: string, v: Json): (r: Parsed<Json>)
    requires word != ""
    ensures r.Some? ==> |r.value.1| < |s|
  {
    if word <= s then Some((v, s[|word|..])) else None
  }

  /** Section 3 of RFC 8259, with the leading white space of section 2, and the three numbers Python adds to it. */
  function ParseValue(text: string): (r: Parsed<Json>)
    ensures r.Some? ==> |r.value.1| < |text|
    decreases |text|, 0
  {
    var s := SkipSpace(text);
    if s == "" then None
    else if "-I" <= s then ParseLiteral(s, "-Infinity", Float("-Infinity"))
    else if s[0] == '-' || IsDigit(s[0]) then ParseNumber(s)
    else match s[0]
      case 'n' => ParseLiteral(s, "null", Null)
      case 't' => ParseLiteral(s, "true", Bool(true))
      case 'f' => ParseLiteral(s, "false", Bool(false))
      case 'N' => ParseLiteral(s, "NaN", Float("NaN"))
      case 'I' => ParseLiteral(s, "Infinity", Float("Infinity"))
      case '"' =>
        var (str, t) :- ParseChars(s[1..]);
        Some((Str(str), t))
      case '[' => ParseArray(s[1..])
      case '{' => ParseObject(s[1..])
      case _ => None
  }

  /** The rest of an array, after its bracket. */
  function ParseArray(s: string): (r: Parsed<Json>)
    ensures r.Some? ==> |r.value.1| < |s|
    decreases |s|, 2
  {
    var t := SkipSpace(s);
    if t != "" && t[0] == ']' then Some((Arr([]), t[1..]))
    else
      var (items, u) :- ParseItems(t);
      Some((Arr(items), u))
  }

  /** The rest of an object, after its brace. */
  function ParseObject(s: string): (r: Parsed<Json>)
    ensures r.Some? ==> |r.value.1| < |s|
    decreases |s|, 2
  {
    var t := SkipSpace(s);
    if t != "" && t[0] == '}' then Some((Obj([]), t[1..]))
    else
      var (pairs, u) :- ParsePairs(t);
      Some((Obj(Dict(pairs)), u))
  }

  function ParseItems(s: string): (r: Parsed<seq<Json>>)
    ensures r.Some? ==> |r.value.1| < |s|
    decreases |s|, 1
  {
    var (v, t) :- ParseValue(s);
    var u := SkipSpace(t);
    if u == "" then None
    else if u[0] == ']' then Some(([v], u[1..]))
    else if u[0] == ',' then
      var (items, w) :- ParseItems(u[1..]);
      Some(([v] + items, w))
    else None
  }

  function ParsePairs(s: string): (r: Parsed<seq<Field>>)
    ensures r.Some? ==> |r.value.1| < |s|
    decreases |s|, 1
  {
    var (f, t) :- ParsePair(s);
    var u := SkipSpace(t);
    if u == "" then None
    else if u[0] == '}' then Some(([f], u[1..]))
    else if u[0] == ',' then
      var (pairs, w) :- ParsePairs(u[1..]);
      Some(([f] + pairs, w))
    else None
  }

  function ParsePair(text: string): (r: Parsed<Field>)
    ensures r.Some? ==> |r.value.1| < |text|
    decreases |text|, 0
  {
    var s := SkipSpace(text);
    if s == "" || s[0] != '"' then None
    else
      var (key, t) :- ParseChars(s[1..]);
      var u := SkipSpace(t);
      if u == "" || u[0] != ':' then None
      else
        var (v, w) :- ParseValue(u[1..]);
        Some((Field(key, v), w))
  }

  /** `d[key] = value`: an existing key keeps its place. */
  function Put(fields: seq<Field>, f: Field): seq<Field> {
    if fields == [] then [f]
    else if fields[0].key == f.key then [f] + fields[1..]
    else [fields[0]] + Put(fields[1..], f)
  }

  function Dict(pairs: seq<Field>): seq<Field> {
    if pairs == [] then [] else Put(Dict(pairs[..|pairs| - 1]), pairs[|pairs| - 1])
  }

  /** `json.loads`: one value, and nothing but white space around it. */
  function Parse(text: string): Option<Json> {
    var (v, rest) :- ParseValue(text);
    if SkipSpace(rest) == "" then Some(v) else None
  }

  // ---------------------------------------------------------------- the parser inverts the printer

  /** What may follow a value inside a printed text. */
  predicate Delimited(rest: string) {
    rest == "" || rest[0] in ",]}"
  }

  lemma {:induction false} PutNew(fields: seq<Field>, f: Field)
    requires forall i :: 0 <= i < |fields| ==> fields[i].key != f.key
    ensures Put(fields, f) == fields + [f]
  {
    if fields != [] {
      PutNew(fields[1..], f);
    }
  }

  lemma {:induction false} DictDistinct(pairs: seq<Field>)
    requires Distinct(pairs)
    ensures Dict(pairs) == pairs
  {
    if pairs != [] {
      var init := pairs[..|pairs| - 1];
      DictDistinct(init);
      PutNew(init, pairs[|pairs| - 1]);
    }
  }

  lemma {:induction false} ParseEscaped(c: char, rest: string)
    requires EscapeChar(c) != [c]
    ensures EscapeChar(c)[0] == '\\'
    ensures ParseEscape(EscapeChar(c)[1..] + rest) == Some((c, rest))
  {
    var e := EscapeChar(c)[1..] + rest;
    if c in "\"\\\n\r\t" || c as int in {8, 12} {
      assert e[0] == EscapeChar(c)[1] && e[1..] == rest;
    } else {
      var hi, lo := HexDigit(c as int / 16), HexDigit(c as int % 16);
      assert e == ['u', '0', '0', hi, lo] + rest;
      var s := e[1..];
      assert s[0] == '0' && s[1] == '0' && s[2] == hi && s[3] == lo && s[4..] == rest;
      assert ParseHex4(s) == Some(c as int);
    }
  }

  lemma EscapeShape(c: char)
    ensures if EscapeChar(c) == [c] then c !in "\"\\" && c as int >= 32
            else |EscapeChar(c)| >= 2 && EscapeChar(c)[0] == '\\'
  {
  }

  lemma {:induction false} ParsePrintChars(s: string, rest: string)
    ensures ParseChars(PrintChars(s) + rest) == Some((s, rest))
  {
    hide EscapeChar;
    var text := PrintChars(s) + rest;
    if s == "" {
      assert text[1..] == rest;
    } else {
      var c, e := s[0], EscapeChar(s[0]);
      var tail := PrintChars(s[1..]) + rest;
      ParsePrintChars(s[1..], rest);
      EscapeShape(c);
      assert text == e + tail;
      assert [c] + s[1..] == s;
      ParsePrintChar(c, s[1..], tail, rest);
    }
  }

  lemma {:induction false} ParsePrintChar(c: char, s: string, tail: string, rest: string)
    requires ParseChars(tail) == Some((s, rest))
    ensures ParseChars(EscapeChar(c) + tail) == Some(([c] + s, rest))
  {
    var e := EscapeChar(c);
    EscapeShape(c);
    if e == [c] {
      assert (e + tail)[1..] == tail;
    } else {
      ParseEscaped(c, tail);
      assert (e + tail)[1..] == e[1..] + tail;
    }
  }

  lemma {:induction false} ParsePrintNat(m: nat, rest: string, negative: bool)
    requires Delimited(rest)
    ensures ParseUnsigned(PrintNat(m) + rest, negative) == Some((Int(Signed(negative, m)), rest))
  {
    var d := PrintNat(m);
    PrintNatLead(m);
    PrintNatValue(m);
    var t := d + rest;
    SpanAppend(d, rest);
    assert t[..|d|] == d && t[|d|..] == rest && t[0] == d[0];
    assert FractionLength(rest) == 0 && ExponentLength(rest) == 0;
  }

  lemma NotSpace(s: string)
    requires s != "" && s[0] !in " \t\n\r"
    ensures SkipSpace(s) == s
  {
  }

  lemma {:induction false} NumberDispatch(text: string)
    requires text != "" && (IsDigit(text[0]) || (text[0] == '-' && (|text| == 1 || text[1] != 'I')))
    ensures ParseValue(text) == ParseNumber(text)
  {
    NotSpace(text);
  }

  lemma {:induction false} ParsePrintNegative(m: nat, rest: string)
    requires Delimited(rest)
    ensures ParseValue("-" + (PrintNat(m) + rest)) == Some((Int(0 - m), rest))
  {
    ParsePrintNat(m, rest, true);
    NegativeDispatch(PrintNat(m) + rest);
  }

  lemma {:induction false} ParsePrintPositive(m: nat, rest: string)
    requires Delimited(rest)
    ensures ParseValue(PrintNat(m) + rest) == Some((Int(m), rest))
  {
    ParsePrintNat(m, rest, false);
    PositiveDispatch(PrintNat(m) + rest);
  }

  lemma {:induction false} PrintIntText(n: int, rest: string)
    ensures PrintInt(n) + rest == if n < 0 then "-" + (PrintNat(Abs(n)) + rest) else PrintNat(Abs(n)) + rest
  {
    if n < 0 {
      Associate("", "-", PrintNat(Abs(n)), rest);
    }
  }

  lemma {:induction false} ParsePrintInt(n: int, text: string, rest: string)
    requires Delimited(rest) && text == PrintInt(n) + rest
    ensures ParseValue(text) == Some((Int(n), rest))
  {
    PrintIntText(n, rest);
    if n < 0 {
      ParsePrintNegative(Abs(n), rest);
    } else {
      ParsePrintPositive(Abs(n), rest);
    }
  }

  lemma {:induction false} NegativeDispatch(t: string)
    requires t != "" && IsDigit(t[0])
    ensures ParseValue("-" + t) == ParseUnsigned(t, true)
  {
    NumberDispatch("-" + t);
    assert ("-" + t)[1..] == t;
  }

  lemma {:induction false} PositiveDispatch(t: string)
    requires t != "" && IsDigit(t[0])
    ensures ParseValue(t) == ParseUnsigned(t, false)
  {
    NumberDispatch(t);
  }

  lemma LiteralDispatch(rest: string)
    ensures ParseValue("null" + rest) == Some((Null, rest))
    ensures ParseValue("true" + rest) == Some((Bool(true), rest))
    ensures ParseValue("false" + rest) == Some((Bool(false), rest))
  {
    NotSpace("null" + rest);
    NotSpace("true" + rest);
    NotSpace("false" + rest);
    assert ("null" + rest)[4..] == rest && ("true" + rest)[4..] == rest && ("false" + rest)[5..] == rest;
  }

  lemma {:induction false} StringDispatch(s: string, rest: string)
    ensures ParseValue("\"" + PrintChars(s) + rest) == Some((Str(s), rest))
  {
    var text := "\"" + PrintChars(s) + rest;
    NotSpace(text);
    assert text[1..] == PrintChars(s) + rest;
    ParsePrintChars(s, rest);
  }

  lemma {:induction false} ParsePrint(v: Json, rest: string)
    requires WellFormed(v) && !HasFloat(v) && Delimited(rest)
    ensures ParseValue(Print(v) + rest) == Some((v, rest))
    decreases v, 0
  {
    match v
    case Int(n) => ParsePrintInt(n, PrintInt(n) + rest, rest);
    case Null => LiteralDispatch(rest);
    case Bool(b) => LiteralDispatch(rest);
    case Str(s) => StringDispatch(s, rest);
    case Arr(items) => ParsePrintArray(items, rest);
    case Obj(fields) => ParsePrintObject(fields, rest);
  }

  lemma {:induction false} ParsePrintArray(items: seq<Json>, rest: string)
    requires forall i :: 0 <= i < |items| ==> WellFormed(items[i]) && !HasFloat(items[i])
    ensures ParseValue(Print(Arr(items)) + rest) == Some((Arr(items), rest))
    decreases items, 1
  {
    if items == [] {
      assert Print(Arr(items)) + rest == "[" + ("]" + rest);
      ArrayDispatch("]" + rest);
      NotSpace("]" + rest);
      assert ("]" + rest)[1..] == rest;
    } else {
      var t := PrintItems(items) + rest;
      assert Print(Arr(items)) + rest == "[" + t;
      PrintedHead(items[0]);
      assert t[0] == Print(items[0])[0];
      ArrayDispatch(t);
      NotSpace(t);
      ParsePrintItems(items, rest);
    }
  }

  lemma ArrayDispatch(t: string)
    ensures ParseValue("[" + t) == ParseArray(t)
  {
    NotSpace("[" + t);
    assert ("[" + t)[1..] == t;
  }

  lemma ObjectDispatch(t: string)
    ensures ParseValue("{" + t) == ParseObject(t)
  {
    NotSpace("{" + t);
    assert ("{" + t)[1..] == t;
  }

  lemma ParseItemsStep(v: Json, text: string, end: string)
    requires ParseValue(text) == Some((v, end)) && end != "" && end[0] in ",]"
    ensures end[0] == ']' ==> ParseItems(text) == Some(([v], end[1..]))
    ensures end[0] == ',' && ParseItems(end[1..]).Some? ==>
      ParseItems(text) == Some(([v] + ParseItems(end[1..]).value.0, ParseItems(end[1..]).value.1))
  {
    NotSpace(end);
  }

  lemma {:induction false} PrintItemsStep(items: seq<Json>, rest: string)
    requires items != []
    ensures |items| == 1 ==> PrintItems(items) + rest == Print(items[0]) + ("]" + rest)
    ensures |items| > 1 ==>
      PrintItems(items) + rest == Print(items[0]) + ("," + (PrintItems(items[1..]) + rest))
  {
    var p := Print(items[0]);
    if |items| > 1 {
      Associate(p, ",", PrintItems(items[1..]), rest);
    } else {
      Associate(p, "]", "", rest);
    }
  }

  lemma Associate(a: string, b: string, c: string, d: string)
    ensures (a + (b + c)) + d == a + (b + (c + d))
    ensures c == "" ==> b + c == b && c + d == d
  {
  }

  lemma {:induction false} ParsePrintItems(items: seq<Json>, rest: string)
    requires items != []
    requires forall i :: 0 <= i < |items| ==> WellFormed(items[i]) && !HasFloat(items[i])
    ensures ParseItems(PrintItems(items) + rest) == Some((items, rest))
    decreases items, 0
  {
    PrintItemsStep(items, rest);
    var v := items[0];
    if |items| == 1 {
      var end := "]" + rest;
      ParsePrint(v, end);
      ParseItemsStep(v, Print(v) + end, end);
      assert items == [v] && end[1..] == rest;
    } else {
      var tail := PrintItems(items[1..]) + rest;
      var end := "," + tail;
      ParsePrint(v, end);
      ParsePrintItems(items[1..], rest);
      assert end[1..] == tail;
      ParseItemsStep(v, Print(v) + end, end);
      assert items == [v] + items[1..];
    }
  }

  lemma PrintedHead(v: Json)
    requires !v.Float?
    ensures Print(v) != "" && Print(v)[0] !in " \t\n\r]"
  {
  }

  lemma {:induction false} ParsePrintObject(fields: seq<Field>, rest: string)
    requires Distinct(fields)
    requires forall i :: 0 <= i < |fields| ==> WellFormed(fields[i].value) && !HasFloat(fields[i].value)
    ensures ParseValue(Print(Obj(fields)) + rest) == Some((Obj(fields), rest))
    decreases fields, 1
  {
    if fields == [] {
      assert Print(Obj(fields)) + rest == "{" + ("}" + rest);
      ObjectDispatch("}" + rest);
      NotSpace("}" + rest);
      assert ("}" + rest)[1..] == rest;
    } else {
      var t := PrintFields(fields) + rest;
      assert Print(Obj(fields)) + rest == "{" + t;
      PrintFieldsStep(fields, rest);
      assert t[0] == '"';
      ObjectDispatch(t);
      NotSpace(t);
      ParsePrintFields(fields, rest);
      DictDistinct(fields);
    }
  }

  lemma {:induction false} ParsePrintPair(f: Field, end: string)
    requires ParseValue(Print(f.value) + end) == Some((f.value, end))
    ensures ParsePair(PairText(f, end)) == Some((f, end))
  {
    var after := ":" + (Print(f.value) + end);
    var s := PairText(f, end);
    NotSpace(s);
    assert s[1..] == PrintChars(f.key) + after;
    ParsePrintChars(f.key, after);
    NotSpace(after);
    assert after[1..] == Print(f.value) + end;
  }

  lemma ParsePairsStep(f: Field, text: string, end: string)
    requires ParsePair(text) == Some((f, end)) && end != "" && end[0] in ",}"
    ensures end[0] == '}' ==> ParsePairs(text) == Some(([f], end[1..]))
    ensures end[0] == ',' && ParsePairs(end[1..]).Some? ==>
      ParsePairs(text) == Some(([f] + ParsePairs(end[1..]).value.0, ParsePairs(end[1..]).value.1))
  {
    NotSpace(end);
  }

  lemma {:induction false} PrintFieldsStep(fields: seq<Field>, rest: string)
    requires fields != []
    ensures |fields| == 1 ==> PrintFields(fields) + rest == PairText(fields[0], "}" + rest)
    ensures |fields| > 1 ==>
      PrintFields(fields) + rest == PairText(fields[0], "," + (PrintFields(fields[1..]) + rest))
  {
    var f := fields[0];
    if |fields| > 1 {
      PairTextAppend(f, "," + PrintFields(fields[1..]), rest);
      Associate("", ",", PrintFields(fields[1..]), rest);
    } else {
      PairTextAppend(f, "}", rest);
    }
  }

  lemma PairTextAppend(f: Field, end: string, rest: string)
    ensures PairText(f, end) + rest == PairText(f, end + rest)
  {
    Associate(":", Print(f.value), end, rest);
    Associate("\"", PrintChars(f.key), ":" + (Print(f.value) + end), rest);
  }

  lemma {:induction false} ParsePrintFields(fields: seq<Field>, rest: string)
    requires fields != []
    requires forall i :: 0 <= i < |fields| ==> WellFormed(fields[i].value) && !HasFloat(fields[i].value)
    ensures ParsePairs(PrintFields(fields) + rest) == Some((fields, rest))
    decreases fields, 0
  {
    PrintFieldsStep(fields, rest);
    var f := fields[0];
    if |fields| == 1 {
      var end := "}" + rest;
      ParsePrint(f.value, end);
      ParsePrintPair(f, end);
      ParsePairsStep(f, PairText(f, end), end);
      assert fields == [f] && end[1..] == rest;
    } else {
      var tail := PrintFields(fields[1..]) + rest;
      var end := "," + tail;
      ParsePrint(f.value, end);
      ParsePrintPair(f, end);
      ParsePrintFields(fields[1..], rest);
      assert end[1..] == tail;
      ParsePairsStep(f, PairText(f, end), end);
      assert fields == [f] + fields[1..];
    }
  }

  /** Reading a printed value gives the value back. */
  lemma {:induction false} PrintThenParse(v: Json)
    requires WellFormed(v) && !HasFloat(v)
    ensures Parse(Print(v)) == Some(v)
  {
    ParsePrint(v, "");
    assert Print(v) + "" == Print(v);
  }
}
