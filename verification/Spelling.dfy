/**
  How canonical text is spelled, said without the printer: keys ascend at every depth, nothing separates
  tokens, and each character of a string has one spelling.
*/
module Spelling {
  import opened Wrappers
  import opened Digits
  import opened Json
  import opened JsonText
  import opened Utf8
  import opened Canonical

  // ---------------------------------------------------------------- the order of keys

  /** The texts part at this position: one has the smaller code point there, or ends there. */
  predicate PartAt(a: string, b: string, k: nat) {
    && k <= |a| && k < |b| && a[..k] == b[..k]
    && (k == |a| || a[k] as int < b[k] as int)
  }

  ghost predicate Earlier(a: string, b: string) {
    exists k: nat :: PartAt(a, b, k)
  }

  /** In every dictionary, at every depth, the keys are in ascending order. */
  ghost predicate Ascending(v: Json) {
    match v
    case Arr(items) => forall i :: 0 <= i < |items| ==> Ascending(items[i])
    case Obj(fields) =>
      && (forall i, j :: 0 <= i < j < |fields| ==> Earlier(fields[i].key, fields[j].key))
      && forall i :: 0 <= i < |fields| ==> Ascending(fields[i].value)
    case _ => true
  }

  lemma {:induction false} BeforePartsAt(a: string, b: string) returns (k: nat)
    requires Before(a, b)
    ensures PartAt(a, b, k)
  {
    if a == "" || a[0] != b[0] {
      k := 0;
    } else {
      var rest := BeforePartsAt(a[1..], b[1..]);
      k := rest + 1;
      assert a[..k] == [a[0]] + a[1..][..rest] && b[..k] == [b[0]] + b[1..][..rest];
    }
  }

  lemma {:induction false} NormalAscends(v: Json)
    requires WellFormed(v)
    ensures Ascending(Normalize(v))
    decreases v
  {
    match v
    case Arr(items) =>
      var n := NormalizeItems(items);
      forall i | 0 <= i < |n|
        ensures Ascending(n[i])
      {
        NormalAscends(items[i]);
      }
    case Obj(fields) =>
      var n := NormalizeFields(fields);
      forall f | f in n
        ensures Ascending(f.value)
      {
        var i :| 0 <= i < |n| && n[i] == f;
        NormalAscends(fields[i].value);
      }
      SortedAscends(n);
    case _ =>
  }

  lemma {:induction false} SortedAscends(fields: seq<Field>)
    requires Distinct(fields) && forall f :: f in fields ==> Ascending(f.value)
    ensures Ascending(Obj(Sort(fields)))
  {
    var s := Sort(fields);
    SortSorts(fields);
    forall i, j | 0 <= i < j < |s|
      ensures Earlier(s[i].key, s[j].key)
    {
      var k := BeforePartsAt(s[i].key, s[j].key);
    }
    forall i | 0 <= i < |s|
      ensures Ascending(s[i].value)
    {
      assert s[i] in s;
    }
  }

  // ---------------------------------------------------------------- the spelling of the text

  predicate LowerHex(c: char) {
    '0' <= c <= '9' || 'a' <= c <= 'f'
  }

  /** The control characters with an escape of their own. */
  predicate ShortControl(x: char, y: char) {
    x == '0' && y in "89acd"
  }

  /** Scanned from outside a string: no white space, and a sign only before a digit that is not 0. */
  predicate Compact(text: string) {
    text == "" ||
    if text[0] == '"' then Spelled(text[1..])
    else
      && text[0] !in " \t\n\r" && (text[0] == '-' ==> |text| > 1 && '1' <= text[1] <= '9')
      && Compact(text[1..])
  }

  /**
    Scanned from inside a string: quotation marks, reverse solidi and control characters are escaped, by
    their short escapes where they have one and in lower-case digits where not, and nothing else is.
  */
  predicate Spelled(text: string) {
    text != "" &&
    if text[0] == '"' then Compact(text[1..])
    else if text[0] != '\\' then text[0] as int >= 32 && Spelled(text[1..])
    else
      |text| >= 2 &&
      if text[1] in "\"\\nrtbf" then Spelled(text[2..])
      else
        && |text| >= 6 && text[1..4] == "u00" && text[4] in "01" && LowerHex(text[5])
        && !ShortControl(text[4], text[5]) && Spelled(text[6..])
  }

  lemma {:induction false} CompactJoin(a: string, b: string)
    requires Compact(b)
    ensures Compact(a) ==> Compact(a + b)
    decreases |a|
  {
    hide Spelled;
    if a == "" {
      assert a + b == b;
    } else {
      CompactJoin(a[1..], b);
      SpelledJoin(a[1..], b);
      assert (a + b)[1..] == a[1..] + b;
    }
  }

  lemma {:induction false} SpelledJoin(a: string, b: string)
    requires Compact(b)
    ensures Spelled(a) ==> Spelled(a + b)
    decreases |a|
  {
    hide Compact;
    if a != "" {
      CompactJoin(a[1..], b);
      SpelledJoin(a[1..], b);
      assert (a + b)[1..] == a[1..] + b;
      if |a| >= 2 {
        SpelledJoin(a[2..], b);
        assert (a + b)[2..] == a[2..] + b;
      }
      if |a| >= 6 {
        SpelledJoin(a[6..], b);
        assert (a + b)[6..] == a[6..] + b && (a + b)[1..4] == a[1..4];
      }
    }
  }

  lemma {:induction false} CharSpelled(c: char, rest: string)
    requires Spelled(rest)
    ensures Spelled(EscapeChar(c) + rest)
  {
    var e := EscapeChar(c);
    var text := e + rest;
    EscapeShape(c);
    if e == [c] {
      assert text[1..] == rest;
    } else if |e| == 2 {
      assert text[2..] == rest;
    } else {
      assert text[6..] == rest && text[1..4] == "u00";
      assert text[4] == HexDigit(c as int / 16) && text[5] == HexDigit(c as int % 16);
    }
  }

  lemma {:induction false} CharsSpelled(s: string)
    ensures Spelled(PrintChars(s))
  {
    hide EscapeChar;
    if s == "" {
      assert PrintChars(s)[1..] == "";
    } else {
      CharsSpelled(s[1..]);
      CharSpelled(s[0], PrintChars(s[1..]));
    }
  }

  lemma {:induction false} StringCompact(s: string)
    ensures Compact("\"" + PrintChars(s))
  {
    CharsSpelled(s);
    assert ("\"" + PrintChars(s))[1..] == PrintChars(s);
  }

  lemma {:induction false} DigitsCompact(d: string)
    requires AllDigits(d)
    ensures Compact(d)
  {
    if d != "" {
      assert IsDigit(d[0]);
      DigitsCompact(d[1..]);
    }
  }

  lemma {:induction false} IntCompact(n: int)
    ensures Compact(PrintInt(n))
  {
    var d := PrintNat(Abs(n));
    DigitsCompact(d);
    if n < 0 {
      PrintNatLead(Abs(n));
      assert ("-" + d)[1..] == d && IsDigit(d[0]);
    }
  }

  lemma {:induction false} PrintCompact(v: Json)
    requires !HasFloat(v)
    ensures Compact(Print(v))
    decreases v, 0
  {
    match v
    case Null => LettersCompact("null");
    case Bool(b) => LettersCompact(if b then "true" else "false");
    case Int(n) => IntCompact(n);
    case Str(s) => StringCompact(s);
    case Arr(items) =>
      LettersCompact("[");
      LettersCompact("[]");
      if items != [] {
        ItemsCompact(items);
        CompactJoin("[", PrintItems(items));
      }
    case Obj(fields) =>
      LettersCompact("{");
      LettersCompact("{}");
      if fields != [] {
        FieldsCompact(fields);
        CompactJoin("{", PrintFields(fields));
      }
  }

  lemma {:induction false} LettersCompact(s: string)
    requires forall i :: 0 <= i < |s| ==> s[i] !in " \t\n\r\"-"
    ensures Compact(s)
  {
    if s != "" {
      LettersCompact(s[1..]);
    }
  }

  lemma {:induction false} ItemsCompact(items: seq<Json>)
    requires items != [] && forall i :: 0 <= i < |items| ==> !HasFloat(items[i])
    ensures Compact(PrintItems(items))
    decreases items, 0
  {
    PrintCompact(items[0]);
    LettersCompact("]");
    LettersCompact(",");
    if |items| == 1 {
      CompactJoin(Print(items[0]), "]");
    } else {
      ItemsCompact(items[1..]);
      CompactJoin(",", PrintItems(items[1..]));
      CompactJoin(Print(items[0]), "," + PrintItems(items[1..]));
    }
  }

  lemma {:induction false} FieldsCompact(fields: seq<Field>)
    requires fields != [] && forall i :: 0 <= i < |fields| ==> !HasFloat(fields[i].value)
    ensures Compact(PrintFields(fields))
    decreases fields, 0
  {
    LettersCompact("}");
    LettersCompact(",");
    PrintCompact(fields[0].value);
    if |fields| == 1 {
      PairCompact(fields[0], "}");
    } else {
      FieldsCompact(fields[1..]);
      CompactJoin(",", PrintFields(fields[1..]));
      PairCompact(fields[0], "," + PrintFields(fields[1..]));
    }
  }

  lemma {:induction false} PairCompact(f: Field, end: string)
    requires Compact(end) && Compact(Print(f.value))
    ensures Compact(PairText(f, end))
  {
    hide Compact, Print, PrintChars;
    var after := Print(f.value) + end;
    CompactJoin(Print(f.value), end);
    LettersCompact(":");
    CompactJoin(":", after);
    StringCompact(f.key);
    CompactJoin("\"" + PrintChars(f.key), ":" + after);
    assert PairText(f, end) == ("\"" + PrintChars(f.key)) + (":" + after);
  }

  /**
    The canonical bytes are the UTF-8 form of a text without white space between its tokens and with one
    spelling for each character of its strings; it says the value, with all keys in ascending order.
  */
  lemma {:induction false} CanonicalSpelling(v: Json) returns (text: string, w: Json)
    requires WellFormed(v) && !HasFloat(v)
    ensures CanonicalBytes(v) == Ok(Encode(text)) && Compact(text)
    ensures Parse(text) == Some(w) && Ascending(w) && Same(v, w)
  {
    w := Normalize(v);
    text := Print(w);
    NormalizeKeeps(v);
    PrintThenParse(w);
    PrintCompact(w);
    NormalAscends(v);
    SameNormal(v, w);
  }
}
