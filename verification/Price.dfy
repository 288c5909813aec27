/**
  Money as exact decimals. An amount is a whole number of hundred-millionths; Python's decimal
  context keeps 28 digits, and quantizing a value that needs more raises.
*/
module Price {
  import opened Wrappers
  import opened Digits

  /** The scale of the register: eight decimals. */
  const SCALE_DIGITS := 8

  /** Smallest magnitude, in hundred-millionths, that no longer fits the decimal context. */
  const PRECISION_LIMIT: int := Pow10(28)

  datatype Price = Price(amount: int, currency: string)

  datatype PriceError = Unreadable | TwoCurrencies | Overflow

  /** What callers may pass for a price: text, or a price already read. */
  datatype PriceArg = Text(text: string) | Given(price: Price)

  /** Bringing an exact sum back to the scale of the register. */
  function Quantize(n: int): Result<int, PriceError> {
    if -PRECISION_LIMIT < n < PRECISION_LIMIT then Ok(n) else Err(Overflow)
  }

  // ---------------------------------------------------------------- reading a price

  /** `str.isspace`. */
  predicate IsSpace(c: char) {
    var n := c as int;
    9 <= n <= 13 || 28 <= n <= 32 || n in {0x85, 0xA0, 0x1680, 0x2028, 0x2029, 0x202F, 0x205F, 0x3000}
    || 0x2000 <= n <= 0x200A
  }

  function SkipSpaces(s: string): (r: string)
    ensures |r| <= |s|
  {
    if s != "" && IsSpace(s[0]) then SkipSpaces(s[1..]) else s
  }

  predicate IsLetter(c: char) {
    'a' <= c <= 'z' || 'A' <= c <= 'Z'
  }

  predicate IsCode(s: string) {
    |s| == 3 && IsLetter(s[0]) && IsLetter(s[1]) && IsLetter(s[2])
  }

  function Upper(s: string): (r: string)
    ensures |r| == |s|
  {
    if s == "" then "" else [if 'a' <= s[0] <= 'z' then s[0] - 32 as char else s[0]] + Upper(s[1..])
  }

  function CurrencyOf(symbol: char): Option<string> {
    if symbol == '$' then Some("USD")
    else if symbol == '\U{20AC}' then Some("EUR")
    else if symbol == '\U{A3}' then Some("GBP")
    else None
  }

  /** The groups of the pattern: symbol, digits before and after the point, currency code. */
  datatype Groups = Groups(currency: Option<string>, whole: string, fraction: string, code: Option<string>)

  /** How many digits follow a decimal point, if one with digits comes first. */
  function FractionDigits(t: string): (f: nat)
    ensures f > 0 ==> f + 1 <= |t| && AllDigits(t[1..][..f])
  {
    if |t| >= 2 && t[0] == '.' && IsDigit(t[1]) then Span(t[1..]) else 0
  }

  function MatchTail(currency: Option<string>, whole: string, fraction: string, tail: string): Option<Groups> {
    var t := SkipSpaces(tail);
    if t == "" then Some(Groups(currency, whole, fraction, None))
    else if |t| >= 3 && IsCode(t[..3]) && SkipSpaces(t[3..]) == "" then
      Some(Groups(currency, whole, fraction, Some(t[..3])))
    else None
  }

  function MatchAmount(currency: Option<string>, s: string): (r: Option<Groups>)
    ensures r.Some? ==> AllDigits(r.value.whole) && AllDigits(r.value.fraction)
  {
    var n := Span(s);
    if n == 0 then None
    else
      var t := s[n..];
      var f := FractionDigits(t);
      if f > 0 then MatchTail(currency, s[..n], t[1..][..f], t[1..][f..])
      else MatchTail(currency, s[..n], "", t)
  }

  function MatchPrice(raw: string): (r: Option<Groups>)
    ensures r.Some? ==> AllDigits(r.value.whole) && AllDigits(r.value.fraction)
  {
    var s := SkipSpaces(raw);
    if s != "" && CurrencyOf(s[0]).Some? then MatchAmount(CurrencyOf(s[0]), SkipSpaces(s[1..]))
    else MatchAmount(None, s)
  }

  /** Dropping k digits, rounding on the first one dropped. */
  function DropDigits(n: nat, k: nat): nat
    requires k > 0
  {
    if k == 1 then (n + 5) / 10 else DropDigits(n / 10, k - 1)
  }

  /** A numeral with f decimals, to the nearest hundred-millionth, halves upward. */
  function Units(n: nat, f: nat): nat {
    if f <= SCALE_DIGITS then Shift(n, SCALE_DIGITS - f) else DropDigits(n, f - SCALE_DIGITS)
  }

  /** Quantizing is rounding to the nearest unit, and a tie goes up. */
  lemma {:induction false} UnitsNearest(n: nat, k: nat)
    requires k > 0
    ensures 2 * n - Pow10(k) < 2 * Shift(DropDigits(n, k), k) <= 2 * n + Pow10(k)
  {
    if k == 1 {
      assert Shift(DropDigits(n, k), 1) == 10 * DropDigits(n, k);
      assert Pow10(1) == 10;
    } else {
      UnitsNearest(n / 10, k - 1);
      assert Pow10(k) == 10 * Pow10(k - 1) && Pow10(k - 1) == 2 * (5 * Pow10(k - 2));
    }
  }

  function ParseText(raw: string, defaultCurrency: string): Result<Price, PriceError> {
    match MatchPrice(raw)
    case None => Err(Unreadable)
    case Some(g) =>
      if g.currency.Some? && g.code.Some? && g.currency.value != Upper(g.code.value) then Err(TwoCurrencies)
      else
        var currency :=
          if g.currency.Some? then g.currency.value
          else if g.code.Some? then Upper(g.code.value) else defaultCurrency;
        match Quantize(Units(Value(g.whole + g.fraction), |g.fraction|))
        case Err(_) => Err(Unreadable)
        case Ok(amount) => Ok(Price(amount, currency))
  }

  function ParsePrice(raw: PriceArg, defaultCurrency: string): Result<Price, PriceError> {
    match raw
    case Given(price) => Ok(price)
    case Text(text) => ParseText(text, defaultCurrency)
  }

  /** A price as it is quoted in challenges and proofs. */
  function Quoted(amount: string, currency: string): string {
    amount + (" " + currency)
  }

  // ---------------------------------------------------------------- printing a decimal

  function Zeros(n: nat): (s: string)
    ensures |s| == n && AllDigits(s)
  {
    if n == 0 then "" else "0" + Zeros(n - 1)
  }

  /** `str` of a non-negative decimal with eight decimals: scientific below a hundred units. */
  function MagnitudeStr(n: nat): string {
    var d := PrintNat(n);
    if |d| == 1 then d + "E-8"
    else if |d| == 2 then d[..1] + ("." + (d[1..] + "E-7"))
    else if |d| <= 8 then "0" + ("." + (Zeros(8 - |d|) + d))
    else d[..|d| - 8] + ("." + d[|d| - 8..])
  }

  function DecimalStr(units: int): string {
    if units < 0 then "-" + MagnitudeStr(-units) else MagnitudeStr(units)
  }

  /** The exponent of a scientific numeral, 0 when there is none. */
  function ParseExponent(s: string): Option<int> {
    if s == "" then Some(0)
    else if s[0] != 'E' then None
    else
      var t := s[1..];
      var negative := t != "" && t[0] == '-';
      var digits := if t != "" && t[0] in "+-" then t[1..] else t;
      if digits != "" && AllDigits(digits) then
        Some(if negative then 0 - Value(digits) else Value(digits))
      else None
  }

  function ParseMagnitude(s: string): Option<nat> {
    var n := Span(s);
    if n == 0 then None
    else
      var t := s[n..];
      var f := FractionDigits(t);
      var fraction := if f == 0 then "" else t[1..][..f];
      var e :- ParseExponent(if f == 0 then t else t[1..][f..]);
      if e - f + SCALE_DIGITS < 0 then None
      else Some(Shift(Value(s[..n] + fraction), e - f + SCALE_DIGITS))
  }

  /** `Decimal(text)`, for numerals no finer than the scale of the register. */
  function ParseDecimal(s: string): Option<int> {
    if s != "" && s[0] == '-' then
      var n :- ParseMagnitude(s[1..]);
      Some(0 - n)
    else
      var n :- ParseMagnitude(s);
      Some(n)
  }

  // ---------------------------------------------------------------- printing and reading agree

  /** A numeral with a fraction of f digits, followed by text that is not part of it. */
  lemma SplitNumeral(whole: string, fraction: string, rest: string)
    requires AllDigits(whole) && AllDigits(fraction) && whole != ""
    requires rest == "" || (!IsDigit(rest[0]) && rest[0] != '.')
    ensures fraction != "" ==>
      var s := whole + ("." + (fraction + rest));
      Span(s) == |whole| && s[..|whole|] == whole
      && FractionDigits(s[|whole|..]) == |fraction|
      && s[|whole|..][1..][..|fraction|] == fraction && s[|whole|..][1..][|fraction|..] == rest
    ensures
      var s := whole + rest;
      Span(s) == |whole| && s[..|whole|] == whole && s[|whole|..] == rest && FractionDigits(rest) == 0
  {
    SpanAppend(whole, rest);
    if fraction != "" {
      var t := "." + (fraction + rest);
      SpanAppend(whole, t);
      SpanAppend(fraction, rest);
      assert (whole + t)[|whole|..] == t && t[1..] == fraction + rest;
      assert t[1] == fraction[0];
    }
  }

  lemma {:induction false} LeadingZeros(n: nat, d: string)
    requires AllDigits(d)
    ensures AllDigits("0" + (Zeros(n) + d)) && Value("0" + (Zeros(n) + d)) == Value(d)
  {
    ValueConcat("0", Zeros(n) + d);
    ValueConcat(Zeros(n), d);
    ValueZeros(n);
    assert Value("0") == 0;
    assert Value("0") * Pow10(|Zeros(n) + d|) == 0;
    assert Value(Zeros(n)) * Pow10(|d|) == 0;
  }

  lemma {:induction false} ValueZeros(n: nat)
    ensures Value(Zeros(n)) == 0
  {
    if n > 0 {
      ValueZeros(n - 1);
      ValueConcat("0", Zeros(n - 1));
      assert Value("0") == 0;
      assert Value("0") * Pow10(|Zeros(n - 1)|) == 0;
    }
  }

  lemma LongNumeral(n: nat)
    requires n >= 100
    ensures |PrintNat(n)| > 2
  {
    assert |PrintNat(n / 10)| == |PrintNat(n / 10 / 10)| + 1;
  }

  /** How a decimal of at least a hundred units is written: digits, a point, eight digits. */
  lemma PlainForm(n: nat) returns (whole: string, fraction: string)
    requires n >= 100
    ensures AllDigits(whole) && AllDigits(fraction) && whole != "" && |fraction| == 8
    ensures MagnitudeStr(n) == whole + ("." + fraction)
    ensures Value(whole + fraction) == n
  {
    var d := PrintNat(n);
    PrintNatValue(n);
    LongNumeral(n);
    if |d| <= 8 {
      whole, fraction := "0", Zeros(8 - |d|) + d;
      LeadingZeros(8 - |d|, d);
      assert whole + fraction == "0" + (Zeros(8 - |d|) + d);
    } else {
      whole, fraction := d[..|d| - 8], d[|d| - 8..];
      assert whole + fraction == d;
    }
  }

  lemma SmallForm(n: nat)
    requires n < 100
    ensures n < 10 ==> MagnitudeStr(n) == PrintNat(n) + "E-8" && |PrintNat(n)| == 1
    ensures n >= 10 ==>
      |PrintNat(n)| == 2 && MagnitudeStr(n) == PrintNat(n)[..1] + ("." + (PrintNat(n)[1..] + "E-7"))
  {
    PrintNatLength(n);
    assert Pow10(1) == 10 && Pow10(2) == 100;
  }

  lemma ExponentForms()
    ensures ParseExponent("E-8") == Some(-8) && ParseExponent("E-7") == Some(-7)
  {
    assert "E-8"[1..] == "-8" && "-8"[1..] == "8";
    assert "E-7"[1..] == "-7" && "-7"[1..] == "7";
    assert Value("") == 0;
    assert "8"[..0] == "" && "7"[..0] == "";
  }

  lemma ParseMagnitudeStr(n: nat)
    ensures ParseMagnitude(MagnitudeStr(n)) == Some(n)
    ensures MagnitudeStr(n) != "" && MagnitudeStr(n)[0] != '-'
  {
    if n >= 100 {
      var whole, fraction := PlainForm(n);
      SplitNumeral(whole, fraction, "");
      assert fraction + "" == fraction;
      assert IsDigit(whole[0]);
      assert MagnitudeStr(n)[0] == whole[0];
    } else {
      var d := PrintNat(n);
      SmallForm(n);
      PrintNatValue(n);
      ExponentForms();
      if n < 10 {
        SplitNumeral(d, "", "E-8");
        assert d + "" == d;
      } else {
        SplitNumeral(d[..1], d[1..], "E-7");
        assert d[..1] + d[1..] == d;
      }
      assert IsDigit(d[0]);
    }
  }

  lemma ParseSigned(m: string, n: nat)
    requires ParseMagnitude(m) == Some(n) && m != "" && m[0] != '-'
    ensures ParseDecimal(m) == Some(n) && ParseDecimal("-" + m) == Some(0 - n)
  {
    assert ("-" + m)[1..] == m;
  }

  /** Every amount, of either sign and however small, is read back from its printed form. */
  lemma ParseDecimalStr(units: int)
    ensures ParseDecimal(DecimalStr(units)) == Some(units)
  {
    var n: nat := if units < 0 then -units else units;
    ParseMagnitudeStr(n);
    ParseSigned(MagnitudeStr(n), n);
  }

  lemma CodeTail(currency: Option<string>, whole: string, fraction: string, code: string)
    requires IsCode(code)
    ensures MatchTail(currency, whole, fraction, " " + code) == Some(Groups(currency, whole, fraction, Some(code)))
  {
    assert (" " + code)[1..] == code;
    assert SkipSpaces(" " + code) == SkipSpaces(code) == code;
    assert code[..3] == code && code[3..] == "";
  }

  lemma DigitStart(s: string)
    requires s != "" && (IsDigit(s[0]) || s[0] == '-')
    ensures SkipSpaces(s) == s && CurrencyOf(s[0]) == None
  {
  }

  lemma ParseLarge(units: nat, code: string)
    requires units >= 100 && IsCode(code)
    ensures ParseText(Quoted(DecimalStr(units), code), "USD") ==
      if units < PRECISION_LIMIT then Ok(Price(units, Upper(code))) else Err(Unreadable)
  {
    var whole, fraction := PlainForm(units);
    var rest := " " + code;
    var s := Quoted(DecimalStr(units), code);
    assert s == whole + ("." + (fraction + rest));
    SplitNumeral(whole, fraction, rest);
    CodeTail(None, whole, fraction, code);
    assert s[0] == whole[0];
    DigitStart(s);
    assert Units(units, 8) == units;
  }

  lemma RefuseScientific(whole: string, fraction: string, exponent: string, s: string, code: string)
    requires AllDigits(whole) && AllDigits(fraction) && whole != ""
    requires |exponent| == 3 && exponent[0] == 'E' && exponent[1] == '-'
    requires s == whole + if fraction == "" then exponent + (" " + code)
      else "." + (fraction + (exponent + (" " + code)))
    ensures ParseText(s, "USD") == Err(Unreadable)
  {
    var rest := exponent + (" " + code);
    SplitNumeral(whole, fraction, rest);
    RefuseExponent(None, whole, fraction, rest);
    assert s[0] == whole[0];
    DigitStart(s);
  }

  lemma RefuseSmall(units: nat, code: string)
    requires units < 100 && IsCode(code)
    ensures ParseText(Quoted(DecimalStr(units), code), "USD") == Err(Unreadable)
  {
    var d := PrintNat(units);
    SmallForm(units);
    var s := Quoted(DecimalStr(units), code);
    if units < 10 {
      RefuseScientific(d, "", "E-8", s, code);
    } else {
      RefuseScientific(d[..1], d[1..], "E-7", s, code);
    }
  }

  lemma RefuseExponent(currency: Option<string>, whole: string, fraction: string, tail: string)
    requires |tail| >= 3 && tail[0] == 'E' && tail[1] == '-'
    ensures MatchTail(currency, whole, fraction, tail) == None
  {
    assert SkipSpaces(tail) == tail;
  }

  /**
    A quoted amount is read back as the same price exactly when it is at least a hundred units and
    fits the context: below that its printed form is scientific, above it quantizing raises, and a
    sign is never accepted.
  */
  lemma QuotedPriceReadBack(units: int, code: string)
    requires IsCode(code)
    ensures ParseText(Quoted(DecimalStr(units), code), "USD") == Ok(Price(units, Upper(code)))
      <==> 100 <= units < PRECISION_LIMIT
    ensures !(100 <= units < PRECISION_LIMIT) ==>
      ParseText(Quoted(DecimalStr(units), code), "USD") == Err(Unreadable)
  {
    if units >= 100 {
      ParseLarge(units, code);
    } else if units >= 0 {
      RefuseSmall(units, code);
    } else {
      var s := Quoted(DecimalStr(units), code);
      assert s[0] == '-';
      DigitStart(s);
    }
  }

  // ---------------------------------------------------------------- prices as people write them

  /** The currency a sign stands for. */
  ghost predicate SignOf(symbol: char, currency: string) {
    || (symbol == '$' && currency == "USD")
    || (symbol == '\U{20AC}' && currency == "EUR")
    || (symbol == '\U{A3}' && currency == "GBP")
  }

  function Numeral(whole: string, fraction: string): string {
    if fraction == "" then whole else whole + ("." + fraction)
  }

  lemma {:induction false} MatchNumeral(currency: Option<string>, whole: string, fraction: string, rest: string)
    requires AllDigits(whole) && AllDigits(fraction) && whole != ""
    requires rest == "" || (!IsDigit(rest[0]) && rest[0] != '.')
    ensures MatchAmount(currency, Numeral(whole, fraction) + rest) == MatchTail(currency, whole, fraction, rest)
    ensures Numeral(whole, fraction) != "" && Numeral(whole, fraction)[0] == whole[0] && IsDigit(whole[0])
  {
    hide MatchTail, Span, FractionDigits, AllDigits;
    NumeralStart(whole, fraction);
    SplitNumeral(whole, fraction, rest);
    var s := Numeral(whole, fraction) + rest;
    if fraction == "" {
      assert s == whole + rest;
      assert s[|whole|..] == rest && s[..|whole|] == whole;
      assert MatchAmount(currency, s) == MatchTail(currency, whole, "", rest);
    } else {
      assert s == whole + ("." + (fraction + rest));
      var t := s[|whole|..];
      assert t[1..][..|fraction|] == fraction && t[1..][|fraction|..] == rest && |fraction| > 0;
      assert MatchAmount(currency, s) == MatchTail(currency, s[..|whole|], t[1..][..|fraction|], t[1..][|fraction|..]);
    }
  }

  lemma NumeralStart(whole: string, fraction: string)
    requires AllDigits(whole) && whole != ""
    ensures Numeral(whole, fraction) != "" && Numeral(whole, fraction)[0] == whole[0] && IsDigit(whole[0])
  {
  }

  lemma EmptyTail(currency: Option<string>, whole: string, fraction: string)
    ensures MatchTail(currency, whole, fraction, "") == Some(Groups(currency, whole, fraction, None))
  {
  }

  lemma {:induction false} MatchSigned(symbol: char, numeral: string)
    requires CurrencyOf(symbol).Some? && numeral != "" && IsDigit(numeral[0])
    ensures MatchPrice([symbol] + numeral) == MatchAmount(CurrencyOf(symbol), numeral)
  {
    hide MatchAmount;
    var text := [symbol] + numeral;
    assert text[0] == symbol && text[1..] == numeral;
    DigitStart(numeral);
  }

  lemma {:induction false} MatchPlain(text: string)
    requires text != "" && IsDigit(text[0])
    ensures MatchPrice(text) == MatchAmount(None, text)
  {
    hide MatchAmount;
    DigitStart(text);
  }

  /** A price with a sign has the sign's currency; its amount is rounded to the nearest unit. */
  lemma {:induction false} SignedPriceRead(symbol: char, currency: string, whole: string, fraction: string)
    requires SignOf(symbol, currency) && whole != "" && AllDigits(whole) && AllDigits(fraction)
    ensures AllDigits(whole + fraction)
    ensures var amount := Units(Value(whole + fraction), |fraction|);
      ParseText([symbol] + Numeral(whole, fraction), "USD") ==
        if amount < PRECISION_LIMIT then Ok(Price(amount, currency)) else Err(Unreadable)
  {
    hide MatchAmount, MatchTail, MatchPrice, Units, Value, Numeral;
    MatchNumeral(Some(currency), whole, fraction, "");
    assert Numeral(whole, fraction) + "" == Numeral(whole, fraction);
    EmptyTail(Some(currency), whole, fraction);
    MatchSigned(symbol, Numeral(whole, fraction));
    ValueConcat(whole, fraction);
  }

  /** A bare price has the currency of the caller, and one with a code that of the code, in capitals. */
  lemma {:induction false} PlainPriceRead(whole: string, fraction: string, code: string, default: string)
    requires whole != "" && AllDigits(whole) && AllDigits(fraction) && IsCode(code)
    ensures AllDigits(whole + fraction)
    ensures var amount := Units(Value(whole + fraction), |fraction|);
      && ParseText(Numeral(whole, fraction), default) ==
         (if amount < PRECISION_LIMIT then Ok(Price(amount, default)) else Err(Unreadable))
      && ParseText(Numeral(whole, fraction) + (" " + code), default) ==
         (if amount < PRECISION_LIMIT then Ok(Price(amount, Upper(code))) else Err(Unreadable))
  {
    hide MatchAmount, MatchTail, MatchPrice, Units, Value, Numeral, Upper;
    MatchNumeral(None, whole, fraction, "");
    MatchNumeral(None, whole, fraction, " " + code);
    assert Numeral(whole, fraction) + "" == Numeral(whole, fraction);
    EmptyTail(None, whole, fraction);
    CodeTail(None, whole, fraction, code);
    MatchPlain(Numeral(whole, fraction));
    MatchPlain(Numeral(whole, fraction) + (" " + code));
    ValueConcat(whole, fraction);
  }

  lemma {:induction false} ShiftScales(n: nat, k: nat)
    ensures Shift(n, k) == n * Pow10(k)
  {
    if k > 0 {
      ShiftScales(n, k - 1);
      Tenfold(n, Pow10(k - 1));
    }
  }

  lemma {:induction false} PowersMeet(f: nat)
    requires f <= 8
    ensures Pow10(8 - f) * Pow10(f) == 100_000_000
    decreases 8 - f
  {
    if f == 8 {
      assert Pow10(0) == 1 && Pow10(2) == 100;
      assert Pow10(4) == 100 * Pow10(2);
      assert Pow10(6) == 100 * Pow10(4);
      assert Pow10(8) == 100 * Pow10(6);
    } else {
      PowersMeet(f + 1);
      assert Pow10(8 - f) == 10 * Pow10(7 - f) && Pow10(f + 1) == 10 * Pow10(f);
      Tenfold(Pow10(7 - f), Pow10(f));
    }
  }

  /** Up to eight decimals nothing is rounded: a numeral keeps its value. */
  lemma {:induction false} UnitsExact(n: nat, f: nat)
    requires f <= 8
    ensures Units(n, f) * Pow10(f) == n * 100_000_000
  {
    hide Shift, Pow10;
    ShiftScales(n, 8 - f);
    PowersMeet(f);
    Associates(n, Pow10(8 - f), Pow10(f));
  }

  lemma Associates(a: int, b: int, c: int)
    ensures (a * b) * c == a * (b * c)
  {
  }
}
