/** URL-safe base64 without padding (section 5 of RFC 4648), and Python's lenient decoder. */
module Base64 {
  import opened Wrappers
  import opened Utf8

  /** Six bits. */
  type Sextet = v: int | 0 <= v < 64

  function Symbol(v: Sextet): (c: char)
    ensures SextetOf(c) == Some(v)
    ensures c !in "=.+/" && c as int < 128
  {
    if v < 26 then 'A' + v as char
    else if v < 52 then 'a' + (v - 26) as char
    else if v < 62 then '0' + (v - 52) as char
    else if v == 62 then '-' else '_'
  }

  /** The decoder also takes `+` and `/`, which it maps from `-` and `_` beforehand. */
  function SextetOf(c: char): (r: Option<Sextet>)
    ensures c == '=' ==> r == None
  {
    if 'A' <= c <= 'Z' then Some(c as int - 'A' as int)
    else if 'a' <= c <= 'z' then Some(c as int - 'a' as int + 26)
    else if '0' <= c <= '9' then Some(c as int - '0' as int + 52)
    else if c in "-+" then Some(62)
    else if c in "_/" then Some(63)
    else None
  }

  // ---------------------------------------------------------------- encoding

  /** The bits of a byte string, six at a time; the last group is completed with zeros. */
  function Sextets(raw: Bytes): seq<Sextet> {
    if |raw| == 0 then []
    else if |raw| == 1 then [raw[0] / 4, raw[0] % 4 * 16]
    else if |raw| == 2 then [raw[0] / 4, raw[0] % 4 * 16 + raw[1] / 16, raw[1] % 16 * 4]
    else
      [raw[0] / 4, raw[0] % 4 * 16 + raw[1] / 16, raw[1] % 16 * 4 + raw[2] / 64, raw[2] % 64] + Sextets(raw[3..])
  }

  function Symbols(sextets: seq<Sextet>): (s: string)
    ensures |s| == |sextets|
    ensures forall i :: 0 <= i < |s| ==> s[i] !in "=.+/" && s[i] as int < 128
  {
    if sextets == [] then "" else [Symbol(sextets[0])] + Symbols(sextets[1..])
  }

  function B64(raw: Bytes): (s: string)
    ensures forall i :: 0 <= i < |s| ==> s[i] !in "=.+/" && s[i] as int < 128
  {
    Symbols(Sextets(raw))
  }

  // ---------------------------------------------------------------- decoding

  function Pads(n: nat): string {
    if n == 0 then "" else "=" + Pads(n - 1)
  }

  /** `quad` characters of the current group were seen, `left` holds the bits not yet output. */
  datatype Acc = Acc(quad: int, left: int, out: Bytes) {
    predicate Valid() {
      0 <= quad < 4 && 0 <= left < 64 && (quad == 2 ==> left < 16) && (quad == 3 ==> left < 4)
    }

    function Feed(v: Sextet): (a: Acc)
      requires Valid()
      ensures a.Valid()
    {
      if quad == 0 then Acc(1, v, out)
      else if quad == 1 then Acc(2, v % 16, out + [left * 4 + v / 16])
      else if quad == 2 then Acc(3, v % 4, out + [left * 16 + v / 4])
      else Acc(0, 0, out + [left * 64 + v])
    }
  }

  /** The decoder's loop; `pads` counts consecutive padding, characters outside the alphabet are skipped. */
  function Scan(s: string, a: Acc, pads: nat): Option<Bytes>
    requires a.Valid()
  {
    if s == "" then (if a.quad == 0 then Some(a.out) else None)
    else if s[0] == '=' then
      if a.quad < 2 then Scan(s[1..], a, pads)
      else if a.quad + pads + 1 >= 4 then Some(a.out)
      else Scan(s[1..], a, pads + 1)
    else
      var v := SextetOf(s[0]);
      if v.None? then Scan(s[1..], a, pads) else Scan(s[1..], a.Feed(v.value), 0)
  }

  predicate Ascii(s: string) {
    forall i :: 0 <= i < |s| ==> s[i] as int < 128
  }

  /** Padding is restored to a multiple of four characters before decoding. */
  function Unb64(raw: string): Option<Bytes> {
    if Ascii(raw) then Scan(raw + Pads((4 - |raw| % 4) % 4), Acc(0, 0, []), 0) else None
  }

  // ---------------------------------------------------------------- round trip

  function Gather(sextets: seq<Sextet>, a: Acc): (b: Acc)
    requires a.Valid()
    ensures b.Valid()
  {
    if sextets == [] then a else Gather(sextets[1..], a.Feed(sextets[0]))
  }

  lemma {:induction false} ScanSymbols(sextets: seq<Sextet>, t: string, a: Acc)
    requires a.Valid()
    ensures Scan(Symbols(sextets) + t, a, 0) == Scan(t, Gather(sextets, a), 0)
  {
    if sextets == [] {
      assert "" + t == t;
    } else {
      var s := Symbols(sextets[1..]) + t;
      assert Symbols(sextets) + t == [Symbol(sextets[0])] + s;
      assert ([Symbol(sextets[0])] + s)[1..] == s;
      ScanSymbols(sextets[1..], t, a.Feed(sextets[0]));
    }
  }

  lemma {:induction false} GatherNext(v: Sextet, rest: seq<Sextet>, a: Acc)
    requires a.Valid()
    ensures Gather([v] + rest, a) == Gather(rest, a.Feed(v))
  {
    assert ([v] + rest)[1..] == rest;
  }

  /** What is left to say once the whole groups are read: the last bits, and how much padding. */
  function Final(raw: Bytes, out: Bytes): Acc {
    if |raw| % 3 == 0 then Acc(0, 0, out + raw)
    else if |raw| % 3 == 1 then Acc(2, 0, out + raw)
    else Acc(3, 0, out + raw)
  }

  lemma {:induction false} FeedGroup(a: Byte, b: Byte, c: Byte, out: Bytes)
    ensures Acc(0, 0, out).Feed(a / 4).Feed(a % 4 * 16 + b / 16) == Acc(2, b / 16, out + [a])
    ensures Acc(2, b / 16, out + [a]).Feed(b % 16 * 4 + c / 64).Feed(c % 64) == Acc(0, 0, out + [a, b, c])
    ensures Acc(2, b / 16, out + [a]).Feed(b % 16 * 4) == Acc(3, 0, out + [a, b])
  {
    assert out + [a] + [b] == out + [a, b] && out + [a, b] + [c] == out + [a, b, c];
  }

  lemma {:induction false} GatherOne(a: Byte, out: Bytes)
    ensures Gather([a / 4, a % 4 * 16], Acc(0, 0, out)) == Acc(2, 0, out + [a])
  {
    hide Acc.Feed;
    var w: Sextet, x: Sextet, none: seq<Sextet> := a / 4, a % 4 * 16, [];
    FeedGroup(a, 0, 0, out);
    assert [w, x] == [w] + ([x] + none);
    GatherNext(w, [x] + none, Acc(0, 0, out));
    GatherNext(x, none, Acc(0, 0, out).Feed(w));
  }

  lemma {:induction false} GatherTwo(a: Byte, b: Byte, out: Bytes)
    ensures Gather([a / 4, a % 4 * 16 + b / 16, b % 16 * 4], Acc(0, 0, out)) == Acc(3, 0, out + [a, b])
  {
    hide Acc.Feed;
    var w: Sextet, x: Sextet, y: Sextet, none: seq<Sextet> := a / 4, a % 4 * 16 + b / 16, b % 16 * 4, [];
    FeedGroup(a, b, 0, out);
    assert [w, x, y] == [w] + ([x] + ([y] + none));
    GatherNext(w, [x] + ([y] + none), Acc(0, 0, out));
    GatherNext(x, [y] + none, Acc(0, 0, out).Feed(w));
    GatherNext(y, none, Acc(2, b / 16, out + [a]));
  }

  lemma {:induction false} GatherShort(raw: Bytes, out: Bytes)
    requires |raw| < 3
    ensures Gather(Sextets(raw), Acc(0, 0, out)) == Final(raw, out)
  {
    if |raw| == 0 {
      assert out + raw == out;
    } else if |raw| == 1 {
      GatherOne(raw[0], out);
      assert raw == [raw[0]];
    } else {
      GatherTwo(raw[0], raw[1], out);
      assert raw == [raw[0], raw[1]];
    }
  }

  lemma {:induction false} GatherGroup(a: Byte, b: Byte, c: Byte, rest: seq<Sextet>, out: Bytes)
    ensures Gather([a / 4, a % 4 * 16 + b / 16, b % 16 * 4 + c / 64, c % 64] + rest, Acc(0, 0, out)) ==
      Gather(rest, Acc(0, 0, out + [a, b, c]))
  {
    var w, x, y, z := a / 4, a % 4 * 16 + b / 16, b % 16 * 4 + c / 64, c % 64;
    assert [w, x, y, z] + rest == [w] + ([x] + ([y] + ([z] + rest)));
    FeedGroup(a, b, c, out);
    GatherNext(w, [x] + ([y] + ([z] + rest)), Acc(0, 0, out));
    GatherNext(x, [y] + ([z] + rest), Acc(0, 0, out).Feed(w));
    GatherNext(y, [z] + rest, Acc(2, b / 16, out + [a]));
    GatherNext(z, rest, Acc(2, b / 16, out + [a]).Feed(y));
  }

  lemma {:induction false} GatherSextets(raw: Bytes, out: Bytes)
    ensures Gather(Sextets(raw), Acc(0, 0, out)) == Final(raw, out)
  {
    if |raw| < 3 {
      GatherShort(raw, out);
    } else {
      GatherGroup(raw[0], raw[1], raw[2], Sextets(raw[3..]), out);
      GatherSextets(raw[3..], out + [raw[0], raw[1], raw[2]]);
      assert |raw| % 3 == |raw[3..]| % 3;
      assert out + [raw[0], raw[1], raw[2]] + raw[3..] == out + raw;
    }
  }

  lemma {:induction false} SextetCount(raw: Bytes)
    ensures |Sextets(raw)| % 4 == if |raw| % 3 == 0 then 0 else |raw| % 3 + 1
  {
    if |raw| >= 3 {
      SextetCount(raw[3..]);
      assert |Sextets(raw)| == 4 + |Sextets(raw[3..])|;
    }
  }

  lemma {:induction false} ScanPadding(raw: Bytes, n: nat)
    requires n % 4 == if |raw| % 3 == 0 then 0 else |raw| % 3 + 1
    ensures Scan(Pads((4 - n % 4) % 4), Final(raw, []), 0) == Some(raw)
  {
    assert [] + raw == raw;
    assert Pads(0) == "" && Pads(1) == "=" && Pads(2) == "==";
    assert "=="[1..] == "=";
  }

  /** Every byte string survives the trip through a header. */
  lemma {:induction false} UnbB64(raw: Bytes)
    ensures Unb64(B64(raw)) == Some(raw)
  {
    hide Sextets, Symbols, Gather, Pads, Scan, Final;
    SextetCount(raw);
    ScanSymbols(Sextets(raw), Pads((4 - |B64(raw)| % 4) % 4), Acc(0, 0, []));
    GatherSextets(raw, []);
    ScanPadding(raw, |B64(raw)|);
  }

  // ---------------------------------------------------------------- the alphabet and the order of the bits

  /** Table 2 of RFC 4648 and the two symbols of its section 5, by their ranges. */
  lemma {:induction false} SymbolInTable(v: Sextet)
    ensures v < 26 ==> Symbol(v) == "ABCDEFGHIJKLMNOPQRSTUVWXYZ"[v]
    ensures 26 <= v < 52 ==> Symbol(v) == "abcdefghijklmnopqrstuvwxyz"[v - 26]
    ensures 52 <= v < 62 ==> Symbol(v) == "0123456789"[v - 52]
    ensures v == 62 ==> Symbol(v) == '-'
    ensures v == 63 ==> Symbol(v) == '_'
  {
  }

  /** Three bytes and their four sextets are the same number; what is left over is shifted to the front. */
  lemma {:induction false} SextetsOfGroups(a: Byte, b: Byte, c: Byte, rest: Bytes)
    ensures var s: seq<int> := Sextets([a, b, c] + rest);
      && |s| >= 4 && s[4..] == Sextets(rest)
      && s[0] * 262144 + s[1] * 4096 + s[2] * 64 + s[3] == a * 65536 + b * 256 + c
    ensures var s: seq<int> := Sextets([a, b]);
      |s| == 3 && s[0] * 4096 + s[1] * 64 + s[2] == (a * 256 + b) * 4
    ensures var s: seq<int> := Sextets([a]);
      |s| == 2 && s[0] * 64 + s[1] == a * 16
    ensures Sextets([]) == []
  {
    assert ([a, b, c] + rest)[3..] == rest;
  }

  /** The characters that the decoder heeds: letters, digits, the symbols of both alphabets, and padding. */
  predicate Heeded(c: char) {
    'A' <= c <= 'Z' || 'a' <= c <= 'z' || '0' <= c <= '9' || c in "-_+/="
  }

  function Heed(s: string): string {
    if s == "" then "" else if Heeded(s[0]) then [s[0]] + Heed(s[1..]) else Heed(s[1..])
  }

  /** Other characters are skipped, wherever they stand. */
  lemma {:induction false} OthersSkipped(s: string, a: Acc, pads: nat)
    requires a.Valid()
    ensures Scan(s, a, pads) == Scan(Heed(s), a, pads)
    decreases s
  {
    if s != "" {
      var v := SextetOf(s[0]);
      OthersSkipped(s[1..], a, pads);
      if Heeded(s[0]) {
        assert Heed(s) == [s[0]] + Heed(s[1..]) && Heed(s)[1..] == Heed(s[1..]);
        OthersSkipped(s[1..], a, pads + 1);
        if v.Some? {
          OthersSkipped(s[1..], a.Feed(v.value), 0);
        }
      }
    }
  }
}
