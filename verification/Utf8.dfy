/** UTF-8 as Python's strict codec reads and writes it (section 3 of RFC 3629). */
module Utf8 {
  import opened Wrappers

  type Byte = b: int | 0 <= b < 256

  type Bytes = seq<Byte>

  function EncodeChar(c: char): (b: Bytes)
    ensures 1 <= |b| <= 4
  {
    var n := c as int;
    if n < 0x80 then [n]
    else if n < 0x800 then [0xC0 + n / 64, 0x80 + n % 64]
    else if n < 0x1_0000 then [0xE0 + n / 4096, 0x80 + n / 64 % 64, 0x80 + n % 64]
    else [0xF0 + n / 262144, 0x80 + n / 4096 % 64, 0x80 + n / 64 % 64, 0x80 + n % 64]
  }

  function Encode(s: string): Bytes {
    if s == "" then [] else EncodeChar(s[0]) + Encode(s[1..])
  }

  predicate Continuation(b: Byte) {
    0x80 <= b < 0xC0
  }

  /** The number whose base-64 digits are given. */
  function Pack(hi: int, mid: int, lo: int): (n: int)
    requires 0 <= mid < 64 && 0 <= lo < 64
    ensures n / 64 == hi * 64 + mid && n % 64 == lo
    ensures n / 4096 == hi && n / 64 % 64 == mid
  {
    hi * 4096 + mid * 64 + lo
  }

  function Low(b: Byte): (n: int)
    requires Continuation(b)
    ensures 0 <= n < 64
  {
    b - 0x80
  }

  /** The first character and its width; overlong forms, surrogates and truncations are refused. */
  function DecodeChar(b: Bytes): (r: Option<(char, nat)>)
    ensures r.Some? ==> 1 <= r.value.1 <= |b|
  {
    if |b| == 0 then None
    else if b[0] < 0x80 then Some((b[0] as char, 1))
    else if 0xC2 <= b[0] < 0xE0 then
      if |b| >= 2 && Continuation(b[1]) then
        Some((Pack(0, b[0] - 0xC0, Low(b[1])) as char, 2))
      else None
    else if 0xE0 <= b[0] < 0xF0 then
      if |b| >= 3 && Continuation(b[1]) && Continuation(b[2]) then
        var n := Pack(b[0] - 0xE0, Low(b[1]), Low(b[2]));
        if 0x800 <= n < 0xD800 || 0xE000 <= n then Some((n as char, 3)) else None
      else None
    else if 0xF0 <= b[0] < 0xF5 then
      if |b| >= 4 && Continuation(b[1]) && Continuation(b[2]) && Continuation(b[3]) then
        var n := Pack((b[0] - 0xF0) * 64 + Low(b[1]), Low(b[2]), Low(b[3]));
        if 0x1_0000 <= n < 0x11_0000 then Some((n as char, 4)) else None
      else None
    else None
  }

  function Decode(b: Bytes): Option<string> {
    if b == [] then Some("")
    else
      var (c, n) :- DecodeChar(b);
      var rest :- Decode(b[n..]);
      Some([c] + rest)
  }

  lemma Unpack(n: nat)
    ensures n == Pack(n / 4096, n / 64 % 64, n % 64)
  {
    assert n / 64 / 64 == n / 4096;
    assert n / 64 == n / 4096 * 64 + n / 64 % 64;
  }

  lemma DecodeEncodeChar(c: char, rest: Bytes)
    ensures DecodeChar(EncodeChar(c) + rest) == Some((c, |EncodeChar(c)|))
  {
    var n := c as int;
    if n < 0x80 {
      assert ([n] + rest)[0] == n;
    } else if n < 0x800 {
      DecodeEncode2(c, rest);
    } else if n < 0x1_0000 {
      DecodeEncode3(c, rest);
    } else {
      DecodeEncode4(c, rest);
    }
  }

  lemma DecodeEncode2(c: char, rest: Bytes)
    requires 0x80 <= c as int < 0x800
    ensures DecodeChar(EncodeChar(c) + rest) == Some((c, 2))
  {
    var n := c as int;
    var b := [0xC0 + n / 64, 0x80 + n % 64] + rest;
    assert b[0] == 0xC0 + n / 64 && b[1] == 0x80 + n % 64;
    assert n == Pack(0, n / 64, n % 64);
  }

  lemma DecodeEncode3(c: char, rest: Bytes)
    requires 0x800 <= c as int < 0x1_0000
    ensures DecodeChar(EncodeChar(c) + rest) == Some((c, 3))
  {
    var n := c as int;
    var x, y, z := n / 4096, n / 64 % 64, n % 64;
    Unpack(n);
    var b := [0xE0 + x, 0x80 + y, 0x80 + z] + rest;
    assert EncodeChar(c) + rest == b;
    assert b[0] == 0xE0 + x && b[1] == 0x80 + y && b[2] == 0x80 + z;
    assert Low(b[1]) == y && Low(b[2]) == z;
  }

  lemma DecodeEncode4(c: char, rest: Bytes)
    requires 0x1_0000 <= c as int
    ensures DecodeChar(EncodeChar(c) + rest) == Some((c, 4))
  {
    var n := c as int;
    var w, x, y, z := n / 262144, n / 4096 % 64, n / 64 % 64, n % 64;
    var b := [0xF0 + w, 0x80 + x, 0x80 + y, 0x80 + z] + rest;
    Unpack(n);
    assert n / 4096 / 64 == w;
    assert EncodeChar(c) + rest == b;
    assert b[0] == 0xF0 + w && b[1] == 0x80 + x && b[2] == 0x80 + y && b[3] == 0x80 + z;
    assert Low(b[1]) == x && Low(b[2]) == y && Low(b[3]) == z && w * 64 + x == n / 4096;
  }

  lemma EncodeDecodeChar(b: Bytes)
    requires DecodeChar(b).Some?
    ensures EncodeChar(DecodeChar(b).value.0) == b[..DecodeChar(b).value.1]
  {
    if b[0] < 0x80 {
    } else if b[0] < 0xE0 {
      EncodeDecode2(b);
    } else if b[0] < 0xF0 {
      EncodeDecode3(b);
    } else {
      EncodeDecode4(b);
    }
  }

  lemma EncodeDecode2(b: Bytes)
    requires DecodeChar(b).Some? && 0x80 <= b[0] < 0xE0
    ensures EncodeChar(DecodeChar(b).value.0) == b[..DecodeChar(b).value.1]
  {
    var n := Pack(0, b[0] - 0xC0, Low(b[1]));
    assert DecodeChar(b) == Some((n as char, 2));
    assert 0x80 <= n < 0x800;
    assert b[..2] == [b[0], b[1]];
  }

  lemma EncodeDecode3(b: Bytes)
    requires DecodeChar(b).Some? && 0xE0 <= b[0] < 0xF0
    ensures EncodeChar(DecodeChar(b).value.0) == b[..DecodeChar(b).value.1]
  {
    var n := Pack(b[0] - 0xE0, Low(b[1]), Low(b[2]));
    assert DecodeChar(b) == Some((n as char, 3));
    assert 0x800 <= n < 0x1_0000;
    assert b[..3] == [b[0], b[1], b[2]];
  }

  lemma EncodeDecode4(b: Bytes)
    requires DecodeChar(b).Some? && 0xF0 <= b[0]
    ensures EncodeChar(DecodeChar(b).value.0) == b[..DecodeChar(b).value.1]
  {
    var n := Pack((b[0] - 0xF0) * 64 + Low(b[1]), Low(b[2]), Low(b[3]));
    assert DecodeChar(b) == Some((n as char, 4));
    assert n / 262144 == n / 4096 / 64;
    assert b[..4] == [b[0], b[1], b[2], b[3]];
  }

  lemma {:induction false} DecodeEncode(s: string)
    ensures Decode(Encode(s)) == Some(s)
  {
    if s != "" {
      var e := EncodeChar(s[0]);
      DecodeEncodeChar(s[0], Encode(s[1..]));
      assert (e + Encode(s[1..]))[|e|..] == Encode(s[1..]);
      assert Encode(s) == e + Encode(s[1..]);
      DecodeEncode(s[1..]);
      assert s == [s[0]] + s[1..];
    }
  }

  lemma {:induction false} EncodeNext(c: char, rest: string)
    ensures Encode([c] + rest) == EncodeChar(c) + Encode(rest)
  {
    assert ([c] + rest)[1..] == rest;
  }

  /** Decoding is strict: only the canonical encoding of a text decodes to it. */
  lemma {:induction false} EncodeDecode(b: Bytes)
    requires Decode(b).Some?
    ensures Encode(Decode(b).value) == b
  {
    if b != [] {
      var n := DecodeChar(b).value.1;
      EncodeDecode(b[n..]);
      EncodeDecodeNext(b, DecodeChar(b).value.0, n, Decode(b[n..]).value);
    }
  }

  lemma {:induction false} EncodeDecodeNext(b: Bytes, c: char, n: nat, rest: string)
    requires DecodeChar(b) == Some((c, n)) && Encode(rest) == b[n..]
    ensures Encode([c] + rest) == b
  {
    EncodeDecodeChar(b);
    EncodeNext(c, rest);
    assert b == b[..n] + b[n..];
  }
}
