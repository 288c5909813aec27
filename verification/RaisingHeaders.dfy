/** Headers that make `admit` raise: a known payer without a nonce, a key that is none, and an infinite time. */
module RaisingHeaders {
  import opened Wrappers
  import opened Digits
  import opened Json
  import opened JsonText
  import opened Canonical
  import opened Utf8
  import opened Base64
  import opened Conversions
  import opened Crypto
  import opened Price
  import opened Proof
  import opened Audit
  import opened Ledgers
  import opened Gates

  // ---------------------------------------------------------------- unsigned headers

  /** A header whose body names a payer and nothing else. */
  function PayerOnly(payer: string): string {
    var fields := [Field("payer", Str(payer))];
    assert forall i :: 0 <= i < |fields| ==> !HasFloat(fields[i].value);
    B64(CanonicalBytes(Obj(fields)).value) + ("." + "")
  }

  lemma {:induction false} PayerOnlyPeeks(python: Python, payer: string)
    ensures PayerOnly(payer) != "" && Peek(python, PayerOnly(payer), "payer") == Some(payer)
    ensures Peek(python, PayerOnly(payer), "nonce").None?
  {
    hide B64, Unb64, Read, SplitPoint;
    var f := [Field("payer", Str(payer))];
    AtomicFields(f);
    var body := CanonicalBytes(Obj(f)).value;
    ReadCanonical(Obj(f));
    SplitFirstPoint(B64(body), "");
    UnbB64(body);
    assert f[1..] == [] && Sort(f) == f;
    assert Normalize(Obj(f)) == Obj(f);
    assert |"payer"| == 5 && "payer"[0] == 'p' && "nonce"[0] == 'n';
    assert |B64(body) + ("." + "")| > 0;
  }

  /**
    A header that names a payer and nothing else, signed by nobody, is refused for an unknown payer and
    raises for every other, whether its key can be read or not.
  */
  lemma {:induction false} PayerOnlyRaisesIff(crypto: Crypto, digest: Digest, keyring: map<string, string>,
                                              g: GateState, l: State, resource: string, price: PriceArg, payer: string,
                                              now: int, clock: real)
    requires l.journal != []
    ensures AfterAdmit(crypto, digest, keyring, g, l, resource, price, PayerOnly(payer), "", now, clock) ==
      (g, l, if payer !in keyring || keyring[payer] == "" then Rejected(UnknownPayer)
             else HeaderRaised(if crypto.readable(keyring[payer]) then UnreadableNonce else UnreadableKey))
  {
    hide Peek, AfterSettlement, AfterIssue, VerifyProof, PayerOnly;
    PayerOnlyPeeks(crypto.python, payer);
  }

  // ---------------------------------------------------------------- a signed header with an infinite time

  /** RFC 8259 allows this number, and Python reads it as an infinite float. */
  const INFINITE := "1e999"

  lemma {:induction false} InfiniteScan(rest: string)
    requires Delimited(rest)
    ensures var t := INFINITE + rest;
      && Span(t) == 1 && t[0] == '1' && t[..5] == INFINITE && t[5..] == rest
      && FractionLength(t[1..]) == 0 && ExponentLength(t[1..]) == 4
  {
    hide ParseValue;
    var t := INFINITE + rest;
    SpanAppend("1", "e999" + rest);
    assert t == "1" + ("e999" + rest);
    SpanAppend("999", rest);
    var e := t[1..];
    assert e == "e999" + rest && e[1..] == "999" + rest;
    assert e[1] !in "+-";
  }

  lemma {:induction false} ParseInfinite(rest: string)
    requires Delimited(rest)
    ensures ParseValue(INFINITE + rest) == Some((Float(INFINITE), rest))
  {
    hide Span, ExponentLength, FractionLength, AllDigits;
    var t := INFINITE + rest;
    InfiniteScan(rest);
    assert "" + INFINITE == INFINITE && t[1 + 0..] == t[1..];
    PositiveDispatch(t);
  }

  /** Members of an object, the last of them with its closing brace. */
  function Members(fields: seq<Field>, last: string): string {
    if fields == [] then last else PairText(fields[0], "," + Members(fields[1..], last))
  }

  lemma {:induction false} ParseMembers(fields: seq<Field>, last: string, f: Field, rest: string)
    requires forall i :: 0 <= i < |fields| ==> WellFormed(fields[i].value) && !HasFloat(fields[i].value)
    requires ParsePairs(last) == Some(([f], rest))
    ensures ParsePairs(Members(fields, last)) == Some((fields + [f], rest))
  {
    hide ParsePairs, PairText, WellFormed, HasFloat;
    if fields != [] {
      var end := "," + Members(fields[1..], last);
      ParsePrint(fields[0].value, end);
      ParsePrintPair(fields[0], end);
      ParseMembers(fields[1..], last, f, rest);
      assert end[1..] == Members(fields[1..], last);
      ParsePairsStep(fields[0], PairText(fields[0], end), end);
      assert fields + [f] == [fields[0]] + (fields[1..] + [f]);
    } else {
      assert fields + [f] == [f];
    }
  }

  /** The fields of a proof with another time of issue, in another order. */
  function Retimed(p: PaymentProof, issued: Json): seq<Field> {
    p.Fields()[..7] + [p.Fields()[8]] + [Field("issued_at", issued)]
  }

  /** The text of a proof issued at an infinite time. */
  function TimelessText(p: PaymentProof): string {
    "{" + Members(p.Fields()[..7] + [p.Fields()[8]], PairText(Field("issued_at", Float(INFINITE)), "}"))
  }

  lemma {:induction false} RetimedDistinct(p: PaymentProof, issued: Json)
    ensures Distinct(Retimed(p, issued))
  {
    hide PaymentProof.Fields;
    FieldsWellFormed(p);
    var f, r := p.Fields(), Retimed(p, issued);
    assert |f| == 9 && f[7].key == "issued_at" by { Lengths(p); }
    assert forall i :: 0 <= i < 9 ==> r[i].key == f[if i < 7 then i else 15 - i].key;
  }

  lemma {:induction false} Lengths(p: PaymentProof)
    ensures |p.Fields()| == 9 && p.Fields()[7].key == "issued_at"
    ensures forall i :: 0 <= i < 9 ==> p.Fields()[i].value.Str? || p.Fields()[i].value.Int?
  {
  }

  lemma {:induction false} ParseTimeless(p: PaymentProof)
    ensures Parse(TimelessText(p)) == Some(Obj(Retimed(p, Float(INFINITE))))
  {
    hide PaymentProof.Fields, Members, ParsePairs, PairText, ParseValue;
    Lengths(p);
    var f := Field("issued_at", Float(INFINITE));
    var last := PairText(f, "}");
    ParseInfinite("}");
    ParsePrintPair(f, "}");
    ParsePairsStep(f, last, "}");
    var front := p.Fields()[..7] + [p.Fields()[8]];
    ParseMembers(front, last, f, "");
    var t := Members(front, last);
    assert t[0] == '"' by { MembersQuote(front, last); }
    ObjectDispatch(t);
    NotSpace(t);
    RetimedDistinct(p, Float(INFINITE));
    DictDistinct(front + [f]);
  }

  lemma {:induction false} MembersQuote(fields: seq<Field>, last: string)
    requires fields != []
    ensures Members(fields, last) != "" && Members(fields, last)[0] == '"'
  {
  }

  /** The header that carries this text under the signature of its payer. */
  function TimelessHeader(crypto: Crypto, p: PaymentProof, secret: string): string {
    var body := Encode(TimelessText(p));
    B64(body) + ("." + B64(crypto.sign(secret, body)))
  }

  lemma {:induction false} ReadTimeless(crypto: Crypto, p: PaymentProof, secret: string)
    ensures var body := Encode(TimelessText(p));
      ReadHeader(TimelessHeader(crypto, p, secret)) ==
        Ok((body, crypto.sign(secret, body), Obj(Retimed(p, Float(INFINITE)))))
    ensures Peek(crypto.python, TimelessHeader(crypto, p, secret), "payer") == Some(p.payer)
    ensures Peek(crypto.python, TimelessHeader(crypto, p, secret), "nonce") == Some(p.nonce)
  {
    hide B64, Unb64, SplitPoint, TimelessText, Retimed, Get, Parse;
    var body := Encode(TimelessText(p));
    DecodeEncode(TimelessText(p));
    ParseTimeless(p);
    SplitFirstPoint(B64(body), B64(crypto.sign(secret, body)));
    UnbB64(body);
    UnbB64(crypto.sign(secret, body));
    RetimedGets(p, Float(INFINITE));
  }

  lemma {:induction false} RetimedGets(p: PaymentProof, issued: Json)
    ensures var f := Retimed(p, issued);
      && Get(f, "v") == Some(Str("im1")) && Get(f, "payer") == Some(Str(p.payer))
      && Get(f, "nonce") == Some(Str(p.nonce))
      && HasKey(f, "amount") && HasKey(f, "currency") && HasKey(f, "pay_to") && HasKey(f, "resource")
      && Get(f, "issued_at") == Some(issued) && Get(f, "expires_at") == Some(Int(p.expiresAt))
  {
    hide Get;
    var f := Retimed(p, issued);
    RetimedDistinct(p, issued);
    GetUnique(f, f[0]);
    GetUnique(f, f[1]);
    GetUnique(f, f[6]);
    GetUnique(f, f[7]);
    GetUnique(f, f[8]);
    assert f[2].key == "amount" && f[3].key == "currency" && f[4].key == "pay_to" && f[5].key == "resource";
  }

  /**
    Anyone with a key can answer a retained challenge with an infinite time of issue, and the exception
    reaches the caller of `admit`; nothing changes.
  */
  lemma {:induction false} InfiniteTimeRaises(crypto: Crypto, digest: Digest, keyring: map<string, string>,
                                              g: GateState, l: State, resource: string, price: PriceArg, c: Challenge,
                                              payer: string, secret: string, signedAt: int, now: int, clock: real)
    requires crypto.Correct() && crypto.python.truncate(INFINITE) == Infinite && l.journal != []
    requires payer in keyring && keyring[payer] == crypto.publicPem(secret)
    requires c.nonce in g.pending && g.pending[c.nonce] == c
    ensures var header := TimelessHeader(crypto, ProofFor(c, payer, signedAt), secret);
      AfterAdmit(crypto, digest, keyring, g, l, resource, price, header, "", now, clock) ==
        (g, l, HeaderRaised(BadProof(InfiniteTime)))
  {
    hide TimelessText, Retimed, Get, HasKey, ReadHeader, Peek, VerifyProof, AfterSettlement, AfterIssue, B64;
    var p := ProofFor(c, payer, signedAt);
    var header, pem := TimelessHeader(crypto, p, secret), keyring[payer];
    ReadTimeless(crypto, p, secret);
    RetimedGets(p, Float(INFINITE));
    assert InfinitelyTimed(crypto, header, pem);
    InfiniteTimeIff(crypto, header, pem, Some(c), now);
    assert header != "" by { assert |"."| == 1; }
  }
}
