/** The challenge of a 402 response, and the signed proof that answers it. */
module Proof {
  import opened Wrappers
  import opened Json
  import opened Canonical
  import opened Utf8
  import opened Base64
  import opened Conversions
  import opened Crypto
  import opened Price

  datatype Challenge = Challenge(
    amount: string, currency: string, payTo: string, resource: string, nonce: string,
    expiresAt: int, ledger: Option<string>)
  {
    /** Reading the amount back may fail: see `QuotedPriceReadBack`. */
    function Price(): Result<Price, PriceError> {
      ParseText(Quoted(amount, currency), "USD")
    }

    predicate Expired(now: int) {
      now > expiresAt
    }

    function ToDict(): Json {
      Obj([Field("amount", Str(amount)), Field("currency", Str(currency)), Field("pay_to", Str(payTo)),
           Field("resource", Str(resource)), Field("nonce", Str(nonce)), Field("expires_at", Int(expiresAt))]
          + if ledger.Some? && ledger.value != "" then [Field("ledger", Str(ledger.value))] else [])
    }
  }

  /** The body of the 402 response that carries a challenge. */
  function RequiredBody(c: Challenge, reason: string): Json {
    Obj([Field("error", Str(reason))] + c.ToDict().fields)
  }

  function CreateChallenge(price: PriceArg, payTo: string, resource: string, ledger: Option<string>, nonce: string,
                           now: int, ttl: int): Result<Challenge, PriceError>
  {
    var parsed :- ParsePrice(price, "USD");
    Ok(Challenge(DecimalStr(parsed.amount), parsed.currency, payTo, resource, nonce, now + ttl, ledger))
  }

  /** `from_dict`: an expiry that is no number raises another exception than a missing field or an unreadable text. */
  datatype ChallengeError = Unusable | Raised(why: NumberError)

  /** The challenge in the body of a 402 response. */
  function ChallengeFromDict(python: Python, body: Json, now: int, ttl: int): Result<Challenge, ChallengeError> {
    if !body.Obj? then Err(Unusable)
    else match ChallengeFields(body.fields)
      case None => Err(Unusable)
      case Some((amount, currency, payTo, resource, nonce)) =>
        var expiry := Get(body.fields, "expires_at");
        var read: Result<int, NumberError> := if expiry.None? then Ok(now + ttl) else python.ToInt(expiry.value);
        match read
        case Err(BadText) => Err(Unusable)
        case Err(e) => Err(Raised(e))
        case Ok(expiresAt) =>
          var ledger := Get(body.fields, "ledger");
          Ok(Challenge(python.ToStr(amount), python.ToStr(currency), python.ToStr(payTo), python.ToStr(resource),
                       python.ToStr(nonce), expiresAt,
                       if ledger.Some? && ledger.value.Str? then Some(ledger.value.s) else None))
  }

  /** The fields a challenge must have. */
  function ChallengeFields(fields: seq<Field>): Option<(Json, Json, Json, Json, Json)> {
    var amount :- Get(fields, "amount");
    var currency :- Get(fields, "currency");
    var payTo :- Get(fields, "pay_to");
    var resource :- Get(fields, "resource");
    var nonce :- Get(fields, "nonce");
    Some((amount, currency, payTo, resource, nonce))
  }

  // ---------------------------------------------------------------- proofs

  datatype PaymentProof = PaymentProof(
    payer: string, amount: string, currency: string, payTo: string, resource: string, nonce: string,
    issuedAt: int, expiresAt: int)
  {
    function Fields(): (fields: seq<Field>) {
      [Field("v", Str("im1")), Field("payer", Str(payer)), Field("amount", Str(amount)),
       Field("currency", Str(currency)), Field("pay_to", Str(payTo)), Field("resource", Str(resource)),
       Field("nonce", Str(nonce)), Field("issued_at", Int(issuedAt)), Field("expires_at", Int(expiresAt))]
    }

    function Body(): (b: Bytes) {
      var fields := Fields();
      assert forall i :: 0 <= i < |fields| ==> !HasFloat(fields[i].value);
      CanonicalBytes(Obj(fields)).value
    }

    predicate Answers(c: Challenge) {
      amount == c.amount && currency == c.currency && payTo == c.payTo && resource == c.resource && nonce == c.nonce
    }
  }

  /** Two of them are no `ProofError` in Python: `NotADict` is an AttributeError and `InfiniteTime` an OverflowError. */
  datatype ProofError =
    | Malformed | UnreadableProof | NotADict | UnknownVersion | BadSignature | Incomplete | InfiniteTime | Stale
    | OtherChallenge

  function ProofFor(c: Challenge, payer: string, now: int): PaymentProof {
    PaymentProof(payer, c.amount, c.currency, c.payTo, c.resource, c.nonce, now, c.expiresAt)
  }

  /** The value of the payment header. */
  function SignProof(crypto: Crypto, c: Challenge, payer: string, secret: string, now: int): string {
    var body := ProofFor(c, payer, now).Body();
    B64(body) + ("." + B64(crypto.sign(secret, body)))
  }

  /** `partition` at the first point. */
  function SplitPoint(s: string): Option<(string, string)> {
    if s == "" then None
    else if s[0] == '.' then Some(("", s[1..]))
    else
      var (a, b) :- SplitPoint(s[1..]);
      Some(([s[0]] + a, b))
  }

  /** Body, signature and payload carried by a header. */
  function ReadHeader(header: string): Result<(Bytes, Bytes, Json), ProofError> {
    match SplitPoint(header)
    case None => Err(Malformed)
    case Some((encodedBody, encodedSig)) =>
      match (Unb64(encodedBody), Unb64(encodedSig))
      case (Some(body), Some(signature)) =>
        if Read(body).Some? then Ok((body, signature, Read(body).value)) else Err(UnreadableProof)
      case _ => Err(UnreadableProof)
  }

  /** The fields of a payload as texts, in the order they are looked up. */
  function ProofTexts(python: Python, fields: seq<Field>): Option<(string, string, string, string, string, string)> {
    var payer :- Get(fields, "payer");
    var amount :- Get(fields, "amount");
    var currency :- Get(fields, "currency");
    var payTo :- Get(fields, "pay_to");
    var resource :- Get(fields, "resource");
    var nonce :- Get(fields, "nonce");
    Some((python.ToStr(payer), python.ToStr(amount), python.ToStr(currency), python.ToStr(payTo),
          python.ToStr(resource), python.ToStr(nonce)))
  }

  /** A time in the payload: what `int` refuses makes the proof incomplete, but an infinite float is not caught. */
  function TimeField(python: Python, fields: seq<Field>, key: string): Result<int, ProofError> {
    match Get(fields, key)
    case None => Err(Incomplete)
    case Some(v) =>
      match python.ToInt(v)
      case Ok(n) => Ok(n)
      case Err(TooLarge) => Err(InfiniteTime)
      case Err(_) => Err(Incomplete)
  }

  function ProofFromFields(python: Python, fields: seq<Field>): Result<PaymentProof, ProofError> {
    match ProofTexts(python, fields)
    case None => Err(Incomplete)
    case Some((payer, amount, currency, payTo, resource, nonce)) =>
      var issuedAt :- TimeField(python, fields, "issued_at");
      var expiresAt :- TimeField(python, fields, "expires_at");
      Ok(PaymentProof(payer, amount, currency, payTo, resource, nonce, issuedAt, expiresAt))
  }

  function VerifyProof(crypto: Crypto, header: string, pem: string, challenge: Option<Challenge>, now: int)
    : Result<PaymentProof, ProofError>
  {
    var (body, signature, payload) :- ReadHeader(header);
    if !payload.Obj? then Err(NotADict)
    else if Get(payload.fields, "v") != Some(Str("im1")) then Err(UnknownVersion)
    else if !crypto.verify(pem, signature, body) then Err(BadSignature)
    else
      var proof :- ProofFromFields(crypto.python, payload.fields);
      if now > proof.expiresAt then Err(Stale)
      else if challenge.Some? && !proof.Answers(challenge.value) then Err(OtherChallenge)
      else Ok(proof)
  }

  /** A field of the payload, read before any verification. */
  function Peek(python: Python, header: string, field: string): Option<string> {
    var (encodedBody, _) :- SplitPoint(header);
    var body :- Unb64(encodedBody);
    var payload :- Read(body);
    if !payload.Obj? then None
    else
      var v :- Get(payload.fields, field);
      Some(python.ToStr(v))
  }

  // ---------------------------------------------------------------- theorems

  /** The field of the body as a text. */
  ghost predicate Says(python: Python, body: Json, key: string, text: string) {
    body.Obj? && Get(body.fields, key).Some? && python.ToStr(Get(body.fields, key).value) == text
  }

  /** The five fields without which there is no challenge. */
  predicate Offers(body: Json) {
    && body.Obj? && Get(body.fields, "amount").Some? && Get(body.fields, "currency").Some?
    && Get(body.fields, "pay_to").Some? && Get(body.fields, "resource").Some? && Get(body.fields, "nonce").Some?
  }

  /**
    What a client reads from a body: a challenge if and only if five fields are there and the expiry is missing
    or a number; the fields as texts, and an expiry of its own when there is none. An expiry that is no text
    and no number makes it raise.
  */
  lemma {:induction false} ChallengeRead(python: Python, body: Json, now: int, ttl: int)
    ensures var r := ChallengeFromDict(python, body, now, ttl);
      var expiry := if Offers(body) then Get(body.fields, "expires_at") else None;
      && (r.Ok? <==> Offers(body) && (expiry.None? || python.ToInt(expiry.value).Ok?))
      && (r.Ok? ==>
            var c := r.value;
            && Says(python, body, "amount", c.amount) && Says(python, body, "currency", c.currency)
            && Says(python, body, "pay_to", c.payTo) && Says(python, body, "resource", c.resource)
            && Says(python, body, "nonce", c.nonce)
            && (expiry.None? ==> c.expiresAt == now + ttl)
            && (expiry.Some? ==> python.ToInt(expiry.value) == Ok(c.expiresAt))
            && forall address :: c.ledger == Some(address) <==> Get(body.fields, "ledger") == Some(Str(address)))
      && forall why :: r == Err(Raised(why)) <==>
            expiry.Some? && python.ToInt(expiry.value) == Err(why) && why != BadText
  {
    hide Get, Python.ToInt, Python.ToStr;
  }

  lemma {:induction false} SplitFirstPoint(a: string, b: string)
    requires forall i :: 0 <= i < |a| ==> a[i] != '.'
    ensures SplitPoint(a + ("." + b)) == Some((a, b))
  {
    var s := a + ("." + b);
    if a == "" {
      assert s[1..] == b;
    } else {
      assert s[1..] == a[1..] + ("." + b);
      SplitFirstPoint(a[1..], b);
      assert [a[0]] + a[1..] == a;
    }
  }

  lemma {:induction false} FieldsWellFormed(p: PaymentProof)
    ensures Distinct(p.Fields()) && WellFormed(Obj(p.Fields())) && !HasFloat(Obj(p.Fields()))
    ensures NormalizeFields(p.Fields()) == p.Fields()
  {
    var f := p.Fields();
    assert |f[0].key| == 1 && |f[1].key| == 5 && |f[2].key| == 6 && |f[3].key| == 8 && |f[4].key| == 6;
    assert |f[5].key| == 8 && |f[6].key| == 5 && |f[7].key| == 9 && |f[8].key| == 10;
    assert f[1].key[0] == 'p' && f[2].key[0] == 'a' && f[3].key[0] == 'c';
    assert f[4].key[0] == 'p' && f[5].key[0] == 'r' && f[6].key[0] == 'n';
    assert forall i, j :: 0 <= i < j < 9 ==> |f[i].key| != |f[j].key| || f[i].key[0] != f[j].key[0];
    AtomicFields(f);
  }

  lemma {:induction false} AtomicFields(f: seq<Field>)
    requires Distinct(f) && forall i :: 0 <= i < |f| ==> f[i].value.Str? || f[i].value.Int?
    ensures WellFormed(Obj(f)) && !HasFloat(Obj(f)) && NormalizeFields(f) == f
  {
  }

  /** The dictionary holds the fields of the proof. */
  ghost predicate Holds(f: seq<Field>, p: PaymentProof) {
    && Get(f, "v") == Some(Str("im1")) && Get(f, "payer") == Some(Str(p.payer))
    && Get(f, "amount") == Some(Str(p.amount)) && Get(f, "currency") == Some(Str(p.currency))
    && Get(f, "pay_to") == Some(Str(p.payTo)) && Get(f, "resource") == Some(Str(p.resource))
    && Get(f, "nonce") == Some(Str(p.nonce)) && Get(f, "issued_at") == Some(Int(p.issuedAt))
    && Get(f, "expires_at") == Some(Int(p.expiresAt))
  }

  lemma PayloadFields(p: PaymentProof, f: seq<Field>)
    requires f == p.Fields()
    ensures Holds(f, p)
  {
    FieldsWellFormed(p);
    GetUnique(f, f[0]);
    GetUnique(f, f[1]);
    GetUnique(f, f[2]);
    GetUnique(f, f[3]);
    GetUnique(f, f[4]);
    GetUnique(f, f[5]);
    GetUnique(f, f[6]);
    GetUnique(f, f[7]);
    GetUnique(f, f[8]);
  }

  lemma {:induction false} SortedHolds(f: seq<Field>, p: PaymentProof)
    requires Distinct(f) && Holds(f, p)
    ensures Holds(Sort(f), p)
  {
    GetSorted(f, "v");
    GetSorted(f, "payer");
    GetSorted(f, "amount");
    GetSorted(f, "currency");
    GetSorted(f, "pay_to");
    GetSorted(f, "resource");
    GetSorted(f, "nonce");
    GetSorted(f, "issued_at");
    GetSorted(f, "expires_at");
  }

  lemma {:induction false} ProofHeld(python: Python, f: seq<Field>, p: PaymentProof)
    requires Holds(f, p)
    ensures ProofFromFields(python, f) == Ok(p)
  {
  }

  /** The body of a proof is read back as its payload. */
  lemma {:induction false} ReadBody(p: PaymentProof)
    ensures Read(p.Body()) == Some(Obj(Sort(p.Fields())))
    ensures Holds(Sort(p.Fields()), p)
  {
    FieldsWellFormed(p);
    ReadCanonical(Obj(p.Fields()));
    PayloadFields(p, p.Fields());
    SortedHolds(p.Fields(), p);
  }

  /** A proof is determined by the bytes that were signed. */
  lemma {:induction false} BodyInjective(p: PaymentProof, q: PaymentProof)
    requires p.Body() == q.Body()
    ensures p == q
  {
    ReadBody(p);
    ReadBody(q);
    assert Holds(Sort(p.Fields()), p) && Holds(Sort(p.Fields()), q);
  }

  /** What a header made from these bytes carries. */
  lemma {:induction false} ReadSigned(p: PaymentProof, signature: Bytes)
    ensures ReadHeader(B64(p.Body()) + ("." + B64(signature))) == Ok((p.Body(), signature, Obj(Sort(p.Fields()))))
  {
    hide CanonicalBytes, B64, Unb64, Read, Sort, Holds, SplitPoint;
    SplitFirstPoint(B64(p.Body()), B64(signature));
    UnbB64(p.Body());
    UnbB64(signature);
    ReadBody(p);
  }

  /**
    The header a wallet makes for a challenge is accepted until the challenge expires, and only then,
    and it yields the payer, the fields of the challenge and its expiry.
  */
  lemma {:induction false} VerifySigned(crypto: Crypto, c: Challenge, payer: string, secret: string, signedAt: int,
                                        now: int)
    requires crypto.Correct()
    ensures VerifyProof(crypto, SignProof(crypto, c, payer, secret, signedAt), crypto.publicPem(secret), Some(c),
                        now) ==
      if now > c.expiresAt then Err(Stale)
      else Ok(PaymentProof(payer, c.amount, c.currency, c.payTo, c.resource, c.nonce, signedAt, c.expiresAt))
    ensures Peek(crypto.python, SignProof(crypto, c, payer, secret, signedAt), "payer") == Some(payer)
    ensures Peek(crypto.python, SignProof(crypto, c, payer, secret, signedAt), "nonce") == Some(c.nonce)
  {
    hide CanonicalBytes, B64, Unb64, Read, Python.ToStr, Python.ToInt, Sort, SplitPoint, Holds;
    var p := ProofFor(c, payer, signedAt);
    var signature := crypto.sign(secret, p.Body());
    ReadSigned(p, signature);
    ReadBody(p);
    ProofHeld(crypto.python, Sort(p.Fields()), p);
    SplitFirstPoint(B64(p.Body()), B64(signature));
    UnbB64(p.Body());
  }

  /** An accepted header carries a verifying signature over its body, and answers the challenge in time. */
  lemma {:induction false} VerifySound(crypto: Crypto, header: string, pem: string, c: Challenge, now: int)
    requires VerifyProof(crypto, header, pem, Some(c), now).Ok?
    ensures ReadHeader(header).Ok?
    ensures var (body, signature, payload) := ReadHeader(header).value;
      && crypto.verify(pem, signature, body) && payload.Obj?
      && ProofFromFields(crypto.python, payload.fields) == Ok(VerifyProof(crypto, header, pem, Some(c), now).value)
      && Read(body) == Some(payload)
    ensures VerifyProof(crypto, header, pem, Some(c), now).value.Answers(c)
    ensures now <= VerifyProof(crypto, header, pem, Some(c), now).value.expiresAt
  {
  }

  /** `int` raises OverflowError on a time of this payload, after every look-up before it. */
  predicate TimeOverflows(python: Python, fields: seq<Field>) {
    && HasKey(fields, "payer") && HasKey(fields, "amount") && HasKey(fields, "currency") && HasKey(fields, "pay_to")
    && HasKey(fields, "resource") && HasKey(fields, "nonce") && HasKey(fields, "issued_at")
    && var issued := python.ToInt(Get(fields, "issued_at").value);
    && (issued == Err(TooLarge) ||
        (issued.Ok? && HasKey(fields, "expires_at") && python.ToInt(Get(fields, "expires_at").value) == Err(TooLarge)))
  }

  /** The header is well formed and signed under this key, and one of its times is infinite. */
  predicate InfinitelyTimed(crypto: Crypto, header: string, pem: string) {
    ReadHeader(header).Ok? &&
    var (body, signature, payload) := ReadHeader(header).value;
    && payload.Obj? && Get(payload.fields, "v") == Some(Str("im1")) && crypto.verify(pem, signature, body)
    && TimeOverflows(crypto.python, payload.fields)
  }

  lemma {:induction false} TimeOverflowsIff(python: Python, fields: seq<Field>)
    ensures ProofFromFields(python, fields) == Err(InfiniteTime) <==> TimeOverflows(python, fields)
  {
    hide Python.ToStr, Python.ToInt, Get, HasKey;
  }

  lemma {:induction false} InfiniteTimeIff(crypto: Crypto, header: string, pem: string, c: Option<Challenge>, now: int)
    ensures VerifyProof(crypto, header, pem, c, now) == Err(InfiniteTime) <==> InfinitelyTimed(crypto, header, pem)
  {
    hide ProofFromFields, TimeOverflows, SplitPoint, Unb64, Read, Get;
    if ReadHeader(header).Ok? && ReadHeader(header).value.2.Obj? {
      TimeOverflowsIff(crypto.python, ReadHeader(header).value.2.fields);
    }
  }

  /** A header accepted over the body of a proof yields that proof. */
  lemma {:induction false} AcceptedBody(crypto: Crypto, header: string, pem: string, c: Challenge, now: int,
                                        p: PaymentProof)
    requires VerifyProof(crypto, header, pem, Some(c), now).Ok?
    requires ReadHeader(header).Ok? && ReadHeader(header).value.0 == p.Body()
    ensures VerifyProof(crypto, header, pem, Some(c), now) == Ok(p)
  {
    VerifySound(crypto, header, pem, c, now);
    ReadBody(p);
    ProofHeld(crypto.python, Sort(p.Fields()), p);
  }

  /** A signature that verifies under this key over the body of this header covers a proof in the set. */
  ghost predicate NotForged(crypto: Crypto, header: string, pem: string, signed: set<PaymentProof>) {
    ReadHeader(header).Ok? ==>
      var (body, signature, _) := ReadHeader(header).value;
      crypto.verify(pem, signature, body) ==> exists p :: p in signed && p.Body() == body
  }

  /**
    Non-repudiation: unless the signature of the header is forged, an accepted proof is one of those the
    owner of the key signed, field for field.
  */
  lemma {:induction false} AcceptedWasSigned(crypto: Crypto, header: string, pem: string, c: Challenge, now: int,
                                             signed: set<PaymentProof>)
    requires NotForged(crypto, header, pem, signed)
    requires VerifyProof(crypto, header, pem, Some(c), now).Ok?
    ensures VerifyProof(crypto, header, pem, Some(c), now).value in signed
  {
    hide CanonicalBytes, Unb64, Read, SplitPoint, ProofFromFields, PaymentProof.Body;
    VerifySound(crypto, header, pem, c, now);
    var p :| p in signed && p.Body() == ReadHeader(header).value.0;
    AcceptedBody(crypto, header, pem, c, now, p);
  }

  /** Reading a field before verification and reading it after agree. */
  lemma {:induction false} PeekAgrees(crypto: Crypto, header: string, pem: string, c: Challenge, now: int)
    requires VerifyProof(crypto, header, pem, Some(c), now).Ok?
    ensures Peek(crypto.python, header, "payer") == Some(VerifyProof(crypto, header, pem, Some(c), now).value.payer)
    ensures Peek(crypto.python, header, "nonce") == Some(VerifyProof(crypto, header, pem, Some(c), now).value.nonce)
  {
    hide Unb64, Read, Python.ToStr, Python.ToInt, SplitPoint, Get;
  }

  // ---------------------------------------------------------------- the body of a 402 response

  lemma ChallengeKeys(c: Challenge)
    ensures Distinct(c.ToDict().fields)
  {
    var f := c.ToDict().fields;
    assert |f[0].key| == 6 && |f[1].key| == 8 && |f[2].key| == 6 && |f[3].key| == 8 && |f[4].key| == 5;
    assert |f[5].key| == 10 && (|f| > 6 ==> |f[6].key| == 6);
    assert f[0].key[0] == 'a' && f[1].key[0] == 'c' && f[2].key[0] == 'p' && f[3].key[0] == 'r';
    assert |f| > 6 ==> f[6].key[0] == 'l';
    assert forall i, j :: 0 <= i < j < |f| ==> |f[i].key| != |f[j].key| || f[i].key[0] != f[j].key[0];
  }

  ghost predicate Carries(f: seq<Field>, c: Challenge) {
    && Get(f, "amount") == Some(Str(c.amount)) && Get(f, "currency") == Some(Str(c.currency))
    && Get(f, "pay_to") == Some(Str(c.payTo)) && Get(f, "resource") == Some(Str(c.resource))
    && Get(f, "nonce") == Some(Str(c.nonce)) && Get(f, "expires_at") == Some(Int(c.expiresAt))
    && Get(f, "ledger") == if c.ledger.Some? && c.ledger.value != "" then Some(Str(c.ledger.value)) else None
  }

  lemma ChallengeGets(c: Challenge, f: seq<Field>)
    requires f == c.ToDict().fields
    ensures Carries(f, c)
  {
    ChallengeKeys(c);
    GetUnique(f, f[0]);
    GetUnique(f, f[1]);
    GetUnique(f, f[2]);
    GetUnique(f, f[3]);
    GetUnique(f, f[4]);
    GetUnique(f, f[5]);
    if |f| > 6 {
      GetUnique(f, f[6]);
    } else {
      NoLedger(f);
    }
  }

  lemma NoLedger(f: seq<Field>)
    requires |f| == 6 && f[0].key == "amount" && f[1].key == "currency" && f[2].key == "pay_to"
    requires f[3].key == "resource" && f[4].key == "nonce" && f[5].key == "expires_at"
    ensures !HasKey(f, "ledger")
  {
    forall i | 0 <= i < |f|
      ensures f[i].key != "ledger"
    {
      assert |"ledger"| == 6 && "ledger"[0] == 'l';
      assert |f[i].key| != 6 || f[i].key[0] != 'l';
    }
  }

  lemma GetBehind(f: Field, fields: seq<Field>, key: string)
    requires f.key != key
    ensures Get([f] + fields, key) == Get(fields, key)
  {
    assert ([f] + fields)[1..] == fields;
  }

  lemma NotError()
    ensures "error" !in ["amount", "currency", "pay_to", "resource", "nonce", "expires_at", "ledger"]
  {
    var others := ["amount", "currency", "pay_to", "resource", "nonce", "expires_at", "ledger"];
    assert |"error"| == 5 && "error"[0] == 'e';
    assert forall i :: 0 <= i < |others| ==> |others[i]| != 5 || others[i][0] != 'e';
  }

  lemma CarriesBehind(f: seq<Field>, e: Field, c: Challenge)
    requires Carries(f, c) && e.key == "error"
    ensures Carries([e] + f, c)
  {
    NotError();
    GetBehind(e, f, "amount");
    GetBehind(e, f, "currency");
    GetBehind(e, f, "pay_to");
    GetBehind(e, f, "resource");
    GetBehind(e, f, "nonce");
    GetBehind(e, f, "expires_at");
    GetBehind(e, f, "ledger");
  }

  lemma CarriedChallenge(python: Python, f: seq<Field>, c: Challenge, now: int, ttl: int)
    requires Carries(f, c)
    ensures ChallengeFromDict(python, Obj(f), now, ttl) ==
      Ok(c.(ledger := if c.ledger == Some("") then None else c.ledger))
  {
  }

  /** The client reads back the challenge the gate issued; an empty register address is the same as none. */
  lemma ChallengeReadBack(python: Python, c: Challenge, reason: string, now: int, ttl: int)
    ensures ChallengeFromDict(python, RequiredBody(c, reason), now, ttl) ==
      Ok(c.(ledger := if c.ledger == Some("") then None else c.ledger))
  {
    var e := Field("error", Str(reason));
    ChallengeGets(c, c.ToDict().fields);
    CarriesBehind(c.ToDict().fields, e, c);
    CarriedChallenge(python, [e] + c.ToDict().fields, c, now, ttl);
  }
}
