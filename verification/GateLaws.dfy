/** The exceptions of `admit`, and what they leave behind. */
module GateLaws {
  import opened Wrappers
  import opened Json
  import opened Canonical
  import opened Base64
  import opened Conversions
  import opened Crypto
  import opened Price
  import opened Proof
  import opened Audit
  import opened Ledgers
  import opened Gates

  predicate Raises(o: Outcome) {
    o.PriceRaised? || o.LedgerRaised? || o.HeaderRaised?
  }

  /** Beyond the 28 digits of the decimal context. */
  predicate Extreme(units: int) {
    units <= -PRECISION_LIMIT || PRECISION_LIMIT <= units
  }

  /** The sums of a charge that the context cannot hold, where they are computed. */
  predicate SumsOverflow(l: State, payer: string, payee: string, amount: int)
    requires payer in l.book.accounts && payee in l.book.accounts
  {
    var a := l.book.accounts[payer];
    || Extreme(a.balance + a.limit)
    || (amount <= a.balance + a.limit &&
        (Extreme(a.balance - amount) || Extreme(l.book.accounts[payee].balance + amount)))
  }

  /**
    A charge of this many units in this currency raises instead of being refused: the amount cannot be read
    back from its text, or a sum overflows.
  */
  predicate ChargeRaises(l: State, payer: string, payee: string, nonce: string, units: int, code: string) {
    && nonce !in l.book.seen
    && (units < 100 || units >= PRECISION_LIMIT ||
        (Upper(code) == l.currency && payer in l.book.accounts && payee in l.book.accounts
         && SumsOverflow(l, payer, payee, units)))
  }

  /** The gate quoted this many units in this currency. */
  predicate Quotes(c: Challenge, units: int, code: string) {
    c.amount == DecimalStr(units) && c.currency == code && IsCode(code)
  }

  lemma {:induction false} ChargeRaisesIff(digest: Digest, l: State, p: PaymentProof, now: int, clock: real, units: int,
                                           code: string)
    requires l.journal != [] && p.amount == DecimalStr(units) && p.currency == code && IsCode(code)
    ensures var r := AfterCharge(digest, l, p, now, clock).1;
      r.Err? && !Caught(r.error) <==> ChargeRaises(l, p.payer, p.payTo, p.nonce, units, code)
  {
    hide ParseText, Quoted, DecimalStr, Logged, IsCode, Upper;
    QuotedPriceReadBack(units, code);
  }

  /** When the settlement of an examined proof raises, for a challenge the gate quoted. */
  lemma {:induction false} SettlementRaisesIff(digest: Digest, g: GateState, l: State, c: Challenge, p: PaymentProof,
                                               now: int, clock: real, units: int, code: string)
    requires l.journal != [] && Quotes(c, units, code) && p.Answers(c)
    ensures Raises(AfterSettlement(digest, g, l, c, p, now, clock).2) <==>
      ChargeRaises(l, p.payer, c.payTo, c.nonce, units, code)
  {
    hide AfterCharge, ChargeRaises;
    ChargeRaisesIff(digest, l, p, now, clock, units, code);
  }

  /** Examination passes only for an answer to the challenge it returns. */
  lemma {:induction false} ExaminedAnswers(crypto: Crypto, keyring: map<string, string>, g: GateState, header: string,
                                           now: int)
    requires Examined(crypto, keyring, g, header, now).Ok?
    ensures var (c, p) := Examined(crypto, keyring, g, header, now).value;
      p.Answers(c) && (exists n :: n in g.pending && g.pending[n] == c)
  {
    hide VerifyProof, Peek;
    var (c, p) := Examined(crypto, keyring, g, header, now).value;
    var payer := Peek(crypto.python, header, "payer").value;
    VerifySound(crypto, header, keyring[payer], c, now);
  }

  /** What every retained challenge was quoted at. */
  ghost predicate AllQuoted(g: GateState, units: map<string, int>) {
    forall n :: n in g.pending ==>
      n in units && g.pending[n].nonce == n && Quotes(g.pending[n], units[n], g.pending[n].currency)
  }

  /** Examining a header raises: the key or the nonce cannot be read, or a time of an authentic proof is infinite. */
  predicate ExaminationRaises(crypto: Crypto, keyring: map<string, string>, g: GateState, header: string) {
    var payer := Peek(crypto.python, header, "payer");
    && payer.Some? && payer.value in keyring && keyring[payer.value] != ""
    && var nonce := Peek(crypto.python, header, "nonce");
    (|| !crypto.readable(keyring[payer.value])
     || nonce.None?
     || (nonce.value in g.pending && InfinitelyTimed(crypto, header, keyring[payer.value])))
  }

  lemma {:induction false} ExaminationRaisesIff(crypto: Crypto, keyring: map<string, string>, g: GateState,
                                                header: string, now: int)
    ensures ExaminationRaises(crypto, keyring, g, header) <==>
      Examined(crypto, keyring, g, header, now).Err? && Escapes(Examined(crypto, keyring, g, header, now).error)
  {
    hide VerifyProof, Peek, InfinitelyTimed;
    var payer, nonce := Peek(crypto.python, header, "payer"), Peek(crypto.python, header, "nonce");
    if payer.Some? && KeyFor(crypto, keyring, payer.value).Ok? && nonce.Some? && nonce.value in g.pending {
      PeekedIsDict(crypto, header, keyring[payer.value], Some(g.pending[nonce.value]), now);
      InfiniteTimeIff(crypto, header, keyring[payer.value], Some(g.pending[nonce.value]), now);
    }
  }

  /** A field can only be peeked in a dictionary. */
  lemma {:induction false} PeekedIsDict(crypto: Crypto, header: string, pem: string, c: Option<Challenge>, now: int)
    requires Peek(crypto.python, header, "payer").Some?
    ensures VerifyProof(crypto, header, pem, c, now) != Err(NotADict)
  {
    hide SplitPoint, Unb64, Read, Get, Python.ToStr, Python.ToInt;
  }

  /**
    `admit` raises, instead of answering 402, in these cases and no others: the first request has a price
    that cannot be read; the key of a header's payer is no key, its nonce cannot be read, or it is signed
    and answers a retained challenge with an infinite time; or the header is good, and the charge for the
    quoted amount raises.
  */
  lemma {:induction false} AdmitRaisesIff(crypto: Crypto, digest: Digest, keyring: map<string, string>, g: GateState,
                                          l: State, resource: string, price: PriceArg, header: string, nonce: string,
                                          now: int, clock: real, units: map<string, int>)
    requires l.journal != [] && AllQuoted(g, units)
    ensures Raises(AfterAdmit(crypto, digest, keyring, g, l, resource, price, header, nonce, now, clock).2) <==>
      if header == "" then ParsePrice(price, "USD").Err?
      else
        || ExaminationRaises(crypto, keyring, g, header)
        || (Examined(crypto, keyring, g, header, now).Ok? &&
            var (c, p) := Examined(crypto, keyring, g, header, now).value;
            c.nonce in units && ChargeRaises(l, p.payer, c.payTo, c.nonce, units[c.nonce], c.currency))
  {
    hide AfterSettlement, Examined, ParsePrice, ChargeRaises, Quotes, ExaminationRaises;
    ExaminationRaisesIff(crypto, keyring, g, header, now);
    if header != "" && Examined(crypto, keyring, g, header, now).Ok? {
      ExaminedAnswers(crypto, keyring, g, header, now);
      var (c, p) := Examined(crypto, keyring, g, header, now).value;
      SettlementRaisesIff(digest, g, l, c, p, now, clock, units[c.nonce], c.currency);
    }
  }

  lemma {:induction false} MatchedCodes(text: string)
    requires MatchPrice(text).Some?
    ensures var g := MatchPrice(text).value;
      && (g.code.Some? ==> IsCode(g.code.value))
      && (g.currency.Some? ==> g.currency.value == "USD" || g.currency.value == "EUR" || g.currency.value == "GBP")
  {
    hide IsCode, SkipSpaces, FractionDigits;
  }

  /** The currency of a price given as text is a code of three letters. */
  lemma {:induction false} TextPriceHasCode(text: string)
    requires ParseText(text, "USD").Ok?
    ensures IsCode(ParseText(text, "USD").value.currency)
  {
    hide Units, Quantize, MatchPrice, Upper;
    MatchedCodes(text);
    var g := MatchPrice(text).value;
    if g.code.Some? {
      UpperCode(g.code.value);
    }
    assert IsCode("USD") && IsCode("EUR") && IsCode("GBP");
  }

  lemma {:induction false} UpperCode(code: string)
    requires IsCode(code)
    ensures IsCode(Upper(code))
  {
    var a, b := code[1..], code[2..];
    assert Upper(code) == [Upper(code)[0]] + Upper(a) && Upper(a) == [Upper(a)[0]] + Upper(b) && b[1..] == "";
    assert a[1..] == b;
  }

  /** A gate whose prices are texts retains only what it quoted, whatever it issues and evicts. */
  lemma {:induction false} IssueKeepsQuoted(g: GateState, units: map<string, int>, resource: string, text: string,
                                            nonce: string, now: int)
    requires AllQuoted(g, units)
    ensures var (g', r) := AfterIssue(g, resource, Text(text), nonce, now);
      AllQuoted(g', if r.Ok? then units[nonce := ParseText(text, "USD").value.amount] else units)
  {
    hide ParseText, DecimalStr, IsCode;
    if ParseText(text, "USD").Ok? {
      TextPriceHasCode(text);
    }
  }

  /** So does settling, which only forgets. */
  lemma {:induction false} SettlementKeepsQuoted(digest: Digest, g: GateState, units: map<string, int>, l: State,
                                                 c: Challenge, p: PaymentProof, now: int, clock: real)
    requires l.journal != [] && AllQuoted(g, units)
    ensures AllQuoted(AfterSettlement(digest, g, l, c, p, now, clock).0, units)
  {
    hide AfterCharge, Quotes;
  }

  /** A request as a gate meets it; other gates may have changed the register in between. */
  datatype Visit = Visit(resource: string, price: PriceArg, header: string, nonce: string, now: int, clock: real,
                         ledger: State)

  function Visited(crypto: Crypto, digest: Digest, keyring: map<string, string>, g: GateState, v: Visit): GateState
    requires v.ledger.journal != []
  {
    AfterAdmit(crypto, digest, keyring, g, v.ledger, v.resource, v.price, v.header, v.nonce, v.now, v.clock).0
  }

  /** The gate after any requests at all. */
  function Visits(crypto: Crypto, digest: Digest, keyring: map<string, string>, g: GateState, visits: seq<Visit>)
    : GateState
    requires forall v :: v in visits ==> v.ledger.journal != []
  {
    if visits == [] then g
    else
      var init, last := visits[..|visits| - 1], visits[|visits| - 1];
      Visited(crypto, digest, keyring, Visits(crypto, digest, keyring, g, init), last)
  }

  /** The amounts asked for, by nonce. */
  function Asked(visits: seq<Visit>): map<string, int> {
    if visits == [] then map[]
    else
      var init, last := visits[..|visits| - 1], visits[|visits| - 1];
      if last.header == "" && ParsePrice(last.price, "USD").Ok?
      then Asked(init)[last.nonce := ParsePrice(last.price, "USD").value.amount]
      else Asked(init)
  }

  /** Every gate that `admit` can reach from an empty one, with prices given as texts, retains what it was asked for. */
  lemma {:induction false} ReachedGateIsQuoted(crypto: Crypto, digest: Digest, keyring: map<string, string>,
                                               g: GateState, visits: seq<Visit>)
    requires g.pending == map[] && forall v :: v in visits ==> v.ledger.journal != [] && v.price.Text?
    ensures AllQuoted(Visits(crypto, digest, keyring, g, visits), Asked(visits))
  {
    hide AfterSettlement, AfterIssue, Examined, ParseText, AllQuoted;
    if visits == [] {
      NothingQuoted(g);
    } else {
      var init, v := visits[..|visits| - 1], visits[|visits| - 1];
      ReachedGateIsQuoted(crypto, digest, keyring, g, init);
      var before := Visits(crypto, digest, keyring, g, init);
      if v.header == "" {
        IssueKeepsQuoted(before, Asked(init), v.resource, v.price.text, v.nonce, v.now);
        IssuesIffRead(before, v.resource, v.price.text, v.nonce, v.now);
      } else if Examined(crypto, keyring, before, v.header, v.now).Ok? {
        var (c, p) := Examined(crypto, keyring, before, v.header, v.now).value;
        SettlementKeepsQuoted(digest, before, Asked(init), v.ledger, c, p, v.now, v.clock);
      }
    }
  }

  lemma NothingQuoted(g: GateState)
    requires g.pending == map[]
    ensures AllQuoted(g, map[])
  {
  }

  lemma {:induction false} IssuesIffRead(g: GateState, resource: string, price: string, nonce: string, now: int)
    ensures AfterIssue(g, resource, Text(price), nonce, now).1.Ok? <==> ParseText(price, "USD").Ok?
  {
    hide ParseText, DecimalStr;
  }

  // ---------------------------------------------------------------- reachable inputs

  /** What a gate issues is quoted at the price it was asked for. */
  lemma {:induction false} IssuedIsQuoted(g: GateState, resource: string, price: PriceArg, nonce: string, now: int)
    requires AfterIssue(g, resource, price, nonce, now).1.Ok? && IsCode(ParsePrice(price, "USD").value.currency)
    ensures var (g', r) := AfterIssue(g, resource, price, nonce, now);
      && Quotes(r.value, ParsePrice(price, "USD").value.amount, ParsePrice(price, "USD").value.currency)
      && nonce in g'.pending && g'.pending[nonce] == r.value && r.value.nonce == nonce
  {
    hide DecimalStr, ParsePrice;
  }

  /**
    The challenge of a gate priced below a hundred units, answered by anyone with a key: the exception
    reaches the caller.
  */
  lemma {:induction false} CheapChallengeRaises(crypto: Crypto, digest: Digest, keyring: map<string, string>,
                                                g: GateState, l: State, resource: string, price: PriceArg,
                                                nonce: string, units: int, code: string, payer: string, secret: string,
                                                now: int, clock: real)
    requires crypto.Correct() && l.journal != [] && payer in keyring && keyring[payer] == crypto.publicPem(secret)
    requires ParsePrice(price, "USD") == Ok(Price(units, code)) && units < 100 && IsCode(code)
    requires g.ttl >= 0 && nonce !in l.book.seen
    ensures var (g', issued) := AfterIssue(g, resource, price, nonce, now);
      && issued.Ok?
      && var header := SignProof(crypto, issued.value, payer, secret, now);
         var (g'', l'', outcome) := AfterAdmit(crypto, digest, keyring, g', l, resource, price, header, "", now, clock);
         Raises(outcome) && g'' == g' && l'' == l
  {
    hide DecimalStr, ParsePrice, SignProof, AfterCharge, Peek, VerifyProof, IsCode;
    IssuedIsQuoted(g, resource, price, nonce, now);
    var (g', issued) := AfterIssue(g, resource, price, nonce, now);
    var c := issued.value;
    var header := SignProof(crypto, c, payer, secret, now);
    HeaderNotEmpty(crypto, c, payer, secret, now);
    VerifySigned(crypto, c, payer, secret, now, now);
    assert Examined(crypto, keyring, g', header, now) == Ok((c, ProofFor(c, payer, now)));
    CheapChargeRaises(digest, l, ProofFor(c, payer, now), now, clock, units, code);
  }

  lemma {:induction false} CheapChargeRaises(digest: Digest, l: State, p: PaymentProof, now: int, clock: real,
                                             units: int, code: string)
    requires l.journal != [] && p.amount == DecimalStr(units) && p.currency == code && IsCode(code)
    requires units < 100 && p.nonce !in l.book.seen
    ensures AfterCharge(digest, l, p, now, clock) == (l, Err(BadPrice(Unreadable)))
  {
    hide ParseText, DecimalStr, IsCode, Quoted;
    QuotedPriceReadBack(units, code);
  }

  lemma {:induction false} HeaderNotEmpty(crypto: Crypto, c: Challenge, payer: string, secret: string, now: int)
    ensures SignProof(crypto, c, payer, secret, now) != ""
  {
    hide PaymentProof.Body;
    assert |"."| == 1;
  }

  // ---------------------------------------------------------------- what an exception leaves behind

  /** Every guard passes, and the payee's new balance does not fit the decimal context. */
  predicate DebitsOnly(l: State, payer: string, payee: string, nonce: string, units: int, code: string) {
    && nonce !in l.book.seen && 100 <= units < PRECISION_LIMIT && Upper(code) == l.currency
    && payer in l.book.accounts && payee in l.book.accounts
    && var a := l.book.accounts[payer];
    && units <= a.balance + a.limit && !Extreme(a.balance + a.limit) && !Extreme(a.balance - units)
    && Extreme(l.book.accounts[payee].balance + units)
  }

  /** The register without the amount, which nobody received and no charge records. */
  function WithDebit(l: State, payer: string, units: int): State
    requires payer in l.book.accounts
  {
    l.(book := l.book.(accounts := Debited(l.book.accounts, payer, units)))
  }

  lemma {:induction false} ReceivedAs(l: State, p: PaymentProof, units: int, code: string)
    requires p.amount == DecimalStr(units) && p.currency == code && IsCode(code)
    requires p.payer in l.book.accounts && p.payTo in l.book.accounts
    ensures DebitsOnly(l, p.payer, p.payTo, p.nonce, units, code) <==>
      Receivable(l, p) == Ok(units) && Extreme(l.book.accounts[p.payTo].balance + units)
    ensures Receivable(l, p).Ok? ==> Receivable(l, p).value == units >= 100
  {
    hide ParseText, DecimalStr, IsCode, Quoted, Upper;
    QuotedPriceReadBack(units, code);
  }

  /**
    An exception of the gate leaves a trace exactly when the payee's balance overflows: the payer is
    debited, the nonce is not recorded, and the challenge stays pending.
  */
  lemma {:induction false} ExceptionDebitsIff(digest: Digest, g: GateState, l: State, c: Challenge, p: PaymentProof,
                                              now: int, clock: real, units: int, code: string)
    requires l.journal != [] && Quotes(c, units, code) && p.Answers(c)
    ensures var (g', l', o) := AfterSettlement(digest, g, l, c, p, now, clock);
      && (Raises(o) && l' != l <==> DebitsOnly(l, p.payer, c.payTo, c.nonce, units, code))
      && (Raises(o) ==> g' == g)
      && (Raises(o) && l' != l ==> p.payer in l.book.accounts && l' == WithDebit(l, p.payer, units))
  {
    hide ParseText, DecimalStr, IsCode, Quoted, Upper, Receivable, DebitsOnly, Logged;
    if p.payer in l.book.accounts && p.payTo in l.book.accounts {
      ReceivedAs(l, p, units, code);
      DebitChanges(l, p.payer, units);
    } else {
      UnknownNotReceived(l, p, units, code);
    }
  }

  lemma DebitChanges(l: State, payer: string, units: int)
    requires payer in l.book.accounts
    ensures units > 0 ==> WithDebit(l, payer, units) != l
  {
    if units > 0 {
      assert Debited(l.book.accounts, payer, units)[payer] != l.book.accounts[payer];
    }
  }

  lemma UnknownNotReceived(l: State, p: PaymentProof, units: int, code: string)
    requires p.payer !in l.book.accounts || p.payTo !in l.book.accounts
    ensures Receivable(l, p).Err? && !DebitsOnly(l, p.payer, p.payTo, p.nonce, units, code)
  {
    hide ParseText, Quoted;
  }

  /**
    Since nonce and challenge remain, the same header debits the payer again, exactly while the payer can
    cover it once more; and when the payer is also the payee, while its own balance still overflows.
  */
  lemma {:induction false} DebitedAgainIff(l: State, payer: string, payee: string, nonce: string, units: int,
                                           code: string)
    requires DebitsOnly(l, payer, payee, nonce, units, code)
    ensures DebitsOnly(WithDebit(l, payer, units), payer, payee, nonce, units, code) <==>
      var a := l.book.accounts[payer];
      && 2 * units <= a.balance + a.limit && !Extreme(a.balance - 2 * units)
      && (payer == payee ==> Extreme(a.balance))
  {
    hide Upper;
  }
}
