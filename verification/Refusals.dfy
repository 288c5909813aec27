/** Why an operation refuses: of the reasons that apply, the first one in the order that callers rely on. */
module Refusals {
  import opened Wrappers
  import opened Json
  import opened Canonical
  import opened Base64
  import opened Conversions
  import opened Crypto
  import opened Price
  import opened Proof
  import opened Ledgers
  import opened RegisterLaws
  import opened Wallets
  import opened Gates
  import Audit
  import Escrow

  // ---------------------------------------------------------------- a payment header

  /** The first point of a header. */
  predicate PointAt(header: string, k: nat) {
    k < |header| && header[k] == '.' && forall i :: 0 <= i < k ==> header[i] != '.'
  }

  lemma {:induction false} SplitsAt(header: string)
    ensures SplitPoint(header).None? <==> '.' !in header
    ensures forall k: nat :: PointAt(header, k) ==> SplitPoint(header) == Some((header[..k], header[k + 1..]))
  {
    if '.' !in header {
      NeverSplits(header);
    }
    forall k: nat | PointAt(header, k)
      ensures SplitPoint(header) == Some((header[..k], header[k + 1..]))
    {
      SplitFirstPoint(header[..k], header[k + 1..]);
      assert header == header[..k] + ("." + header[k + 1..]);
    }
    if '.' in header {
      var k := FirstPoint(header);
    }
  }

  lemma {:induction false} NeverSplits(header: string)
    requires '.' !in header
    ensures SplitPoint(header) == None
  {
    if header != "" {
      NeverSplits(header[1..]);
    }
  }

  lemma {:induction false} FirstPoint(header: string) returns (k: nat)
    requires '.' in header
    ensures PointAt(header, k)
  {
    k := 0;
    if header[0] != '.' {
      assert header == [header[0]] + header[1..];
      var rest := FirstPoint(header[1..]);
      k := rest + 1;
    }
  }

  /** The proof asks for what the challenge does, for that resource, and under its nonce. */
  predicate Matches(p: PaymentProof, c: Challenge) {
    && (p.amount, p.currency) == (c.amount, c.currency) && (p.payTo, p.resource) == (c.payTo, c.resource)
    && p.nonce == c.nonce
  }

  /** What is checked once a header was taken apart into body and signature, and the body read. */
  predicate Judges(crypto: Crypto, r: Result<PaymentProof, ProofError>, pem: string, body: seq<Utf8.Byte>,
                   signature: seq<Utf8.Byte>, fields: seq<Field>, challenge: Option<Challenge>, now: int)
  {
    var version, signed := Get(fields, "v") == Some(Str("im1")), crypto.verify(pem, signature, body);
    var p := ProofFromFields(crypto.python, fields);
    && (r == Err(UnknownVersion) <==> !version)
    && (r == Err(BadSignature) <==> version && !signed)
    && (version && signed ==>
          && (p.Err? ==> r == p)
          && (p.Ok? ==>
                && (r == Err(Stale) <==> p.value.expiresAt < now)
                && (r == Err(OtherChallenge) <==>
                      now <= p.value.expiresAt && challenge.Some? && !Matches(p.value, challenge.value))
                && (r.Ok? <==> now <= p.value.expiresAt && (challenge.Some? ==> Matches(p.value, challenge.value)))
                && (r.Ok? ==> r == p)))
  }

  /**
    A payment header is split at its first point; both halves must decode and the first one must read as a
    dictionary; then version, signature, fields, expiry and challenge are checked, in this order.
  */
  lemma {:induction false} HeaderAnswer(crypto: Crypto, header: string, pem: string, challenge: Option<Challenge>,
                                        now: int)
    ensures var r := VerifyProof(crypto, header, pem, challenge, now);
      && ('.' !in header ==> r == Err(Malformed))
      && forall k: nat :: PointAt(header, k) ==>
            var body, signature := Unb64(header[..k]), Unb64(header[k + 1..]);
            if body.None? || signature.None? || Read(body.value).None? then r == Err(UnreadableProof)
            else if !Read(body.value).value.Obj? then r == Err(NotADict)
            else Judges(crypto, r, pem, body.value, signature.value, Read(body.value).value.fields, challenge, now)
  {
    hide SplitPoint, Unb64, Read, Get, ProofFromFields, Judges;
    SplitsAt(header);
    if ReadHeader(header).Ok? && ReadHeader(header).value.2.Obj? {
      var (body, signature, payload) := ReadHeader(header).value;
      JudgesPayload(crypto, header, pem, challenge, now);
    }
    UncheckedHeader(crypto, header, pem, challenge, now);
  }

  lemma {:induction false} UncheckedHeader(crypto: Crypto, header: string, pem: string, challenge: Option<Challenge>,
                                           now: int)
    ensures var r := VerifyProof(crypto, header, pem, challenge, now);
      && (ReadHeader(header).Err? ==> r == Err(ReadHeader(header).error))
      && (ReadHeader(header).Ok? && !ReadHeader(header).value.2.Obj? ==> r == Err(NotADict))
  {
    hide ReadHeader, Get, ProofFromFields;
  }

  lemma {:induction false} JudgesPayload(crypto: Crypto, header: string, pem: string, challenge: Option<Challenge>,
                                         now: int)
    requires ReadHeader(header).Ok? && ReadHeader(header).value.2.Obj?
    ensures var (body, signature, payload) := ReadHeader(header).value;
      Judges(crypto, VerifyProof(crypto, header, pem, challenge, now), pem, body, signature, payload.fields, challenge,
             now)
  {
    hide ReadHeader, Get, Python.ToStr, Python.ToInt;
  }

  // ---------------------------------------------------------------- the gate

  /**
    Why a header does not reach the register: its payer cannot be read, is unknown or has a key that is none;
    its nonce cannot be read or is not that of a retained challenge; its proof fails, for its own reason; or
    it pays somebody else.
  */
  lemma {:induction false} GateAnswer(crypto: Crypto, keyring: map<string, string>, g: GateState, header: string,
                                      now: int)
    ensures var r := Examined(crypto, keyring, g, header, now);
      var payer, nonce := Peek(crypto.python, header, "payer"), Peek(crypto.python, header, "nonce");
      && (r == Err(UnreadableHeader) <==> payer.None?)
      && (payer.Some? ==>
            var known := payer.value in keyring && keyring[payer.value] != "";
            && (r == Err(UnknownPayer) <==> !known)
            && (known ==>
                  var pem := keyring[payer.value];
                  && (r == Err(Reason.UnreadableKey) <==> !crypto.readable(pem))
                  && (r == Err(UnreadableNonce) <==> crypto.readable(pem) && nonce.None?)
                  && (r == Err(UnknownNonce) <==> crypto.readable(pem) && nonce.Some? && nonce.value !in g.pending)
                  && (crypto.readable(pem) && nonce.Some? && nonce.value in g.pending ==>
                        var c := g.pending[nonce.value];
                        var v := VerifyProof(crypto, header, pem, Some(c), now);
                        && (v.Err? ==> r == Err(BadProof(v.error)))
                        && (r == Err(OtherPayee) <==> v.Ok? && v.value.payTo != g.payee)
                        && (v.Ok? && v.value.payTo == g.payee ==> r == Ok((c, v.value))))))
  {
    hide VerifyProof, Peek;
  }

  // ---------------------------------------------------------------- the register

  /** The amount of a proof in the register's currency, when its nonce is new. */
  predicate Priced(s: State, p: PaymentProof) {
    p.nonce !in s.book.seen && Asked(p).Ok? && Asked(p).value.currency == s.currency && Asked(p).value.amount > 0
  }

  predicate BothKnown(s: State, p: PaymentProof) {
    p.payer in s.book.accounts && p.payTo in s.book.accounts
  }

  /** What the payer can spend: its balance and its credit. */
  function Available(s: State, agent: string): int
    requires agent in s.book.accounts
  {
    s.book.accounts[agent].balance + s.book.accounts[agent].limit
  }

  lemma {:induction false} ChargeAnswer(digest: Audit.Digest, s: State, p: PaymentProof, at: int, now: real)
    requires s.journal != []
    ensures var r := AfterCharge(digest, s, p, at, now).1;
      && (r == Err(DuplicateNonce) <==> p.nonce in s.book.seen)
      && (forall e :: r == Err(BadPrice(e)) <==> p.nonce !in s.book.seen && Asked(p) == Err(e))
      && (r == Err(WrongCurrency) <==>
            p.nonce !in s.book.seen && Asked(p).Ok? && Asked(p).value.currency != s.currency)
      && (r == Err(LedgerError.NotPositive) <==>
            && p.nonce !in s.book.seen && Asked(p).Ok? && Asked(p).value.currency == s.currency
            && Asked(p).value.amount <= 0)
      && (forall a :: r == Err(UnknownAccount(a)) <==>
            && Priced(s, p) && !BothKnown(s, p)
            && a == if p.payer in s.book.accounts then p.payTo else p.payer)
      && (r == Err(CreditLimitExceeded) <==>
            && Priced(s, p) && BothKnown(s, p) && Fits(Available(s, p.payer))
            && Available(s, p.payer) < Asked(p).value.amount)
  {
    hide ParseText, DecimalStr, ChargeMeta;
  }

  /** Why a settlement is refused. */
  lemma {:induction false} SettleAnswer(digest: Audit.Digest, s: State, agent: string, amount: PriceArg, now: real)
    requires s.journal != []
    ensures var r := AfterSettle(digest, s, agent, amount, now).1;
      var price := ParsePrice(amount, s.currency);
      && (price.Err? ==> r == Err(BadPrice(price.error)))
      && (price.Ok? ==>
            var ours := price.value.currency == s.currency;
            && (r == Err(WrongCurrency) <==> !ours)
            && (r == Err(LedgerError.NotPositive) <==> ours && price.value.amount <= 0)
            && (r == Err(UnknownAccount(agent)) <==> ours && price.value.amount > 0 && agent !in s.book.accounts))
  {
    hide ParsePrice, DecimalStr, SettlementMeta;
  }

  // ---------------------------------------------------------------- the wallet and the client

  /** Why a wallet does not sign: the quote, the currency, the expiry, the limit, the budget, or its own total. */
  lemma {:induction false} WalletAnswer(crypto: Crypto, w: WalletState, c: Challenge, now: int, signedAt: int)
    ensures var r := AfterAuthorize(crypto, w, c, now, signedAt).1;
      var quote := ParseText(c.amount + (" " + c.currency), "USD");
      && (quote.Err? ==> r == Err(BadQuote(quote.error)))
      && (quote.Ok? ==>
            var amount := quote.value.amount;
            var ours, timely, small := quote.value.currency == w.currency, now <= c.expiresAt, amount <= w.maxPrice;
            var left := w.budget.Some? ==> amount <= w.budget.value - w.spent;
            && (r == Err(OtherCurrency) <==> !ours)
            && (r == Err(StaleChallenge) <==> ours && !timely)
            && (r == Err(PriceTooHigh) <==> ours && timely && !small)
            && (r == Err(BudgetExceeded) <==> ours && timely && small && !left)
            && (r == Err(SpentOverflow) <==> ours && timely && small && left && !Fits(w.spent + amount)))
  {
    hide ParseText, SignProof;
  }

  /** Why a client gets no answer to a 402: there is no challenge to read, or the wallet refuses, or it paid in vain. */
  lemma {:induction false} ClientAnswer(crypto: Crypto, send: Server, w: WalletState, now: int, ttl: int, signedAt: int)
    requires send(None).status == 402
    ensures var first, r := send(None), AfterPay(crypto, send, w, now, ttl, signedAt).result;
      var read := if first.body.Some? then ChallengeFromDict(crypto.python, first.body.value, now, ttl)
                  else Err(Unusable);
      && (r == Err(NoChallenge) <==> read == Err(Unusable))
      && (forall why :: r == Err(UnreadableExpiry(why)) <==> read == Err(Raised(why)))
      && (forall e :: r == Err(Refused(e)) <==>
            read.Ok? && AfterAuthorize(crypto, w, read.value, now, signedAt).1 == Err(e))
      && (r == Err(PaymentFailed) <==>
            && read.Ok? && AfterAuthorize(crypto, w, read.value, now, signedAt).1.Ok?
            && send(Some(AfterAuthorize(crypto, w, read.value, now, signedAt).1.value)).status == 402)
  {
    hide AfterAuthorize, ChallengeFromDict;
  }

  // ---------------------------------------------------------------- custody

  /** Why a hold is not made, or not resolved. */
  lemma {:induction false} CustodyAnswer(c: Escrow.Custody, hold: Escrow.Hold, task: string, outcome: Escrow.Status)
    ensures var r := Escrow.AfterHold(c, hold).1;
      var named, positive, first := hold.taskId != "", hold.amount > 0.0, hold.taskId !in c.holds;
      && (r == Err(Escrow.NoTask) <==> !named)
      && (r == Err(Escrow.EscrowError.NotPositive) <==> named && !positive)
      && (r == Err(Escrow.HoldExists) <==> named && positive && !first)
      && (r == Err(Escrow.InsufficientFunds) <==>
            && named && positive && first
            && Escrow.Balance(c.balances, Escrow.Purse(hold.payer, hold.currency)) < hold.amount)
    ensures var r := Escrow.AfterResolve(c, task, outcome).1;
      && (r == Err(Escrow.NoHold) <==> task !in c.holds)
      && (r == Err(Escrow.AlreadyResolved) <==> task in c.holds && c.holds[task].status != Escrow.Held)
  {
  }
}
