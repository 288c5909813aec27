/** One honest exchange from challenge to settlement, and what a second use of it meets. */
module Exchanges {
  import opened Wrappers
  import opened Conversions
  import opened Crypto
  import opened Price
  import opened Proof
  import opened Audit
  import opened Ledgers
  import opened Wallets
  import opened Gates
  import opened Payments

  /** What the client makes of the body of a 402 response that carries this challenge. */
  function Seen(python: Python, c: Challenge, reason: string, now: int, ttl: int): Result<Challenge, ChallengeError> {
    ChallengeFromDict(python, RequiredBody(c, reason), now, ttl)
  }

  lemma {:induction false} SeenSigns(crypto: Crypto, c: Challenge, reason: string, now: int, ttl: int, agent: string,
                                     secret: string, signedAt: int)
    ensures Seen(crypto.python, c, reason, now, ttl).Ok?
    ensures SignProof(crypto, Seen(crypto.python, c, reason, now, ttl).value, agent, secret, signedAt) ==
      SignProof(crypto, c, agent, secret, signedAt)
    ensures Seen(crypto.python, c, reason, now, ttl).value.Price() == c.Price()
  {
    hide ChallengeFromDict, RequiredBody, PaymentProof.Body;
    ChallengeReadBack(crypto.python, c, reason, now, ttl);
  }

  lemma {:induction false} SignedExamines(crypto: Crypto, keyring: map<string, string>, g: GateState, c: Challenge,
                                          agent: string, secret: string, signedAt: int, now: int)
    requires crypto.Correct() && agent in keyring && keyring[agent] == crypto.publicPem(secret)
    requires c.nonce in g.pending && g.pending[c.nonce] == c && c.payTo == g.payee && !c.Expired(now)
    ensures SignProof(crypto, c, agent, secret, signedAt) != ""
    ensures Examined(crypto, keyring, g, SignProof(crypto, c, agent, secret, signedAt), now) ==
      Ok((c, ProofFor(c, agent, signedAt)))
  {
    hide SignProof, VerifyProof, Peek;
    VerifySigned(crypto, c, agent, secret, signedAt, now);
    SignedNotEmpty(crypto, c, agent, secret, signedAt);
  }

  lemma {:induction false} SignedNotEmpty(crypto: Crypto, c: Challenge, agent: string, secret: string, signedAt: int)
    ensures SignProof(crypto, c, agent, secret, signedAt) != ""
  {
    hide PaymentProof.Body;
    assert |"."| == 1;
  }

  /** The gate retains this challenge, the agent's key is known, and the wallet signs what it saw before it expires. */
  ghost predicate Honest(u: Setup, s: System, gate: string, c: Challenge, reason: string, seenAt: int, ttl: int,
                         signedAt: int, now: int)
  {
    && u.crypto.Correct() && gate in s.gates
    && s.wallet.agentId in u.keyring && u.keyring[s.wallet.agentId] == u.crypto.publicPem(s.wallet.secret)
    && c.nonce in s.gates[gate].pending && s.gates[gate].pending[c.nonce] == c && c.payTo == s.gates[gate].payee
    && !c.Expired(now)
    && Seen(u.crypto.python, c, reason, seenAt, ttl).Ok?
    && AfterAuthorize(u.crypto, s.wallet, Seen(u.crypto.python, c, reason, seenAt, ttl).value, seenAt, signedAt).1.Ok?
  }

  /**
    A challenge that a gate retains, carried to the wallet, signed within its limits, and presented before
    it expires, reaches the register with the fields of that challenge.
  */
  lemma {:induction false} HonestExchange(u: Setup, s: System, gate: string, c: Challenge, reason: string, seenAt: int,
                                          ttl: int, signedAt: int, resource: string, price: PriceArg, now: int,
                                          clock: real)
    requires Honest(u, s, gate, c, reason, seenAt, ttl, signedAt, now) && s.ledger.journal != []
    ensures var seen := Seen(u.crypto.python, c, reason, seenAt, ttl).value;
      var (wallet, signed) := AfterAuthorize(u.crypto, s.wallet, seen, seenAt, signedAt);
      var g := s.gates[gate];
      && AfterAdmit(u.crypto, u.digest, u.keyring, g, s.ledger, resource, price, signed.value, "", now, clock) ==
         AfterSettlement(u.digest, g, s.ledger, c, ProofFor(c, s.wallet.agentId, signedAt), now, clock)
      && c.Price().Ok? && wallet.spent == s.wallet.spent + c.Price().value.amount
  {
    hide AfterAuthorize, Seen, SignProof, Examined, AfterSettlement, AfterIssue;
    var w, seen := s.wallet, Seen(u.crypto.python, c, reason, seenAt, ttl).value;
    AuthorizeBounded(u.crypto, w, seen, seenAt, signedAt);
    SeenSigns(u.crypto, c, reason, seenAt, ttl, w.agentId, w.secret, signedAt);
    SignedExamines(u.crypto, u.keyring, s.gates[gate], c, w.agentId, w.secret, signedAt, now);
  }

  /** The register can take this charge: accounts, currency, credit, and sums the decimal context can hold. */
  predicate Fundable(l: State, c: Challenge, payer: string, amount: int) {
    && c.nonce !in l.book.seen && c.Price() == Ok(Price(amount, l.currency)) && amount > 0
    && payer in l.book.accounts && c.payTo in l.book.accounts
    && amount <= l.book.accounts[payer].balance + l.book.accounts[payer].limit
    && Quantize(l.book.accounts[payer].balance + l.book.accounts[payer].limit).Ok?
    && Quantize(l.book.accounts[payer].balance - amount).Ok?
    && Quantize(l.book.accounts[c.payTo].balance + amount).Ok?
  }

  /** What reaches the register and can be funded settles, for the price of the challenge, and is forgotten. */
  lemma {:induction false} FundedSettles(digest: Digest, g: GateState, l: State, c: Challenge, payer: string,
                                         signedAt: int, amount: int, now: int, clock: real)
    requires l.journal != [] && Fundable(l, c, payer, amount)
    ensures var p := ProofFor(c, payer, signedAt);
      var (g', l', outcome) := AfterSettlement(digest, g, l, c, p, now, clock);
      && outcome == Settled(p, Charged(payer, c.payTo, amount, l.currency, c.resource, c.nonce, now))
      && g' == g.(pending := g.pending - {c.nonce}) && c.nonce in l'.book.seen
  {
    hide Logged, ParseText;
    var p := ProofFor(c, payer, signedAt);
    assert ParseText(Quoted(p.amount, p.currency), "USD") == c.Price();
    assert Receivable(l, p) == Ok(amount);
    BookedSeen(digest, l, p, amount, now, clock);
  }

  /**
    An honest exchange that the register can fund settles: the charge is for the price of the challenge,
    which is what the wallet counted, and the challenge is forgotten.
  */
  lemma {:induction false} HonestExchangeSettles(u: Setup, s: System, gate: string, c: Challenge, reason: string,
                                                 seenAt: int, ttl: int, signedAt: int, resource: string,
                                                 price: PriceArg, now: int, clock: real, amount: int)
    requires Honest(u, s, gate, c, reason, seenAt, ttl, signedAt, now) && s.ledger.journal != []
    requires Fundable(s.ledger, c, s.wallet.agentId, amount)
    ensures var seen := Seen(u.crypto.python, c, reason, seenAt, ttl).value;
      var (wallet, signed) := AfterAuthorize(u.crypto, s.wallet, seen, seenAt, signedAt);
      var g, agent := s.gates[gate], s.wallet.agentId;
      var (g', l', outcome) :=
        AfterAdmit(u.crypto, u.digest, u.keyring, g, s.ledger, resource, price, signed.value, "", now, clock);
      && outcome == Settled(ProofFor(c, agent, signedAt),
                            Charged(agent, c.payTo, amount, s.ledger.currency, c.resource, c.nonce, now))
      && g' == g.(pending := g.pending - {c.nonce}) && c.nonce in l'.book.seen
      && wallet.spent == s.wallet.spent + amount
  {
    hide Honest, AfterAuthorize, Seen, AfterAdmit, AfterSettlement;
    HonestExchange(u, s, gate, c, reason, seenAt, ttl, signedAt, resource, price, now, clock);
    HonestGate(u, s, gate, c, reason, seenAt, ttl, signedAt, now);
    FundedSettles(u.digest, s.gates[gate], s.ledger, c, s.wallet.agentId, signedAt, amount, now, clock);
  }

  lemma {:induction false} HonestGate(u: Setup, s: System, gate: string, c: Challenge, reason: string, seenAt: int,
                                      ttl: int, signedAt: int, now: int)
    requires Honest(u, s, gate, c, reason, seenAt, ttl, signedAt, now)
    ensures gate in s.gates && Seen(u.crypto.python, c, reason, seenAt, ttl).Ok?
    ensures AfterAuthorize(u.crypto, s.wallet, Seen(u.crypto.python, c, reason, seenAt, ttl).value, seenAt,
                           signedAt).1.Ok?
  {
    hide AfterAuthorize, Seen;
  }

  lemma {:induction false} BookedSeen(digest: Digest, l: State, p: PaymentProof, amount: int, now: int, clock: real)
    requires l.journal != [] && p.payer in l.book.accounts && p.payTo in l.book.accounts
    requires Quantize(l.book.accounts[p.payTo].balance + amount).Ok?
    ensures Booked(digest, l, p, amount, now, clock).1 == Ok(ChargeOf(l, p, amount, now))
    ensures p.nonce in Booked(digest, l, p, amount, now, clock).0.book.seen
  {
  }

  /** Replays: once a nonce has settled, a header that carries it changes nothing at any gate. */
  lemma {:induction false} ReplayRefused(u: Setup, s: System, m: Move)
    requires Inv(u, s) && s.ledger.journal != [] && m.Present?
    requires Peek(u.crypto.python, m.header, "nonce").Some?
      && Peek(u.crypto.python, m.header, "nonce").value in s.ledger.book.seen
    ensures Step(u, s, m) == s
  {
    hide WalletSound, DebtBacked, AfterSettlement, VerifyProof, Peek;
    if m.gate in s.gates && m.header != "" {
      assert Retained(s, m.gate);
      assert Examined(u.crypto, u.keyring, s.gates[m.gate], m.header, m.now).Err?;
      assert s.gates[m.gate := s.gates[m.gate]] == s.gates;
    }
  }
}
