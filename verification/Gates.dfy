/** The 402 gate: it issues challenges, retains them, and settles each one at most once. */
module Gates {
  import opened Wrappers
  import opened Crypto
  import opened Price
  import opened Proof
  import opened Audit
  import opened Ledgers

  /** How long an expired challenge is still retained, in milliseconds. */
  const PENDING_GRACE := 60_000

  datatype GateState = GateState(payee: string, ledgerUrl: Option<string>, ttl: int, pending: map<string, Challenge>)

  datatype Reason =
    | UnreadableHeader | UnknownPayer | UnreadableKey | UnreadableNonce | UnknownNonce | BadProof(error: ProofError)
    | OtherPayee | Ledger(why: LedgerError)

  datatype Outcome =
    | Required(challenge: Challenge)            // answer 402 with this challenge
    | Rejected(refusal: Reason)                 // answer 402 without a challenge
    | Settled(proof: PaymentProof, charge: Charge)
    | PriceRaised(price: PriceError)            // exceptions that reach the caller
    | LedgerRaised(ledger: LedgerError)
    | HeaderRaised(reason: Reason)

  predicate Outdated(c: Challenge, now: int) {
    c.expiresAt + PENDING_GRACE < now
  }

  function Evicted(pending: map<string, Challenge>, now: int): map<string, Challenge> {
    map n | n in pending && !Outdated(pending[n], now) :: pending[n]
  }

  /** Eviction happens even when the price cannot be read. */
  function AfterIssue(g: GateState, resource: string, price: PriceArg, nonce: string, now: int)
    : (GateState, Result<Challenge, PriceError>)
  {
    var kept := g.(pending := Evicted(g.pending, now));
    match CreateChallenge(price, g.payee, resource, g.ledgerUrl, nonce, now, g.ttl)
    case Err(e) => (kept, Err(e))
    case Ok(c) => (kept.(pending := kept.pending[nonce := c]), Ok(c))
  }

  /** The ledger's own refusals; a price or context error is of another class and is not caught. */
  predicate Caught(e: LedgerError) {
    !e.BadPrice? && !e.ContextOverflow?
  }

  /** An agent without a key, or with an empty one, is unknown; a text that is no key raises. */
  function KeyFor(crypto: Crypto, keyring: map<string, string>, payer: string): Result<string, Reason> {
    if payer !in keyring || keyring[payer] == "" then Err(UnknownPayer)
    else if !crypto.readable(keyring[payer]) then Err(UnreadableKey)
    else Ok(keyring[payer])
  }

  /** Everything decided before the ledger is asked: the retained challenge and the verified proof. */
  function Examined(crypto: Crypto, keyring: map<string, string>, g: GateState, header: string, now: int)
    : Result<(Challenge, PaymentProof), Reason>
  {
    var payer := Peek(crypto.python, header, "payer");
    if payer.None? then Err(UnreadableHeader)
    else
      var pem :- KeyFor(crypto, keyring, payer.value);
      var nonce := Peek(crypto.python, header, "nonce");
      if nonce.None? then Err(UnreadableNonce)
      else if nonce.value !in g.pending then Err(UnknownNonce)
      else
        var c := g.pending[nonce.value];
        match VerifyProof(crypto, header, pem, Some(c), now)
        case Err(e) => Err(BadProof(e))
        case Ok(proof) => if proof.payTo != g.payee then Err(OtherPayee) else Ok((c, proof))
  }

  /** What the handlers of `admit` let through: they catch unknown payers and proof errors, but not around the nonce. */
  predicate Escapes(reason: Reason) {
    || reason == UnreadableKey || reason == UnreadableNonce
    || reason == BadProof(NotADict) || reason == BadProof(InfiniteTime)
  }

  function Refusal(reason: Reason): Outcome {
    if Escapes(reason) then HeaderRaised(reason) else Rejected(reason)
  }

  /** The charge and what becomes of the retained challenge. */
  function AfterSettlement(digest: Digest, g: GateState, ledger: State, c: Challenge, proof: PaymentProof, now: int,
                           clock: real)
    : (r: (GateState, State, Outcome))
    requires ledger.journal != []
    ensures r.1.journal != []
  {
    var (ledger', charged) := AfterCharge(digest, ledger, proof, now, clock);
    match charged
    case Ok(charge) => (g.(pending := g.pending - {c.nonce}), ledger', Settled(proof, charge))
    case Err(e) =>
      if Caught(e) then (g.(pending := g.pending - {c.nonce}), ledger', Rejected(Ledger(e)))
      else (g, ledger', LedgerRaised(e))
  }

  function AfterAdmit(crypto: Crypto, digest: Digest, keyring: map<string, string>, g: GateState, ledger: State,
                      resource: string, price: PriceArg, header: string, nonce: string, now: int, clock: real)
    : (r: (GateState, State, Outcome))
    requires ledger.journal != []
    ensures r.1.journal != []
  {
    if header == "" then
      var (g', issued) := AfterIssue(g, resource, price, nonce, now);
      (g', ledger, if issued.Ok? then Required(issued.value) else PriceRaised(issued.error))
    else match Examined(crypto, keyring, g, header, now)
      case Err(reason) => (g, ledger, Refusal(reason))
      case Ok((c, proof)) => AfterSettlement(digest, g, ledger, c, proof, now, clock)
  }

  class PaymentGate {
    const payee: string
    const ledgerUrl: Option<string>
    const ttl: int
    const keyring: map<string, string>
    const ledger: Ledgers.Ledger
    var pending: map<string, Challenge>

    ghost function View(): GateState
      reads this
    {
      GateState(payee, ledgerUrl, ttl, pending)
    }

    constructor (ledger: Ledgers.Ledger, keyring: map<string, string>, payee: string, ledgerUrl: Option<string>,
                 ttl: int)
      ensures View() == GateState(payee, ledgerUrl, ttl, map[])
      ensures this.ledger == ledger && this.keyring == keyring
    {
      this.ledger, this.keyring := ledger, keyring;
      this.payee, this.ledgerUrl, this.ttl := payee, ledgerUrl, ttl;
      pending := map[];
    }

    method Evict(now: int)
      modifies this
      ensures pending == Evicted(old(pending), now)
    {
      var expired := set n | n in pending && Outdated(pending[n], now);
      while expired != {}
        invariant expired <= set n | n in old(pending) && Outdated(old(pending)[n], now)
        invariant pending.Keys <= old(pending).Keys
        invariant forall n :: n in pending ==> pending[n] == old(pending)[n]
        invariant forall n :: n in old(pending) ==>
          (n in pending <==> !Outdated(old(pending)[n], now) || n in expired)
        decreases expired
      {
        var nonce :| nonce in expired;
        pending := pending - {nonce};
        expired := expired - {nonce};
      }
    }

    /** The nonce comes from the system's source of randomness. */
    method ChallengeFor(resource: string, price: PriceArg, nonce: string, now: int)
      returns (r: Result<Challenge, PriceError>)
      modifies this
      ensures (View(), r) == AfterIssue(old(View()), resource, price, nonce, now)
    {
      Evict(now);
      r := CreateChallenge(price, payee, resource, ledgerUrl, nonce, now, ttl);
      if r.Ok? {
        pending := pending[nonce := r.value];
      }
    }

    method Examine(crypto: Crypto, header: string, now: int) returns (r: Result<(Challenge, PaymentProof), Reason>)
      ensures r == Examined(crypto, keyring, View(), header, now)
    {
      var payer := Peek(crypto.python, header, "payer");
      if payer.None? {
        return Err(UnreadableHeader);
      }
      if payer.value !in keyring || keyring[payer.value] == "" {
        return Err(UnknownPayer);
      }
      var pem := keyring[payer.value];
      if !crypto.readable(pem) {
        return Err(UnreadableKey);
      }
      var nonce := Peek(crypto.python, header, "nonce");
      if nonce.None? {
        return Err(UnreadableNonce);
      }
      if nonce.value !in pending {
        return Err(UnknownNonce);
      }
      var c := pending[nonce.value];
      var verified := VerifyProof(crypto, header, pem, Some(c), now);
      if verified.Err? {
        return Err(BadProof(verified.error));
      }
      if verified.value.payTo != payee {
        return Err(OtherPayee);
      }
      return Ok((c, verified.value));
    }

    method Admit(crypto: Crypto, resource: string, price: PriceArg, header: string, nonce: string, now: int,
                 clock: real)
      returns (outcome: Outcome)
      requires ledger.audit.chain != []
      modifies this, ledger, ledger.audit
      ensures (View(), ledger.View(), outcome) ==
        AfterAdmit(crypto, ledger.audit.digest, keyring, old(View()), old(ledger.View()), resource, price, header,
                   nonce, now, clock)
    {
      if header == "" {
        var issued := ChallengeFor(resource, price, nonce, now);
        return if issued.Ok? then Required(issued.value) else PriceRaised(issued.error);
      }
      var examined := Examine(crypto, header, now);
      if examined.Err? {
        return Refusal(examined.error);
      }
      var (c, proof) := examined.value;
      var charged := ledger.Charge(proof, now, clock);
      if charged.Err? {
        if !Caught(charged.error) {
          return LedgerRaised(charged.error);
        }
        pending := pending - {c.nonce};
        return Rejected(Reason.Ledger(charged.error));
      }
      pending := pending - {c.nonce};
      return Settled(proof, charged.value);
    }
  }
}
