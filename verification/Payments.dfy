/**
  The whole pay-per-call protocol: one wallet, any number of gates sharing a register, other payers,
  restarts, and headers from anyone. What no run can do: overspend the wallet, settle a nonce twice,
  or settle something no gate asked for.
*/
module Payments {
  import opened Wrappers
  import opened Crypto
  import opened Price
  import opened Proof
  import opened Audit
  import opened Ledgers
  import opened LedgerLaws
  import opened Wallets
  import opened Gates

  /** What does not change during a run. */
  datatype Setup = Setup(crypto: Crypto, digest: Digest, keyring: map<string, string>)

  /** A challenge and the gate that issued it. */
  datatype Issued = Issued(gate: string, challenge: Challenge)

  /** A proof the wallet signed, and the amount it counted as spent. */
  datatype Signing = Signing(proof: PaymentProof, amount: int)

  /** The parties, and the history of what was issued and signed. */
  datatype System = System(
    ledger: State, gates: map<string, GateState>, wallet: WalletState,
    issued: map<string, Issued>, signed: seq<Signing>)

  datatype Move =
    | Pay(challenge: Challenge, now: int, signedAt: int)    // the wallet is shown any challenge at all
    | Ask(gate: string, resource: string, price: PriceArg, nonce: string, now: int, clock: real)
    | Present(gate: string, resource: string, price: PriceArg, header: string, now: int, clock: real)
    | Books(op: Op)
    | RestartGate(gate: string)

  function Step(u: Setup, s: System, m: Move): (t: System)
    requires s.ledger.journal != []
    ensures t.ledger.journal != []
  {
    match m
    case Pay(c, now, signedAt) =>
      var (wallet, header) := AfterAuthorize(u.crypto, s.wallet, c, now, signedAt);
      s.(wallet := wallet,
         signed := s.signed + (if header.Err? then []
                               else [Signing(ProofFor(c, s.wallet.agentId, signedAt), wallet.spent - s.wallet.spent)]))
    case Ask(gate, resource, price, nonce, now, clock) =>
      if gate !in s.gates then s
      else
        var (g, _, outcome) := AfterAdmit(u.crypto, u.digest, u.keyring, s.gates[gate], s.ledger, resource, price, "",
                                          nonce, now, clock);
        s.(gates := s.gates[gate := g],
           issued := if outcome.Required? then s.issued[nonce := Issued(gate, outcome.challenge)] else s.issued)
    case Present(gate, resource, price, header, now, clock) =>
      if gate !in s.gates || header == "" then s
      else
        var (g, ledger, _) := AfterAdmit(u.crypto, u.digest, u.keyring, s.gates[gate], s.ledger, resource, price,
                                         header, "", now, clock);
        s.(gates := s.gates[gate := g], ledger := ledger)
    case Books(op) =>
      if op.ChargeOp? then s else s.(ledger := LedgerLaws.Step(u.digest, s.ledger, op))
    case RestartGate(gate) =>
      if gate in s.gates then s.(gates := s.gates[gate := s.gates[gate].(pending := map[])]) else s
  }

  /**
    Nonces are fresh; the clock is never exactly 0; credit limits are not negative; and a signature that
    verifies under the wallet's key covers bytes the wallet signed.
  */
  ghost predicate Admissible(u: Setup, s: System, m: Move) {
    && (m.Ask? ==> m.nonce !in s.issued && m.clock != 0.0)
    && (m.Present? ==> m.clock != 0.0 && Unforged(u, s, m.header))
    && (m.Books? ==> m.op.now != 0.0 && (m.op.OpenOp? && m.op.limit.Given? ==> m.op.limit.price.amount >= 0))
  }

  ghost predicate Unforged(u: Setup, s: System, header: string) {
    s.wallet.agentId in u.keyring && ReadHeader(header).Ok? ==>
      var (body, signature, _) := ReadHeader(header).value;
      u.crypto.verify(u.keyring[s.wallet.agentId], signature, body) ==>
        exists i :: 0 <= i < |s.signed| && s.signed[i].proof.Body() == body
  }

  ghost predicate AdmissibleRun(u: Setup, s: System, moves: seq<Move>)
    requires s.ledger.journal != []
    decreases |moves|
  {
    moves == [] || (Admissible(u, s, moves[0]) && AdmissibleRun(u, Step(u, s, moves[0]), moves[1..]))
  }

  function Run(u: Setup, s: System, moves: seq<Move>): System
    requires s.ledger.journal != []
    decreases |moves|
  {
    if moves == [] then s else Run(u, Step(u, s, moves[0]), moves[1..])
  }

  // ---------------------------------------------------------------- the invariant

  /** Sum of the amounts signed for nonces in a set. */
  function Honoured(signed: seq<Signing>, nonces: set<string>): int {
    if signed == [] then 0
    else
      var last := signed[|signed| - 1];
      Honoured(signed[..|signed| - 1], nonces) + if last.proof.nonce in nonces then last.amount else 0
  }

  function Signed(signed: seq<Signing>): int {
    if signed == [] then 0 else Signed(signed[..|signed| - 1]) + signed[|signed| - 1].amount
  }

  /** The price a proof commits to. */
  function Worth(p: PaymentProof): Result<Price, PriceError> {
    ParseText(Quoted(p.amount, p.currency), "USD")
  }

  ghost predicate WalletSound(w: WalletState, signed: seq<Signing>) {
    && w.spent == Signed(signed) && w.spent < PRECISION_LIMIT
    && (w.budget.Some? ==> w.spent <= w.budget.value || w.spent == 0)
    && forall i :: 0 <= i < |signed| ==>
        && signed[i].proof.payer == w.agentId && 0 <= signed[i].amount <= w.maxPrice
        && Worth(signed[i].proof) == Ok(Price(signed[i].amount, w.currency))
  }

  ghost predicate DebtBacked(s: System) {
    && Owed(s.ledger.book.charges, s.wallet.agentId) <= Honoured(s.signed, s.ledger.book.seen)
    && WithinLimit(s.ledger.book.charges, s.wallet.agentId, s.wallet.maxPrice)
  }

  /** Charges are positive, and those of this payer stay below the limit per request. */
  ghost predicate WithinLimit(charges: seq<Charge>, payer: string, maxPrice: int) {
    forall c :: c in charges ==> c.amount > 0 && (c.payer == payer ==> c.amount <= maxPrice)
  }

  /** A charge matches the challenge a gate issued under its nonce. */
  ghost predicate Backed(c: Charge, issued: map<string, Issued>) {
    c.nonce in issued &&
    var i := issued[c.nonce].challenge;
    i.nonce == c.nonce && i.payTo == c.payee && i.resource == c.resource && i.Price() == Ok(Price(c.amount, c.currency))
  }

  ghost predicate Retained(s: System, gate: string)
    requires gate in s.gates
  {
    var g := s.gates[gate];
    forall n :: n in g.pending ==>
      && g.pending[n].nonce == n && g.pending[n].payTo == g.payee
      && n in s.issued && s.issued[n] == Issued(gate, g.pending[n])
      && n !in s.ledger.book.seen
  }

  ghost predicate IssueSound(s: System) {
    && (forall gate :: gate in s.gates ==> Retained(s, gate))
    && (forall c :: c in s.ledger.book.charges ==> Backed(c, s.issued))
  }

  ghost predicate Inv(u: Setup, s: System) {
    && LedgerSound(u.digest, s.ledger) && WithinCredit(s.ledger.book.accounts)
    && WalletSound(s.wallet, s.signed) && DebtBacked(s) && IssueSound(s)
  }

  lemma InvJournal(u: Setup, s: System)
    requires Inv(u, s)
    ensures s.ledger.journal != []
  {
  }

  // ---------------------------------------------------------------- one move

  lemma {:induction false} HonouredAppend(signed: seq<Signing>, x: Signing, nonces: set<string>)
    ensures Honoured(signed + [x], nonces) == Honoured(signed, nonces) + if x.proof.nonce in nonces then x.amount else 0
    ensures Signed(signed + [x]) == Signed(signed) + x.amount
  {
    assert (signed + [x])[..|signed + [x]| - 1] == signed;
  }

  /** Honouring one more nonce adds at least any one amount signed for it. */
  lemma {:induction false} HonouredMore(signed: seq<Signing>, nonces: set<string>, n: string, i: nat)
    requires n !in nonces
    requires forall k :: 0 <= k < |signed| ==> signed[k].amount >= 0
    requires i < |signed| ==> signed[i].proof.nonce == n
    ensures Honoured(signed, nonces + {n}) >= Honoured(signed, nonces) + if i < |signed| then signed[i].amount else 0
  {
    if signed != [] {
      HonouredMore(signed[..|signed| - 1], nonces, n, i);
    }
  }

  lemma {:induction false} HonouredAtMostSigned(signed: seq<Signing>, nonces: set<string>)
    requires forall k :: 0 <= k < |signed| ==> signed[k].amount >= 0
    ensures Honoured(signed, nonces) <= Signed(signed)
  {
    if signed != [] {
      HonouredAtMostSigned(signed[..|signed| - 1], nonces);
    }
  }

  /** One more signature within the limits keeps the wallet's account of what it signed. */
  lemma {:induction false} SigningKeepsWallet(w: WalletState, w': WalletState, signed: seq<Signing>, x: Signing)
    requires WalletSound(w, signed) && w' == w.(spent := w.spent + x.amount)
    requires x.proof.payer == w.agentId && 0 <= x.amount <= w.maxPrice
      && Worth(x.proof) == Ok(Price(x.amount, w.currency))
    requires (w.budget.Some? ==> w'.spent <= w.budget.value) && w'.spent < PRECISION_LIMIT
    ensures WalletSound(w', signed + [x])
  {
    hide Worth, Signed, Honoured;
    HonouredAppend(signed, x, {});
  }

  /** Gates, issued challenges and settlements are untouched. */
  lemma {:induction false} SameIssue(s: System, t: System)
    requires IssueSound(s) && t.gates == s.gates && t.issued == s.issued && t.ledger == s.ledger
    ensures IssueSound(t)
  {
    forall gate | gate in t.gates
      ensures Retained(t, gate)
    {
      assert Retained(s, gate);
    }
  }

  lemma {:induction false} MoreSigned(s: System, t: System, x: Signing)
    requires DebtBacked(s) && x.amount >= 0 && t.ledger == s.ledger && t.signed == s.signed + [x]
    requires t.wallet.(spent := 0) == s.wallet.(spent := 0)
    ensures DebtBacked(t)
  {
    hide Honoured, Owed, WithinLimit;
    HonouredAppend(s.signed, x, s.ledger.book.seen);
  }

  /** One more signature, for the price of the challenge. */
  lemma {:induction false} PaidKeepsInv(u: Setup, s: System, t: System, w': WalletState, x: Signing)
    requires Inv(u, s) && t == s.(wallet := w', signed := s.signed + [x])
    requires w' == s.wallet.(spent := s.wallet.spent + x.amount) && w'.spent < PRECISION_LIMIT
    requires w'.budget.Some? ==> w'.spent <= w'.budget.value
    requires x.proof.payer == w'.agentId && 0 <= x.amount <= w'.maxPrice
      && Worth(x.proof) == Ok(Price(x.amount, w'.currency))
    ensures Inv(u, t)
  {
    hide WalletSound, LedgerSound, DebtBacked, IssueSound, Worth;
    SigningKeepsWallet(s.wallet, w', s.signed, x);
    MoreSigned(s, t, x);
    SameIssue(s, t);
  }

  lemma {:induction false} PayStep(u: Setup, s: System, c: Challenge, now: int, signedAt: int, w': WalletState,
                                   r: Result<string, WalletError>)
    requires s.ledger.journal != [] && (w', r) == AfterAuthorize(u.crypto, s.wallet, c, now, signedAt)
    ensures Step(u, s, Pay(c, now, signedAt)) ==
      if r.Err? then s.(wallet := w')
      else s.(wallet := w',
              signed := s.signed + [Signing(ProofFor(c, s.wallet.agentId, signedAt), w'.spent - s.wallet.spent)])
  {
    hide AfterAuthorize;
    assert s.signed + [] == s.signed;
  }

  lemma {:induction false} PriceIsWorth(c: Challenge, payer: string, signedAt: int)
    ensures Worth(ProofFor(c, payer, signedAt)) == c.Price()
  {
  }

  lemma {:induction false} PayKeepsInv(u: Setup, s: System, c: Challenge, now: int, signedAt: int)
    requires Inv(u, s)
    ensures Inv(u, Step(u, s, Pay(c, now, signedAt)))
  {
    hide *;
    InvJournal(u, s);
    AuthorizeBounded(u.crypto, s.wallet, c, now, signedAt);
    var (wallet, header) := AfterAuthorize(u.crypto, s.wallet, c, now, signedAt);
    PayStep(u, s, c, now, signedAt, wallet, header);
    if header.Ok? {
      var p := ProofFor(c, s.wallet.agentId, signedAt);
      PriceIsWorth(c, s.wallet.agentId, signedAt);
      assert p.payer == s.wallet.agentId by { PayerOf(c, s.wallet.agentId, signedAt); }
      PaidKeepsInv(u, s, Step(u, s, Pay(c, now, signedAt)), wallet, Signing(p, wallet.spent - s.wallet.spent));
    }
  }

  lemma {:induction false} PayerOf(c: Challenge, payer: string, signedAt: int)
    ensures ProofFor(c, payer, signedAt).payer == payer
  {
  }

  /** A challenge under a fresh nonce is retained by the gate that issued it. */
  lemma {:induction false} IssuedSound(s: System, t: System, gate: string, kept: map<string, Challenge>, c: Challenge)
    requires IssueSound(s) && gate in s.gates && c.payTo == s.gates[gate].payee
    requires c.nonce !in s.issued && c.nonce !in s.ledger.book.seen
    requires forall n :: n in kept ==> n in s.gates[gate].pending && kept[n] == s.gates[gate].pending[n]
    requires t.gates == s.gates[gate := s.gates[gate].(pending := kept[c.nonce := c])]
    requires t.issued == s.issued[c.nonce := Issued(gate, c)] && t.ledger == s.ledger
    ensures IssueSound(t)
  {
    forall ch | ch in s.ledger.book.charges
      ensures Backed(ch, t.issued)
    {
      assert Backed(ch, s.issued);
    }
    forall h | h in t.gates
      ensures Retained(t, h)
    {
      assert Retained(s, h);
    }
  }

  /** Forgetting outdated challenges, or all of them, is harmless. */
  lemma {:induction false} ForgottenSound(s: System, t: System, gate: string, kept: map<string, Challenge>)
    requires IssueSound(s) && gate in s.gates
    requires forall n :: n in kept ==> n in s.gates[gate].pending && kept[n] == s.gates[gate].pending[n]
    requires t.gates == s.gates[gate := s.gates[gate].(pending := kept)] && t.issued == s.issued && t.ledger == s.ledger
    ensures IssueSound(t)
  {
    forall h | h in t.gates
      ensures Retained(t, h)
    {
      assert Retained(s, h);
    }
  }

  lemma {:induction false} SeenWereIssued(s: System, digest: Digest)
    requires IssueSound(s) && LedgerSound(digest, s.ledger)
    ensures s.ledger.book.seen <= s.issued.Keys
  {
    forall n | n in s.ledger.book.seen
      ensures n in s.issued
    {
      var c :| c in s.ledger.book.charges && c.nonce == n;
      assert Backed(c, s.issued);
    }
  }

  lemma {:induction false} AskKeepsInv(u: Setup, s: System, m: Move)
    requires Inv(u, s) && m.Ask? && Admissible(u, s, m)
    ensures Inv(u, Step(u, s, m))
  {
    if m.gate in s.gates {
      SeenWereIssued(s, u.digest);
      hide Examined, WalletSound, DebtBacked, LedgerSound, IssueSound, ParsePrice, AfterSettlement, AfterAuthorize,
          LedgerLaws.Step;
      var g, t := s.gates[m.gate], Step(u, s, m);
      var kept := Evicted(g.pending, m.now);
      var (_, issued) := AfterIssue(g, m.resource, m.price, m.nonce, m.now);
      if issued.Ok? {
        IssuedSound(s, t, m.gate, kept, issued.value);
      } else {
        ForgottenSound(s, t, m.gate, kept);
      }
    }
  }

  /** What a charge does to the books, whatever it answers. */
  ghost predicate ChargeOutcome(digest: Digest, l: State, p: PaymentProof, l': State, r: Result<Charge, LedgerError>) {
    && LedgerSound(digest, l') && l'.currency == l.currency
    && (r.Err? ==> l'.book.charges == l.book.charges && l'.book.seen == l.book.seen)
    && (r.Ok? ==>
          && r.value.payer == p.payer && r.value.payee == p.payTo && r.value.resource == p.resource
          && r.value.nonce == p.nonce && r.value.currency == l.currency && r.value.amount > 0
          && Worth(p) == Ok(Price(r.value.amount, l.currency)) && p.nonce !in l.book.seen
          && l'.book.charges == l.book.charges + [r.value] && l'.book.seen == l.book.seen + {p.nonce})
  }

  lemma {:induction false} ChargeEffects(digest: Digest, l: State, p: PaymentProof, now: int, clock: real)
    requires LedgerSound(digest, l) && NonEmpty(digest) && clock != 0.0
    ensures ChargeOutcome(digest, l, p, AfterCharge(digest, l, p, now, clock).0,
                          AfterCharge(digest, l, p, now, clock).1)
  {
    if Receivable(l, p).Ok? {
      ReceivableFacts(l, p, now);
      BookedEffects(digest, l, p, Receivable(l, p).value, now, clock);
    }
  }

  lemma {:induction false} BookedEffects(digest: Digest, l: State, p: PaymentProof, amount: int, now: int, clock: real)
    requires LedgerSound(digest, l) && NonEmpty(digest) && clock != 0.0
    requires p.payer in l.book.accounts && p.payTo in l.book.accounts && p.nonce !in l.book.seen
    ensures var (l', r) := Booked(digest, l, p, amount, now, clock);
      && LedgerSound(digest, l') && l'.currency == l.currency
      && (r.Err? ==> l'.book.charges == l.book.charges && l'.book.seen == l.book.seen)
      && (r.Ok? ==>
            && r.value == ChargeOf(l, p, amount, now)
            && l'.book.charges == l.book.charges + [r.value] && l'.book.seen == l.book.seen + {p.nonce})
  {
    var c := ChargeOf(l, p, amount, now);
    ChargesAppend(l.book.charges, c);
    SealedNext(digest, l, clock, "CHARGE", p.payer, Some(p.payTo), ChargeMeta(c));
  }

  /** What the gate has established before it charges. */
  lemma {:induction false} ExaminedFacts(crypto: Crypto, keyring: map<string, string>, g: GateState, header: string,
                                         now: int)
    requires Examined(crypto, keyring, g, header, now).Ok?
    ensures var (c, p) := Examined(crypto, keyring, g, header, now).value;
      && p.payer in keyring && VerifyProof(crypto, header, keyring[p.payer], Some(c), now) == Ok(p)
      && p.nonce in g.pending && g.pending[p.nonce] == c && p.Answers(c) && p.payTo == g.payee
  {
    var (c, p) := Examined(crypto, keyring, g, header, now).value;
    var payer := Peek(crypto.python, header, "payer").value;
    PeekAgrees(crypto, header, keyring[payer], c, now);
    VerifySound(crypto, header, keyring[payer], c, now);
  }

  /** A proof accepted for the wallet's agent is one the wallet signed. */
  lemma {:induction false} WalletSignedIt(u: Setup, s: System, header: string, c: Challenge, now: int, p: PaymentProof)
      returns (i: nat)
    requires Unforged(u, s, header) && p.payer == s.wallet.agentId && p.payer in u.keyring
    requires VerifyProof(u.crypto, header, u.keyring[p.payer], Some(c), now) == Ok(p)
    ensures i < |s.signed| && s.signed[i].proof == p
  {
    VerifySound(u.crypto, header, u.keyring[p.payer], c, now);
    i :| 0 <= i < |s.signed| && s.signed[i].proof.Body() == ReadHeader(header).value.0;
    AcceptedBody(u.crypto, header, u.keyring[p.payer], c, now, s.signed[i].proof);
  }

  lemma {:induction false} OwedNext(charges: seq<Charge>, c: Charge, agent: string)
    ensures Owed(charges + [c], agent) == Owed(charges, agent) + if c.payer == agent then c.amount else 0
  {
    ChargesAppend(charges, c);
  }

  lemma {:induction false} WithinNext(charges: seq<Charge>, c: Charge, payer: string, maxPrice: int)
    requires WithinLimit(charges, payer, maxPrice) && c.amount > 0 && (c.payer == payer ==> c.amount <= maxPrice)
    ensures WithinLimit(charges + [c], payer, maxPrice)
  {
  }

  /** What the wallet counted when it signed a proof is what a charge for that proof takes. */
  lemma {:induction false} SignedAmount(w: WalletState, signed: seq<Signing>, i: nat, amount: int, currency: string)
    requires WalletSound(w, signed) && i < |signed| && Worth(signed[i].proof) == Ok(Price(amount, currency))
    ensures signed[i].amount == amount <= w.maxPrice
  {
    hide Worth;
  }

  lemma {:induction false} HonouredByCharge(w: WalletState, signed: seq<Signing>, seen: set<string>, n: string, i: nat)
    requires WalletSound(w, signed) && n !in seen
    requires i < |signed| ==> signed[i].proof.nonce == n
    ensures Honoured(signed, seen + {n}) >= Honoured(signed, seen) + if i < |signed| then signed[i].amount else 0
  {
    hide Worth;
    HonouredMore(signed, seen, n, i);
  }

  lemma {:induction false} ChargedDebt(digest: Digest, s: System, t: System, p: PaymentProof,
                                       r: Result<Charge, LedgerError>, i: nat)
    requires DebtBacked(s) && WalletSound(s.wallet, s.signed) && ChargeOutcome(digest, s.ledger, p, t.ledger, r)
    requires t.wallet == s.wallet && t.signed == s.signed
    requires p.payer == s.wallet.agentId ==> i < |s.signed| && s.signed[i].proof == p
    ensures DebtBacked(t)
  {
    if r.Ok? {
      hide Worth, LedgerSound, Honoured, Owed, WalletSound, WithinLimit;
      OwedNext(s.ledger.book.charges, r.value, s.wallet.agentId);
      if p.payer == s.wallet.agentId {
        SignedAmount(s.wallet, s.signed, i, r.value.amount, s.ledger.currency);
        HonouredByCharge(s.wallet, s.signed, s.ledger.book.seen, p.nonce, i);
      } else {
        HonouredByCharge(s.wallet, s.signed, s.ledger.book.seen, p.nonce, |s.signed|);
      }
      WithinNext(s.ledger.book.charges, r.value, s.wallet.agentId, s.wallet.maxPrice);
    }
  }

  /** The challenge is dropped, unless the ledger raised; it was the one charged for. */
  lemma {:induction false} ChargedIssue(digest: Digest, s: System, t: System, gate: string, c: Challenge,
                                        p: PaymentProof, r: Result<Charge, LedgerError>, kept: map<string, Challenge>)
    requires IssueSound(s) && ChargeOutcome(digest, s.ledger, p, t.ledger, r) && gate in s.gates
    requires p.nonce in s.gates[gate].pending && s.gates[gate].pending[p.nonce] == c && p.Answers(c)
    requires kept == s.gates[gate].pending - {c.nonce} || (r.Err? && kept == s.gates[gate].pending)
    requires t.gates == s.gates[gate := s.gates[gate].(pending := kept)] && t.issued == s.issued
    ensures IssueSound(t)
  {
    hide LedgerSound, ParseText, Quoted;
    assert Retained(s, gate);
    assert Worth(p) == c.Price();
    forall h | h in t.gates
      ensures Retained(t, h)
    {
      assert Retained(s, h);
      OtherGatesNonce(s, gate, h, c.nonce);
    }
    forall ch | ch in t.ledger.book.charges
      ensures Backed(ch, t.issued)
    {
      if ch in s.ledger.book.charges {
        assert Backed(ch, s.issued);
      }
    }
  }

  /** A nonce is retained by one gate only. */
  lemma {:induction false} OtherGatesNonce(s: System, gate: string, h: string, n: string)
    requires IssueSound(s) && gate in s.gates && h in s.gates && n in s.gates[gate].pending
    ensures n in s.gates[h].pending ==> h == gate
  {
    assert Retained(s, gate);
    assert Retained(s, h);
  }

  lemma {:induction false} SettlementKeepsInv(u: Setup, s: System, gate: string, c: Challenge, p: PaymentProof,
                                              now: int, clock: real, i: nat, t: System)
    requires Inv(u, s) && NonEmpty(u.digest) && clock != 0.0 && gate in s.gates && s.ledger.journal != []
    requires p.payer == s.wallet.agentId ==> i < |s.signed| && s.signed[i].proof == p
    requires p.nonce in s.gates[gate].pending && s.gates[gate].pending[p.nonce] == c && p.Answers(c)
    requires var (g, ledger, _) := AfterSettlement(u.digest, s.gates[gate], s.ledger, c, p, now, clock);
      t == s.(gates := s.gates[gate := g], ledger := ledger)
    ensures Inv(u, t)
  {
    hide AfterCharge, Worth, LedgerSound, DebtBacked, WalletSound, IssueSound, WithinCredit;
    var (l', r) := AfterCharge(u.digest, s.ledger, p, now, clock);
    ChargeEffects(u.digest, s.ledger, p, now, clock);
    StepKeepsCredit(u.digest, s.ledger, ChargeOp(p, now, clock));
    ChargedDebt(u.digest, s, t, p, r, i);
    ChargedIssue(u.digest, s, t, gate, c, p, r, t.gates[gate].pending);
  }

  lemma {:induction false} PresentKeepsInv(u: Setup, s: System, m: Move)
    requires Inv(u, s) && NonEmpty(u.digest) && m.Present? && Admissible(u, s, m)
    ensures Inv(u, Step(u, s, m))
  {
    hide Inv, Examined, AfterSettlement, AfterIssue, Unforged;
    InvJournal(u, s);
    if m.gate in s.gates && m.header != "" && Examined(u.crypto, u.keyring, s.gates[m.gate], m.header, m.now).Ok? {
      var (c, p) := Examined(u.crypto, u.keyring, s.gates[m.gate], m.header, m.now).value;
      ExaminedFacts(u.crypto, u.keyring, s.gates[m.gate], m.header, m.now);
      var i := 0;
      if p.payer == s.wallet.agentId {
        i := WalletSignedIt(u, s, m.header, c, m.now, p);
      }
      SettlementKeepsInv(u, s, m.gate, c, p, m.now, m.clock, i, Step(u, s, m));
    } else if m.gate in s.gates {
      assert s.gates[m.gate := s.gates[m.gate]] == s.gates;
      assert Step(u, s, m) == s;
    }
  }

  lemma {:induction false} BooksKeepInv(u: Setup, s: System, op: Op)
    requires Inv(u, s) && NonEmpty(u.digest) && !op.ChargeOp? && Admissible(u, s, Books(op))
    ensures Inv(u, Step(u, s, Books(op)))
  {
    BooksEffects(u.digest, s.ledger, op);
    StepKeepsCredit(u.digest, s.ledger, op);
    var t := Step(u, s, Books(op));
    forall gate | gate in t.gates
      ensures Retained(t, gate)
    {
      assert Retained(s, gate);
    }
  }

  /** Opening accounts, settling and restarting leave charges and nonces as they are. */
  lemma {:induction false} BooksEffects(digest: Digest, l: State, op: Op)
    requires LedgerSound(digest, l) && NonEmpty(digest) && !op.ChargeOp? && op.now != 0.0
    ensures var l' := LedgerLaws.Step(digest, l, op);
      LedgerSound(digest, l') && l'.book.charges == l.book.charges && l'.book.seen == l.book.seen
  {
    hide ParsePrice, DistinctNonces, Nonces;
    StepEvolves(digest, l, op);
    if op.RestartOp? {
      ExportThenImport(digest, l, op.now);
    }
  }

  lemma {:induction false} RestartGateKeepsInv(u: Setup, s: System, gate: string)
    requires Inv(u, s)
    ensures Inv(u, Step(u, s, RestartGate(gate)))
  {
    hide AfterAuthorize, AfterAdmit, LedgerLaws.Step, Genuine, Honoured, Owed, Worth, Nonces;
    InvJournal(u, s);
    if gate in s.gates {
      ForgottenSound(s, Step(u, s, RestartGate(gate)), gate, map[]);
    }
  }

  // ---------------------------------------------------------------- every run

  lemma {:induction false} StepKeepsInv(u: Setup, s: System, m: Move)
    requires Inv(u, s) && NonEmpty(u.digest) && Admissible(u, s, m)
    ensures Inv(u, Step(u, s, m))
  {
    match m
    case Pay(c, now, signedAt) => PayKeepsInv(u, s, c, now, signedAt);
    case Ask(_, _, _, _, _, _) => AskKeepsInv(u, s, m);
    case Present(_, _, _, _, _, _) => PresentKeepsInv(u, s, m);
    case Books(op) =>
      if !op.ChargeOp? {
        BooksKeepInv(u, s, op);
      }
    case RestartGate(gate) => RestartGateKeepsInv(u, s, gate);
  }

  /** A fresh register, gates with nothing pending, and a wallet that has spent nothing. */
  ghost predicate Start(u: Setup, s: System) {
    && (exists currency, now :: now != 0.0 && s.ledger == Initial(u.digest, currency, now))
    && (forall g :: g in s.gates ==> s.gates[g].pending == map[])
    && s.wallet.spent == 0 && s.issued == map[] && s.signed == []
  }

  lemma {:induction false} StartInv(u: Setup, s: System)
    requires Start(u, s) && NonEmpty(u.digest)
    ensures Inv(u, s)
  {
    forall gate | gate in s.gates
      ensures Retained(s, gate)
    {
    }
  }

  lemma {:induction false} RunFromInv(u: Setup, s: System, moves: seq<Move>)
    requires Inv(u, s) && NonEmpty(u.digest) && AdmissibleRun(u, s, moves)
    ensures Inv(u, Run(u, s, moves))
    ensures Run(u, s, moves).wallet.(spent := 0) == s.wallet.(spent := 0)
    decreases |moves|
  {
    if moves != [] {
      StepKeepsInv(u, s, moves[0]);
      StepKeepsLimits(u, s, moves[0]);
      RunFromInv(u, Step(u, s, moves[0]), moves[1..]);
    }
  }

  lemma {:induction false} StepKeepsLimits(u: Setup, s: System, m: Move)
    requires s.ledger.journal != []
    ensures Step(u, s, m).wallet.(spent := 0) == s.wallet.(spent := 0)
  {
    if m.Pay? {
      AuthorizeBounded(u.crypto, s.wallet, m.challenge, m.now, m.signedAt);
    }
  }

  lemma {:induction false} StatementOwesLess(charges: seq<Charge>, agent: string, since: Option<int>,
                                             until: Option<int>)
    requires forall c :: c in charges ==> c.amount > 0
    ensures Owed(Statement(charges, agent, since, until), agent) <= Owed(charges, agent)
    ensures 0 <= Owed(Statement(charges, agent, since, until), agent)
    ensures since == None && until == None ==>
      Owed(Statement(charges, agent, since, until), agent) == Owed(charges, agent)
  {
    if charges != [] {
      var init, last := charges[..|charges| - 1], charges[|charges| - 1];
      StatementOwesLess(init, agent, since, until);
      var rest := Statement(init, agent, since, until);
      assert last in charges;
      if InStatement(last, agent, since, until) {
        assert (rest + [last])[..|rest|] == rest;
      }
    }
  }

  /**
    End to end: whatever challenges the wallet is shown and whatever headers reach the gates, the register
    can state what the agent owes over any period, that is at most what its wallet counted as spent, the
    total is within the budget, and no single charge exceeds the limit per request.
  */
  lemma {:induction false} BudgetHolds(u: Setup, s: System, moves: seq<Move>, since: Option<int>, until: Option<int>)
    requires Start(u, s) && NonEmpty(u.digest) && AdmissibleRun(u, s, moves)
    ensures var t := Run(u, s, moves);
      var owed := TotalOwed(t.ledger, t.wallet.agentId, since, until);
      && owed.Ok? && owed.value.amount <= t.wallet.spent
      && (s.wallet.budget.Some? && s.wallet.budget.value >= 0 ==> t.wallet.spent <= s.wallet.budget.value)
      && (forall c :: c in t.ledger.book.charges && c.payer == s.wallet.agentId ==> c.amount <= s.wallet.maxPrice)
  {
    hide Worth, Step, IssueSound, LedgerSound, Statement, Owed, Honoured, AdmissibleRun, Run, Signed, WithinCredit;
    StartInv(u, s);
    RunFromInv(u, s, moves);
    var t := Run(u, s, moves);
    HonouredAtMostSigned(t.signed, t.ledger.book.seen);
    StatementOwesLess(t.ledger.book.charges, t.wallet.agentId, since, until);
  }

  /** Over every run, no account of the register owes more than its credit limit. */
  lemma {:induction false} CreditHolds(u: Setup, s: System, moves: seq<Move>)
    requires Start(u, s) && NonEmpty(u.digest) && AdmissibleRun(u, s, moves)
    ensures WithinCredit(Run(u, s, moves).ledger.book.accounts)
  {
    hide Run, AdmissibleRun, Start, LedgerSound, WalletSound, DebtBacked, IssueSound, WithinCredit;
    StartInv(u, s);
    RunFromInv(u, s, moves);
  }

  /**
    Each nonce settles at most once; each settlement carries the amount, currency, resource and payee of
    a challenge a gate issued under that nonce; and what is pending has never been settled.
  */
  lemma {:induction false} SettledAtMostOnce(u: Setup, s: System, moves: seq<Move>)
    requires Start(u, s) && NonEmpty(u.digest) && AdmissibleRun(u, s, moves)
    ensures var t := Run(u, s, moves);
      && DistinctNonces(t.ledger.book.charges)
      && (forall c :: c in t.ledger.book.charges ==> Backed(c, t.issued))
      && (forall g, n :: g in t.gates && n in t.gates[g].pending ==> n !in t.ledger.book.seen)
  {
    hide Worth, Step, WalletSound, DebtBacked, AdmissibleRun, Run;
    StartInv(u, s);
    RunFromInv(u, s, moves);
    var t := Run(u, s, moves);
    forall g, n | g in t.gates && n in t.gates[g].pending
      ensures n !in t.ledger.book.seen
    {
      assert Retained(t, g);
    }
  }
}
