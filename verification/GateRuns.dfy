/** What a gate retains over any requests: each challenge it issued, until it is paid for or has long expired. */
module GateRuns {
  import opened Wrappers
  import opened Conversions
  import opened Crypto
  import opened Price
  import opened Proof
  import opened Audit
  import opened Ledgers
  import opened Wallets
  import opened Gates
  import opened GateLaws
  import opened Payments
  import opened Exchanges

  // ---------------------------------------------------------------- one request

  function AnswerOf(u: Setup, g: GateState, v: Visit): Outcome
    requires v.ledger.journal != []
  {
    AfterAdmit(u.crypto, u.digest, u.keyring, g, v.ledger, v.resource, v.price, v.header, v.nonce, v.now, v.clock).2
  }

  function GateAfter(u: Setup, g: GateState, v: Visit): GateState
    requires v.ledger.journal != []
  {
    Visited(u.crypto, u.digest, u.keyring, g, v)
  }

  function GateOver(u: Setup, g: GateState, visits: seq<Visit>): GateState
    requires forall v :: v in visits ==> v.ledger.journal != []
  {
    Visits(u.crypto, u.digest, u.keyring, g, visits)
  }

  /** Challenges are kept under their own nonces. */
  ghost predicate Indexed(g: GateState) {
    forall n :: n in g.pending ==> g.pending[n].nonce == n
  }

  /** A header for this nonce reached the register, which took the charge or refused it. */
  predicate Spends(u: Setup, g: GateState, v: Visit, nonce: string)
    requires v.ledger.journal != []
  {
    && v.header != "" && Peek(u.crypto.python, v.header, "nonce") == Some(nonce)
    && var answer := AnswerOf(u, g, v);
    answer.Settled? || (answer.Rejected? && answer.refusal.Ledger?)
  }

  /** A new challenge is the one that was asked for, and is retained under its nonce. */
  lemma {:induction false} IssuedAsAsked(u: Setup, g: GateState, v: Visit)
    requires v.ledger.journal != [] && v.header == ""
    ensures AnswerOf(u, g, v).Required? <==> ParsePrice(v.price, "USD").Ok?
    ensures AnswerOf(u, g, v).Required? ==>
      var c, price := AnswerOf(u, g, v).challenge, ParsePrice(v.price, "USD").value;
      && c.resource == v.resource && c.payTo == g.payee && c.nonce == v.nonce && c.expiresAt == v.now + g.ttl
      && c.ledger == g.ledgerUrl && c.currency == price.currency && c.amount == DecimalStr(price.amount)
      && v.nonce in GateAfter(u, g, v).pending && GateAfter(u, g, v).pending[v.nonce] == c
  {
    hide ParsePrice, DecimalStr;
  }

  /** Of the challenges retained before, exactly those that expired more than a minute ago are forgotten. */
  lemma {:induction false} IssueForgets(u: Setup, g: GateState, v: Visit, n: string)
    requires v.ledger.journal != [] && v.header == "" && n != v.nonce
    ensures var g' := GateAfter(u, g, v);
      && (n in g'.pending <==> n in g.pending && v.now <= g.pending[n].expiresAt + 60_000)
      && (n in g'.pending ==> g'.pending[n] == g.pending[n])
      && g'.(pending := map[]) == g.(pending := map[])
  {
    hide ParsePrice, DecimalStr;
  }

  /** A header makes the gate forget the challenge it pays for, when it reached the register, and no other. */
  lemma {:induction false} HeaderForgets(u: Setup, g: GateState, v: Visit, n: string)
    requires v.ledger.journal != [] && v.header != "" && Indexed(g)
    ensures var g' := GateAfter(u, g, v);
      && (n in g'.pending <==> n in g.pending && !Spends(u, g, v, n))
      && (n in g'.pending ==> g'.pending[n] == g.pending[n])
      && g'.(pending := map[]) == g.(pending := map[])
  {
    hide Examined, AfterCharge, Escapes;
    var x := Examined(u.crypto, u.keyring, g, v.header, v.now);
    if x.Ok? {
      ExaminedNonce(u, g, v.header, v.now);
    } else {
      NeverFromLedger(u, g, v.header, v.now);
    }
  }

  lemma {:induction false} ExaminedNonce(u: Setup, g: GateState, header: string, now: int)
    requires Examined(u.crypto, u.keyring, g, header, now).Ok?
    ensures var nonce := Peek(u.crypto.python, header, "nonce");
      nonce.Some? && nonce.value in g.pending
      && g.pending[nonce.value] == Examined(u.crypto, u.keyring, g, header, now).value.0
  {
    hide VerifyProof, Peek, KeyFor;
  }

  lemma {:induction false} NeverFromLedger(u: Setup, g: GateState, header: string, now: int)
    requires Examined(u.crypto, u.keyring, g, header, now).Err?
    ensures !Examined(u.crypto, u.keyring, g, header, now).error.Ledger?
  {
    hide VerifyProof, Peek;
  }

  lemma {:induction false} VisitIndexed(u: Setup, g: GateState, v: Visit)
    requires v.ledger.journal != [] && Indexed(g)
    ensures Indexed(GateAfter(u, g, v)) && GateAfter(u, g, v).(pending := map[]) == g.(pending := map[])
  {
    hide Spends, Visited, AnswerOf, ParsePrice;
    var g' := GateAfter(u, g, v);
    forall n | n in g'.pending
      ensures g'.pending[n].nonce == n
    {
      if v.header != "" {
        HeaderForgets(u, g, v, n);
      } else if n != v.nonce {
        IssueForgets(u, g, v, n);
      } else {
        IssuedAsAsked(u, g, v);
        ReissuedIndexed(u, g, v);
      }
    }
    SameGate(u, g, v);
  }

  lemma {:induction false} ReissuedIndexed(u: Setup, g: GateState, v: Visit)
    requires v.ledger.journal != [] && v.header == "" && Indexed(g) && v.nonce in GateAfter(u, g, v).pending
    ensures GateAfter(u, g, v).pending[v.nonce].nonce == v.nonce
  {
    hide ParsePrice, DecimalStr;
  }

  lemma {:induction false} SameGate(u: Setup, g: GateState, v: Visit)
    requires v.ledger.journal != []
    ensures GateAfter(u, g, v).(pending := map[]) == g.(pending := map[])
  {
    hide Examined, AfterCharge, ParsePrice;
  }

  // ---------------------------------------------------------------- any requests

  /** This request makes the gate forget a challenge: by coming a minute after its expiry, or by paying for it. */
  predicate Drops(u: Setup, g: GateState, v: Visit, c: Challenge)
    requires v.ledger.journal != []
  {
    if v.header == "" then v.now > c.expiresAt + 60_000 else Spends(u, g, v, c.nonce)
  }

  lemma {:induction false} ReachedIndexed(u: Setup, g: GateState, visits: seq<Visit>)
    requires Indexed(g) && forall v :: v in visits ==> v.ledger.journal != []
    ensures Indexed(GateOver(u, g, visits)) && GateOver(u, g, visits).(pending := map[]) == g.(pending := map[])
  {
    hide Visited, Indexed;
    if visits != [] {
      var init, v := visits[..|visits| - 1], visits[|visits| - 1];
      ReachedIndexed(u, g, init);
      VisitIndexed(u, GateOver(u, g, init), v);
    }
  }

  lemma {:induction false} DropStep(u: Setup, g: GateState, v: Visit, c: Challenge)
    requires v.ledger.journal != [] && Indexed(g) && (v.header == "" ==> v.nonce != c.nonce)
    requires c.nonce in g.pending ==> g.pending[c.nonce] == c
    ensures var g' := GateAfter(u, g, v);
      && (c.nonce in g'.pending <==> c.nonce in g.pending && !Drops(u, g, v, c))
      && (c.nonce in g'.pending ==> g'.pending[c.nonce] == c)
  {
    hide Spends, Visited;
    if v.header == "" {
      IssueForgets(u, g, v, c.nonce);
    } else {
      HeaderForgets(u, g, v, c.nonce);
    }
  }

  ghost predicate NoneDrops(u: Setup, g: GateState, c: Challenge, after: seq<Visit>)
    requires forall v :: v in after ==> v.ledger.journal != []
  {
    forall i :: 0 <= i < |after| ==> !Drops(u, GateOver(u, g, after[..i]), after[i], c)
  }

  lemma {:induction false} NoneDropsNext(u: Setup, g: GateState, c: Challenge, init: seq<Visit>, v: Visit)
    requires forall x :: x in init + [v] ==> x.ledger.journal != []
    ensures NoneDrops(u, g, c, init + [v]) <==> NoneDrops(u, g, c, init) && !Drops(u, GateOver(u, g, init), v, c)
    ensures GateOver(u, g, init + [v]) == GateAfter(u, GateOver(u, g, init), v)
  {
    hide Drops, Visited;
    var after := init + [v];
    assert after[..|init|] == init && after[|init|] == v;
    assert forall i :: 0 <= i < |init| ==> init[..i] == after[..i] && init[i] == after[i];
  }

  /** From a gate that retains a challenge on: it still does, if and only if no request since made it forget it. */
  lemma {:induction false} RetainedIff(u: Setup, g: GateState, c: Challenge, after: seq<Visit>)
    requires Indexed(g) && c.nonce in g.pending && g.pending[c.nonce] == c
    requires forall v :: v in after ==> v.ledger.journal != [] && (v.header == "" ==> v.nonce != c.nonce)
    ensures var g' := GateOver(u, g, after);
      && (c.nonce in g'.pending <==> NoneDrops(u, g, c, after))
      && (c.nonce in g'.pending ==> g'.pending[c.nonce] == c)
  {
    hide Visited, Drops, Indexed, NoneDrops, GateOver, GateAfter;
    if after == [] {
      NothingDrops(u, g, c);
    } else {
      var init, v := after[..|after| - 1], after[|after| - 1];
      assert after == init + [v];
      RetainedIff(u, g, c, init);
      ReachedIndexed(u, g, init);
      NoneDropsNext(u, g, c, init, v);
      DropStep(u, GateOver(u, g, init), v, c);
    }
  }

  lemma NothingDrops(u: Setup, g: GateState, c: Challenge)
    ensures NoneDrops(u, g, c, []) && GateOver(u, g, []) == g
  {
  }

  /**
    Whatever requests a gate has served, a challenge it answers with is for the resource asked, to its own
    payee, under the given nonce and for its time to live; and whatever requests follow, it stays pending if
    and only if no later request for a challenge comes more than a minute after its expiry and no header for
    its nonce reaches the register.
  */
  lemma {:induction false} ChallengeStaysPending(u: Setup, start: GateState, before: seq<Visit>, ask: Visit,
                                                 after: seq<Visit>)
    requires start.pending == map[] && ask.header == "" && ask.ledger.journal != []
    requires (forall v :: v in before ==> v.ledger.journal != []) && (forall v :: v in after ==> v.ledger.journal != [])
    requires forall v :: v in after && v.header == "" ==> v.nonce != ask.nonce
    requires AnswerOf(u, GateOver(u, start, before), ask).Required?
    ensures var g := GateOver(u, start, before);
      var c, issued := AnswerOf(u, g, ask).challenge, GateAfter(u, g, ask);
      && c.resource == ask.resource && c.payTo == start.payee && c.nonce == ask.nonce
      && c.expiresAt == ask.now + start.ttl
      && (c.nonce in GateOver(u, issued, after).pending <==>
            forall i :: 0 <= i < |after| ==>
              var v, seen := after[i], GateOver(u, issued, after[..i]);
              if v.header == "" then v.now <= c.expiresAt + 60_000 else !Spends(u, seen, v, c.nonce))
      && (c.nonce in GateOver(u, issued, after).pending ==> GateOver(u, issued, after).pending[c.nonce] == c)
  {
    hide AnswerOf, GateAfter, GateOver, Spends;
    ReachedIndexed(u, start, before);
    var g := GateOver(u, start, before);
    IssuedAsAsked(u, g, ask);
    VisitIndexed(u, g, ask);
    var c, issued := AnswerOf(u, g, ask).challenge, GateAfter(u, g, ask);
    RetainedIff(u, issued, c, after);
    forall i | 0 <= i < |after|
      ensures var v, seen := after[i], GateOver(u, issued, after[..i]);
        !Drops(u, seen, v, c) <==>
          if v.header == "" then v.now <= c.expiresAt + 60_000 else !Spends(u, seen, v, c.nonce)
    {
    }
  }

  // ---------------------------------------------------------------- from asking to settling

  /** Asked for at this price, which the register and the wallet read in their currency. */
  predicate AskedAt(ask: Visit, amount: int, code: string) {
    && ask.header == "" && ParsePrice(ask.price, "USD") == Ok(Price(amount, code))
    && IsCode(code) && Upper(code) == code && 100 <= amount < PRECISION_LIMIT
  }

  /** The wallet has its key known, and this amount to spend in this currency. */
  ghost predicate CanPay(u: Setup, w: WalletState, amount: int, code: string) {
    && u.crypto.Correct() && w.agentId in u.keyring && u.keyring[w.agentId] == u.crypto.publicPem(w.secret)
    && w.currency == code && amount <= w.maxPrice && 0 <= w.spent && w.spent + amount < PRECISION_LIMIT
    && (w.budget.Some? ==> w.spent + amount <= w.budget.value)
  }

  /** The register knows both parties, has not seen the nonce, and can hold the sums of this charge. */
  predicate CanCharge(l: State, payer: string, payee: string, nonce: string, amount: int, code: string) {
    && l.currency == code && nonce !in l.book.seen
    && payer in l.book.accounts && payee in l.book.accounts
    && var a := l.book.accounts[payer];
    && amount <= a.balance + a.limit < PRECISION_LIMIT && -PRECISION_LIMIT < a.balance - amount
    && a.balance - amount < PRECISION_LIMIT
    && -PRECISION_LIMIT < l.book.accounts[payee].balance + amount < PRECISION_LIMIT
  }

  lemma {:induction false} AskedPrice(u: Setup, g: GateState, ask: Visit, amount: int, code: string)
    requires ask.ledger.journal != [] && AskedAt(ask, amount, code)
    ensures AnswerOf(u, g, ask).Required? && AnswerOf(u, g, ask).challenge.Price() == Ok(Price(amount, code))
  {
    hide AnswerOf, DecimalStr, ParseText, ParsePrice, Quoted, IsCode, Upper;
    IssuedAsAsked(u, g, ask);
    QuotedPriceReadBack(amount, code);
  }

  lemma AskedHeader(ask: Visit, amount: int, code: string)
    requires AskedAt(ask, amount, code)
    ensures ask.header == ""
  {
  }

  lemma {:induction false} NeverSpent(u: Setup, g: GateState, others: seq<Visit>, nonce: string)
    requires forall v :: v in others ==> v.ledger.journal != []
    requires forall v :: v in others && v.header != "" ==> Peek(u.crypto.python, v.header, "nonce") != Some(nonce)
    ensures forall i :: 0 <= i < |others| && others[i].header != "" ==>
      !Spends(u, GateOver(u, g, others[..i]), others[i], nonce)
  {
    hide AnswerOf, Peek, GateOver;
  }

  /** The wallet signs what the client read. */
  lemma {:induction false} SignsSeen(u: Setup, w: WalletState, c: Challenge, reason: string, seenAt: int, ttl: int,
                                     signedAt: int, amount: int, code: string)
    requires CanPay(u, w, amount, code) && amount > 0 && c.Price() == Ok(Price(amount, code)) && seenAt <= c.expiresAt
    ensures Seen(u.crypto.python, c, reason, seenAt, ttl).Ok?
    ensures var (w', header) :=
        AfterAuthorize(u.crypto, w, Seen(u.crypto.python, c, reason, seenAt, ttl).value, seenAt, signedAt);
      header.Ok? && w' == w.(spent := w.spent + amount)
  {
    hide AfterAuthorize, Seen, ParseText, SignProof, Challenge.Price;
    SeenSigns(u.crypto, c, reason, seenAt, ttl, w.agentId, w.secret, signedAt);
    var seen := Seen(u.crypto.python, c, reason, seenAt, ttl).value;
    SeenExpiry(u.crypto.python, c, reason, seenAt, ttl);
    PriceText(seen);
    PriceText(c);
    AuthorizeIff(u.crypto, w, seen, seenAt, signedAt);
  }

  lemma PriceText(c: Challenge)
    ensures c.Price() == ParseText(c.amount + (" " + c.currency), "USD")
  {
  }

  lemma {:induction false} SeenExpiry(python: Python, c: Challenge, reason: string, now: int, ttl: int)
    ensures Seen(python, c, reason, now, ttl).Ok? && Seen(python, c, reason, now, ttl).value.expiresAt == c.expiresAt
  {
    hide ChallengeFromDict, RequiredBody;
    ChallengeReadBack(python, c, reason, now, ttl);
  }

  lemma {:induction false} HonestHere(u: Setup, s: System, gate: string, c: Challenge, reason: string, seenAt: int,
                                      ttl: int, signedAt: int, now: int, amount: int, code: string)
    requires CanPay(u, s.wallet, amount, code) && gate in s.gates && !c.Expired(now)
    requires c.nonce in s.gates[gate].pending && s.gates[gate].pending[c.nonce] == c && c.payTo == s.gates[gate].payee
    requires Seen(u.crypto.python, c, reason, seenAt, ttl).Ok?
    requires AfterAuthorize(u.crypto, s.wallet, Seen(u.crypto.python, c, reason, seenAt, ttl).value, seenAt,
                            signedAt).1.Ok?
    ensures Honest(u, s, gate, c, reason, seenAt, ttl, signedAt, now)
  {
    hide AfterAuthorize, Seen;
  }

  lemma {:induction false} FundableHere(l: State, c: Challenge, payer: string, amount: int, code: string)
    requires CanCharge(l, payer, c.payTo, c.nonce, amount, code) && amount > 0 && c.Price() == Ok(Price(amount, code))
    ensures Fundable(l, c, payer, amount) && l.currency == code
  {
    hide ParseText;
  }

  /** A challenge that nobody else pays for is pending when its client comes back in time. */
  lemma {:induction false} StillPending(u: Setup, start: GateState, before: seq<Visit>, ask: Visit, others: seq<Visit>,
                                        amount: int, code: string)
    requires start.pending == map[] && ask.ledger.journal != [] && AskedAt(ask, amount, code)
    requires (forall v :: v in before ==> v.ledger.journal != [])
      && (forall v :: v in others ==> v.ledger.journal != [])
    requires forall v :: v in others ==>
      if v.header == "" then v.nonce != ask.nonce && v.now <= ask.now + start.ttl + 60_000
      else Peek(u.crypto.python, v.header, "nonce") != Some(ask.nonce)
    ensures var g := GateOver(u, start, before);
      && AnswerOf(u, g, ask).Required?
      && var c, served := AnswerOf(u, g, ask).challenge, GateOver(u, GateAfter(u, g, ask), others);
      && c.nonce in served.pending && served.pending[c.nonce] == c && served.payee == start.payee
      && c.payTo == start.payee && c.nonce == ask.nonce && c.resource == ask.resource
      && c.expiresAt == ask.now + start.ttl && c.Price() == Ok(Price(amount, code))
  {
    hide AnswerOf, GateAfter, GateOver, Spends, AskedAt, Peek, Challenge.Price, Indexed;
    var g := GateOver(u, start, before);
    AskedPrice(u, g, ask, amount, code);
    AskedHeader(ask, amount, code);
    ChallengeStaysPending(u, start, before, ask, others);
    NeverSpent(u, GateAfter(u, g, ask), others, ask.nonce);
    EmptyIndexed(start);
    ReachedIndexed(u, start, before);
    VisitIndexed(u, g, ask);
    ReachedIndexed(u, GateAfter(u, g, ask), others);
    SamePayee(start, g);
    SamePayee(g, GateAfter(u, g, ask));
    SamePayee(GateAfter(u, g, ask), GateOver(u, GateAfter(u, g, ask), others));
    assert forall i :: 0 <= i < |others| ==> others[i] in others;
  }

  lemma EmptyIndexed(g: GateState)
    requires g.pending == map[]
    ensures Indexed(g)
  {
  }

  lemma SamePayee(g: GateState, h: GateState)
    requires h.(pending := map[]) == g.(pending := map[])
    ensures h.payee == g.payee && h.ttl == g.ttl
  {
  }

  /**
    End to end: a client asks a gate for a resource; any other clients ask and pay in between; the client
    signs what it read from the answer and presents it before it expires. The charge then settles: for the
    resource and the price asked for, from the client to the gate's payee, as its wallet has counted.
  */
  lemma {:induction false} AskPaySettle(u: Setup, start: GateState, before: seq<Visit>, ask: Visit, others: seq<Visit>,
                                        w: WalletState, reason: string, seenAt: int, ttl: int, signedAt: int,
                                        ledger: State, now: int, clock: real, amount: int, code: string)
    requires start.pending == map[] && ask.ledger.journal != []
    requires (forall v :: v in before ==> v.ledger.journal != [])
      && (forall v :: v in others ==> v.ledger.journal != [])
    requires AskedAt(ask, amount, code) && CanPay(u, w, amount, code)
    requires ledger.journal != [] && CanCharge(ledger, w.agentId, start.payee, ask.nonce, amount, code)
    requires forall v :: v in others ==>
      if v.header == "" then v.nonce != ask.nonce && v.now <= ask.now + start.ttl + 60_000
      else Peek(u.crypto.python, v.header, "nonce") != Some(ask.nonce)
    requires seenAt <= ask.now + start.ttl && now <= ask.now + start.ttl
    ensures var g := GateOver(u, start, before);
      && AnswerOf(u, g, ask).Required?
      && var c, served := AnswerOf(u, g, ask).challenge, GateOver(u, GateAfter(u, g, ask), others);
      && Seen(u.crypto.python, c, reason, seenAt, ttl).Ok?
      && var (w', header) :=
           AfterAuthorize(u.crypto, w, Seen(u.crypto.python, c, reason, seenAt, ttl).value, seenAt, signedAt);
      && header.Ok? && w' == w.(spent := w.spent + amount)
      && var (g', l', answer) :=
           AfterAdmit(u.crypto, u.digest, u.keyring, served, ledger, ask.resource, ask.price, header.value, "", now,
                      clock);
      && answer == Settled(ProofFor(c, w.agentId, signedAt),
                           Charged(w.agentId, start.payee, amount, code, ask.resource, ask.nonce, now))
      && g'.pending == served.pending - {ask.nonce} && ask.nonce in l'.book.seen
  {
    hide AnswerOf, GateAfter, GateOver, AskedAt, AfterAdmit, Challenge.Price, Seen, AfterAuthorize, Honest, CanPay,
        CanCharge, Peek, Fundable;
    StillPending(u, start, before, ask, others, amount, code);
    var g := GateOver(u, start, before);
    var c, served := AnswerOf(u, g, ask).challenge, GateOver(u, GateAfter(u, g, ask), others);
    AskedPositive(ask, amount, code);
    SignsSeen(u, w, c, reason, seenAt, ttl, signedAt, amount, code);
    var s := System(ledger, map["gate" := served], w, map[], []);
    HonestHere(u, s, "gate", c, reason, seenAt, ttl, signedAt, now, amount, code);
    FundableHere(ledger, c, w.agentId, amount, code);
    HonestExchangeSettles(u, s, "gate", c, reason, seenAt, ttl, signedAt, ask.resource, ask.price, now, clock, amount);
  }

  lemma AskedPositive(ask: Visit, amount: int, code: string)
    requires AskedAt(ask, amount, code)
    ensures amount > 0
  {
  }
}
