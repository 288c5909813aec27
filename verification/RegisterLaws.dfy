/**
  When each operation of the register succeeds and what it then does, and what whole runs add up to, from
  the operations alone.
*/
module RegisterLaws {
  import opened Wrappers
  import opened Json
  import opened Price
  import opened Proof
  import opened Audit
  import opened Sums
  import opened Ledgers
  import opened LedgerLaws

  predicate Fits(n: int) {
    -PRECISION_LIMIT < n < PRECISION_LIMIT
  }

  /** The journal grew by one entry, which says this, with these parties and at this time. */
  ghost predicate Records(before: seq<Entry>, after: seq<Entry>, event: Event, sender: string, target: Option<string>,
                          now: real)
  {
    && |after| == |before| + 1 && after[..|before|] == before
    && var body := after[|before|].body;
    && EventOf(body) == event && body.sender == sender && body.target == target && body.timestamp == now
    && body.index == |before|
  }

  // ---------------------------------------------------------------- opening an account

  /**
    An account that exists is returned and nothing changes. Otherwise one is opened if and only if its limit
    can be read in the register's currency: with that limit and no balance, and an entry that says so.
  */
  lemma {:induction false} OpenIff(digest: Digest, s: State, agent: string, limit: PriceArg, now: real)
    requires s.journal != []
    ensures var (t, r) := AfterOpen(digest, s, agent, limit, now);
      var price := ParsePrice(limit, s.currency);
      && (agent in s.book.accounts ==> t == s && r == Ok(s.book.accounts[agent]))
      && (agent !in s.book.accounts ==>
            && (r.Ok? <==> price.Ok? && price.value.currency == s.currency)
            && (r.Err? ==> t == s)
            && (r.Ok? ==>
                  && r.value == Account(price.value.amount, 0) && t.currency == s.currency
                  && t.book == s.book.(accounts := s.book.accounts[agent := r.value])
                  && Records(s.journal, t.journal, Opening(agent, price.value.amount), agent, None, now)))
  {
    hide ParsePrice, DecimalStr, ParseDecimal, OpenedMeta;
    var price := ParsePrice(limit, s.currency);
    if agent !in s.book.accounts && price.Ok? {
      var m := OpenedMeta(price.value.amount, s.currency);
      SealedEvents(NewEntry(digest, s.journal, now, "ACCOUNT_OPENED", agent, None, m).body, s.currency);
    }
  }

  // ---------------------------------------------------------------- settling

  lemma BalanceReadBack(amount: int, currency: string, balance: int)
    ensures NumberAt(SettlementMeta(amount, currency, balance), "balance") == Some(balance)
  {
    var f := SettlementMeta(amount, currency, balance).fields;
    assert |f[0].key| == 6 && |f[1].key| == 8 && |f[2].key| == 7;
    GetUnique(f, f[2]);
    ParseDecimalStr(balance);
  }

  /**
    A settlement succeeds if and only if its amount can be read in the register's currency, is positive, the
    account exists and its new balance fits the decimal context. Then that balance grows by the amount, an
    entry says so, and nothing else changes; otherwise nothing changes at all.
  */
  lemma {:induction false} SettleIff(digest: Digest, s: State, agent: string, amount: PriceArg, now: real)
    requires s.journal != []
    ensures var (t, r) := AfterSettle(digest, s, agent, amount, now);
      var price := ParsePrice(amount, s.currency);
      && (r.Ok? <==>
            && price.Ok? && price.value.currency == s.currency && price.value.amount > 0
            && agent in s.book.accounts && Fits(s.book.accounts[agent].balance + price.value.amount))
      && (r.Err? ==> t == s)
      && (r.Ok? ==>
            && var a := s.book.accounts[agent];
            && r.value == Account(a.limit, a.balance + price.value.amount) && t.currency == s.currency
            && t.book == s.book.(accounts := s.book.accounts[agent := r.value])
            && Records(s.journal, t.journal, Settlement(agent, price.value.amount), agent, None, now)
            && NumberAt(t.journal[|s.journal|].body.metadata, "balance") == Some(r.value.balance))
  {
    hide ParsePrice, DecimalStr, ParseDecimal, SettlementMeta;
    var price := ParsePrice(amount, s.currency);
    if AfterSettle(digest, s, agent, amount, now).1.Ok? {
      var balance := s.book.accounts[agent].balance + price.value.amount;
      var m := SettlementMeta(price.value.amount, s.currency, balance);
      BalanceReadBack(price.value.amount, s.currency, balance);
      SealedEvents(NewEntry(digest, s.journal, now, "SETTLEMENT", agent, None, m).body, s.currency);
    }
  }

  // ---------------------------------------------------------------- charging

  /** What the proof asks for, when it can be read. */
  function Asked(p: PaymentProof): Result<Price, PriceError> {
    ParseText(p.amount + (" " + p.currency), "USD")
  }

  /** The payer is known, and the amount is within its balance and credit. */
  predicate Covered(s: State, p: PaymentProof, amount: int) {
    && p.payer in s.book.accounts && p.payTo in s.book.accounts
    && var a := s.book.accounts[p.payer];
    amount <= a.balance + a.limit && Fits(a.balance + a.limit) && Fits(a.balance - amount)
  }

  /** The balance of the payee is the one before the payer was debited, even when they are the same. */
  predicate Paid(before: map<string, Account>, after: map<string, Account>, payer: string, payee: string, amount: int) {
    && payer in before && payee in before && after.Keys == before.Keys
    && after[payee] == Account(before[payee].limit, before[payee].balance + amount)
    && (payer != payee ==> after[payer] == Account(before[payer].limit, before[payer].balance - amount))
    && forall a :: a in before && a != payer && a != payee ==> after[a] == before[a]
  }

  lemma {:induction false} ReceivableIff(s: State, p: PaymentProof)
    ensures Receivable(s, p).Ok? <==>
      && p.nonce !in s.book.seen && Asked(p).Ok? && Asked(p).value.currency == s.currency
      && Asked(p).value.amount > 0 && Covered(s, p, Asked(p).value.amount)
    ensures Receivable(s, p).Ok? ==> Asked(p) == Ok(Price(Receivable(s, p).value, s.currency))
  {
    hide ParseText;
  }

  lemma {:induction false} BookedIff(digest: Digest, s: State, p: PaymentProof, amount: int, at: int, now: real)
    requires s.journal != [] && p.payer in s.book.accounts && p.payTo in s.book.accounts
    ensures var (t, r) := Booked(digest, s, p, amount, at, now);
      && (r.Ok? <==> Fits(s.book.accounts[p.payTo].balance + amount))
      && (r.Ok? ==>
            && r.value == Charged(p.payer, p.payTo, amount, s.currency, p.resource, p.nonce, at)
            && t.currency == s.currency && t.book.charges == s.book.charges + [r.value]
            && t.book.seen == s.book.seen + {p.nonce}
            && Paid(s.book.accounts, t.book.accounts, p.payer, p.payTo, amount)
            && Records(s.journal, t.journal, Charging(r.value), p.payer, Some(p.payTo), now))
  {
    hide DecimalStr, ParseDecimal, ChargeMeta, EventOf;
    if Booked(digest, s, p, amount, at, now).1.Ok? {
      var c := Booked(digest, s, p, amount, at, now).1.value;
      SealedEvents(NewEntry(digest, s.journal, now, "CHARGE", p.payer, Some(p.payTo), ChargeMeta(c)).body, s.currency);
    }
  }

  /**
    A charge succeeds if and only if its nonce is new, its amount can be read in the register's currency and
    is positive, both accounts exist, the payer can cover it, and every new balance fits the decimal context.
    Then the amount goes from one to the other, the charge and its nonce are recorded, and an entry says so.
  */
  lemma {:induction false} ChargeIff(digest: Digest, s: State, p: PaymentProof, at: int, now: real)
    requires s.journal != []
    ensures var (t, r) := AfterCharge(digest, s, p, at, now);
      && (r.Ok? <==>
            && p.nonce !in s.book.seen && Asked(p).Ok? && Asked(p).value.currency == s.currency
            && Asked(p).value.amount > 0 && Covered(s, p, Asked(p).value.amount)
            && Fits(s.book.accounts[p.payTo].balance + Asked(p).value.amount))
      && (r.Ok? ==>
            && r.value == Charged(p.payer, p.payTo, Asked(p).value.amount, s.currency, p.resource, p.nonce, at)
            && t.currency == s.currency && t.book.charges == s.book.charges + [r.value]
            && t.book.seen == s.book.seen + {p.nonce}
            && Paid(s.book.accounts, t.book.accounts, p.payer, p.payTo, r.value.amount)
            && Records(s.journal, t.journal, Charging(r.value), p.payer, Some(p.payTo), now))
  {
    hide Asked, Receivable, Booked, Paid, Records, Fits;
    ReceivableIff(s, p);
    if Receivable(s, p).Ok? {
      BookedIff(digest, s, p, Receivable(s, p).value, at, now);
    }
  }

  // ---------------------------------------------------------------- statements

  /** The charge concerns the agent and falls into the period, its end excluded. */
  predicate Concerns(c: Charge, agent: string, since: Option<int>, until: Option<int>) {
    && (agent == c.payer || agent == c.payee)
    && (since.Some? ==> since.value <= c.at) && (until.Some? ==> c.at < until.value)
  }

  /**
    A statement holds each charge that concerns the agent in the period, as often as the register does, and
    no other.
  */
  lemma {:induction false} StatementHolds(charges: seq<Charge>, agent: string, since: Option<int>, until: Option<int>,
                                          c: Charge)
    ensures multiset(Statement(charges, agent, since, until))[c] ==
      if Concerns(c, agent, since, until) then multiset(charges)[c] else 0
  {
    if charges != [] {
      var init, last := charges[..|charges| - 1], charges[|charges| - 1];
      StatementHolds(init, agent, since, until, c);
      assert charges == init + [last];
    }
  }

  /** What an agent owes for a period, added up from the first charge on. */
  function Owing(charges: seq<Charge>, agent: string, since: Option<int>, until: Option<int>): int {
    if charges == [] then 0
    else
      var c := charges[0];
      (if c.payer == agent && (since.Some? ==> since.value <= c.at) && (until.Some? ==> c.at < until.value)
       then c.amount else 0) + Owing(charges[1..], agent, since, until)
  }

  lemma {:induction false} OwingNext(charges: seq<Charge>, c: Charge, agent: string, since: Option<int>,
                                     until: Option<int>)
    ensures Owing(charges + [c], agent, since, until) ==
      Owing(charges, agent, since, until) + Owing([c], agent, since, until)
  {
    if charges == [] {
      assert charges + [c] == [c];
    } else {
      OwingNext(charges[1..], c, agent, since, until);
      assert (charges + [c])[1..] == charges[1..] + [c];
    }
  }

  lemma {:induction false} StatementNext(charges: seq<Charge>, agent: string, since: Option<int>, until: Option<int>)
    requires charges != []
    ensures var init, last := charges[..|charges| - 1], charges[|charges| - 1];
      Statement(charges, agent, since, until) == Statement(init, agent, since, until)
        + if Concerns(last, agent, since, until) then [last] else []
  {
  }

  lemma {:induction false} OwedNext(charges: seq<Charge>, c: Charge, agent: string)
    ensures Owed(charges + [c], agent) == Owed(charges, agent) + if c.payer == agent then c.amount else 0
    ensures charges + [] == charges
  {
    assert (charges + [c])[..|charges|] == charges;
  }

  lemma {:induction false} OwingOne(c: Charge, agent: string, since: Option<int>, until: Option<int>)
    ensures Owing([c], agent, since, until) ==
      if c.payer == agent && Concerns(c, agent, since, until) then c.amount else 0
  {
  }

  lemma {:induction false} StatementOwes(charges: seq<Charge>, agent: string, since: Option<int>, until: Option<int>)
    ensures Owed(Statement(charges, agent, since, until), agent) == Owing(charges, agent, since, until)
  {
    hide Statement, Owed, Owing, Concerns;
    if charges == [] {
      NothingOwed(agent, since, until);
    } else {
      var init, last := charges[..|charges| - 1], charges[|charges| - 1];
      StatementOwes(init, agent, since, until);
      OwingNext(init, last, agent, since, until);
      assert charges == init + [last];
      StatementNext(charges, agent, since, until);
      OwingOne(last, agent, since, until);
      OwedNext(Statement(init, agent, since, until), last, agent);
    }
  }

  lemma NothingOwed(agent: string, since: Option<int>, until: Option<int>)
    ensures Owed(Statement([], agent, since, until), agent) == 0 == Owing([], agent, since, until)
  {
  }

  /** The total of a period is the sum of the charges the agent has to pay in it, or raises when that does not fit. */
  lemma {:induction false} TotalOwedIs(s: State, agent: string, since: Option<int>, until: Option<int>)
    ensures var sum := Owing(s.book.charges, agent, since, until);
      TotalOwed(s, agent, since, until) == if Fits(sum) then Ok(Price(sum, s.currency)) else Err(Overflow)
  {
    StatementOwes(s.book.charges, agent, since, until);
  }

  // ---------------------------------------------------------------- whole runs

  function BalanceIn(s: State, agent: string): int {
    if agent in s.book.accounts then s.book.accounts[agent].balance else 0
  }

  /** What an operation that is answered with success moves to an agent, read from the operation. */
  function Moved(digest: Digest, s: State, op: Op, agent: string): int
    requires s.journal != []
  {
    match op
    case SettleOp(who, amount, now) =>
      if who == agent && AfterSettle(digest, s, who, amount, now).1.Ok? && ParsePrice(amount, s.currency).Ok?
      then ParsePrice(amount, s.currency).value.amount else 0
    case ChargeOp(p, at, now) =>
      if AfterCharge(digest, s, p, at, now).1.Ok? && Asked(p).Ok? then
        var amount := Asked(p).value.amount;
        (if p.payTo == agent then amount else 0) - (if p.payer == agent then amount else 0)
      else 0
    case _ => 0
  }

  function MovedOver(digest: Digest, s: State, ops: seq<Op>, agent: string): int
    requires s.journal != []
    decreases |ops|
  {
    if ops == [] then 0
    else Moved(digest, s, ops[0], agent) + MovedOver(digest, Step(digest, s, ops[0]), ops[1..], agent)
  }

  /** What was settled with success, for any agent. */
  function SettledOver(digest: Digest, s: State, ops: seq<Op>): int
    requires s.journal != []
    decreases |ops|
  {
    if ops == [] then 0
    else
      var op := ops[0];
      (if op.SettleOp? then Moved(digest, s, op, op.agent) else 0) + SettledOver(digest, Step(digest, s, op), ops[1..])
  }

  lemma {:induction false} ChargeBalance(digest: Digest, s: State, p: PaymentProof, at: int, now: real, agent: string)
    requires s.journal != [] && p.payer != p.payTo && CreditFits(s, p)
    ensures BalanceIn(AfterCharge(digest, s, p, at, now).0, agent) ==
      BalanceIn(s, agent) + Moved(digest, s, ChargeOp(p, at, now), agent)
  {
    hide AfterCharge, ParseText, Records, Fits, Covered, CreditFits;
    ChargeIff(digest, s, p, at, now);
    if AfterCharge(digest, s, p, at, now).1.Err? {
      RefusedChargeIdle(digest, s, p, at, now);
    }
  }

  lemma {:induction false} SettleBalance(digest: Digest, s: State, who: string, amount: PriceArg, now: real,
                                         agent: string)
    requires s.journal != []
    ensures BalanceIn(AfterSettle(digest, s, who, amount, now).0, agent) ==
      BalanceIn(s, agent) + Moved(digest, s, SettleOp(who, amount, now), agent)
  {
    hide AfterSettle, ParsePrice, Records, Fits;
    SettleIff(digest, s, who, amount, now);
  }

  lemma {:induction false} OpenBalance(digest: Digest, s: State, who: string, limit: PriceArg, now: real, agent: string)
    requires s.journal != []
    ensures BalanceIn(AfterOpen(digest, s, who, limit, now).0, agent) == BalanceIn(s, agent)
  {
    hide AfterOpen, ParsePrice, Records;
    OpenIff(digest, s, who, limit, now);
  }

  lemma {:induction false} StepBalance(digest: Digest, s: State, op: Op, agent: string)
    requires Inv(digest, s) && Allowed(s, op)
    ensures BalanceIn(Step(digest, s, op), agent) == BalanceIn(s, agent) + Moved(digest, s, op, agent)
  {
    hide AfterOpen, AfterCharge, AfterSettle, ParsePrice, ParseText, CreditFits, BalanceIn, Agrees, ImportState,
        ExportState;
    match op
    case OpenOp(who, limit, now) => OpenBalance(digest, s, who, limit, now, agent);
    case SettleOp(who, amount, now) => SettleBalance(digest, s, who, amount, now, agent);
    case ChargeOp(p, at, now) => ChargeBalance(digest, s, p, at, now, agent);
    case RestartOp(now) =>
      InvSeen(digest, s);
      ExportThenImport(digest, s, now);
  }

  lemma {:induction false} InvSeen(digest: Digest, s: State)
    requires Inv(digest, s)
    ensures s.journal != [] && Genuine(digest, s.journal) && s.book.seen == Nonces(s.book.charges)
  {
  }

  /** A charge whose credit would fit leaves no trace when it is refused. */
  lemma {:induction false} RefusedChargeIdle(digest: Digest, s: State, p: PaymentProof, at: int, now: real)
    requires s.journal != [] && CreditFits(s, p) && AfterCharge(digest, s, p, at, now).1.Err?
    ensures AfterCharge(digest, s, p, at, now).0 == s
  {
    hide ParseText;
  }

  /** Over every run, each balance is what the successful operations moved to the agent. */
  lemma {:induction false} BalanceOverRun(digest: Digest, s: State, ops: seq<Op>, agent: string)
    requires Inv(digest, s) && NonEmpty(digest) && AllowedRun(digest, s, ops)
    ensures BalanceIn(Run(digest, s, ops), agent) == BalanceIn(s, agent) + MovedOver(digest, s, ops, agent)
    decreases |ops|
  {
    hide Step, Moved, Inv, BalanceIn, Allowed;
    if ops != [] {
      InvJournal(digest, s);
      StepBalance(digest, s, ops[0], agent);
      StepKeepsInv(digest, s, ops[0]);
      BalanceOverRun(digest, Step(digest, s, ops[0]), ops[1..], agent);
    }
  }

  lemma InvJournal(digest: Digest, s: State)
    requires Inv(digest, s)
    ensures s.journal != []
  {
  }

  lemma {:induction false} StepTotal(digest: Digest, s: State, op: Op)
    requires Inv(digest, s) && Allowed(s, op)
    ensures Total(Balances(Step(digest, s, op).book.accounts)) == Total(Balances(s.book.accounts))
      + if op.SettleOp? then Moved(digest, s, op, op.agent) as real else 0.0
  {
    hide AfterOpen, AfterCharge, AfterSettle, ParsePrice, ParseText, Records, Fits, Covered, Receivable, Total,
        Balances;
    match op
    case OpenOp(who, limit, now) =>
      OpenIff(digest, s, who, limit, now);
      BalancesUpdate(s.book.accounts, who, Account(0, 0));
      var t := AfterOpen(digest, s, who, limit, now).0;
      if t != s {
        BalancesUpdate(s.book.accounts, who, t.book.accounts[who]);
      }
    case SettleOp(who, amount, now) =>
      SettleIff(digest, s, who, amount, now);
      var (t, r) := AfterSettle(digest, s, who, amount, now);
      if r.Ok? {
        BalancesUpdate(s.book.accounts, who, r.value);
      }
    case ChargeOp(p, at, now) => ChargeTotal(digest, s, p, at, now);
    case RestartOp(now) => ExportThenImport(digest, s, now);
  }

  lemma {:induction false} ChargeTotal(digest: Digest, s: State, p: PaymentProof, at: int, now: real)
    requires s.journal != [] && p.payer != p.payTo && CreditFits(s, p)
    ensures Total(Balances(AfterCharge(digest, s, p, at, now).0.book.accounts)) == Total(Balances(s.book.accounts))
  {
    ChargeConservesIff(digest, s, p, at, now);
  }

  lemma {:induction false} TotalOverRun(digest: Digest, s: State, ops: seq<Op>)
    requires Inv(digest, s) && NonEmpty(digest) && AllowedRun(digest, s, ops)
    ensures Total(Balances(Run(digest, s, ops).book.accounts)) ==
      Total(Balances(s.book.accounts)) + SettledOver(digest, s, ops) as real
    decreases |ops|
  {
    hide Step, Moved, Inv, Allowed, Total, Balances;
    if ops != [] {
      InvJournal(digest, s);
      StepTotal(digest, s, ops[0]);
      StepKeepsInv(digest, s, ops[0]);
      TotalOverRun(digest, Step(digest, s, ops[0]), ops[1..]);
    }
  }

  /**
    A register that starts empty: after any operations, the balance of each agent is what the operations
    answered with success moved to it, and all balances add up to the settlements asked for and accepted.
  */
  lemma {:induction false} OperationsDecideBalances(digest: Digest, currency: string, now: real, ops: seq<Op>,
                                                    agent: string)
    requires NonEmpty(digest) && now != 0.0 && AllowedRun(digest, Initial(digest, currency, now), ops)
    ensures var s := Initial(digest, currency, now);
      var t := Run(digest, s, ops);
      && BalanceIn(t, agent) == MovedOver(digest, s, ops, agent)
      && Total(Balances(t.book.accounts)) == SettledOver(digest, s, ops) as real
  {
    hide Run, Inv, MovedOver, SettledOver, AllowedRun;
    InitialInv(digest, currency, now);
    BalanceOverRun(digest, Initial(digest, currency, now), ops, agent);
    TotalOverRun(digest, Initial(digest, currency, now), ops);
    EmptyTotal();
  }
}
