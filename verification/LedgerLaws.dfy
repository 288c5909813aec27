/**
  What every run of the register keeps: the sealed journal alone rebuilds the books, balances are
  what the charges and settlements say, money is conserved, and credit limits hold.
*/
module LedgerLaws {
  import opened Wrappers
  import opened Json
  import opened Price
  import opened Proof
  import opened Audit
  import opened Sums
  import opened Ledgers

  // ---------------------------------------------------------------- replaying the journal

  function TextAt(m: Json, key: string): Option<string> {
    if !m.Obj? then None
    else
      var v :- Get(m.fields, key);
      if v.Str? then Some(v.s) else None
  }

  function NumberAt(m: Json, key: string): Option<int> {
    var text :- TextAt(m, key);
    ParseDecimal(text)
  }

  function ChargeFromMeta(m: Json): Option<Charge> {
    var payer :- TextAt(m, "payer");
    var payee :- TextAt(m, "payee");
    var amount :- NumberAt(m, "amount");
    var currency :- TextAt(m, "currency");
    var resource :- TextAt(m, "resource");
    var nonce :- TextAt(m, "nonce");
    var at :- Get(m.fields, "at");
    if at.Int? then Some(Charged(payer, payee, amount, currency, resource, nonce, at.n)) else None
  }

  /** What a sealed entry says happened. */
  datatype Event =
    | Opening(agent: string, limit: int) | Charging(charge: Charge) | Settlement(agent: string, amount: int)
    | Unrelated | Corrupt

  function EventOf(e: Body): Event {
    if e.eventType == "ACCOUNT_OPENED" then
      var limit := NumberAt(e.metadata, "credit_limit");
      if limit.Some? then Opening(e.sender, limit.value) else Corrupt
    else if e.eventType == "CHARGE" then
      var c := ChargeFromMeta(e.metadata);
      if c.Some? then Charging(c.value) else Corrupt
    else if e.eventType == "SETTLEMENT" then
      var amount := NumberAt(e.metadata, "amount");
      if amount.Some? then Settlement(e.sender, amount.value) else Corrupt
    else Unrelated
  }

  function Events(journal: seq<Entry>): seq<Event> {
    if journal == [] then []
    else Events(journal[..|journal| - 1]) + [EventOf(journal[|journal| - 1].body)]
  }

  function Credit(accounts: map<string, Account>, agent: string, amount: int): map<string, Account>
    requires agent in accounts
  {
    accounts[agent := accounts[agent].(balance := accounts[agent].balance + amount)]
  }

  /** The books after one more event. */
  function ReplayEvent(b: Book, e: Event): Option<Book> {
    match e
    case Opening(agent, limit) => Some(b.(accounts := b.accounts[agent := Account(limit, 0)]))
    case Charging(c) =>
      if c.payer in b.accounts && c.payee in b.accounts then
        Some(Book(Credit(Credit(b.accounts, c.payer, -c.amount), c.payee, c.amount), b.charges + [c],
                  b.seen + {c.nonce}))
      else None
    case Settlement(agent, amount) =>
      if agent in b.accounts then Some(b.(accounts := Credit(b.accounts, agent, amount))) else None
    case Unrelated => Some(b)
    case Corrupt => None
  }

  function ReplayEvents(events: seq<Event>): Option<Book> {
    if events == [] then Some(EMPTY_BOOK)
    else
      var b :- ReplayEvents(events[..|events| - 1]);
      ReplayEvent(b, events[|events| - 1])
  }

  /** The books as the sealed journal alone tells them. */
  function Replay(journal: seq<Entry>): Option<Book> {
    ReplayEvents(Events(journal))
  }

  function SettledTo(events: seq<Event>, agent: string): int {
    if events == [] then 0
    else
      var e := events[|events| - 1];
      SettledTo(events[..|events| - 1], agent) + if e.Settlement? && e.agent == agent then e.amount else 0
  }

  /** All settlements recorded. */
  function Settled(events: seq<Event>): int {
    if events == [] then 0
    else
      var e := events[|events| - 1];
      Settled(events[..|events| - 1]) + if e.Settlement? then e.amount else 0
  }

  // ---------------------------------------------------------------- the invariant

  ghost function Balances(accounts: map<string, Account>): map<string, real> {
    map a | a in accounts :: accounts[a].balance as real
  }

  ghost predicate DistinctNonces(charges: seq<Charge>) {
    forall i, j :: 0 <= i < j < |charges| ==> charges[i].nonce != charges[j].nonce
  }

  /** What an agent has earned and settled, less what it owes. */
  function Position(charges: seq<Charge>, events: seq<Event>, agent: string): int {
    Earned(charges, agent) - Owed(charges, agent) + SettledTo(events, agent)
  }

  ghost predicate Reconciled(b: Book, events: seq<Event>) {
    forall a :: Position(b.charges, events, a) == if a in b.accounts then b.accounts[a].balance else 0
  }

  ghost predicate WithinCredit(accounts: map<string, Account>) {
    forall a :: a in accounts ==> accounts[a].limit >= 0 && accounts[a].balance >= -accounts[a].limit
  }

  /** The books agree with the events that led to them. */
  ghost predicate Agrees(b: Book, events: seq<Event>) {
    && ReplayEvents(events) == Some(b)
    && DistinctNonces(b.charges) && b.seen == Nonces(b.charges)
    && Reconciled(b, events)
    && Total(Balances(b.accounts)) == Settled(events) as real
    && WithinCredit(b.accounts)
  }

  ghost predicate Inv(digest: Digest, s: State) {
    Genuine(digest, s.journal) && Agrees(s.book, Events(s.journal))
  }

  // ---------------------------------------------------------------- runs

  datatype Op =
    | OpenOp(agent: string, limit: PriceArg, now: real)
    | ChargeOp(proof: PaymentProof, at: int, now: real)
    | SettleOp(agent: string, amount: PriceArg, now: real)
    | RestartOp(now: real)

  /** A restart keeps only what was exported. */
  function Step(digest: Digest, s: State, op: Op): (r: State)
    requires s.journal != []
    ensures r.journal != []
  {
    match op
    case OpenOp(agent, limit, now) => AfterOpen(digest, s, agent, limit, now).0
    case ChargeOp(p, at, now) => AfterCharge(digest, s, p, at, now).0
    case SettleOp(agent, amount, now) => AfterSettle(digest, s, agent, amount, now).0
    case RestartOp(now) =>
      var restored := ImportState(digest, ExportState(s), now);
      if restored.Some? && restored.value.journal != [] then restored.value else s
  }

  /** The payee's new balance fits the decimal context. */
  predicate CreditFits(s: State, p: PaymentProof) {
    var price := ParseText(Quoted(p.amount, p.currency), "USD");
    p.payTo in s.book.accounts && price.Ok? ==>
      Quantize(s.book.accounts[p.payTo].balance + price.value.amount).Ok?
  }

  /** Checks a caller can make beforehand; the clock is never exactly 0. */
  predicate Allowed(s: State, op: Op) {
    && op.now != 0.0
    && (op.OpenOp? && op.limit.Given? ==> op.limit.price.amount >= 0)
    && (op.ChargeOp? ==> op.proof.payer != op.proof.payTo && CreditFits(s, op.proof))
  }

  predicate AllowedRun(digest: Digest, s: State, ops: seq<Op>)
    requires s.journal != []
    decreases |ops|
  {
    ops == [] || (Allowed(s, ops[0]) && AllowedRun(digest, Step(digest, s, ops[0]), ops[1..]))
  }

  function Run(digest: Digest, s: State, ops: seq<Op>): State
    requires s.journal != []
    decreases |ops|
  {
    if ops == [] then s else Run(digest, Step(digest, s, ops[0]), ops[1..])
  }

  function Initial(digest: Digest, currency: string, now: real): State {
    State(currency, EMPTY_BOOK, [Genesis(digest, now)])
  }

  // ---------------------------------------------------------------- metadata is read back

  lemma OpenedMetaReadBack(limit: int, currency: string)
    ensures NumberAt(OpenedMeta(limit, currency), "credit_limit") == Some(limit)
  {
    ParseDecimalStr(limit);
  }

  lemma SettlementMetaReadBack(amount: int, currency: string, balance: int)
    ensures NumberAt(SettlementMeta(amount, currency, balance), "amount") == Some(amount)
  {
    ParseDecimalStr(amount);
  }

  lemma {:induction false} ChargeMetaKeys(c: Charge, f: seq<Field>)
    requires f == ChargeMeta(c).fields
    ensures Distinct(f)
  {
    assert |f[0].key| == 5 && |f[1].key| == 5 && |f[2].key| == 6 && |f[3].key| == 8;
    assert |f[4].key| == 8 && |f[5].key| == 5 && |f[6].key| == 2;
    assert f[0].key[4] == 'r' && f[1].key[4] == 'e' && f[0].key[0] == 'p' && f[1].key[0] == 'p';
    assert f[3].key[0] == 'c' && f[4].key[0] == 'r' && f[5].key[0] == 'n';
    forall i, j | 0 <= i < j < 7
      ensures f[i].key != f[j].key
    {
      if i == 0 && j == 1 {
        assert f[0].key[4] != f[1].key[4];
      } else {
        assert |f[i].key| != |f[j].key| || f[i].key[0] != f[j].key[0];
      }
    }
  }

  lemma {:induction false} ChargeMetaFields(c: Charge, f: seq<Field>)
    requires f == ChargeMeta(c).fields
    ensures Get(f, "payer") == Some(Str(c.payer)) && Get(f, "payee") == Some(Str(c.payee))
    ensures Get(f, "amount") == Some(Str(DecimalStr(c.amount))) && Get(f, "currency") == Some(Str(c.currency))
    ensures Get(f, "resource") == Some(Str(c.resource)) && Get(f, "nonce") == Some(Str(c.nonce))
    ensures Get(f, "at") == Some(Int(c.at))
  {
    hide Get, DecimalStr, Distinct;
    ChargeMetaKeys(c, f);
    GetEach(f);
    assert f[0].key == "payer" && f[1].key == "payee" && f[2].key == "amount" && f[3].key == "currency";
    assert f[4].key == "resource" && f[5].key == "nonce" && f[6].key == "at";
  }

  lemma ChargeMetaReadBack(c: Charge)
    ensures ChargeFromMeta(ChargeMeta(c)) == Some(c)
  {
    ChargeMetaFields(c, ChargeMeta(c).fields);
    ParseDecimalStr(c.amount);
  }

  lemma EventNames()
    ensures "CHARGE" != "ACCOUNT_OPENED" && "SETTLEMENT" != "ACCOUNT_OPENED" && "SETTLEMENT" != "CHARGE"
    ensures "GENESIS" != "ACCOUNT_OPENED" && "GENESIS" != "CHARGE" && "GENESIS" != "SETTLEMENT"
  {
    assert |"CHARGE"| == 6 && |"ACCOUNT_OPENED"| == 14 && |"SETTLEMENT"| == 10 && |"GENESIS"| == 7;
  }

  /** The register seals each operation as the event it is. */
  lemma SealedEvents(e: Body, currency: string)
    ensures forall limit :: e.eventType == "ACCOUNT_OPENED" && e.metadata == OpenedMeta(limit, currency) ==>
      EventOf(e) == Opening(e.sender, limit)
    ensures forall c :: e.eventType == "CHARGE" && e.metadata == ChargeMeta(c) ==> EventOf(e) == Charging(c)
    ensures forall amount, balance ::
      e.eventType == "SETTLEMENT" && e.metadata == SettlementMeta(amount, currency, balance) ==>
      EventOf(e) == Settlement(e.sender, amount)
    ensures e.eventType == "GENESIS" ==> EventOf(e) == Unrelated
  {
    EventNames();
    forall limit | e.metadata == OpenedMeta(limit, currency)
      ensures NumberAt(e.metadata, "credit_limit") == Some(limit)
    {
      OpenedMetaReadBack(limit, currency);
    }
    forall c | e.metadata == ChargeMeta(c)
      ensures ChargeFromMeta(e.metadata) == Some(c)
    {
      ChargeMetaReadBack(c);
    }
    forall amount, balance | e.metadata == SettlementMeta(amount, currency, balance)
      ensures NumberAt(e.metadata, "amount") == Some(amount)
    {
      SettlementMetaReadBack(amount, currency, balance);
    }
  }

  // ---------------------------------------------------------------- one entry more

  ghost predicate NonEmpty(digest: Digest) {
    forall b :: digest(b) != ""
  }

  lemma {:induction false} EventsAppend(j: seq<Entry>, e: Entry)
    ensures Events(j + [e]) == Events(j) + [EventOf(e.body)]
  {
    assert (j + [e])[..|j + [e]| - 1] == j;
  }

  lemma {:induction false} ReplayAppend(events: seq<Event>, e: Event)
    ensures ReplayEvents(events + [e]) ==
      if ReplayEvents(events).Some? then ReplayEvent(ReplayEvents(events).value, e) else None
    ensures forall a ::
      SettledTo(events + [e], a) == SettledTo(events, a) + (if e.Settlement? && e.agent == a then e.amount else 0)
    ensures Settled(events + [e]) == Settled(events) + if e.Settlement? then e.amount else 0
  {
    assert (events + [e])[..|events + [e]| - 1] == events;
  }

  lemma {:induction false} ChargesAppend(charges: seq<Charge>, c: Charge)
    ensures forall a :: Owed(charges + [c], a) == Owed(charges, a) + if c.payer == a then c.amount else 0
    ensures forall a :: Earned(charges + [c], a) == Earned(charges, a) + if c.payee == a then c.amount else 0
    ensures Nonces(charges + [c]) == Nonces(charges) + {c.nonce}
    ensures DistinctNonces(charges) && c.nonce !in Nonces(charges) ==> DistinctNonces(charges + [c])
  {
    assert (charges + [c])[..|charges + [c]| - 1] == charges;
    forall n
      ensures n in Nonces(charges + [c]) <==> n in Nonces(charges) || n == c.nonce
    {
      if d :| d in charges && d.nonce == n {
        assert d in charges + [c];
      }
      assert c in charges + [c];
    }
    forall i | 0 <= i < |charges|
      ensures charges[i].nonce in Nonces(charges)
    {
      assert charges[i] in charges;
    }
  }

  lemma {:induction false} BalancesUpdate(accounts: map<string, Account>, agent: string, account: Account)
    ensures Total(Balances(accounts[agent := account])) ==
      Total(Balances(accounts)) + account.balance as real
      - if agent in accounts then accounts[agent].balance as real else 0.0
  {
    assert Balances(accounts[agent := account]) == Balances(accounts)[agent := account.balance as real];
    TotalUpdate(Balances(accounts), agent, account.balance as real);
  }

  lemma ParsedNonNegative(raw: string, currency: string)
    ensures ParseText(raw, currency).Ok? ==> 0 <= ParseText(raw, currency).value.amount < PRECISION_LIMIT
  {
  }

  lemma SealedNext(digest: Digest, s: State, now: real, event: string, sender: string, target: Option<string>, m: Json)
    requires NonEmpty(digest) && Genuine(digest, s.journal) && now != 0.0
    ensures Genuine(digest, Logged(digest, s, now, event, sender, target, m).journal)
  {
    LogKeepsGenuine(digest, s.journal, NewEntry(digest, s.journal, now, event, sender, target, m));
  }

  /** Sealing the event that explains the new books keeps the invariant. */
  lemma LoggedKeepsInv(digest: Digest, s: State, b: Book, now: real, event: string, sender: string,
                       target: Option<string>, m: Json, e: Event)
    requires NonEmpty(digest) && Genuine(digest, s.journal) && now != 0.0
    requires EventOf(NewEntry(digest, s.journal, now, event, sender, target, m).body) == e
    requires Agrees(b, Events(s.journal) + [e])
    ensures Inv(digest, Logged(digest, s.(book := b), now, event, sender, target, m))
  {
    SealedNext(digest, s, now, event, sender, target, m);
    EventsAppend(s.journal, NewEntry(digest, s.journal, now, event, sender, target, m));
  }

  lemma {:induction false} OpenedAgrees(b: Book, events: seq<Event>, agent: string, limit: int)
    requires Agrees(b, events) && agent !in b.accounts && limit >= 0
    ensures Agrees(b.(accounts := b.accounts[agent := Account(limit, 0)]), events + [Opening(agent, limit)])
  {
    hide ReplayEvents, Reconciled, WithinCredit, Settled, Balances, Nonces, DistinctNonces;
    ReplayAppend(events, Opening(agent, limit));
    BalancesUpdate(b.accounts, agent, Account(limit, 0));
    OpenedReconciles(b, events, agent, limit);
    OpenedWithinCredit(b.accounts, agent, limit);
  }

  lemma {:induction false} OpenedReconciles(b: Book, events: seq<Event>, agent: string, limit: int)
    requires Reconciled(b, events) && ReplayEvents(events) == Some(b) && agent !in b.accounts
    ensures Reconciled(b.(accounts := b.accounts[agent := Account(limit, 0)]), events + [Opening(agent, limit)])
  {
    ReplayAppend(events, Opening(agent, limit));
  }

  lemma {:induction false} OpenedWithinCredit(accounts: map<string, Account>, agent: string, limit: int)
    requires WithinCredit(accounts) && limit >= 0
    ensures WithinCredit(accounts[agent := Account(limit, 0)])
  {
  }

  lemma SettledAgrees(b: Book, events: seq<Event>, agent: string, amount: int)
    requires Agrees(b, events) && agent in b.accounts && amount > 0
    ensures Agrees(b.(accounts := Credit(b.accounts, agent, amount)), events + [Settlement(agent, amount)])
  {
    ReplayAppend(events, Settlement(agent, amount));
    BalancesUpdate(b.accounts, agent, Credit(b.accounts, agent, amount)[agent]);
  }

  /** A transfer moves the amount from one account to the other when they differ. */
  lemma {:induction false} TransferTotal(accounts: map<string, Account>, payer: string, payee: string, amount: int)
    requires payer in accounts && payee in accounts
    ensures Total(Balances(Transferred(accounts, payer, payee, amount))) ==
      Total(Balances(accounts)) + if payer == payee then amount as real else 0.0
    ensures Total(Balances(Debited(accounts, payer, amount))) == Total(Balances(accounts)) - amount as real
    ensures payer != payee ==>
      Transferred(accounts, payer, payee, amount) == Credit(Credit(accounts, payer, -amount), payee, amount)
  {
    var debited := Debited(accounts, payer, amount);
    BalancesUpdate(accounts, payer, debited[payer]);
    BalancesUpdate(debited, payee, accounts[payee].(balance := accounts[payee].balance + amount));
  }

  /** What the guards of a charge establish. */
  ghost predicate Chargeable(b: Book, c: Charge) {
    && c.nonce !in b.seen && c.amount > 0
    && c.payer in b.accounts && c.payee in b.accounts
    && c.amount <= b.accounts[c.payer].balance + b.accounts[c.payer].limit
  }

  lemma ReceivableFacts(s: State, p: PaymentProof, at: int)
    requires Receivable(s, p).Ok?
    ensures Chargeable(s.book, ChargeOf(s, p, Receivable(s, p).value, at))
    ensures ParseText(Quoted(p.amount, p.currency), "USD") == Ok(Price(Receivable(s, p).value, s.currency))
  {
  }

  /** The books after a charge. */
  function BookWith(b: Book, c: Charge): Book
    requires c.payer in b.accounts && c.payee in b.accounts
  {
    Book(Transferred(b.accounts, c.payer, c.payee, c.amount), b.charges + [c], b.seen + {c.nonce})
  }

  lemma ChargedAgrees(b: Book, events: seq<Event>, c: Charge)
    requires Agrees(b, events) && Chargeable(b, c) && c.payer != c.payee
    ensures Agrees(BookWith(b, c), events + [Charging(c)])
  {
    ChargedReplays(b, events, c);
    ChargesAppend(b.charges, c);
    ChargedReconciles(b, events, c);
    ChargedWithinCredit(b.accounts, c.payer, c.payee, c.amount);
  }

  lemma ChargedReplays(b: Book, events: seq<Event>, c: Charge)
    requires ReplayEvents(events) == Some(b) && Chargeable(b, c) && c.payer != c.payee
    ensures ReplayEvents(events + [Charging(c)]) == Some(BookWith(b, c))
    ensures Total(Balances(BookWith(b, c).accounts)) == Total(Balances(b.accounts))
    ensures Settled(events + [Charging(c)]) == Settled(events)
  {
    ReplayAppend(events, Charging(c));
    TransferTotal(b.accounts, c.payer, c.payee, c.amount);
  }

  lemma ChargedWithinCredit(accounts: map<string, Account>, payer: string, payee: string, amount: int)
    requires WithinCredit(accounts) && payer in accounts && payee in accounts && payer != payee
    requires 0 < amount <= accounts[payer].balance + accounts[payer].limit
    ensures WithinCredit(Transferred(accounts, payer, payee, amount))
  {
  }

  lemma ChargedReconciles(b: Book, events: seq<Event>, c: Charge)
    requires Reconciled(b, events) && c.payer in b.accounts && c.payee in b.accounts && c.payer != c.payee
    ensures Reconciled(BookWith(b, c), events + [Charging(c)])
  {
    ReplayAppend(events, Charging(c));
    ChargesAppend(b.charges, c);
  }

  // ---------------------------------------------------------------- restart

  lemma {:induction false} ReadListAppend(read: ChargeRow -> Option<Charge>, rows: seq<ChargeRow>, row: ChargeRow)
    requires ReadList(read, rows).Some? && read(row).Some?
    ensures ReadList(read, rows + [row]) == Some(ReadList(read, rows).value + [read(row).value])
  {
    assert (rows + [row])[..|rows + [row]| - 1] == rows;
  }

  lemma {:induction false} ListReadBack(read: ChargeRow -> Option<Charge>, write: Charge -> ChargeRow,
                                        values: seq<Charge>)
    requires forall b :: read(write(b)) == Some(b)
    ensures ReadList(read, WriteList(write, values)) == Some(values)
  {
    if values != [] {
      var init, last := values[..|values| - 1], values[|values| - 1];
      ListReadBack(read, write, init);
      ReadListAppend(read, WriteList(write, init), write(last));
      assert values == init + [last];
    }
  }

  lemma ChargeReadBack(c: Charge)
    ensures ChargeFromRow(ChargeToRow(c)) == Some(c)
  {
    ParseDecimalStr(c.amount);
  }

  lemma ChargesReadBack(charges: seq<Charge>)
    ensures ReadList(ChargeFromRow, ExportCharges(charges)) == Some(charges)
  {
    forall c
      ensures ChargeFromRow(ChargeToRow(c)) == Some(c)
    {
      ChargeReadBack(c);
    }
    ListReadBack(ChargeFromRow, ChargeToRow, charges);
  }

  lemma AccountReadBack(currency: string, a: Account)
    ensures AccountFromRow(AccountToRow(currency, a)) == Some(a)
  {
    ParseDecimalStr(a.limit);
    ParseDecimalStr(a.balance);
  }

  lemma AllReadBack(read: AccountRow -> Option<Account>, write: Account -> AccountRow, values: map<string, Account>)
    requires forall b :: read(write(b)) == Some(b)
    ensures ReadAll(read, WriteAll(write, values)) == Some(values)
  {
    assert (map a | a in WriteAll(write, values) :: read(WriteAll(write, values)[a]).value) == values;
  }

  lemma AccountsReadBack(currency: string, accounts: map<string, Account>)
    ensures ReadAll(AccountFromRow, ExportAccounts(currency, accounts)) == Some(accounts)
  {
    var write := (a: Account) => AccountToRow(currency, a);
    forall a
      ensures AccountFromRow(write(a)) == Some(a)
    {
      AccountReadBack(currency, a);
    }
    AllReadBack(AccountFromRow, write, accounts);
    assert ExportAccounts(currency, accounts) == WriteAll(write, accounts);
  }

  /** Importing what was exported rebuilds the register exactly. */
  lemma ExportThenImport(digest: Digest, s: State, now: real)
    requires Genuine(digest, s.journal) && s.book.seen == Nonces(s.book.charges)
    ensures ImportState(digest, ExportState(s), now) == Some(s)
  {
    AccountsReadBack(s.currency, s.book.accounts);
    ChargesReadBack(s.book.charges);
    RowsReadBack(digest, s.journal, now);
  }

  // ---------------------------------------------------------------- every run

  lemma StepKeepsInv(digest: Digest, s: State, op: Op)
    requires Inv(digest, s) && NonEmpty(digest) && Allowed(s, op)
    ensures Inv(digest, Step(digest, s, op))
  {
    match op
    case OpenOp(agent, limit, now) => OpenKeepsInv(digest, s, agent, limit, now);
    case ChargeOp(p, at, now) =>
      if Receivable(s, p).Ok? {
        ReceivableFacts(s, p, at);
        BookedKeepsInv(digest, s, p, Receivable(s, p).value, at, now);
      }
    case SettleOp(agent, amount, now) => SettleKeepsInv(digest, s, agent, amount, now);
    case RestartOp(now) => ExportThenImport(digest, s, now);
  }

  lemma BookedKeepsInv(digest: Digest, s: State, p: PaymentProof, amount: int, at: int, now: real)
    requires Inv(digest, s) && NonEmpty(digest) && now != 0.0
    requires Chargeable(s.book, ChargeOf(s, p, amount, at)) && p.payer != p.payTo
    requires Quantize(s.book.accounts[p.payTo].balance + amount).Ok?
    ensures Inv(digest, Booked(digest, s, p, amount, at, now).0)
  {
    var c := ChargeOf(s, p, amount, at);
    var m := ChargeMeta(c);
    var b := BookWith(s.book, c);
    SealedEvents(NewEntry(digest, s.journal, now, "CHARGE", p.payer, Some(p.payTo), m).body, s.currency);
    ChargedAgrees(s.book, Events(s.journal), c);
    LoggedKeepsInv(digest, s, b, now, "CHARGE", p.payer, Some(p.payTo), m, Charging(c));
  }

  lemma OpenKeepsInv(digest: Digest, s: State, agent: string, limit: PriceArg, now: real)
    requires Inv(digest, s) && NonEmpty(digest) && Allowed(s, OpenOp(agent, limit, now))
    ensures Inv(digest, AfterOpen(digest, s, agent, limit, now).0)
  {
    if agent !in s.book.accounts && ParsePrice(limit, s.currency).Ok? {
      if limit.Text? {
        ParsedNonNegative(limit.text, s.currency);
      }
      OpenedKeepsInv(digest, s, agent, ParsePrice(limit, s.currency).value, now);
    }
  }

  lemma OpenedKeepsInv(digest: Digest, s: State, agent: string, price: Price, now: real)
    requires Inv(digest, s) && NonEmpty(digest) && now != 0.0 && agent !in s.book.accounts && price.amount >= 0
    ensures Inv(digest, Opened(digest, s, agent, price, now).0)
  {
    var limit := price.amount;
    var m := OpenedMeta(limit, s.currency);
    var b := s.book.(accounts := s.book.accounts[agent := Account(limit, 0)]);
    SealedEvents(NewEntry(digest, s.journal, now, "ACCOUNT_OPENED", agent, None, m).body, s.currency);
    OpenedAgrees(s.book, Events(s.journal), agent, limit);
    LoggedKeepsInv(digest, s, b, now, "ACCOUNT_OPENED", agent, None, m, Opening(agent, limit));
  }

  lemma SettleKeepsInv(digest: Digest, s: State, agent: string, amount: PriceArg, now: real)
    requires Inv(digest, s) && NonEmpty(digest) && now != 0.0
    ensures Inv(digest, AfterSettle(digest, s, agent, amount, now).0)
  {
    if ParsePrice(amount, s.currency).Ok? {
      ReceivedKeepsInv(digest, s, agent, ParsePrice(amount, s.currency).value, now);
    }
  }

  lemma ReceivedKeepsInv(digest: Digest, s: State, agent: string, price: Price, now: real)
    requires Inv(digest, s) && NonEmpty(digest) && now != 0.0
    ensures Inv(digest, Received(digest, s, agent, price, now).0)
  {
    hide Events, Agrees;
    if price.amount > 0 && agent in s.book.accounts {
      var amount := price.amount;
      var balance := s.book.accounts[agent].balance + amount;
      var m := SettlementMeta(amount, s.currency, balance);
      var b := s.book.(accounts := Credit(s.book.accounts, agent, amount));
      SealedEvents(NewEntry(digest, s.journal, now, "SETTLEMENT", agent, None, m).body, s.currency);
      SettledAgrees(s.book, Events(s.journal), agent, amount);
      LoggedKeepsInv(digest, s, b, now, "SETTLEMENT", agent, None, m, Settlement(agent, amount));
    }
  }

  lemma InitialInv(digest: Digest, currency: string, now: real)
    requires NonEmpty(digest) && now != 0.0
    ensures Inv(digest, Initial(digest, currency, now))
  {
    var e := Genesis(digest, now);
    EventsAppend([], e);
    assert [] + [e] == [e];
    SealedEvents(e.body, currency);
    ReplayAppend([], Unrelated);
    assert [] + [Unrelated] == [Unrelated];
    assert Balances(map[]) == map[];
  }

  lemma {:induction false} RunFromInv(digest: Digest, s: State, ops: seq<Op>)
    requires Inv(digest, s) && NonEmpty(digest) && AllowedRun(digest, s, ops)
    ensures Inv(digest, Run(digest, s, ops))
    decreases |ops|
  {
    if ops != [] {
      StepKeepsInv(digest, s, ops[0]);
      RunFromInv(digest, Step(digest, s, ops[0]), ops[1..]);
    }
  }

  /**
    In every state a register reaches by opening accounts, charging, settling and restarting from its
    export: replaying the sealed entries rebuilds the accounts, the charges and the nonces; the journal
    passes verification; each balance is what was earned and settled less what is owed; the balances
    add up to the settlements received; and no balance is below minus its credit limit.
  */
  lemma EveryRunKeepsTheBooks(digest: Digest, currency: string, now: real, ops: seq<Op>)
    requires NonEmpty(digest) && now != 0.0 && AllowedRun(digest, Initial(digest, currency, now), ops)
    ensures var s := Run(digest, Initial(digest, currency, now), ops);
      && Replay(s.journal) == Some(s.book)
      && Linked(digest, s.journal)
      && DistinctNonces(s.book.charges) && s.book.seen == Nonces(s.book.charges)
      && Reconciled(s.book, Events(s.journal))
      && Total(Balances(s.book.accounts)) == Settled(Events(s.journal)) as real
      && WithinCredit(s.book.accounts)
      && forall restart :: ImportState(digest, ExportState(s), restart) == Some(s)
  {
    InitialInv(digest, currency, now);
    RunFromInv(digest, Initial(digest, currency, now), ops);
    var s := Run(digest, Initial(digest, currency, now), ops);
    forall restart
      ensures ImportState(digest, ExportState(s), restart) == Some(s)
    {
      ExportThenImport(digest, s, restart);
    }
  }

  // ---------------------------------------------------------------- what holds of every run, without exception

  /** The journal verifies and carries its own index, and each nonce was honoured once. */
  ghost predicate LedgerSound(digest: Digest, l: State) {
    Genuine(digest, l.journal) && DistinctNonces(l.book.charges) && l.book.seen == Nonces(l.book.charges)
  }

  ghost predicate KeepsLimits(before: map<string, Account>, after: map<string, Account>) {
    forall a :: a in before ==> a in after && after[a].limit == before[a].limit
  }

  /** The clock is never exactly 0. */
  predicate Ticking(ops: seq<Op>) {
    forall i :: 0 <= i < |ops| ==> ops[i].now != 0.0
  }

  /** A limit given as a price is not negative; one given as text never is. */
  predicate LimitsGiven(ops: seq<Op>) {
    forall i :: 0 <= i < |ops| && ops[i].OpenOp? && ops[i].limit.Given? ==> ops[i].limit.price.amount >= 0
  }

  /** What an operation may do to the register: at most one sealed entry, at most one charge under a new nonce. */
  ghost predicate Evolves(digest: Digest, l: State, l': State)
    requires l.journal != []
  {
    && LedgerSound(digest, l') && KeepsLimits(l.book.accounts, l'.book.accounts)
    && l'.journal[0] == l.journal[0] && l'.currency == l.currency
  }

  lemma {:induction false} LoggedEvolves(digest: Digest, l: State, b: Book, now: real, event: string, sender: string,
                                         target: Option<string>, m: Json)
    requires LedgerSound(digest, l) && NonEmpty(digest) && now != 0.0
    requires DistinctNonces(b.charges) && b.seen == Nonces(b.charges) && KeepsLimits(l.book.accounts, b.accounts)
    ensures Evolves(digest, l, Logged(digest, l.(book := b), now, event, sender, target, m))
  {
    hide DistinctNonces, Nonces, KeepsLimits;
    SealedNext(digest, l, now, event, sender, target, m);
  }

  lemma {:induction false} OpenEvolves(digest: Digest, l: State, agent: string, price: Price, now: real)
    requires LedgerSound(digest, l) && NonEmpty(digest) && now != 0.0 && agent !in l.book.accounts
    ensures Evolves(digest, l, Opened(digest, l, agent, price, now).0)
  {
    hide Genuine, DistinctNonces, Nonces, Logged, OpenedMeta;
    var b := l.book.(accounts := l.book.accounts[agent := Account(price.amount, 0)]);
    LoggedEvolves(digest, l, b, now, "ACCOUNT_OPENED", agent, None, OpenedMeta(price.amount, l.currency));
  }

  lemma {:induction false} BookedEvolves(digest: Digest, l: State, p: PaymentProof, amount: int, at: int, now: real)
    requires LedgerSound(digest, l) && NonEmpty(digest) && now != 0.0
    requires p.payer in l.book.accounts && p.payTo in l.book.accounts && p.nonce !in l.book.seen
    ensures Evolves(digest, l, Booked(digest, l, p, amount, at, now).0)
  {
    hide Genuine, DistinctNonces, Nonces, Logged, ChargeMeta;
    var c := ChargeOf(l, p, amount, at);
    ChargesAppend(l.book.charges, c);
    LoggedEvolves(digest, l, BookWith(l.book, c), now, "CHARGE", p.payer, Some(p.payTo), ChargeMeta(c));
  }

  lemma {:induction false} ReceivedEvolves(digest: Digest, l: State, agent: string, price: Price, now: real)
    requires LedgerSound(digest, l) && NonEmpty(digest) && now != 0.0
    ensures Evolves(digest, l, Received(digest, l, agent, price, now).0)
  {
    hide Genuine, DistinctNonces, Nonces, Logged, SettlementMeta;
    if agent in l.book.accounts {
      var balance := l.book.accounts[agent].balance + price.amount;
      var b := l.book.(accounts := l.book.accounts[agent := l.book.accounts[agent].(balance := balance)]);
      LoggedEvolves(digest, l, b, now, "SETTLEMENT", agent, None, SettlementMeta(price.amount, l.currency, balance));
    }
  }

  /** Every operation, charges to oneself and overflowing credits included. */
  lemma {:induction false} StepEvolves(digest: Digest, l: State, op: Op)
    requires LedgerSound(digest, l) && NonEmpty(digest) && op.now != 0.0
    ensures Evolves(digest, l, Step(digest, l, op))
  {
    hide Logged, Opened, Booked, Received, ParsePrice, ParseText, DistinctNonces, Nonces;
    match op
    case OpenOp(agent, limit, now) =>
      if agent !in l.book.accounts && ParsePrice(limit, l.currency).Ok? {
        OpenEvolves(digest, l, agent, ParsePrice(limit, l.currency).value, now);
      }
    case ChargeOp(p, at, now) =>
      if Receivable(l, p).Ok? {
        BookedEvolves(digest, l, p, Receivable(l, p).value, at, now);
      }
    case SettleOp(agent, amount, now) =>
      if ParsePrice(amount, l.currency).Ok? {
        ReceivedEvolves(digest, l, agent, ParsePrice(amount, l.currency).value, now);
      }
    case RestartOp(now) => ExportThenImport(digest, l, now);
  }

  lemma {:induction false} BookedKeepsCredit(digest: Digest, l: State, p: PaymentProof, amount: int, at: int, now: real)
    requires l.journal != [] && WithinCredit(l.book.accounts) && Chargeable(l.book, ChargeOf(l, p, amount, at))
    ensures WithinCredit(Booked(digest, l, p, amount, at, now).0.book.accounts)
  {
  }

  lemma {:induction false} OpenKeepsCredit(digest: Digest, l: State, agent: string, price: Price, now: real)
    requires l.journal != [] && WithinCredit(l.book.accounts) && price.amount >= 0
    ensures WithinCredit(Opened(digest, l, agent, price, now).0.book.accounts)
  {
  }

  lemma {:induction false} ReceivedKeepsCredit(digest: Digest, l: State, agent: string, price: Price, now: real)
    requires l.journal != [] && WithinCredit(l.book.accounts)
    ensures WithinCredit(Received(digest, l, agent, price, now).0.book.accounts)
  {
  }

  lemma {:induction false} StepKeepsCredit(digest: Digest, l: State, op: Op)
    requires LedgerSound(digest, l) && WithinCredit(l.book.accounts)
    requires op.OpenOp? && op.limit.Given? ==> op.limit.price.amount >= 0
    ensures WithinCredit(Step(digest, l, op).book.accounts)
  {
    hide Opened, Booked, Received, ParseText, Receivable, WithinCredit, Chargeable;
    match op
    case OpenOp(agent, limit, now) =>
      if agent !in l.book.accounts && ParsePrice(limit, l.currency).Ok? {
        if limit.Text? {
          ParsedNonNegative(limit.text, l.currency);
        }
        OpenKeepsCredit(digest, l, agent, ParsePrice(limit, l.currency).value, now);
      }
    case ChargeOp(p, at, now) =>
      if Receivable(l, p).Ok? {
        ReceivableFacts(l, p, at);
        BookedKeepsCredit(digest, l, p, Receivable(l, p).value, at, now);
      }
    case SettleOp(agent, amount, now) =>
      if ParsePrice(amount, l.currency).Ok? {
        ReceivedKeepsCredit(digest, l, agent, ParsePrice(amount, l.currency).value, now);
      }
    case RestartOp(now) => ExportThenImport(digest, l, now);
  }

  lemma {:induction false} RunEvolves(digest: Digest, l: State, ops: seq<Op>)
    requires LedgerSound(digest, l) && NonEmpty(digest) && Ticking(ops)
    ensures Evolves(digest, l, Run(digest, l, ops))
    ensures LimitsGiven(ops) && WithinCredit(l.book.accounts) ==> WithinCredit(Run(digest, l, ops).book.accounts)
    decreases |ops|
  {
    hide Step, DistinctNonces, Nonces, WithinCredit;
    if ops != [] {
      var next := Step(digest, l, ops[0]);
      assert forall i :: 0 <= i < |ops[1..]| ==> ops[1..][i] == ops[i + 1];
      StepEvolves(digest, l, ops[0]);
      if LimitsGiven(ops) && WithinCredit(l.book.accounts) {
        StepKeepsCredit(digest, l, ops[0]);
      }
      RunEvolves(digest, next, ops[1..]);
    }
  }

  /**
    Over every run, self-charges and overflows included: the journal verifies from its genesis on, each
    nonce is honoured once, export and import are the identity, and, with non-negative limits, no balance
    is below minus its limit.
  */
  lemma {:induction false} EveryRunIsSound(digest: Digest, currency: string, now: real, ops: seq<Op>)
    requires NonEmpty(digest) && now != 0.0 && Ticking(ops)
    ensures var l := Run(digest, Initial(digest, currency, now), ops);
      && LedgerSound(digest, l) && Linked(digest, l.journal) && Founded(digest, l.journal)
      && (forall restart :: ImportState(digest, ExportState(l), restart) == Some(l))
      && (LimitsGiven(ops) ==> WithinCredit(l.book.accounts))
  {
    hide Run, DistinctNonces, Nonces, ExportState, ImportState;
    InitialSound(digest, currency, now);
    RunEvolves(digest, Initial(digest, currency, now), ops);
    var l := Run(digest, Initial(digest, currency, now), ops);
    forall restart
      ensures ImportState(digest, ExportState(l), restart) == Some(l)
    {
      ExportThenImport(digest, l, restart);
    }
  }

  lemma InitialSound(digest: Digest, currency: string, now: real)
    requires NonEmpty(digest) && now != 0.0
    ensures LedgerSound(digest, Initial(digest, currency, now))
  {
  }

  /** Over every run, the credit limit of an open account never changes. */
  lemma {:induction false} LimitsNeverChange(digest: Digest, l: State, ops: seq<Op>, agent: string)
    requires LedgerSound(digest, l) && NonEmpty(digest) && Ticking(ops) && agent in l.book.accounts
    ensures agent in Run(digest, l, ops).book.accounts
    ensures Run(digest, l, ops).book.accounts[agent].limit == l.book.accounts[agent].limit
  {
    hide Run, LedgerSound;
    RunEvolves(digest, l, ops);
  }

  /**
    A single charge leaves the total of the balances unchanged exactly when it is refused by a guard,
    or when payer and payee differ and the payee's new balance fits the decimal context: a charge to
    oneself creates its amount, and a credit that overflows loses it.
  */
  lemma ChargeConservesIff(digest: Digest, s: State, p: PaymentProof, at: int, now: real)
    requires s.journal != []
    ensures Total(Balances(AfterCharge(digest, s, p, at, now).0.book.accounts)) == Total(Balances(s.book.accounts))
      <==> Receivable(s, p).Err? || (p.payer != p.payTo && CreditFits(s, p))
  {
    if Receivable(s, p).Ok? {
      ReceivableFacts(s, p, at);
      TransferTotal(s.book.accounts, p.payer, p.payTo, Receivable(s, p).value);
    }
  }

  /**
    A charge to oneself, in a register with one account and nothing settled: the balances add up to the
    amount charged, which nobody paid in.
  */
  lemma {:induction false} SelfChargeCreates(digest: Digest, code: string, agent: string, limit: int, amount: int,
                                             resource: string, nonce: string, now: real)
    requires IsCode(code) && Upper(code) == code && 100 <= amount <= limit < PRECISION_LIMIT
    ensures var p := PaymentProof(agent, DecimalStr(amount), code, agent, resource, nonce, 0, 0);
      var before := Step(digest, Initial(digest, code, now), OpenOp(agent, Given(Price(limit, code)), now));
      var l := Step(digest, before, ChargeOp(p, 0, now));
      && before.book.accounts == map[agent := Account(limit, 0)]
      && |l.book.charges| == 1 && Total(Balances(l.book.accounts)) == amount as real
  {
    hide ParseText, Quoted, DecimalStr, IsCode, Upper, Logged, Total, Step;
    var p := PaymentProof(agent, DecimalStr(amount), code, agent, resource, nonce, 0, 0);
    var before := Step(digest, Initial(digest, code, now), OpenOp(agent, Given(Price(limit, code)), now));
    OpenedAlone(digest, code, agent, limit, now);
    QuotedPriceReadBack(amount, code);
    SelfCharged(digest, before, p, code, limit, amount, now);
    TransferTotal(before.book.accounts, agent, agent, amount);
    BalancesUpdate(map[], agent, Account(limit, 0));
    EmptyTotal();
  }

  lemma EmptyTotal()
    ensures Total(Balances(map[])) == 0.0
  {
    assert Balances(map[]) == map[];
  }

  lemma {:induction false} OpenedAlone(digest: Digest, code: string, agent: string, limit: int, now: real)
    ensures var l := Step(digest, Initial(digest, code, now), OpenOp(agent, Given(Price(limit, code)), now));
      l.currency == code && l.book == Book(map[agent := Account(limit, 0)], [], {})
  {
  }

  lemma {:induction false} SelfCharged(digest: Digest, l: State, p: PaymentProof, code: string, limit: int, amount: int,
                                       now: real)
    requires l.journal != [] && l.currency == code && l.book == Book(map[p.payer := Account(limit, 0)], [], {})
    requires p.payTo == p.payer && ParseText(Quoted(p.amount, p.currency), "USD") == Ok(Price(amount, code))
    requires 0 < amount <= limit < PRECISION_LIMIT
    ensures var t := Step(digest, l, ChargeOp(p, 0, now));
      |t.book.charges| == 1 && t.book.accounts == Transferred(l.book.accounts, p.payer, p.payer, amount)
  {
    hide ParseText, Quoted;
  }
}
