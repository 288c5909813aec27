/** The register: who owes how much to whom, on which proof, sealed entry by entry in the journal. */
module Ledgers {
  import opened Wrappers
  import opened Json
  import opened Price
  import opened Proof
  import opened Audit

  /** A negative balance is a debt; the limit says how deep it may go. */
  datatype Account = Account(limit: int, balance: int)

  datatype Charge = Charged(
    payer: string, payee: string, amount: int, currency: string, resource: string, nonce: string, at: int)

  /** The books: accounts, charges in order, nonces already honoured. */
  datatype Book = Book(accounts: map<string, Account>, charges: seq<Charge>, seen: set<string>)

  datatype State = State(currency: string, book: Book, journal: seq<Entry>)

  datatype LedgerError =
    | DuplicateNonce | BadPrice(reason: PriceError) | WrongCurrency | NotPositive
    | UnknownAccount(agent: string) | CreditLimitExceeded | ContextOverflow

  const EMPTY_BOOK := Book(map[], [], {})

  // ---------------------------------------------------------------- journal metadata

  function OpenedMeta(limit: int, currency: string): Json {
    Obj([Field("credit_limit", Str(DecimalStr(limit))), Field("currency", Str(currency))])
  }

  function ChargeMeta(c: Charge): Json {
    Obj([Field("payer", Str(c.payer)), Field("payee", Str(c.payee)), Field("amount", Str(DecimalStr(c.amount))),
         Field("currency", Str(c.currency)), Field("resource", Str(c.resource)), Field("nonce", Str(c.nonce)),
         Field("at", Int(c.at))])
  }

  function SettlementMeta(amount: int, currency: string, balance: int): Json {
    Obj([Field("amount", Str(DecimalStr(amount))), Field("currency", Str(currency)),
         Field("balance", Str(DecimalStr(balance)))])
  }

  // ---------------------------------------------------------------- operations on the state

  function Logged(digest: Digest, s: State, now: real, event: string, sender: string, target: Option<string>,
                  metadata: Json): State
    requires s.journal != []
  {
    s.(journal := s.journal + [NewEntry(digest, s.journal, now, event, sender, target, metadata)])
  }

  function Opened(digest: Digest, s: State, agent: string, price: Price, now: real)
    : (r: (State, Result<Account, LedgerError>))
    requires s.journal != []
    ensures r.0.journal != []
  {
    if price.currency != s.currency then (s, Err(WrongCurrency))
    else
      var account := Account(price.amount, 0);
      var book := s.book.(accounts := s.book.accounts[agent := account]);
      (Logged(digest, s.(book := book), now, "ACCOUNT_OPENED", agent, None, OpenedMeta(price.amount, s.currency)),
       Ok(account))
  }

  /** Opening an account that exists returns it unchanged. */
  function AfterOpen(digest: Digest, s: State, agent: string, limit: PriceArg, now: real)
    : (r: (State, Result<Account, LedgerError>))
    requires s.journal != []
    ensures r.0.journal != []
  {
    if agent in s.book.accounts then (s, Ok(s.book.accounts[agent]))
    else match ParsePrice(limit, s.currency)
      case Err(e) => (s, Err(BadPrice(e)))
      case Ok(price) => Opened(digest, s, agent, price, now)
  }

  /** The amount a proof asks for, when the register can receive it. */
  function Receivable(s: State, p: PaymentProof): Result<int, LedgerError> {
    if p.nonce in s.book.seen then Err(DuplicateNonce)
    else match ParseText(Quoted(p.amount, p.currency), "USD")
      case Err(e) => Err(BadPrice(e))
      case Ok(price) =>
        if price.currency != s.currency then Err(WrongCurrency)
        else if price.amount <= 0 then Err(NotPositive)
        else if p.payer !in s.book.accounts then Err(UnknownAccount(p.payer))
        else if p.payTo !in s.book.accounts then Err(UnknownAccount(p.payTo))
        else
          var payer := s.book.accounts[p.payer];
          match Quantize(payer.balance + payer.limit)
          case Err(_) => Err(ContextOverflow)
          case Ok(available) =>
            if price.amount > available then Err(CreditLimitExceeded)
            else if Quantize(payer.balance - price.amount).Err? then Err(ContextOverflow)
            else Ok(price.amount)
  }

  function ChargeOf(s: State, p: PaymentProof, amount: int, at: int): Charge {
    Charged(p.payer, p.payTo, amount, s.currency, p.resource, p.nonce, at)
  }

  /** The account written first, and the one written second from the balances read before both writes. */
  function Debited(accounts: map<string, Account>, payer: string, amount: int): map<string, Account>
    requires payer in accounts
  {
    accounts[payer := accounts[payer].(balance := accounts[payer].balance - amount)]
  }

  function Transferred(accounts: map<string, Account>, payer: string, payee: string, amount: int): map<string, Account>
    requires payer in accounts && payee in accounts
  {
    Debited(accounts, payer, amount)[payee := accounts[payee].(balance := accounts[payee].balance + amount)]
  }

  /** The writes of a charge whose guards passed. */
  function Booked(digest: Digest, s: State, p: PaymentProof, amount: int, at: int, now: real)
    : (r: (State, Result<Charge, LedgerError>))
    requires s.journal != [] && p.payer in s.book.accounts && p.payTo in s.book.accounts
    ensures r.0.journal != []
  {
    var accounts := s.book.accounts;
    if Quantize(accounts[p.payTo].balance + amount).Err? then
      // The first write has been made when the second one raises.
      (s.(book := s.book.(accounts := Debited(accounts, p.payer, amount))), Err(ContextOverflow))
    else
      var charge := ChargeOf(s, p, amount, at);
      var book := Book(Transferred(accounts, p.payer, p.payTo, amount), s.book.charges + [charge],
                       s.book.seen + {p.nonce});
      (Logged(digest, s.(book := book), now, "CHARGE", p.payer, Some(p.payTo), ChargeMeta(charge)), Ok(charge))
  }

  function AfterCharge(digest: Digest, s: State, p: PaymentProof, at: int, now: real)
    : (r: (State, Result<Charge, LedgerError>))
    requires s.journal != []
    ensures r.0.journal != []
  {
    match Receivable(s, p)
    case Err(e) => (s, Err(e))
    case Ok(amount) => Booked(digest, s, p, amount, at, now)
  }

  function Received(digest: Digest, s: State, agent: string, price: Price, now: real)
    : (r: (State, Result<Account, LedgerError>))
    requires s.journal != []
    ensures r.0.journal != []
  {
    if price.currency != s.currency then (s, Err(WrongCurrency))
    else if price.amount <= 0 then (s, Err(NotPositive))
    else if agent !in s.book.accounts then (s, Err(UnknownAccount(agent)))
    else
      var account := s.book.accounts[agent];
      match Quantize(account.balance + price.amount)
      case Err(_) => (s, Err(ContextOverflow))
      case Ok(balance) =>
        var updated := account.(balance := balance);
        var book := s.book.(accounts := s.book.accounts[agent := updated]);
        (Logged(digest, s.(book := book), now, "SETTLEMENT", agent, None,
                SettlementMeta(price.amount, s.currency, balance)),
         Ok(updated))
  }

  function AfterSettle(digest: Digest, s: State, agent: string, amount: PriceArg, now: real)
    : (r: (State, Result<Account, LedgerError>))
    requires s.journal != []
    ensures r.0.journal != []
  {
    match ParsePrice(amount, s.currency)
    case Err(e) => (s, Err(BadPrice(e)))
    case Ok(price) => Received(digest, s, agent, price, now)
  }

  // ---------------------------------------------------------------- statements

  predicate InStatement(c: Charge, agent: string, since: Option<int>, until: Option<int>) {
    && (c.payer == agent || c.payee == agent)
    && (since.None? || c.at >= since.value)
    && (until.None? || c.at < until.value)
  }

  function Statement(charges: seq<Charge>, agent: string, since: Option<int>, until: Option<int>): seq<Charge> {
    if charges == [] then []
    else
      var rest := Statement(charges[..|charges| - 1], agent, since, until);
      var c := charges[|charges| - 1];
      if InStatement(c, agent, since, until) then rest + [c] else rest
  }

  /** What an agent owes over these charges, settlements apart. */
  function Owed(charges: seq<Charge>, agent: string): int {
    if charges == [] then 0
    else
      var c := charges[|charges| - 1];
      Owed(charges[..|charges| - 1], agent) + if c.payer == agent then c.amount else 0
  }

  function Earned(charges: seq<Charge>, agent: string): int {
    if charges == [] then 0
    else
      var c := charges[|charges| - 1];
      Earned(charges[..|charges| - 1], agent) + if c.payee == agent then c.amount else 0
  }

  function TotalOwed(s: State, agent: string, since: Option<int>, until: Option<int>): Result<Price, PriceError> {
    var total :- Quantize(Owed(Statement(s.book.charges, agent, since, until), agent));
    Ok(Price(total, s.currency))
  }

  // ---------------------------------------------------------------- export and import

  datatype AccountRow = AccountRow(currency: string, limit: string, balance: string)

  datatype ChargeRow = ChargeRow(
    payer: string, payee: string, amount: string, currency: string, resource: string, nonce: string, at: int)

  datatype Dump = Dump(currency: string, accounts: map<string, AccountRow>, charges: seq<ChargeRow>, audit: seq<Row>)

  function ChargeToRow(c: Charge): ChargeRow {
    ChargeRow(c.payer, c.payee, DecimalStr(c.amount), c.currency, c.resource, c.nonce, c.at)
  }

  function ChargeFromRow(r: ChargeRow): Option<Charge> {
    var amount :- ParseDecimal(r.amount);
    Some(Charged(r.payer, r.payee, amount, r.currency, r.resource, r.nonce, r.at))
  }

  function AccountToRow(currency: string, a: Account): AccountRow {
    AccountRow(currency, DecimalStr(a.limit), DecimalStr(a.balance))
  }

  function AccountFromRow(r: AccountRow): Option<Account> {
    var limit :- ParseDecimal(r.limit);
    var balance :- ParseDecimal(r.balance);
    Some(Account(limit, balance))
  }

  function WriteAll(write: Account -> AccountRow, values: map<string, Account>): map<string, AccountRow> {
    map a | a in values :: write(values[a])
  }

  function ExportAccounts(currency: string, accounts: map<string, Account>): map<string, AccountRow> {
    WriteAll(a => AccountToRow(currency, a), accounts)
  }

  /** Reads every row, or none when one is unreadable. */
  function ReadAll(read: AccountRow -> Option<Account>, rows: map<string, AccountRow>): Option<map<string, Account>> {
    if exists a | a in rows :: read(rows[a]).None? then None
    else Some(map a | a in rows :: read(rows[a]).value)
  }

  function ExportCharges(charges: seq<Charge>): seq<ChargeRow> {
    WriteList(ChargeToRow, charges)
  }

  function WriteList(write: Charge -> ChargeRow, values: seq<Charge>): seq<ChargeRow> {
    if values == [] then [] else WriteList(write, values[..|values| - 1]) + [write(values[|values| - 1])]
  }

  function ReadList(read: ChargeRow -> Option<Charge>, rows: seq<ChargeRow>): Option<seq<Charge>> {
    if rows == [] then Some([])
    else
      var init :- ReadList(read, rows[..|rows| - 1]);
      var last :- read(rows[|rows| - 1]);
      Some(init + [last])
  }

  function ExportState(s: State): Dump {
    Dump(s.currency,
         ExportAccounts(s.currency, s.book.accounts),
         ExportCharges(s.book.charges),
         ToRows(s.journal))
  }

  function Nonces(charges: seq<Charge>): set<string> {
    set c | c in charges :: c.nonce
  }

  /** An unreadable number anywhere makes the import raise. */
  function ImportState(digest: Digest, d: Dump, now: real): Option<State> {
    var accounts :- ReadAll(AccountFromRow, d.accounts);
    var charges :- ReadList(ChargeFromRow, d.charges);
    Some(State(d.currency, Book(accounts, charges, Nonces(charges)), FromRows(digest, d.audit, now)))
  }

  // ---------------------------------------------------------------- the register as an object

  class Ledger {
    const currency: string
    const audit: AuditLog
    var accounts: map<string, Account>
    var charges: seq<Charge>
    var seen: set<string>

    ghost function View(): State
      reads this, audit
    {
      State(currency, Book(accounts, charges, seen), audit.chain)
    }

    constructor (currency: string, digest: Digest, now: real)
      ensures View() == State(currency, EMPTY_BOOK, [Genesis(digest, now)])
      ensures audit.digest == digest && fresh(audit)
    {
      this.currency := currency;
      audit := new AuditLog(digest, [], now);
      accounts, charges, seen := map[], [], {};
    }

    constructor Restored(state: State, audit: AuditLog)
      requires audit.chain == state.journal
      ensures View() == state && this.audit == audit
    {
      this.currency := state.currency;
      this.audit := audit;
      accounts, charges, seen := state.book.accounts, state.book.charges, state.book.seen;
    }

    method Open(agent: string, limit: PriceArg, now: real) returns (r: Result<Account, LedgerError>)
      requires audit.chain != []
      modifies this`accounts, audit
      ensures (View(), r) == AfterOpen(audit.digest, old(View()), agent, limit, now)
    {
      if agent in accounts {
        return Ok(accounts[agent]);
      }
      match ParsePrice(limit, currency) {
        case Err(e) => return Err(BadPrice(e));
        case Ok(price) =>
          if price.currency != currency {
            return Err(WrongCurrency);
          }
          var account := Account(price.amount, 0);
          accounts := accounts[agent := account];
          var _ := audit.Log(now, "ACCOUNT_OPENED", agent, None, OpenedMeta(price.amount, currency));
          return Ok(account);
      }
    }

    /** The guards of `charge`, in their order; the account writes come after. */
    method Check(p: PaymentProof) returns (r: Result<int, LedgerError>)
      ensures r == Receivable(View(), p)
    {
      if p.nonce in seen {
        return Err(DuplicateNonce);
      }
      var parsed := ParseText(Quoted(p.amount, p.currency), "USD");
      if parsed.Err? {
        return Err(BadPrice(parsed.error));
      }
      var amount := parsed.value.amount;
      if parsed.value.currency != currency {
        return Err(WrongCurrency);
      }
      if amount <= 0 {
        return Err(NotPositive);
      }
      if p.payer !in accounts {
        return Err(UnknownAccount(p.payer));
      }
      if p.payTo !in accounts {
        return Err(UnknownAccount(p.payTo));
      }
      var payer := accounts[p.payer];
      var available := Quantize(payer.balance + payer.limit);
      if available.Err? {
        return Err(ContextOverflow);
      }
      if amount > available.value {
        return Err(CreditLimitExceeded);
      }
      if Quantize(payer.balance - amount).Err? {
        return Err(ContextOverflow);
      }
      return Ok(amount);
    }

    method Charge(p: PaymentProof, at: int, now: real) returns (r: Result<Charge, LedgerError>)
      requires audit.chain != []
      modifies this, audit
      ensures (View(), r) == AfterCharge(audit.digest, old(View()), p, at, now)
    {
      var checked := Check(p);
      if checked.Err? {
        return Err(checked.error);
      }
      r := Enter(p, checked.value, at, now);
    }

    /** Debits, then credits from the balance read before, then enters and seals the charge. */
    method Enter(p: PaymentProof, amount: int, at: int, now: real) returns (r: Result<Charge, LedgerError>)
      requires audit.chain != [] && p.payer in accounts && p.payTo in accounts
      modifies this, audit
      ensures (View(), r) == Booked(audit.digest, old(View()), p, amount, at, now)
    {
      var payer, payee := accounts[p.payer], accounts[p.payTo];
      accounts := accounts[p.payer := Account(payer.limit, payer.balance - amount)];
      var credited := Quantize(payee.balance + amount);
      if credited.Err? {
        return Err(ContextOverflow);
      }
      accounts := accounts[p.payTo := Account(payee.limit, credited.value)];
      var charge := Charged(p.payer, p.payTo, amount, currency, p.resource, p.nonce, at);
      charges := charges + [charge];
      seen := seen + {p.nonce};
      var _ := audit.Log(now, "CHARGE", p.payer, Some(p.payTo), ChargeMeta(charge));
      return Ok(charge);
    }

    method Settle(agent: string, amount: PriceArg, now: real) returns (r: Result<Account, LedgerError>)
      requires audit.chain != []
      modifies this`accounts, audit
      ensures (View(), r) == AfterSettle(audit.digest, old(View()), agent, amount, now)
    {
      var received := ParsePrice(amount, currency);
      if received.Err? {
        return Err(BadPrice(received.error));
      }
      if received.value.currency != currency {
        return Err(WrongCurrency);
      }
      if received.value.amount <= 0 {
        return Err(NotPositive);
      }
      if agent !in accounts {
        return Err(UnknownAccount(agent));
      }
      var balance := Quantize(accounts[agent].balance + received.value.amount);
      if balance.Err? {
        return Err(ContextOverflow);
      }
      var updated := accounts[agent].(balance := balance.value);
      accounts := accounts[agent := updated];
      var _ := audit.Log(now, "SETTLEMENT", agent, None,
                         SettlementMeta(received.value.amount, currency, balance.value));
      return Ok(updated);
    }
  }
}
