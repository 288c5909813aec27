/** Custody: balances by organisation and currency, and one hold for each task. Amounts are real numbers. */
module Escrow {
  import opened Wrappers
  import opened Sums

  /** An organisation and a currency. */
  datatype Purse = Purse(org: string, currency: string)

  datatype Status = Held | Released | Refunded

  datatype Hold = Hold(
    taskId: string, payer: string, payee: string, amount: real, currency: string, status: Status, autoRelease: bool)

  datatype EscrowError = NotPositive | NoTask | HoldExists | InsufficientFunds | NoHold | AlreadyResolved

  type Balances = map<Purse, real>
  type Holds = map<string, Hold>

  datatype Custody = Custody(balances: Balances, holds: Holds)

  function Balance(b: Balances, p: Purse): real {
    if p in b then b[p] else 0.0
  }

  function Credited(b: Balances, p: Purse, amount: real): Balances {
    b[p := Balance(b, p) + amount]
  }

  /** None when the balance is insufficient. */
  function Debited(b: Balances, p: Purse, amount: real): Option<Balances> {
    if Balance(b, p) < amount then None else Some(b[p := Balance(b, p) - amount])
  }

  function AfterGrant(b: Balances, p: Purse, amount: real): (Balances, Result<real, EscrowError>) {
    if amount <= 0.0 then (b, Err(NotPositive)) else (Credited(b, p, amount), Ok(Balance(b, p) + amount))
  }

  function AfterHold(c: Custody, hold: Hold): (Custody, Result<Hold, EscrowError>) {
    if hold.taskId == "" then (c, Err(NoTask))
    else if hold.amount <= 0.0 then (c, Err(NotPositive))
    else if hold.taskId in c.holds then (c, Err(HoldExists))
    else match Debited(c.balances, Purse(hold.payer, hold.currency), hold.amount)
      case None => (c, Err(InsufficientFunds))
      case Some(balances) => (Custody(balances, c.holds[hold.taskId := hold]), Ok(hold))
  }

  function RequireHeld(holds: Holds, task: string): Result<Hold, EscrowError> {
    if task !in holds then Err(NoHold)
    else if holds[task].status != Held then Err(AlreadyResolved)
    else Ok(holds[task])
  }

  /** The side that is paid: the payee on release, the payer on refund. */
  function Side(hold: Hold, outcome: Status): Purse {
    Purse(if outcome == Released then hold.payee else hold.payer, hold.currency)
  }

  function AfterResolve(c: Custody, task: string, outcome: Status): (Custody, Result<Hold, EscrowError>) {
    match RequireHeld(c.holds, task)
    case Err(e) => (c, Err(e))
    case Ok(hold) =>
      (Custody(Credited(c.balances, Side(hold, outcome), hold.amount), c.holds[task := hold.(status := outcome)]),
       Ok(hold.(status := outcome)))
  }

  // ---------------------------------------------------------------- export and import

  datatype BalanceRow = BalanceRow(purse: Purse, amount: real)

  datatype Dump = Dump(ledger: seq<BalanceRow>, holds: seq<Hold>)

  function ImportedBalances(rows: seq<BalanceRow>): Balances {
    if rows == [] then map[]
    else ImportedBalances(rows[..|rows| - 1])[rows[|rows| - 1].purse := rows[|rows| - 1].amount]
  }

  function ImportedHolds(rows: seq<Hold>): Holds {
    if rows == [] then map[]
    else ImportedHolds(rows[..|rows| - 1])[rows[|rows| - 1].taskId := rows[|rows| - 1]]
  }

  function Imported(d: Dump): Custody {
    Custody(ImportedBalances(d.ledger), ImportedHolds(d.holds))
  }

  /** The rows of an export, in any order: one for each purse and one for each hold. */
  ghost predicate Exports(d: Dump, c: Custody) {
    && (forall i, j :: 0 <= i < j < |d.ledger| ==> d.ledger[i].purse != d.ledger[j].purse)
    && (forall i, j :: 0 <= i < j < |d.holds| ==> d.holds[i].taskId != d.holds[j].taskId)
    && (forall p, x :: BalanceRow(p, x) in d.ledger <==> p in c.balances && c.balances[p] == x)
    && (forall h :: h in d.holds <==> h.taskId in c.holds && c.holds[h.taskId] == h)
  }

  // ---------------------------------------------------------------- the objects

  class SimulatedLedger {
    var balances: Balances

    constructor ()
      ensures balances == map[]
    {
      balances := map[];
    }

    method Grant(org: string, amount: real, currency: string) returns (r: Result<real, EscrowError>)
      modifies this
      ensures (balances, r) == AfterGrant(old(balances), Purse(org, currency), amount)
    {
      if amount <= 0.0 {
        return Err(NotPositive);
      }
      var key := Purse(org, currency);
      balances := balances[key := Balance(balances, key) + amount];
      return Ok(balances[key]);
    }

    method Debit(org: string, amount: real, currency: string) returns (done: bool)
      modifies this
      ensures done <==> Debited(old(balances), Purse(org, currency), amount).Some?
      ensures balances == if done then Debited(old(balances), Purse(org, currency), amount).value else old(balances)
    {
      var key := Purse(org, currency);
      var current := Balance(balances, key);
      if current < amount {
        return false;
      }
      balances := balances[key := current - amount];
      return true;
    }

    method Credit(org: string, amount: real, currency: string)
      modifies this
      ensures balances == Credited(old(balances), Purse(org, currency), amount)
    {
      var key := Purse(org, currency);
      balances := balances[key := Balance(balances, key) + amount];
    }

    method ImportState(rows: seq<BalanceRow>)
      modifies this
      ensures balances == ImportedBalances(rows)
    {
      balances := map[];
      for i := 0 to |rows|
        invariant balances == ImportedBalances(rows[..i])
      {
        assert rows[..i + 1][..i] == rows[..i];
        balances := balances[rows[i].purse := rows[i].amount];
      }
      assert rows[..|rows|] == rows;
    }
  }

  class EscrowManager {
    const ledger: SimulatedLedger
    var holds: Holds

    function View(): Custody
      reads this, ledger
    {
      Custody(ledger.balances, holds)
    }

    constructor (ledger: SimulatedLedger)
      ensures this.ledger == ledger && holds == map[]
    {
      this.ledger, holds := ledger, map[];
    }

    method CreateHold(hold: Hold) returns (r: Result<Hold, EscrowError>)
      modifies this, ledger
      ensures (View(), r) == AfterHold(old(View()), hold)
    {
      if hold.taskId == "" {
        return Err(NoTask);
      }
      if hold.amount <= 0.0 {
        return Err(NotPositive);
      }
      if hold.taskId in holds {
        return Err(HoldExists);
      }
      var debited := ledger.Debit(hold.payer, hold.amount, hold.currency);
      if !debited {
        return Err(InsufficientFunds);
      }
      holds := holds[hold.taskId := hold];
      return Ok(hold);
    }

    /** To the payee: the task was delivered. */
    method Release(task: string) returns (r: Result<Hold, EscrowError>)
      modifies this, ledger
      ensures (View(), r) == AfterResolve(old(View()), task, Released)
    {
      r := RequireHeld(holds, task);
      if r.Ok? {
        var hold := r.value;
        ledger.Credit(hold.payee, hold.amount, hold.currency);
        r := Ok(hold.(status := Released));
        holds := holds[task := r.value];
      }
    }

    /** Back to the payer: the task failed, was cancelled, or was disputed. */
    method Refund(task: string) returns (r: Result<Hold, EscrowError>)
      modifies this, ledger
      ensures (View(), r) == AfterResolve(old(View()), task, Refunded)
    {
      r := RequireHeld(holds, task);
      if r.Ok? {
        var hold := r.value;
        ledger.Credit(hold.payer, hold.amount, hold.currency);
        r := Ok(hold.(status := Refunded));
        holds := holds[task := r.value];
      }
    }

    method ImportState(d: Dump)
      modifies this, ledger
      ensures View() == Imported(d)
    {
      ledger.ImportState(d.ledger);
      holds := map[];
      for i := 0 to |d.holds|
        invariant ledger.balances == ImportedBalances(d.ledger) && holds == ImportedHolds(d.holds[..i])
      {
        assert d.holds[..i + 1][..i] == d.holds[..i];
        holds := holds[d.holds[i].taskId := d.holds[i]];
      }
      assert d.holds[..|d.holds|] == d.holds;
    }
  }

  // ---------------------------------------------------------------- where the money is

  /** Balances of one currency, by organisation. */
  ghost function InCurrency(b: Balances, currency: string): map<Purse, real> {
    map p | p in b && p.currency == currency :: b[p]
  }

  /** Amounts held in one currency, by task. */
  ghost function HeldIn(holds: Holds, currency: string): map<string, real> {
    map t | t in holds && holds[t].status == Held && holds[t].currency == currency :: holds[t].amount
  }

  ghost function Funds(c: Custody, currency: string): real {
    Total(InCurrency(c.balances, currency)) + Total(HeldIn(c.holds, currency))
  }

  lemma {:induction false} BalanceWritten(b: Balances, p: Purse, x: real, currency: string)
    ensures Total(InCurrency(b[p := x], currency))
      == Total(InCurrency(b, currency)) + if p.currency == currency then x - Balance(b, p) else 0.0
  {
    hide Total;
    var m, n := InCurrency(b, currency), InCurrency(b[p := x], currency);
    if p.currency == currency {
      assert n == m[p := x];
      TotalUpdate(m, p, x);
    } else {
      assert n == m;
    }
  }

  lemma {:induction false} HoldAdded(holds: Holds, hold: Hold, currency: string)
    requires hold.taskId !in holds && hold.status == Held
    ensures Total(HeldIn(holds[hold.taskId := hold], currency))
      == Total(HeldIn(holds, currency)) + if hold.currency == currency then hold.amount else 0.0
  {
    hide Total;
    var m, n := HeldIn(holds, currency), HeldIn(holds[hold.taskId := hold], currency);
    if hold.currency == currency {
      assert n == m[hold.taskId := hold.amount];
      TotalUpdate(m, hold.taskId, hold.amount);
    } else {
      assert n == m;
    }
  }

  lemma {:induction false} HoldResolved(holds: Holds, task: string, outcome: Status, currency: string)
    requires task in holds && holds[task].status == Held && outcome != Held
    ensures Total(HeldIn(holds[task := holds[task].(status := outcome)], currency))
      == Total(HeldIn(holds, currency)) - if holds[task].currency == currency then holds[task].amount else 0.0
  {
    hide Total;
    var m, n := HeldIn(holds, currency), HeldIn(holds[task := holds[task].(status := outcome)], currency);
    if holds[task].currency == currency {
      assert n == m - {task};
      TotalRemove(m, task);
    } else {
      assert n == m;
    }
  }

  // ---------------------------------------------------------------- runs

  datatype Event =
    | Granted(purse: Purse, amount: real)
    | Holding(hold: Hold)                     // a new hold, with status Held
    | Resolving(task: string, outcome: Status)
    | Restored(dump: Dump)                    // an export of the current state, imported into a new hub

  function Step(c: Custody, e: Event): Custody {
    match e
    case Granted(p, amount) => c.(balances := AfterGrant(c.balances, p, amount).0)
    case Holding(hold) => AfterHold(c, hold).0
    case Resolving(task, outcome) => AfterResolve(c, task, outcome).0
    case Restored(dump) => Imported(dump)
  }

  function Run(c: Custody, events: seq<Event>): Custody {
    if events == [] then c else Step(Run(c, events[..|events| - 1]), events[|events| - 1])
  }

  ghost predicate Proper(c: Custody, e: Event) {
    match e
    case Granted(_, _) => true
    case Holding(hold) => hold.status == Held
    case Resolving(_, outcome) => outcome != Held
    case Restored(dump) => Exports(dump, c)
  }

  ghost predicate ProperRun(c: Custody, events: seq<Event>) {
    events == [] ||
    (ProperRun(c, events[..|events| - 1]) && Proper(Run(c, events[..|events| - 1]), events[|events| - 1]))
  }

  /** All that was ever granted in a currency. */
  function GrantTotal(events: seq<Event>, currency: string): real {
    if events == [] then 0.0
    else
      var e := events[|events| - 1];
      GrantTotal(events[..|events| - 1], currency)
        + if e.Granted? && e.amount > 0.0 && e.purse.currency == currency then e.amount else 0.0
  }

  /** No balance is negative, and holds are positive and known under their own task. */
  ghost predicate Sound(c: Custody) {
    && (forall p :: p in c.balances ==> c.balances[p] >= 0.0)
    && (forall t :: t in c.holds ==> c.holds[t].taskId == t && c.holds[t].amount > 0.0)
  }

  lemma {:induction false} BalancesReadBack(rows: seq<BalanceRow>, p: Purse)
    requires forall i, j :: 0 <= i < j < |rows| ==> rows[i].purse != rows[j].purse
    ensures p in ImportedBalances(rows) <==> exists i :: 0 <= i < |rows| && rows[i].purse == p
    ensures p in ImportedBalances(rows) ==> BalanceRow(p, ImportedBalances(rows)[p]) in rows
  {
    if rows != [] {
      BalancesReadBack(rows[..|rows| - 1], p);
      assert rows[|rows| - 1] in rows;
    }
  }

  lemma {:induction false} HoldsReadBack(rows: seq<Hold>, t: string)
    requires forall i, j :: 0 <= i < j < |rows| ==> rows[i].taskId != rows[j].taskId
    ensures t in ImportedHolds(rows) <==> exists i :: 0 <= i < |rows| && rows[i].taskId == t
    ensures t in ImportedHolds(rows) ==> ImportedHolds(rows)[t] in rows && ImportedHolds(rows)[t].taskId == t
  {
    if rows != [] {
      HoldsReadBack(rows[..|rows| - 1], t);
      assert rows[|rows| - 1] in rows;
    }
  }

  /** Importing an export gives back the same balances and the same holds, whatever the order of the rows. */
  lemma {:induction false} ExportThenImport(d: Dump, c: Custody)
    requires Exports(d, c) && Sound(c)
    ensures Imported(d) == c
  {
    forall p
      ensures p in ImportedBalances(d.ledger) <==> p in c.balances
      ensures p in c.balances ==> ImportedBalances(d.ledger)[p] == c.balances[p]
    {
      BalancesReadBack(d.ledger, p);
      if p in c.balances {
        assert BalanceRow(p, c.balances[p]) in d.ledger;
      }
      if i :| 0 <= i < |d.ledger| && d.ledger[i].purse == p {
        assert BalanceRow(p, d.ledger[i].amount) in d.ledger;
      }
    }
    forall t
      ensures t in ImportedHolds(d.holds) <==> t in c.holds
      ensures t in c.holds ==> ImportedHolds(d.holds)[t] == c.holds[t]
    {
      HoldsReadBack(d.holds, t);
      if t in c.holds {
        assert c.holds[t] in d.holds;
      }
      if i :| 0 <= i < |d.holds| && d.holds[i].taskId == t {
        assert d.holds[i] in d.holds;
      }
    }
    assert ImportedBalances(d.ledger) == c.balances;
    assert ImportedHolds(d.holds) == c.holds;
  }

  /** Money changes its place and never its amount, except by a grant. */
  lemma {:induction false} StepConserves(c: Custody, e: Event, currency: string)
    requires Sound(c) && Proper(c, e)
    ensures Sound(Step(c, e))
    ensures Funds(Step(c, e), currency)
      == Funds(c, currency) + if e.Granted? && e.amount > 0.0 && e.purse.currency == currency then e.amount else 0.0
  {
    hide Total, InCurrency, HeldIn;
    match e
    case Granted(p, amount) => BalanceWritten(c.balances, p, Balance(c.balances, p) + amount, currency);
    case Holding(hold) =>
      if AfterHold(c, hold).1.Ok? {
        var p := Purse(hold.payer, hold.currency);
        BalanceWritten(c.balances, p, Balance(c.balances, p) - hold.amount, currency);
        HoldAdded(c.holds, hold, currency);
      }
    case Resolving(task, outcome) =>
      if AfterResolve(c, task, outcome).1.Ok? {
        var p := Side(c.holds[task], outcome);
        BalanceWritten(c.balances, p, Balance(c.balances, p) + c.holds[task].amount, currency);
        HoldResolved(c.holds, task, outcome, currency);
      }
    case Restored(dump) => ExportThenImport(dump, c);
  }

  const EMPTY := Custody(map[], map[])

  lemma EmptyFunds(currency: string)
    ensures Funds(EMPTY, currency) == 0.0
  {
    assert InCurrency(map[], currency) == map[] && HeldIn(map[], currency) == map[];
  }

  /**
    Over every run and in every currency, balances and held amounts add up to what was granted; no balance
    is negative.
  */
  lemma {:induction false} EveryRunConserves(events: seq<Event>, currency: string)
    requires ProperRun(EMPTY, events)
    ensures var c := Run(EMPTY, events);
      Sound(c) && Funds(c, currency) == GrantTotal(events, currency)
  {
    hide Funds, Step, Sound;
    if events == [] {
      EmptySound();
      EmptyFunds(currency);
    } else {
      var init, last := events[..|events| - 1], events[|events| - 1];
      EveryRunConserves(init, currency);
      StepConserves(Run(EMPTY, init), last, currency);
    }
  }

  lemma EmptySound()
    ensures Sound(EMPTY)
  {
  }

  /** Leaving Held pays exactly one side, by the amount of the hold, and touches nothing else. */
  lemma {:induction false} LeavingHeldPaysOneSide(c: Custody, e: Event, task: string)
    requires Sound(c) && Proper(c, e) && task in c.holds && c.holds[task].status == Held
    ensures task in Step(c, e).holds
    ensures var d := Step(c, e);
      var hold := c.holds[task];
      if d.holds[task].status == Held then d.holds[task] == hold
      else
        && d.holds == c.holds[task := hold.(status := d.holds[task].status)]
        && d.balances == Credited(c.balances, Side(hold, d.holds[task].status), hold.amount)
  {
    if e.Restored? {
      ExportThenImport(e.dump, c);
    }
  }

  /** A resolved hold stays as it is: it never pays again. */
  lemma {:induction false} ResolvedStays(c: Custody, events: seq<Event>, task: string)
    requires Sound(c) && ProperRun(c, events) && task in c.holds && c.holds[task].status != Held
    ensures Sound(Run(c, events)) && task in Run(c, events).holds && Run(c, events).holds[task] == c.holds[task]
  {
    hide Sound, Step;
    if events != [] {
      var init, last := events[..|events| - 1], events[|events| - 1];
      ResolvedStays(c, init, task);
      StepConserves(Run(c, init), last, "");
      ResolvedStep(Run(c, init), last, task);
    }
  }

  lemma {:induction false} ResolvedStep(c: Custody, e: Event, task: string)
    requires Sound(c) && Proper(c, e) && task in c.holds && c.holds[task].status != Held
    ensures task in Step(c, e).holds && Step(c, e).holds[task] == c.holds[task]
  {
    if e.Restored? {
      ExportThenImport(e.dump, c);
    }
  }

  // ---------------------------------------------------------------- when each operation succeeds

  /** One purse changes by this amount, and no other. */
  ghost predicate Moves(before: Balances, after: Balances, p: Purse, amount: real) {
    Balance(after, p) == Balance(before, p) + amount && forall q :: q != p ==> Balance(after, q) == Balance(before, q)
  }

  /** A grant succeeds if and only if it is positive. */
  lemma {:induction false} GrantIff(b: Balances, org: string, currency: string, amount: real)
    ensures var (after, r) := AfterGrant(b, Purse(org, currency), amount);
      && (r.Ok? <==> amount > 0.0) && (r.Err? ==> after == b)
      && (r.Ok? ==> Moves(b, after, Purse(org, currency), amount) && r.value == Balance(after, Purse(org, currency)))
  {
  }

  /**
    A hold is made if and only if it names a task that has none, for a positive amount that the payer has.
    Then exactly the payer has that much less, and the task has the hold; otherwise nothing changes.
  */
  lemma {:induction false} HoldIff(c: Custody, hold: Hold)
    ensures var (d, r) := AfterHold(c, hold);
      && (r.Ok? <==>
            && hold.taskId != "" && hold.amount > 0.0 && hold.taskId !in c.holds
            && hold.amount <= Balance(c.balances, Purse(hold.payer, hold.currency)))
      && (r.Err? ==> d == c)
      && (r.Ok? ==>
            && r.value == hold && d.holds == c.holds[hold.taskId := hold]
            && Moves(c.balances, d.balances, Purse(hold.payer, hold.currency), -hold.amount))
  {
  }

  /**
    A hold is resolved if and only if it is held. Then exactly the payee of a release, or the payer of a
    refund, has its amount more, and the hold its new status; otherwise nothing changes.
  */
  lemma {:induction false} ResolveIff(c: Custody, task: string, outcome: Status)
    requires outcome != Held
    ensures var (d, r) := AfterResolve(c, task, outcome);
      && (r.Ok? <==> task in c.holds && c.holds[task].status == Held)
      && (r.Err? ==> d == c)
      && (r.Ok? ==>
            && var hold := c.holds[task];
            && r.value == hold.(status := outcome) && d.holds == c.holds[task := r.value]
            && (outcome == Released ==> Moves(c.balances, d.balances, Purse(hold.payee, hold.currency), hold.amount))
            && (outcome == Refunded ==> Moves(c.balances, d.balances, Purse(hold.payer, hold.currency), hold.amount)))
  {
  }
}
