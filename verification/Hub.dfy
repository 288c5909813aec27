/** The hub's task desk: admission, human validation, custody, and the fate of a task. */
module Hub {
  import opened Wrappers
  import opened Escrow
  import opened Guardrails
  import Backpressure

  datatype TaskStatus = Pending | Running | Completed | Failed

  /** An amount that `float` cannot read is None. */
  datatype EscrowRequest = EscrowRequest(amount: Option<real>, currency: string, autoRelease: bool)

  /** A task as it is submitted; one that is not well formed raises when it is read. */
  datatype RawTask = RawTask(taskId: string, assignee: string, status: TaskStatus, escrow: Option<EscrowRequest>,
                             wellFormed: bool)
  {
    predicate AmountRead() {
      escrow.Some? ==> escrow.value.amount.Some?
    }
  }

  datatype Waiting = Waiting(task: RawTask, submitter: string)

  /** Only a hub that was given a way to finalise tasks can release what it held back. */
  datatype Config = Config(
    orgOf: string -> string, policy: Policy, threshold: int, limits: Backpressure.Limits, canFinalize: bool)

  datatype HubState = HubState(
    custody: Custody, registry: map<string, TaskStatus>, pending: map<string, Waiting>,
    engine: Engine, gate: Backpressure.State)

  // ---------------------------------------------------------------- the load

  predicate Terminal(status: TaskStatus) {
    status == Completed || status == Failed
  }

  /** Accepted and not terminal yet. */
  function InFlight(registry: map<string, TaskStatus>): int {
    |set t | t in registry && !Terminal(registry[t])|
  }

  /** Accepted and not taken up yet. */
  function QueueDepth(registry: map<string, TaskStatus>): int {
    |set t | t in registry && registry[t] == Pending|
  }

  // ---------------------------------------------------------------- from submission to delivery

  /** The last two are exceptions. */
  datatype Finalized = Delivered | HoldRefused(why: EscrowError) | UnreadableAmount | Malformed

  /** A task without an identifier is given one that is drawn at random. */
  function KeyOf(task: RawTask, drawn: string): string {
    if task.taskId == "" then drawn else task.taskId
  }

  function HoldFor(config: Config, task: RawTask, submitter: string): Hold
    requires task.escrow.Some? && task.AmountRead()
  {
    var e := task.escrow.value;
    Hold(task.taskId, config.orgOf(submitter), config.orgOf(task.assignee), e.amount.value, e.currency, Held,
         e.autoRelease)
  }

  /** The amount is read first; then the hold comes, and stays when the task turns out to be malformed. */
  function AfterFinalize(config: Config, h: HubState, task: RawTask, submitter: string, drawn: string)
    : (HubState, Finalized)
  {
    if task.escrow.None? then AfterRemember(h, task, drawn)
    else if !task.AmountRead() then (h, UnreadableAmount)
    else
      var (custody, held) := AfterHold(h.custody, HoldFor(config, task, submitter));
      match held
      case Err(e) => (h, HoldRefused(e))
      case Ok(_) => AfterRemember(h.(custody := custody), task, drawn)
  }

  function AfterRemember(h: HubState, task: RawTask, drawn: string): (HubState, Finalized) {
    if !task.wellFormed then (h, Malformed)
    else (h.(registry := h.registry[KeyOf(task, drawn) := task.status]), Delivered)
  }

  datatype Submitted =
    | Violation(rule: Rule) | Saturated(why: Backpressure.Rejection) | HeldBack | Passed(fate: Finalized)

  /** Quota, then load, then human validation: nothing is committed before all three. */
  function AfterSubmit(config: Config, h: HubState, task: RawTask, submitter: string, s: Submission, now: real,
                       heldBack: bool, drawn: string): (HubState, Submitted)
  {
    var (engine, violation) := AfterSubmission(h.engine, config.policy, config.threshold, s);
    var checked := h.(engine := engine);
    if violation.Some? then (checked, Violation(violation.value))
    else AfterLoadCheck(config, checked, task, submitter, now, heldBack, drawn)
  }

  function AfterLoadCheck(config: Config, h: HubState, task: RawTask, submitter: string, now: real, heldBack: bool,
                          drawn: string)
    : (HubState, Submitted)
  {
    var (gate, refusal) := Backpressure.AfterAdmit(config.limits, h.gate, InFlight(h.registry), QueueDepth(h.registry),
                                                   now);
    var admitted := h.(gate := gate);
    if refusal.Some? then (admitted, Saturated(refusal.value))
    else if heldBack then (admitted.(pending := h.pending[task.taskId := Waiting(task, submitter)]), HeldBack)
    else
      var (next, fate) := AfterFinalize(config, admitted, task, submitter, drawn);
      (next, Passed(fate))
  }

  /** Tasks of a peer hub pass the guardrails only; no hold is made for them. */
  function AfterFederatedSubmit(config: Config, h: HubState, task: RawTask, s: Submission, drawn: string)
    : (HubState, Submitted)
  {
    var (engine, violation) := AfterSubmission(h.engine, config.policy, config.threshold, s);
    var checked := h.(engine := engine);
    if violation.Some? then (checked, Violation(violation.value))
    else
      var (next, fate) := AfterRemember(checked, task, drawn);
      (next, Passed(fate))
  }

  // ---------------------------------------------------------------- the human queue

  datatype Approval = NotWaiting | OutOfScope | CannotFinalize | Approved(fate: Finalized)

  /** Popped, finalised, and put back if the hold was refused. */
  function AfterApprove(config: Config, h: HubState, id: string, inScope: bool, drawn: string): (HubState, Approval) {
    if id !in h.pending then (h, NotWaiting)
    else if !inScope then (h, OutOfScope)
    else if !config.canFinalize then (h.(pending := h.pending - {id}), CannotFinalize)
    else
      var entry := h.pending[id];
      var (next, fate) := AfterFinalize(config, h.(pending := h.pending - {id}), entry.task, entry.submitter, drawn);
      if fate.HoldRefused? then (next.(pending := next.pending[id := entry]), Approved(fate))
      else (next, Approved(fate))
  }

  function AfterDeny(h: HubState, id: string, inScope: bool): (HubState, bool) {
    if id !in h.pending || !inScope then (h, false) else (h.(pending := h.pending - {id}), true)
  }

  // ---------------------------------------------------------------- the fate of a task

  function ResolvedIf(c: Custody, id: string, outcome: Status, condition: bool): Custody {
    if condition && id in c.holds && c.holds[id].status == Held then AfterResolve(c, id, outcome).0 else c
  }

  /** A registered task that reports its end settles its hold: completed pays the payee, failed pays back. */
  function AfterUpdate(h: HubState, td: RawTask): HubState {
    if td.taskId !in h.registry || !td.wellFormed then h
    else
      var c := h.custody;
      h.(registry := h.registry[td.taskId := td.status],
         custody := match td.status
                    case Completed =>
                      ResolvedIf(c, td.taskId, Released, td.taskId in c.holds && c.holds[td.taskId].autoRelease)
                    case Failed => ResolvedIf(c, td.taskId, Refunded, true)
                    case _ => c)
  }

  /** An update from a peer hub leaves custody alone. */
  function AfterFederatedUpdate(h: HubState, td: RawTask): HubState {
    if td.taskId !in h.registry || !td.wellFormed then h else h.(registry := h.registry[td.taskId := td.status])
  }

  /** So does a cancellation by an administrator. */
  function AfterCancel(h: HubState, id: string, inScope: bool): (HubState, bool) {
    if id !in h.registry || !inScope || Terminal(h.registry[id]) then (h, false)
    else (h.(registry := h.registry[id := Failed]), true)
  }

  class TaskDesk {
    const config: Config
    const custody: EscrowManager
    const engine: GuardrailEngine
    const gate: Backpressure.BackpressureGate
    var registry: map<string, TaskStatus>
    var pending: map<string, Waiting>

    ghost predicate Valid() {
      engine.breaker.threshold == config.threshold && gate.limits == config.limits
    }

    function View(): HubState
      reads this, custody, custody.ledger, engine, engine.tracker, engine.breaker, gate
    {
      HubState(custody.View(), registry, pending, engine.View(), gate.View())
    }

    constructor (config: Config, custody: EscrowManager, engine: GuardrailEngine, gate: Backpressure.BackpressureGate)
      requires engine.breaker.threshold == config.threshold && gate.limits == config.limits
      ensures Valid() && registry == map[] && pending == map[]
      ensures this.custody == custody && this.engine == engine && this.gate == gate && this.config == config
    {
      this.config, this.custody, this.engine, this.gate := config, custody, engine, gate;
      registry, pending := map[], map[];
    }

    method Finalize(task: RawTask, submitter: string, drawn: string) returns (fate: Finalized)
      requires Valid()
      modifies this`registry, custody, custody.ledger
      ensures (View(), fate) == AfterFinalize(config, old(View()), task, submitter, drawn)
    {
      if task.escrow.Some? {
        if task.escrow.value.amount.None? {
          return UnreadableAmount;
        }
        var held := custody.CreateHold(HoldFor(config, task, submitter));
        if held.Err? {
          return HoldRefused(held.error);
        }
      }
      if !task.wellFormed {
        return Malformed;
      }
      registry := registry[KeyOf(task, drawn) := task.status];
      return Delivered;
    }

    method Submit(task: RawTask, submitter: string, s: Submission, now: real, heldBack: bool, drawn: string)
      returns (r: Submitted)
      requires Valid()
      modifies this, custody, custody.ledger, engine.tracker, engine.breaker, gate
      ensures (View(), r) == AfterSubmit(config, old(View()), task, submitter, s, now, heldBack, drawn)
    {
      hide AfterSubmission, AfterFinalize, Backpressure.AfterAdmit, InFlight, QueueDepth;
      var violation := engine.Validate(config.policy, s);
      if violation.Some? {
        return Violation(violation.value);
      }
      var refusal := gate.Admit(InFlight(registry), QueueDepth(registry), now);
      if refusal.Some? {
        return Saturated(refusal.value);
      }
      if heldBack {
        pending := pending[task.taskId := Waiting(task, submitter)];
        return HeldBack;
      }
      var fate := Finalize(task, submitter, drawn);
      return Passed(fate);
    }

    method FederatedSubmit(task: RawTask, s: Submission, drawn: string) returns (r: Submitted)
      requires Valid()
      modifies this`registry, engine.tracker, engine.breaker
      ensures (View(), r) == AfterFederatedSubmit(config, old(View()), task, s, drawn)
    {
      hide AfterSubmission;
      var violation := engine.Validate(config.policy, s);
      if violation.Some? {
        return Violation(violation.value);
      }
      if !task.wellFormed {
        return Passed(Malformed);
      }
      registry := registry[KeyOf(task, drawn) := task.status];
      return Passed(Delivered);
    }

    method Approve(id: string, inScope: bool, drawn: string) returns (r: Approval)
      requires Valid()
      modifies this, custody, custody.ledger
      ensures (View(), r) == AfterApprove(config, old(View()), id, inScope, drawn)
    {
      hide AfterFinalize;
      if id !in pending {
        return NotWaiting;
      }
      if !inScope {
        return OutOfScope;
      }
      var entry := pending[id];
      pending := pending - {id};
      if !config.canFinalize {
        return CannotFinalize;
      }
      var fate := Finalize(entry.task, entry.submitter, drawn);
      if fate.HoldRefused? {
        pending := pending[id := entry];
      }
      return Approved(fate);
    }

    method Deny(id: string, inScope: bool) returns (done: bool)
      modifies this`pending
      ensures (View(), done) == AfterDeny(old(View()), id, inScope)
    {
      if id !in pending || !inScope {
        return false;
      }
      pending := pending - {id};
      return true;
    }

    method Update(td: RawTask)
      requires Valid()
      modifies this`registry, custody, custody.ledger
      ensures View() == AfterUpdate(old(View()), td)
    {
      if td.taskId !in registry || !td.wellFormed {
        return;
      }
      registry := registry[td.taskId := td.status];
      if td.taskId in custody.holds && custody.holds[td.taskId].status == Held {
        if td.status == Completed && custody.holds[td.taskId].autoRelease {
          var _ := custody.Release(td.taskId);
        } else if td.status == Failed {
          var _ := custody.Refund(td.taskId);
        }
      }
    }

    method FederatedUpdate(td: RawTask)
      modifies this`registry
      ensures View() == AfterFederatedUpdate(old(View()), td)
    {
      if td.taskId in registry && td.wellFormed {
        registry := registry[td.taskId := td.status];
      }
    }

    method Cancel(id: string, inScope: bool) returns (done: bool)
      modifies this`registry
      ensures (View(), done) == AfterCancel(old(View()), id, inScope)
    {
      if id !in registry || !inScope || Terminal(registry[id]) {
        return false;
      }
      registry := registry[id := Failed];
      return true;
    }
  }
}
