/** When a task is delivered, who pays for it and who is to be paid, and which load the hub looks at. */
module DeskLaws {
  import opened Wrappers
  import opened Escrow
  import opened Guardrails
  import opened Hub
  import opened AdmissionLaws
  import Backpressure

  /** The submitter's organisation can pay what the task asks to be held. */
  predicate Payable(config: Config, c: Custody, task: RawTask, submitter: string)
    requires task.escrow.Some?
  {
    var e := task.escrow.value;
    && e.amount.Some? && task.taskId != "" && task.taskId !in c.holds && e.amount.value > 0.0
    && e.amount.value <= Balance(c.balances, Purse(config.orgOf(submitter), e.currency))
  }

  /** The submitter's organisation paid, for the assignee's. */
  ghost predicate HeldFor(config: Config, before: Custody, after: Custody, task: RawTask, submitter: string)
    requires task.escrow.Some? && task.escrow.value.amount.Some?
  {
    var e := task.escrow.value;
    && after.holds == before.holds[task.taskId :=
         Hold(task.taskId, config.orgOf(submitter), config.orgOf(task.assignee), e.amount.value, e.currency, Held,
              e.autoRelease)]
    && Moves(before.balances, after.balances, Purse(config.orgOf(submitter), e.currency), -e.amount.value)
  }

  /** Everything but custody and registry is as it was. */
  predicate DeskOnly(h: HubState, t: HubState) {
    t.pending == h.pending && t.engine == h.engine && t.gate == h.gate
  }

  /**
    A task is delivered if and only if it is well formed and what it asks to be held, if anything, can be paid
    by the submitter's organisation. Then it is registered with its status, under its own identifier or the
    one drawn for it; and the submitter's organisation has paid into a hold for the assignee's.
  */
  lemma {:induction false} DeliveredIff(config: Config, h: HubState, task: RawTask, submitter: string, drawn: string)
    ensures var (t, fate) := AfterFinalize(config, h, task, submitter, drawn);
      && (fate.Delivered? <==> task.wellFormed && (task.escrow.Some? ==> Payable(config, h.custody, task, submitter)))
      && DeskOnly(h, t)
      && (fate.Delivered? ==>
            && t.registry == h.registry[(if task.taskId == "" then drawn else task.taskId) := task.status]
            && (task.escrow.None? ==> t.custody == h.custody)
            && (task.escrow.Some? ==> HeldFor(config, h.custody, t.custody, task, submitter)))
      && (!fate.Delivered? ==> t.registry == h.registry)
      && (fate.HoldRefused? || fate.UnreadableAmount? ==> t == h)
  {
    hide AfterHold, Moves;
    if task.escrow.Some? && task.AmountRead() {
      HoldIff(h.custody, HoldFor(config, task, submitter));
    }
  }

  /** The tasks of the registry with one of these statuses. */
  function WithStatus(registry: map<string, TaskStatus>, statuses: set<TaskStatus>): nat {
    |set t | t in registry && registry[t] in statuses|
  }

  lemma LoadCounts(registry: map<string, TaskStatus>)
    ensures InFlight(registry) == WithStatus(registry, {Pending, Running})
    ensures QueueDepth(registry) == WithStatus(registry, {Pending})
  {
    var live, waiting := {Pending, Running}, {Pending};
    assert (set t | t in registry && !Terminal(registry[t])) == (set t | t in registry && registry[t] in live);
    assert (set t | t in registry && registry[t] == Pending) == (set t | t in registry && registry[t] in waiting);
  }

  /** The load allows one more task: those that run or wait, those that wait, and the bucket. */
  predicate Spare(config: Config, h: HubState, now: real) {
    var l := config.limits;
    || !l.enabled
    || (&& Room(l.maxInFlight, WithStatus(h.registry, {Pending, Running}))
        && Room(l.maxQueueDepth, WithStatus(h.registry, {Pending}))
        && (l.maxTasksPerSec == 0 || Level(l, h.gate, now) >= 1.0))
  }

  /**
    A submission meets, in this order: the guardrails; the load of tasks that run or wait; the person who must
    validate it; and the purse of the submitter. What is held back waits as it was submitted, with nothing paid.
  */
  lemma {:induction false} SubmissionFate(config: Config, h: HubState, task: RawTask, submitter: string, s: Submission,
                                          now: real, heldBack: bool, drawn: string)
    ensures var (t, r) := AfterSubmit(config, h, task, submitter, s, now, heldBack, drawn);
      var violation := AfterSubmission(h.engine, config.policy, config.threshold, s).1;
      && (r.Violation? <==> violation.Some?) && (r.Violation? ==> violation == Some(r.rule))
      && (r.Saturated? <==> violation == None && !Spare(config, h, now))
      && (r.HeldBack? <==> violation == None && Spare(config, h, now) && heldBack)
      && (r.HeldBack? ==>
            && t.pending == h.pending[task.taskId := Waiting(task, submitter)]
            && t.custody == h.custody && t.registry == h.registry)
      && (r == Passed(Delivered) <==>
            && violation == None && Spare(config, h, now) && !heldBack && task.wellFormed
            && (task.escrow.Some? ==> Payable(config, h.custody, task, submitter)))
      && (r == Passed(Delivered) ==>
            && t.pending == h.pending
            && t.registry == h.registry[(if task.taskId == "" then drawn else task.taskId) := task.status]
            && (task.escrow.Some? ==> HeldFor(config, h.custody, t.custody, task, submitter)))
  {
    hide AfterSubmission, AfterFinalize, Backpressure.AfterAdmit, InFlight, QueueDepth, Payable, HeldFor, Level,
        WithStatus;
    LoadCounts(h.registry);
    var engine := AfterSubmission(h.engine, config.policy, config.threshold, s).0;
    AdmitIff(config.limits, h.gate, InFlight(h.registry), QueueDepth(h.registry), now);
    var gate := Backpressure.AfterAdmit(config.limits, h.gate, InFlight(h.registry), QueueDepth(h.registry), now).0;
    DeliveredIff(config, h.(engine := engine, gate := gate), task, submitter, drawn);
  }

  /**
    An approval delivers if and only if the task waits in the approver's scope, the hub can finalise, and the
    task can be delivered as if it were submitted now by its first submitter; it then no longer waits.
  */
  lemma {:induction false} ApprovalDelivers(config: Config, h: HubState, id: string, inScope: bool, drawn: string)
    ensures var (t, r) := AfterApprove(config, h, id, inScope, drawn);
      && (r == Approved(Delivered) <==>
            && id in h.pending && inScope && config.canFinalize
            && var task, submitter := h.pending[id].task, h.pending[id].submitter;
            task.wellFormed && (task.escrow.Some? ==> Payable(config, h.custody, task, submitter)))
      && (r == Approved(Delivered) ==>
            && var task, submitter := h.pending[id].task, h.pending[id].submitter;
            && t.pending == h.pending - {id}
            && t.registry == h.registry[(if task.taskId == "" then drawn else task.taskId) := task.status]
            && (task.escrow.None? ==> t.custody == h.custody)
            && (task.escrow.Some? ==> HeldFor(config, h.custody, t.custody, task, submitter)))
      && (id !in h.pending || !inScope ==> t == h)
  {
    hide AfterFinalize, Payable, HeldFor;
    if id in h.pending {
      DeliveredIff(config, h.(pending := h.pending - {id}), h.pending[id].task, h.pending[id].submitter, drawn);
    }
  }
}
