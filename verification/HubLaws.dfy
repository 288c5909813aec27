/** What no run of the hub breaks: held-back tasks are free of any commitment, and custody conserves money. */
module HubLaws {
  import opened Escrow
  import opened Guardrails
  import opened Hub
  import Backpressure

  datatype Event =
    | Submitting(task: RawTask, submitter: string, submission: Submission, now: real, heldBack: bool, drawn: string)
    | FederatedSubmitting(raw: RawTask, check: Submission, key: string)
    | Updating(td: RawTask)
    | FederatedUpdating(fd: RawTask)
    | Approving(id: string, inScope: bool, freshId: string)
    | Denying(id: string, inScope: bool)
    | Cancelling(id: string, inScope: bool)
    | Retrying(id: string)
    | Granting(purse: Purse, amount: real)
    | Deciding(id: string, outcome: Status)     // an administrator releases or refunds

  function Step(config: Config, h: HubState, e: Event): HubState {
    match e
    case Submitting(task, submitter, s, now, heldBack, drawn) =>
      AfterSubmit(config, h, task, submitter, s, now, heldBack, drawn).0
    case FederatedSubmitting(task, s, drawn) => AfterFederatedSubmit(config, h, task, s, drawn).0
    case Updating(td) => AfterUpdate(h, td)
    case FederatedUpdating(td) => AfterFederatedUpdate(h, td)
    case Approving(id, inScope, drawn) => AfterApprove(config, h, id, inScope, drawn).0
    case Denying(id, inScope) => AfterDeny(h, id, inScope).0
    case Cancelling(id, inScope) => AfterCancel(h, id, inScope).0
    case Retrying(id) => if id in h.registry then h.(registry := h.registry[id := Pending]) else h
    case Granting(p, amount) => h.(custody := Escrow.Step(h.custody, Granted(p, amount)))
    case Deciding(id, outcome) => h.(custody := Escrow.Step(h.custody, Resolving(id, outcome)))
  }

  function Run(config: Config, h: HubState, events: seq<Event>): HubState {
    if events == [] then h else Step(config, Run(config, h, events[..|events| - 1]), events[|events| - 1])
  }

  // ---------------------------------------------------------------- fresh identifiers

  /** The identifiers an event brings in. */
  function Brought(e: Event): set<string> {
    match e
    case Submitting(task, _, _, _, _, drawn) => {task.taskId, drawn}
    case FederatedSubmitting(task, _, drawn) => {KeyOf(task, drawn)}
    case Approving(_, _, drawn) => {drawn}
    case _ => {}
  }

  function Used(events: seq<Event>): set<string> {
    if events == [] then {} else Used(events[..|events| - 1]) + Brought(events[|events| - 1])
  }

  /** Submitted tasks are well formed, and come with an identifier that was not used before. */
  ghost predicate Proper(events: seq<Event>, e: Event) {
    && Brought(e) !! Used(events)
    && (e.Submitting? ==> e.task.wellFormed && e.task.taskId != "" && e.task.taskId != e.drawn)
    && (e.FederatedSubmitting? ==> e.raw.wellFormed)
    && (e.Deciding? ==> e.outcome != Held)
  }

  ghost predicate ProperRun(events: seq<Event>) {
    events == [] || (ProperRun(events[..|events| - 1]) && Proper(events[..|events| - 1], events[|events| - 1]))
  }

  /** A hub that was just started. */
  ghost predicate Fresh(h: HubState) {
    h.custody == EMPTY && h.registry == map[] && h.pending == map[]
  }

  // ---------------------------------------------------------------- the invariant

  /** A task waits under its own identifier, well formed, and is neither registered nor held for. */
  ghost predicate Free(h: HubState, id: string)
    requires id in h.pending
  {
    var task := h.pending[id].task;
    task.taskId == id && id != "" && task.wellFormed && id !in h.registry && id !in h.custody.holds
  }

  ghost predicate Inv(h: HubState, used: set<string>) {
    && Sound(h.custody)
    && (forall id :: id in h.pending ==> Free(h, id))
    && h.custody.holds.Keys <= h.registry.Keys
    && h.registry.Keys + h.pending.Keys <= used
  }

  lemma InvMore(h: HubState, used: set<string>, more: set<string>)
    requires Inv(h, used)
    ensures Inv(h, used + more)
  {
  }

  /** Only the guardrails and the gate moved. */
  lemma {:induction false} SameDesk(h: HubState, t: HubState, used: set<string>)
    requires Inv(h, used) && t.custody == h.custody && t.registry == h.registry && t.pending == h.pending
    ensures Inv(t, used)
  {
    forall id | id in t.pending
      ensures Free(t, id)
    {
      assert Free(h, id);
    }
  }

  /** A registered task changes its status. */
  lemma {:induction false} SameTasks(h: HubState, t: HubState, used: set<string>)
    requires Inv(h, used) && Sound(t.custody) && t.custody.holds.Keys == h.custody.holds.Keys
    requires t.registry.Keys == h.registry.Keys && t.pending == h.pending
    ensures Inv(t, used)
  {
    forall id | id in t.pending
      ensures Free(t, id)
    {
      assert Free(h, id);
    }
  }

  /** Finalising a task that is neither registered nor waiting registers it, with its hold, or changes nothing. */
  lemma {:induction false} FinalizeKeepsInv(config: Config, h: HubState, task: RawTask, submitter: string,
                                            drawn: string, used: set<string>)
    requires Inv(h, used) && task.wellFormed && task.taskId != "" && task.taskId in used
    requires task.taskId !in h.registry && task.taskId !in h.pending
    ensures var (t, fate) := AfterFinalize(config, h, task, submitter, drawn);
      && Inv(t, used) && t.pending == h.pending && !fate.Malformed?
      && (fate.HoldRefused? || fate.UnreadableAmount? ==> t == h)
      && (fate.Delivered? ==> t.registry == h.registry[task.taskId := task.status])
  {
    if task.escrow.Some? && task.AmountRead() {
      StepConserves(h.custody, Holding(HoldFor(config, task, submitter)), "");
    }
    var (t, fate) := AfterFinalize(config, h, task, submitter, drawn);
    if fate.Delivered? {
      assert KeyOf(task, drawn) == task.taskId;
      forall id | id in t.pending
        ensures Free(t, id)
      {
        assert Free(h, id);
      }
    }
  }

  lemma {:induction false} SubmitKeepsInv(config: Config, h: HubState, used: set<string>, task: RawTask,
                                          submitter: string, s: Submission, now: real, heldBack: bool, drawn: string)
    requires Inv(h, used) && task.wellFormed && task.taskId != "" && task.taskId !in used
    ensures Inv(AfterSubmit(config, h, task, submitter, s, now, heldBack, drawn).0, used + {task.taskId, drawn})
  {
    hide AfterSubmission, Inv, AfterFinalize, Backpressure.AfterAdmit;
    var more := used + {task.taskId, drawn};
    InvMore(h, used, {task.taskId, drawn});
    InvUsed(h, used);
    var checked := h.(engine := AfterSubmission(h.engine, config.policy, config.threshold, s).0);
    SameDesk(h, checked, more);
    var admitted := checked.(gate := Backpressure.AfterAdmit(config.limits, h.gate, InFlight(h.registry),
                                                             QueueDepth(h.registry), now).0);
    SameDesk(h, admitted, more);
    WaitingKeepsInv(admitted, more, task, submitter);
    FinalizeKeepsInv(config, admitted, task, submitter, drawn, more);
  }

  lemma InvUsed(h: HubState, used: set<string>)
    requires Inv(h, used)
    ensures h.registry.Keys <= used && h.pending.Keys <= used
  {
  }

  lemma {:induction false} WaitingKeepsInv(h: HubState, used: set<string>, task: RawTask, submitter: string)
    requires Inv(h, used) && task.wellFormed && task.taskId != "" && task.taskId in used
    requires task.taskId !in h.registry
    ensures Inv(h.(pending := h.pending[task.taskId := Waiting(task, submitter)]), used)
  {
    var t := h.(pending := h.pending[task.taskId := Waiting(task, submitter)]);
    forall id | id in t.pending
      ensures Free(t, id)
    {
      assert id != task.taskId ==> Free(h, id);
    }
  }

  lemma {:induction false} FewerWaiting(h: HubState, used: set<string>, id: string)
    requires Inv(h, used)
    ensures Inv(h.(pending := h.pending - {id}), used)
  {
    var t := h.(pending := h.pending - {id});
    forall i | i in t.pending
      ensures Free(t, i)
    {
      assert Free(h, i);
    }
  }

  lemma {:induction false} ApproveKeepsInv(config: Config, h: HubState, used: set<string>, id: string, inScope: bool,
                                           drawn: string)
    requires Inv(h, used)
    ensures Inv(AfterApprove(config, h, id, inScope, drawn).0, used)
  {
    if id in h.pending && inScope {
      hide AfterFinalize, Sound;
      var popped, entry := h.(pending := h.pending - {id}), h.pending[id];
      assert Free(h, id);
      FewerWaiting(h, used, id);
      FinalizeKeepsInv(config, popped, entry.task, entry.submitter, drawn, used);
      assert popped.pending[id := entry] == h.pending;
    }
  }

  lemma {:induction false} UpdateKeepsInv(h: HubState, used: set<string>, td: RawTask)
    requires Inv(h, used)
    ensures Inv(AfterUpdate(h, td), used)
  {
    hide Inv;
    SoundOf(h, used);
    ResolvedIfSound(h.custody, td.taskId, Released,
                    td.taskId in h.custody.holds && h.custody.holds[td.taskId].autoRelease);
    ResolvedIfSound(h.custody, td.taskId, Refunded, true);
    SameTasks(h, AfterUpdate(h, td), used);
  }

  lemma SoundOf(h: HubState, used: set<string>)
    requires Inv(h, used)
    ensures Sound(h.custody)
  {
  }

  lemma {:induction false} ResolvedIfSound(c: Custody, id: string, outcome: Status, condition: bool)
    requires Sound(c) && outcome != Held
    ensures Sound(ResolvedIf(c, id, outcome, condition))
      && ResolvedIf(c, id, outcome, condition).holds.Keys == c.holds.Keys
  {
    StepConserves(c, Resolving(id, outcome), "");
  }

  lemma {:induction false} FederatedKeepsInv(config: Config, h: HubState, used: set<string>, task: RawTask,
                                             s: Submission, drawn: string)
    requires Inv(h, used) && task.wellFormed && KeyOf(task, drawn) !in used
    ensures Inv(AfterFederatedSubmit(config, h, task, s, drawn).0, used + {KeyOf(task, drawn)})
  {
    hide AfterSubmission, Sound;
    var t, more := AfterFederatedSubmit(config, h, task, s, drawn).0, used + {KeyOf(task, drawn)};
    forall id | id in t.pending
      ensures Free(t, id)
    {
      assert Free(h, id) && id in used;
    }
  }

  lemma {:induction false} AdminKeepsInv(h: HubState, used: set<string>, e: Escrow.Event)
    requires Inv(h, used) && (e.Granted? || (e.Resolving? && e.outcome != Held))
    ensures Inv(h.(custody := Escrow.Step(h.custody, e)), used)
  {
    StepConserves(h.custody, e, "");
    SameTasks(h, h.(custody := Escrow.Step(h.custody, e)), used);
  }

  lemma {:induction false} StepKeepsInv(config: Config, h: HubState, events: seq<Event>, e: Event)
    requires Inv(h, Used(events)) && Proper(events, e)
    ensures Inv(Step(config, h, e), Used(events) + Brought(e))
  {
    hide Inv, AfterSubmit, AfterFederatedSubmit, AfterApprove, AfterUpdate, Used, Escrow.Step;
    var used := Used(events);
    match e
    case Submitting(task, submitter, s, now, heldBack, drawn) =>
      SubmitKeepsInv(config, h, used, task, submitter, s, now, heldBack, drawn);
    case FederatedSubmitting(task, s, drawn) => FederatedKeepsInv(config, h, used, task, s, drawn);
    case Updating(td) =>
      UpdateKeepsInv(h, used, td);
      InvMore(Step(config, h, e), used, {});
    case FederatedUpdating(td) => StatusKeepsInv(h, used, Step(config, h, e), {});
    case Approving(id, inScope, drawn) =>
      ApproveKeepsInv(config, h, used, id, inScope, drawn);
      InvMore(Step(config, h, e), used, {drawn});
    case Denying(id, inScope) =>
      FewerWaiting(h, used, id);
      InvMore(h, used, {});
      InvMore(h.(pending := h.pending - {id}), used, {});
    case Cancelling(id, inScope) => StatusKeepsInv(h, used, Step(config, h, e), {});
    case Retrying(id) => StatusKeepsInv(h, used, Step(config, h, e), {});
    case Granting(p, amount) =>
      AdminKeepsInv(h, used, Granted(p, amount));
      InvMore(Step(config, h, e), used, {});
    case Deciding(id, outcome) =>
      AdminKeepsInv(h, used, Resolving(id, outcome));
      InvMore(Step(config, h, e), used, {});
  }

  lemma {:induction false} StatusKeepsInv(h: HubState, used: set<string>, t: HubState, more: set<string>)
    requires Inv(h, used) && t.custody == h.custody && t.pending == h.pending && t.registry.Keys == h.registry.Keys
    ensures Inv(t, used + more)
  {
    SameTasks(h, t, used);
    InvMore(t, used, more);
  }

  lemma {:induction false} RunKeepsInv(config: Config, h: HubState, events: seq<Event>)
    requires Fresh(h) && ProperRun(events)
    ensures Inv(Run(config, h, events), Used(events))
  {
    hide Inv, Step, Brought, Proper;
    if events == [] {
      FreshInv(h);
    } else {
      var init, last := events[..|events| - 1], events[|events| - 1];
      RunKeepsInv(config, h, init);
      StepKeepsInv(config, Run(config, h, init), init, last);
    }
  }

  lemma FreshInv(h: HubState)
    requires Fresh(h)
    ensures Inv(h, {})
  {
  }

  // ---------------------------------------------------------------- theorems

  /**
    In every reachable state a held-back task has neither a hold nor an entry in the registry; and no task
    without an entry has a hold.
  */
  lemma {:induction false} HeldBackIsFree(config: Config, h: HubState, events: seq<Event>, id: string)
    requires Fresh(h) && ProperRun(events)
    ensures var t := Run(config, h, events);
      && (id in t.pending ==> id !in t.registry && id !in t.custody.holds)
      && (id in t.custody.holds ==> id in t.registry)
  {
    RunKeepsInv(config, h, events);
    var t := Run(config, h, events);
    assert id in t.pending ==> Free(t, id);
  }

  /** A submission refused by the guardrails or by the load leaves custody, registry and queue as they were. */
  lemma {:induction false} RefusedCommitsNothing(config: Config, h: HubState, task: RawTask, submitter: string,
                                                 s: Submission, now: real, heldBack: bool, drawn: string)
    ensures var (t, r) := AfterSubmit(config, h, task, submitter, s, now, heldBack, drawn);
      && (r.Violation? || r.Saturated? ==> t.custody == h.custody && t.registry == h.registry && t.pending == h.pending)
      && (r.HeldBack? ==> t.custody == h.custody && t.registry == h.registry)
      && (r.Violation? ==> t.gate == h.gate)
  {
    hide AfterSubmission, AfterFinalize, Backpressure.AfterAdmit;
  }

  /**
    An approval that does not deliver leaves the hub exactly as it was, if and only if the hub can finalise
    tasks, the amount of a hold can be read, and the task is well formed or its hold is refused. Otherwise
    the queue loses its entry.
  */
  lemma {:induction false} FailedApprovalUnchanged(config: Config, h: HubState, id: string, drawn: string)
    requires id in h.pending
    requires AfterApprove(config, h, id, true, drawn).1 != Approved(Delivered)
    ensures var task := h.pending[id].task;
      AfterApprove(config, h, id, true, drawn).0 == h <==>
        && config.canFinalize && task.AmountRead()
        && (task.wellFormed ||
            (task.escrow.Some? && AfterHold(h.custody, HoldFor(config, task, h.pending[id].submitter)).1.Err?))
    ensures AfterApprove(config, h, id, true, drawn).0 != h ==>
      id !in AfterApprove(config, h, id, true, drawn).0.pending
  {
    var entry := h.pending[id];
    var popped := h.(pending := h.pending - {id});
    assert popped.pending[id := entry] == h.pending;
    assert id !in popped.pending;
  }

  /** A malformed task that asks for a hold: the money is held, for a task that is neither waiting nor registered. */
  lemma {:induction false} MalformedApprovalStrandsHold(config: Config, h: HubState, id: string, drawn: string)
    requires config.canFinalize && id in h.pending && h.pending[id].task.taskId == id && id !in h.registry
    requires !h.pending[id].task.wellFormed && h.pending[id].task.escrow.Some? && h.pending[id].task.AmountRead()
    requires AfterHold(h.custody, HoldFor(config, h.pending[id].task, h.pending[id].submitter)).1.Ok?
    ensures var (t, r) := AfterApprove(config, h, id, true, drawn);
      r == Approved(Malformed) && id in t.custody.holds && id !in t.pending && id !in t.registry
  {
  }

  /** A held-back task whose escrow amount is no number, well formed or not: approving it only loses it. */
  lemma {:induction false} UnreadableAmountLosesTask(config: Config, h: HubState, id: string, drawn: string)
    requires config.canFinalize && id in h.pending && !h.pending[id].task.AmountRead()
    ensures AfterApprove(config, h, id, true, drawn) == (h.(pending := h.pending - {id}), Approved(UnreadableAmount))
  {
  }

  /** Identifiers that were used and are nowhere in the desk. */
  ghost predicate Gone(h: HubState, id: string) {
    id !in h.pending && id !in h.registry && id !in h.custody.holds
  }

  lemma {:induction false} FinalizeGone(config: Config, h: HubState, task: RawTask, submitter: string, drawn: string,
                                        id: string)
    requires Gone(h, id) && task.taskId != id && drawn != id
    ensures Gone(AfterFinalize(config, h, task, submitter, drawn).0, id)
  {
  }

  lemma {:induction false} SubmitGone(config: Config, h: HubState, task: RawTask, submitter: string, s: Submission,
                                      now: real, heldBack: bool, drawn: string, id: string)
    requires Gone(h, id) && task.taskId != id && drawn != id
    ensures Gone(AfterSubmit(config, h, task, submitter, s, now, heldBack, drawn).0, id)
  {
    hide AfterSubmission, AfterFinalize, Backpressure.AfterAdmit;
    var admitted := h.(engine := AfterSubmission(h.engine, config.policy, config.threshold, s).0,
                       gate := Backpressure.AfterAdmit(config.limits, h.gate, InFlight(h.registry),
                                                       QueueDepth(h.registry), now).0);
    FinalizeGone(config, admitted, task, submitter, drawn, id);
  }

  lemma {:induction false} ApproveGone(config: Config, h: HubState, used: set<string>, other: string, inScope: bool,
                                       drawn: string, id: string)
    requires Inv(h, used) && Gone(h, id) && drawn != id
    ensures Gone(AfterApprove(config, h, other, inScope, drawn).0, id)
  {
    if other in h.pending && inScope {
      hide AfterFinalize, Sound;
      assert Free(h, other);
      FinalizeGone(config, h.(pending := h.pending - {other}), h.pending[other].task, h.pending[other].submitter, drawn,
                   id);
    }
  }

  lemma {:induction false} StepGone(config: Config, h: HubState, events: seq<Event>, e: Event, id: string)
    requires Inv(h, Used(events)) && Proper(events, e) && Gone(h, id) && id in Used(events)
    ensures Gone(Step(config, h, e), id)
  {
    hide Inv, AfterSubmit, AfterApprove, AfterSubmission, Used;
    match e
    case Submitting(task, submitter, s, now, heldBack, drawn) =>
      SubmitGone(config, h, task, submitter, s, now, heldBack, drawn, id);
    case Approving(other, inScope, drawn) => ApproveGone(config, h, Used(events), other, inScope, drawn, id);
    case _ =>
  }

  /** A task that was denied never acquires a hold, whatever happens afterwards. */
  lemma {:induction false} DeniedNeverHeld(config: Config, h: HubState, before: seq<Event>, id: string,
                                           after: seq<Event>)
    requires Fresh(h) && ProperRun(before + [Denying(id, true)] + after)
    requires id in Run(config, h, before).pending
    ensures Gone(Run(config, h, before + [Denying(id, true)] + after), id)
    ensures id in Used(before + [Denying(id, true)] + after)
  {
    hide Inv, AfterSubmission, AfterSubmit, AfterApprove, AfterUpdate, AfterFederatedSubmit;
    var events := before + [Denying(id, true)] + after;
    var init, last := events[..|events| - 1], events[|events| - 1];
    if after == [] {
      assert events == before + [Denying(id, true)];
      assert init == before && last == Denying(id, true);
      RunKeepsInv(config, h, before);
      HeldBackIsFree(config, h, before, id);
      InvUsed(Run(config, h, before), Used(before));
    } else {
      assert init == before + [Denying(id, true)] + after[..|after| - 1];
      DeniedNeverHeld(config, h, before, id, after[..|after| - 1]);
      RunKeepsInv(config, h, init);
      StepGone(config, Run(config, h, init), init, last, id);
    }
  }

  // ---------------------------------------------------------------- money

  /** Every event moves custody as the custody rules allow, or not at all. */
  lemma {:induction false} CustodyStep(config: Config, h: HubState, e: Event) returns (c: Escrow.Event, moved: bool)
    requires e.Deciding? ==> e.outcome != Held
    ensures Step(config, h, e).custody == if moved then Escrow.Step(h.custody, c) else h.custody
    ensures Escrow.Proper(h.custody, c) && !c.Restored?
    ensures c.Granted? <==> e.Granting?
    ensures e.Granting? ==> moved && c == Granted(e.purse, e.amount)
  {
    hide AfterSubmission, Backpressure.AfterAdmit, InFlight, QueueDepth;
    c, moved := Resolving("", Released), false;
    match e
    case Granting(p, amount) => c, moved := Granted(p, amount), true;
    case Deciding(id, outcome) => c, moved := Resolving(id, outcome), true;
    case Updating(td) =>
      if td.status == Completed || td.status == Failed {
        c := Resolving(td.taskId, if td.status == Completed then Released else Refunded);
        moved := AfterUpdate(h, td).custody != h.custody;
      }
    case Submitting(task, submitter, s, now, heldBack, drawn) =>
      if task.escrow.Some? && task.AmountRead() {
        c := Holding(HoldFor(config, task, submitter));
        moved := Step(config, h, e).custody != h.custody;
      }
    case Approving(id, inScope, drawn) =>
      if id in h.pending && h.pending[id].task.escrow.Some? && h.pending[id].task.AmountRead() {
        c := Holding(HoldFor(config, h.pending[id].task, h.pending[id].submitter));
        moved := Step(config, h, e).custody != h.custody;
      }
    case _ =>
  }

  function GrantTotal(events: seq<Event>, currency: string): real {
    if events == [] then 0.0
    else
      var e := events[|events| - 1];
      GrantTotal(events[..|events| - 1], currency)
        + if e.Granting? && e.amount > 0.0 && e.purse.currency == currency then e.amount else 0.0
  }

  /** Whatever tasks go through the hub, balances and holds add up to what was granted, and no balance is negative. */
  lemma {:induction false} HubConserves(config: Config, h: HubState, events: seq<Event>, currency: string)
    requires Fresh(h) && forall i :: 0 <= i < |events| && events[i].Deciding? ==> events[i].outcome != Held
    ensures Sound(Run(config, h, events).custody)
    ensures Funds(Run(config, h, events).custody, currency) == GrantTotal(events, currency)
  {
    hide Funds, Step, Sound;
    if events == [] {
      EmptySound();
      EmptyFunds(currency);
    } else {
      var init, last := events[..|events| - 1], events[|events| - 1];
      HubConserves(config, h, init, currency);
      var u := Run(config, h, init);
      var c, moved := CustodyStep(config, u, last);
      StepConserves(u.custody, c, currency);
    }
  }

  /**
    A report of completion pays the payee of a hold that waits for it, a report of failure pays back;
    nothing is paid twice.
  */
  lemma {:induction false} UpdateSettles(h: HubState, td: RawTask)
    requires td.taskId in h.registry && td.wellFormed && td.taskId in h.custody.holds
    ensures var hold := h.custody.holds[td.taskId];
      var c := AfterUpdate(h, td).custody;
      if hold.status == Held && td.status == Completed && hold.autoRelease then
        && c.balances == Credited(h.custody.balances, Purse(hold.payee, hold.currency), hold.amount)
        && c.holds[td.taskId].status == Released && AfterUpdate(AfterUpdate(h, td), td).custody == c
      else if hold.status == Held && td.status == Failed then
        && c.balances == Credited(h.custody.balances, Purse(hold.payer, hold.currency), hold.amount)
        && c.holds[td.taskId].status == Refunded && AfterUpdate(AfterUpdate(h, td), td).custody == c
      else c == h.custody
  {
  }
}
