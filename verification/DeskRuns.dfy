/** What a run of the hub leaves: which tasks wait, and under what status the others stand. */
module DeskRuns {
  import opened Hub
  import opened HubLaws
  import Backpressure
  import Guardrails

  // ---------------------------------------------------------------- the human queue

  /** The submission of this task was answered with a wait. */
  ghost predicate PutsBack(config: Config, h: HubState, e: Event, id: string) {
    && e.Submitting? && e.task.taskId == id
    && AfterSubmit(config, h, e.task, e.submitter, e.submission, e.now, e.heldBack, e.drawn).1.HeldBack?
  }

  /** A person in scope denied the task, or approved it and was not told that its hold is refused. */
  ghost predicate TakesOut(config: Config, h: HubState, e: Event, id: string) {
    || e == Denying(id, true)
    || (e.Approving? && e.id == id && e.inScope
        && var answer := AfterApprove(config, h, id, true, e.freshId).1;
        answer == CannotFinalize || (answer.Approved? && !answer.fate.HoldRefused?))
  }

  /** The submission at `i` put the task to wait, and nothing has moved it since. */
  ghost predicate WaitsSince(config: Config, h: HubState, events: seq<Event>, id: string, i: nat) {
    && i < |events| && PutsBack(config, Run(config, h, events[..i]), events[i], id)
    && forall j :: i < j < |events| ==>
         && !PutsBack(config, Run(config, h, events[..j]), events[j], id)
         && !TakesOut(config, Run(config, h, events[..j]), events[j], id)
  }

  /** One step: who comes to wait, who stays, and as what. */
  ghost predicate QueueMoves(config: Config, h: HubState, e: Event, t: HubState, id: string) {
    && (id in t.pending <==> PutsBack(config, h, e, id) || (id in h.pending && !TakesOut(config, h, e, id)))
    && (PutsBack(config, h, e, id) ==> t.pending[id] == Waiting(e.task, e.submitter))
    && (id in h.pending && id in t.pending && !PutsBack(config, h, e, id) ==> t.pending[id] == h.pending[id])
  }

  lemma {:induction false} SubmissionQueue(config: Config, h: HubState, e: Event, id: string)
    requires e.Submitting?
    ensures QueueMoves(config, h, e, Step(config, h, e), id)
  {
    hide Guardrails.AfterSubmission, Backpressure.AfterAdmit, InFlight, QueueDepth, AfterFinalize;
    var engine := Guardrails.AfterSubmission(h.engine, config.policy, config.threshold, e.submission).0;
    var gate :=
      Backpressure.AfterAdmit(config.limits, h.gate, InFlight(h.registry), QueueDepth(h.registry), e.now).0;
    FinalizeQueue(config, h.(engine := engine, gate := gate), e.task, e.submitter, e.drawn);
  }

  lemma {:induction false} FinalizeQueue(config: Config, h: HubState, task: RawTask, submitter: string, drawn: string)
    ensures AfterFinalize(config, h, task, submitter, drawn).0.pending == h.pending
  {
  }

  lemma {:induction false} ApprovalQueue(config: Config, h: HubState, e: Event, id: string)
    requires e.Approving?
    ensures QueueMoves(config, h, e, Step(config, h, e), id)
  {
    hide AfterFinalize;
    if e.id in h.pending {
      FinalizeQueue(config, h.(pending := h.pending - {e.id}), h.pending[e.id].task, h.pending[e.id].submitter,
                    e.freshId);
    }
  }

  lemma {:induction false} StepQueue(config: Config, h: HubState, e: Event, id: string)
    ensures QueueMoves(config, h, e, Step(config, h, e), id)
  {
    if e.Submitting? {
      SubmissionQueue(config, h, e, id);
    } else if e.Approving? {
      ApprovalQueue(config, h, e, id);
    } else if e.FederatedSubmitting? {
      hide Guardrails.AfterSubmission;
    }
  }

  lemma {:induction false} WaitsLonger(config: Config, h: HubState, events: seq<Event>, last: Event, id: string, i: nat)
    ensures WaitsSince(config, h, events + [last], id, i) <==>
      var t := Run(config, h, events);
      if i == |events| then PutsBack(config, t, last, id)
      else WaitsSince(config, h, events, id, i) && !PutsBack(config, t, last, id) && !TakesOut(config, t, last, id)
  {
    hide Run, PutsBack, TakesOut;
    var all, n := events + [last], |events|;
    assert all[..n] == events;
    forall j | 0 <= j < n
      ensures all[..j] == events[..j]
    {
    }
    if i < n {
      var t := Run(config, h, all[..n]);
      assert WaitsSince(config, h, all, id, i) ==> !PutsBack(config, t, all[n], id) && !TakesOut(config, t, all[n], id);
    }
  }

  /**
    After any run a task waits if and only if some submission of it was answered with a wait, and no person in
    scope has since denied it, or approved it without its hold being refused. It waits as it was submitted.
  */
  lemma {:induction false} WaitsIff(config: Config, h: HubState, events: seq<Event>, id: string)
    requires h.pending == map[]
    ensures id in Run(config, h, events).pending <==> exists i: nat :: WaitsSince(config, h, events, id, i)
    ensures forall i: nat | WaitsSince(config, h, events, id, i) ::
      id in Run(config, h, events).pending
      && Run(config, h, events).pending[id] == Waiting(events[i].task, events[i].submitter)
  {
    hide Step, PutsBack, TakesOut, WaitsSince;
    if events == [] {
      forall i: nat
        ensures !WaitsSince(config, h, events, id, i)
      {
        NobodyWaits(config, h, id, i);
      }
    } else {
      var init, last := events[..|events| - 1], events[|events| - 1];
      assert events == init + [last];
      WaitsIff(config, h, init, id);
      StepQueue(config, Run(config, h, init), last, id);
      forall i: nat
        ensures WaitsSince(config, h, events, id, i) <==>
          var t := Run(config, h, init);
          if i == |init| then PutsBack(config, t, last, id)
          else WaitsSince(config, h, init, id, i) && !PutsBack(config, t, last, id) && !TakesOut(config, t, last, id)
      {
        WaitsLonger(config, h, init, last, id, i);
      }
      Bounded(config, h, init, id);
      assert WaitsSince(config, h, events, id, |init|) <==> PutsBack(config, Run(config, h, init), last, id);
    }
  }

  lemma {:induction false} NobodyWaits(config: Config, h: HubState, id: string, i: nat)
    ensures !WaitsSince(config, h, [], id, i)
  {
  }

  lemma {:induction false} Bounded(config: Config, h: HubState, events: seq<Event>, id: string)
    ensures forall i: nat | WaitsSince(config, h, events, id, i) :: i < |events|
  {
    hide PutsBack, TakesOut, Run;
  }

  // ---------------------------------------------------------------- the status of a task

  /** The answer registered a task under this identifier with this status. */
  ghost predicate Delivers(config: Config, h: HubState, e: Event, id: string, status: TaskStatus) {
    match e
    case Submitting(task, submitter, s, now, heldBack, drawn) =>
      && AfterSubmit(config, h, task, submitter, s, now, heldBack, drawn).1 == Passed(Delivered)
      && id == (if task.taskId == "" then drawn else task.taskId) && status == task.status
    case FederatedSubmitting(task, s, drawn) =>
      && AfterFederatedSubmit(config, h, task, s, drawn).1 == Passed(Delivered)
      && id == (if task.taskId == "" then drawn else task.taskId) && status == task.status
    case Approving(i, inScope, drawn) =>
      && AfterApprove(config, h, i, inScope, drawn).1 == Approved(Delivered)
      && i in h.pending
      && var task := h.pending[i].task;
      id == (if task.taskId == "" then drawn else task.taskId) && status == task.status
    case _ => false
  }

  /** A registered task is given this status: by a report, by a cancellation before its end, or by a retry. */
  ghost predicate Changes(h: HubState, e: Event, id: string, status: TaskStatus) {
    && id in h.registry
    && (|| (e.Updating? && e.td.taskId == id && e.td.wellFormed && status == e.td.status)
        || (e.FederatedUpdating? && e.fd.taskId == id && e.fd.wellFormed && status == e.fd.status)
        || (e == Cancelling(id, true) && h.registry[id] in {Pending, Running} && status == Failed)
        || (e == Retrying(id) && status == Pending))
  }

  ghost predicate Gives(config: Config, h: HubState, e: Event, id: string, status: TaskStatus) {
    Delivers(config, h, e, id, status) || Changes(h, e, id, status)
  }

  ghost predicate Silent(config: Config, h: HubState, e: Event, id: string) {
    forall status :: !Gives(config, h, e, id, status)
  }

  predicate Has(h: HubState, id: string, status: TaskStatus) {
    id in h.registry && h.registry[id] == status
  }

  /** The event at `i` gave the task this status, and no later one gave it any. */
  ghost predicate HasSince(config: Config, h: HubState, events: seq<Event>, id: string, status: TaskStatus, i: nat) {
    && i < |events| && Gives(config, Run(config, h, events[..i]), events[i], id, status)
    && forall j :: i < j < |events| ==> Silent(config, Run(config, h, events[..j]), events[j], id)
  }

  lemma {:induction false} FinalizeStatus(config: Config, h: HubState, task: RawTask, submitter: string, drawn: string)
    ensures var (t, fate) := AfterFinalize(config, h, task, submitter, drawn);
      t.registry == if fate == Delivered then h.registry[(if task.taskId == "" then drawn else task.taskId) :=
                                                           task.status]
                    else h.registry
  {
  }

  ghost predicate StatusMoves(config: Config, h: HubState, e: Event, t: HubState, id: string, status: TaskStatus) {
    Has(t, id, status) <==> Gives(config, h, e, id, status) || (Has(h, id, status) && Silent(config, h, e, id))
  }

  lemma {:induction false} SubmissionStatus(config: Config, h: HubState, e: Event, id: string, status: TaskStatus)
    requires e.Submitting?
    ensures StatusMoves(config, h, e, Step(config, h, e), id, status)
  {
    hide Guardrails.AfterSubmission, Backpressure.AfterAdmit, InFlight, QueueDepth, AfterFinalize;
    var engine := Guardrails.AfterSubmission(h.engine, config.policy, config.threshold, e.submission).0;
    var gate :=
      Backpressure.AfterAdmit(config.limits, h.gate, InFlight(h.registry), QueueDepth(h.registry), e.now).0;
    FinalizeStatus(config, h.(engine := engine, gate := gate), e.task, e.submitter, e.drawn);
    assert Gives(config, h, e, id, e.task.status) || Silent(config, h, e, id);
  }

  lemma {:induction false} FederatedStatus(config: Config, h: HubState, e: Event, id: string, status: TaskStatus)
    requires e.FederatedSubmitting?
    ensures StatusMoves(config, h, e, Step(config, h, e), id, status)
  {
    hide Guardrails.AfterSubmission;
    assert Gives(config, h, e, id, e.raw.status) || Silent(config, h, e, id);
  }

  lemma {:induction false} ApprovalStatus(config: Config, h: HubState, e: Event, id: string, status: TaskStatus)
    requires e.Approving?
    ensures StatusMoves(config, h, e, Step(config, h, e), id, status)
  {
    hide AfterFinalize;
    if e.id in h.pending {
      var entry := h.pending[e.id];
      FinalizeStatus(config, h.(pending := h.pending - {e.id}), entry.task, entry.submitter, e.freshId);
      assert Gives(config, h, e, id, entry.task.status) || Silent(config, h, e, id);
    }
  }

  lemma {:induction false} ReportStatus(config: Config, h: HubState, e: Event, id: string, status: TaskStatus)
    requires e.Updating? || e.FederatedUpdating? || e.Cancelling? || e.Retrying?
    ensures StatusMoves(config, h, e, Step(config, h, e), id, status)
  {
    var given := if e.Updating? then e.td.status else if e.FederatedUpdating? then e.fd.status
                 else if e.Cancelling? then Failed else Pending;
    assert Gives(config, h, e, id, given) || Silent(config, h, e, id);
  }

  lemma {:induction false} StepStatus(config: Config, h: HubState, e: Event, id: string, status: TaskStatus)
    ensures StatusMoves(config, h, e, Step(config, h, e), id, status)
  {
    if e.Submitting? {
      SubmissionStatus(config, h, e, id, status);
    } else if e.FederatedSubmitting? {
      FederatedStatus(config, h, e, id, status);
    } else if e.Approving? {
      ApprovalStatus(config, h, e, id, status);
    } else if e.Updating? || e.FederatedUpdating? || e.Cancelling? || e.Retrying? {
      ReportStatus(config, h, e, id, status);
    }
  }

  lemma {:induction false} HasLonger(config: Config, h: HubState, events: seq<Event>, last: Event, id: string,
                                     status: TaskStatus, i: nat)
    ensures HasSince(config, h, events + [last], id, status, i) <==>
      var t := Run(config, h, events);
      if i == |events| then Gives(config, t, last, id, status)
      else HasSince(config, h, events, id, status, i) && Silent(config, t, last, id)
  {
    hide Run, Gives, Silent;
    var all, n := events + [last], |events|;
    assert all[..n] == events;
    forall j | 0 <= j < n
      ensures all[..j] == events[..j]
    {
    }
    if i < n {
      assert HasSince(config, h, all, id, status, i) ==> Silent(config, Run(config, h, all[..n]), all[n], id);
    }
  }

  lemma {:induction false} NothingYet(config: Config, h: HubState, id: string, status: TaskStatus, i: nat)
    ensures !HasSince(config, h, [], id, status, i)
  {
  }

  lemma {:induction false} HasBounded(config: Config, h: HubState, events: seq<Event>, id: string, status: TaskStatus)
    ensures forall i: nat | HasSince(config, h, events, id, status, i) :: i < |events|
  {
    hide Gives, Silent, Run;
  }

  /**
    After any run a task stands under a status if and only if some event gave it that status and no later one
    gave it any: a delivery, a report of a registered task, a cancellation of one that had not ended, a retry.
  */
  lemma {:induction false} StatusIff(config: Config, h: HubState, events: seq<Event>, id: string, status: TaskStatus)
    requires h.registry == map[]
    ensures Has(Run(config, h, events), id, status) <==> exists i: nat :: HasSince(config, h, events, id, status, i)
  {
    hide Step, Gives, Silent, HasSince;
    if events == [] {
      forall i: nat
        ensures !HasSince(config, h, events, id, status, i)
      {
        NothingYet(config, h, id, status, i);
      }
    } else {
      var init, last := events[..|events| - 1], events[|events| - 1];
      assert events == init + [last];
      StatusIff(config, h, init, id, status);
      StepStatus(config, Run(config, h, init), last, id, status);
      forall i: nat
        ensures HasSince(config, h, events, id, status, i) <==>
          var t := Run(config, h, init);
          if i == |init| then Gives(config, t, last, id, status)
          else HasSince(config, h, init, id, status, i) && Silent(config, t, last, id)
      {
        HasLonger(config, h, init, last, id, status, i);
      }
      HasBounded(config, h, init, id, status);
      assert HasSince(config, h, events, id, status, |init|) <==> Gives(config, Run(config, h, init), last, id, status);
    }
  }
}
