/** The limits of the guardrails and of the gate, over whole runs of the hub. */
module HubLimits {
  import opened Wrappers
  import opened Hub
  import opened HubLaws
  import opened AdmissionLaws
  import Guardrails
  import Backpressure

  // ---------------------------------------------------------------- what the guardrails see

  /** The submissions of a run, those of peer hubs included. */
  function Checks(events: seq<Event>): seq<Guardrails.Submission> {
    if events == [] then []
    else
      Checks(events[..|events| - 1]) +
        match events[|events| - 1]
        case Submitting(_, _, s, _, _, _) => [s]
        case FederatedSubmitting(_, s, _) => [s]
        case _ => []
  }

  /** The answer to this event was no violation of a rule. */
  predicate Lawful(config: Config, h: HubState, e: Event) {
    match e
    case Submitting(task, submitter, s, now, heldBack, drawn) =>
      !AfterSubmit(config, h, task, submitter, s, now, heldBack, drawn).1.Violation?
    case FederatedSubmitting(task, s, drawn) => !AfterFederatedSubmit(config, h, task, s, drawn).1.Violation?
    case _ => false
  }

  function SubmissionOf(e: Event): Guardrails.Submission
    requires e.Submitting? || e.FederatedSubmitting?
  {
    if e.Submitting? then e.submission else e.check
  }

  /** When the submissions of an agent that broke no rule were recorded. */
  function LawfulTimes(config: Config, h: HubState, events: seq<Event>, agent: string): seq<real> {
    if events == [] then []
    else
      var init, last := events[..|events| - 1], events[|events| - 1];
      LawfulTimes(config, h, init, agent)
        + if Lawful(config, Run(config, h, init), last) && SubmissionOf(last).agent == agent
          then [SubmissionOf(last).clock.atRecord] else []
  }

  lemma {:induction false} FinalizeKeeps(config: Config, h: HubState, task: RawTask, submitter: string, drawn: string)
    ensures var t := AfterFinalize(config, h, task, submitter, drawn).0;
      t.engine == h.engine && t.gate == h.gate
  {
  }

  lemma {:induction false} SubmitMoves(config: Config, h: HubState, e: Event)
    requires e.Submitting?
    ensures var (engine, violation) :=
        Guardrails.AfterSubmission(h.engine, config.policy, config.threshold, e.submission);
      var (gate, refusal) :=
        Backpressure.AfterAdmit(config.limits, h.gate, InFlight(h.registry), QueueDepth(h.registry), e.now);
      var (t, r) := AfterSubmit(config, h, e.task, e.submitter, e.submission, e.now, e.heldBack, e.drawn);
      && t.engine == engine && t.gate == (if violation.Some? then h.gate else gate)
      && (r.Violation? <==> violation.Some?) && (r.Saturated? <==> !r.Violation? && refusal.Some?)
  {
    hide Guardrails.AfterSubmission, Backpressure.AfterAdmit, AfterFinalize, InFlight, QueueDepth;
    var engine := Guardrails.AfterSubmission(h.engine, config.policy, config.threshold, e.submission).0;
    var gate :=
      Backpressure.AfterAdmit(config.limits, h.gate, InFlight(h.registry), QueueDepth(h.registry), e.now).0;
    FinalizeKeeps(config, h.(engine := engine, gate := gate), e.task, e.submitter, e.drawn);
  }

  lemma {:induction false} EngineStep(config: Config, h: HubState, e: Event)
    ensures var t := Step(config, h, e);
      if e.Submitting? || e.FederatedSubmitting? then
        var (engine, violation) :=
          Guardrails.AfterSubmission(h.engine, config.policy, config.threshold, SubmissionOf(e));
        t.engine == engine && (Lawful(config, h, e) <==> violation == None)
      else t.engine == h.engine && !Lawful(config, h, e)
  {
    hide Guardrails.AfterSubmission, AfterFinalize, AfterSubmit;
    if e.Submitting? {
      SubmitMoves(config, h, e);
    } else if e.Approving? && e.id in h.pending {
      var entry := h.pending[e.id];
      FinalizeKeeps(config, h.(pending := h.pending - {e.id}), entry.task, entry.submitter, e.freshId);
    }
  }

  /** The guardrails of the hub run on its submissions alone, and their history is that of the hub's answers. */
  lemma {:induction false} GuardrailsRun(config: Config, h: HubState, events: seq<Event>, agent: string)
    ensures Run(config, h, events).engine ==
      Guardrails.Run(h.engine, config.policy, config.threshold, Checks(events))
    ensures LawfulTimes(config, h, events, agent) ==
      Guardrails.History(h.engine, config.policy, config.threshold, Checks(events), agent)
  {
    hide Step, Lawful, Guardrails.AfterSubmission;
    if events != [] {
      var init, last := events[..|events| - 1], events[|events| - 1];
      GuardrailsRun(config, h, init, agent);
      EngineStep(config, Run(config, h, init), last);
      if last.Submitting? || last.FederatedSubmitting? {
        var all := Checks(events);
        assert all == Checks(init) + [SubmissionOf(last)];
        assert all[..|all| - 1] == Checks(init);
      } else {
        assert Checks(events) == Checks(init);
      }
    }
  }

  /**
    Over every run of the hub, whatever becomes of its tasks, no closed stretch of a minute holds more
    submissions of an agent that broke no rule than its quota.
  */
  lemma {:induction false} HubQuota(config: Config, h: HubState, events: seq<Event>, agent: string, from: real)
    requires Guardrails.Fresh(h.engine) && Guardrails.Timely(Checks(events))
    ensures Guardrails.Within(LawfulTimes(config, h, events, agent), from, from + 60.0)
      <= if config.policy.maxTasksPerMinute > 0 then config.policy.maxTasksPerMinute else 0
  {
    hide LawfulTimes, Guardrails.History, Guardrails.Within;
    GuardrailsRun(config, h, events, agent);
    Guardrails.WindowBound(h.engine, config.policy, config.threshold, Checks(events), agent, from);
  }

  // ---------------------------------------------------------------- what the gate sees

  /** The answer let the task past the load check: it waits for a person, or was finalised. */
  predicate LetIn(config: Config, h: HubState, e: Event) {
    && e.Submitting?
    && var r := AfterSubmit(config, h, e.task, e.submitter, e.submission, e.now, e.heldBack, e.drawn).1;
    r.HeldBack? || r.Passed?
  }

  function LetInCount(config: Config, h: HubState, events: seq<Event>): nat {
    if events == [] then 0
    else
      var init, last := events[..|events| - 1], events[|events| - 1];
      LetInCount(config, h, init) + if LetIn(config, Run(config, h, init), last) then 1 else 0
  }

  /** What the gate is asked: with the load of the registry as it is then, unless a rule was broken. */
  function Arrivals(config: Config, h: HubState, events: seq<Event>): seq<Backpressure.Arrival> {
    if events == [] then []
    else
      var init, last := events[..|events| - 1], events[|events| - 1];
      var t := Run(config, h, init);
      Arrivals(config, h, init)
        + if last.Submitting? && Lawful(config, t, last)
          then [Backpressure.Arrival(InFlight(t.registry), QueueDepth(t.registry), last.now)] else []
  }

  lemma {:induction false} GateStep(config: Config, h: HubState, e: Event)
    ensures var t := Step(config, h, e);
      if e.Submitting? && Lawful(config, h, e) then
        var (gate, refusal) :=
          Backpressure.AfterAdmit(config.limits, h.gate, InFlight(h.registry), QueueDepth(h.registry), e.now);
        t.gate == gate && (LetIn(config, h, e) <==> refusal == None)
      else t.gate == h.gate && !LetIn(config, h, e)
  {
    hide Guardrails.AfterSubmission, Backpressure.AfterAdmit, AfterFinalize, AfterSubmit, InFlight, QueueDepth;
    if e.Submitting? {
      SubmitMoves(config, h, e);
      var r := AfterSubmit(config, h, e.task, e.submitter, e.submission, e.now, e.heldBack, e.drawn).1;
      assert r.Violation? || r.Saturated? || r.HeldBack? || r.Passed?;
    } else if e.Approving? && e.id in h.pending {
      var entry := h.pending[e.id];
      FinalizeKeeps(config, h.(pending := h.pending - {e.id}), entry.task, entry.submitter, e.freshId);
    }
  }

  lemma {:induction false} GateRun(config: Config, h: HubState, events: seq<Event>)
    ensures Run(config, h, events).gate == Backpressure.Run(config.limits, h.gate, Arrivals(config, h, events))
    ensures Run(config, h, events).gate.accepted == h.gate.accepted + LetInCount(config, h, events)
  {
    hide Step, Lawful, LetIn, Backpressure.AfterAdmit, InFlight, QueueDepth;
    if events != [] {
      var init, last := events[..|events| - 1], events[|events| - 1];
      GateRun(config, h, init);
      var t := Run(config, h, init);
      GateStep(config, t, last);
      if last.Submitting? && Lawful(config, t, last) {
        var all := Arrivals(config, h, events);
        var a := Backpressure.Arrival(InFlight(t.registry), QueueDepth(t.registry), last.now);
        assert all == Arrivals(config, h, init) + [a];
        assert all[..|all| - 1] == Arrivals(config, h, init);
        AdmitIff(config.limits, t.gate, InFlight(t.registry), QueueDepth(t.registry), last.now);
      } else {
        assert Arrivals(config, h, events) == Arrivals(config, h, init);
      }
    }
  }

  /** Submissions come in order of time, within this period. */
  ghost predicate InOrder(events: seq<Event>, from: real, to: real) {
    && (forall i :: 0 <= i < |events| && events[i].Submitting? ==> from <= events[i].now <= to)
    && (forall i, j :: 0 <= i < j < |events| && events[i].Submitting? && events[j].Submitting? ==>
          events[i].now <= events[j].now)
  }

  lemma {:induction false} ArrivalsOrdered(config: Config, h: HubState, events: seq<Event>, from: real, to: real)
    requires InOrder(events, from, to)
    ensures Backpressure.Ordered(from, Arrivals(config, h, events))
    ensures forall k :: 0 <= k < |Arrivals(config, h, events)| ==>
      && Arrivals(config, h, events)[k].now <= to
      && exists i :: 0 <= i < |events| && events[i].Submitting? && events[i].now == Arrivals(config, h, events)[k].now
  {
    hide Run, Lawful, InFlight, QueueDepth;
    if events != [] {
      var init, last := events[..|events| - 1], events[|events| - 1];
      ArrivalsOrdered(config, h, init, from, to);
      var before := Arrivals(config, h, init);
      forall k | 0 <= k < |before|
        ensures exists i :: 0 <= i < |events| && events[i].Submitting? && events[i].now == before[k].now
        ensures last.Submitting? ==> before[k].now <= last.now
      {
        var i :| 0 <= i < |init| && init[i].Submitting? && init[i].now == before[k].now;
        assert events[i] == init[i];
      }
      assert last.Submitting? ==> events[|events| - 1].now == last.now;
    }
  }

  /**
    Over every run of the hub, whatever approvals, reports and cancellations come between: the tasks let in
    over a period are at most one bucket and what flows into it meanwhile.
  */
  lemma {:induction false} HubRate(config: Config, h: HubState, events: seq<Event>, from: real, to: real)
    requires Backpressure.Limiting(config.limits, h.gate) && h.gate.last <= from <= to && InOrder(events, from, to)
    ensures var rate := config.limits.maxTasksPerSec as real;
      LetInCount(config, h, events) as real <= rate + (to - from) * rate
  {
    hide Run, Arrivals, LetInCount, InOrder, Backpressure.Run;
    var arrivals, rate := Arrivals(config, h, events), config.limits.Rate();
    GateRun(config, h, events);
    ArrivalsOrdered(config, h, events, from, to);
    Backpressure.InflowGrows(0.0, to - from, rate);
    if arrivals == [] {
      EmptyRun(config.limits, h.gate);
    } else {
      var first, last := arrivals[0].now, arrivals[|arrivals| - 1].now;
      Backpressure.RateBound(config.limits, h.gate, arrivals);
      Backpressure.InflowGrows(last - first, to - from, rate);
    }
  }

  lemma EmptyRun(limits: Backpressure.Limits, s: Backpressure.State)
    ensures Backpressure.Run(limits, s, []) == s
  {
  }
}
