/** When the hub admits a submission, from its history, its policy and its load alone. */
module AdmissionLaws {
  import opened Wrappers
  import opened Guardrails
  import Backpressure

  // ---------------------------------------------------------------- guardrails

  predicate Isolated(b: Breaker, agent: string, now: real) {
    agent in b.trippedUntil && now < b.trippedUntil[agent]
  }

  /** The violations that count: none from before an isolation that has ended. */
  function Counting(b: Breaker, agent: string): nat {
    if agent in b.trippedUntil || agent !in b.violations then 0 else b.violations[agent]
  }

  /** The breaker treats other agents as before. */
  ghost predicate OthersSame(b: Breaker, d: Breaker, agent: string) {
    && (forall a :: a != agent ==>
        (a in d.trippedUntil <==> a in b.trippedUntil) && (a in d.violations <==> a in b.violations))
    && (forall a :: a != agent && a in b.trippedUntil ==> d.trippedUntil[a] == b.trippedUntil[a])
    && (forall a :: a != agent && a in b.violations ==> d.violations[a] == b.violations[a])
  }

  /**
    The answer to a submission, when the window of the agent is faithful to a history: the agent is isolated,
    or it is too deep, or too costly, or as many as the quota were accepted in the last minute, or it matches
    a forbidden pattern; the first of these that applies is the answer, and without any it is accepted.
  */
  lemma {:induction false} SubmissionAnswer(e: Engine, policy: Policy, threshold: int, s: Submission,
                                            history: seq<real>, time: real)
    requires Faithful(e, s.agent, history, time) && s.clock.Monotonic() && time <= s.clock.atCheck
    ensures var r := AfterSubmission(e, policy, threshold, s).1;
      var isolated := Isolated(e.breaker, s.agent, s.clock.atCheck);
      var recent := Since(history, s.clock.atCount - 60.0);
      && (r == None <==>
            !isolated && s.depth <= policy.maxCascadeDepth && s.cost <= policy.maxCostPerTask
            && recent < policy.maxTasksPerMinute && !s.forbidden)
      && (r == Some(Tripped) <==> isolated)
      && (r == Some(TooDeep) <==> !isolated && s.depth > policy.maxCascadeDepth)
      && (r == Some(TooCostly) <==> !isolated && s.depth <= policy.maxCascadeDepth && s.cost > policy.maxCostPerTask)
      && (r == Some(ForbiddenPattern) ==> s.forbidden && recent < policy.maxTasksPerMinute)
  {
    hide Faithful, Pruned, Since, Events, AfterViolation;
    FaithfulCount(e, s.agent, history, time, s.clock.atCount - WINDOW);
    CountTaken(AfterTripCheck(e.breaker, s.agent, s.clock.atCheck).0, e, s.agent, s.clock.atCount);
  }

  lemma CountTaken(b: Breaker, e: Engine, agent: string, now: real)
    ensures AfterCount(e.(breaker := b).events, agent, now).1 == |Pruned(Events(e.events, agent), now - WINDOW)|
  {
  }

  lemma {:induction false} CheckKeeps(b: Breaker, agent: string, now: real)
    ensures var (d, tripped) := AfterTripCheck(b, agent, now);
      && (tripped <==> Isolated(b, agent, now)) && OthersSame(b, d, agent)
      && (tripped ==> d == b)
      && (!tripped ==> agent !in d.trippedUntil && Counting(d, agent) == Counting(b, agent))
  {
  }

  lemma {:induction false} ViolationCounts(b: Breaker, d: Breaker, threshold: int, agent: string, now: real)
    requires OthersSame(b, d, agent) && agent !in d.trippedUntil
    ensures var f := AfterViolation(d, threshold, agent, now).0;
      && OthersSame(b, f, agent)
      && agent in f.violations && f.violations[agent] == Counting(d, agent) + 1
      && (agent in f.trippedUntil <==> Counting(d, agent) + 1 >= threshold)
      && (agent in f.trippedUntil ==> f.trippedUntil[agent] == now + 60.0)
  {
  }

  /**
    What a submission does to the breaker: an isolated agent's attempts count for nothing; every other refusal
    counts as one violation, and isolates the agent for a minute from the threshold on; an acceptance changes
    nothing but that an isolation that has ended is forgotten. Other agents are not concerned.
  */
  lemma {:induction false} SubmissionCounts(e: Engine, policy: Policy, threshold: int, s: Submission)
    ensures var (t, r) := AfterSubmission(e, policy, threshold, s);
      var b, d, a := e.breaker, t.breaker, s.agent;
      && OthersSame(b, d, a)
      && (r == Some(Tripped) ==> d == b && t.events == e.events)
      && (r == None ==> a !in d.trippedUntil && Counting(d, a) == Counting(b, a))
      && (r != None && r != Some(Tripped) ==>
            && a in d.violations && d.violations[a] == Counting(b, a) + 1
            && (a in d.trippedUntil <==> Counting(b, a) + 1 >= threshold)
            && (a in d.trippedUntil ==> d.trippedUntil[a] == s.clock.atViolation + 60.0))
  {
    hide AfterCount, AfterEvent, AfterTripCheck, AfterViolation, OthersSame, Counting;
    CheckKeeps(e.breaker, s.agent, s.clock.atCheck);
    var (d, tripped) := AfterTripCheck(e.breaker, s.agent, s.clock.atCheck);
    if !tripped {
      ViolationCounts(e.breaker, d, threshold, s.agent, s.clock.atViolation);
    }
  }

  /** Over every run from a new engine: the quota counts the submissions accepted in the whole run. */
  lemma {:induction false} AcceptedIff(e: Engine, policy: Policy, threshold: int, all: seq<Submission>, s: Submission,
                                       start: real)
    requires Fresh(e) && Timely(all) && (all != [] ==> start <= all[0].clock.atCheck)
    requires s.clock.Monotonic() && Now(start, all) <= s.clock.atCheck
    ensures var t := Run(e, policy, threshold, all);
      AfterSubmission(t, policy, threshold, s).1 == None <==>
        && !Isolated(t.breaker, s.agent, s.clock.atCheck)
        && s.depth <= policy.maxCascadeDepth && s.cost <= policy.maxCostPerTask && !s.forbidden
        && Since(History(e, policy, threshold, all, s.agent), s.clock.atCount - 60.0) < policy.maxTasksPerMinute
  {
    hide Run, History, Since, Faithful, AfterSubmission, Isolated, Now, Timely, Fresh;
    RunFaithful(e, policy, threshold, all, s.agent, start);
    SubmissionAnswer(Run(e, policy, threshold, all), policy, threshold, s, History(e, policy, threshold, all, s.agent),
                     Now(start, all));
  }

  // ---------------------------------------------------------------- load

  /** What the bucket holds at this time: it fills at its rate, and no further than its capacity. */
  function Level(limits: Backpressure.Limits, s: Backpressure.State, now: real): real {
    var capacity := limits.maxTasksPerSec as real;
    var filled := s.tokens + (if now > s.last then (now - s.last) * capacity else 0.0 * capacity);
    if filled <= capacity then filled else capacity
  }

  predicate Room(limit: int, load: int) {
    limit == 0 || load < limit
  }

  /**
    A gate admits exactly when it is off, or when what is in flight and what is queued are below their limits
    and the bucket, if there is one, holds a token. A limit of 0 is no limit. The first reason counts.
  */
  lemma {:induction false} AdmitIff(limits: Backpressure.Limits, s: Backpressure.State, inFlight: int, queueDepth: int,
                                    now: real)
    ensures var (t, r) := Backpressure.AfterAdmit(limits, s, inFlight, queueDepth, now);
      var roomy := Room(limits.maxInFlight, inFlight) && Room(limits.maxQueueDepth, queueDepth);
      var token := limits.maxTasksPerSec == 0 || Level(limits, s, now) >= 1.0;
      && (r == None <==> !limits.enabled || (roomy && token))
      && (r.Some? ==>
            && r.value.inFlight == inFlight && r.value.queueDepth == queueDepth
            && (r.value.reason == Backpressure.InFlightLimit <==> !Room(limits.maxInFlight, inFlight))
            && (r.value.reason == Backpressure.RateLimited <==> roomy) && (!roomy ==> r.value.retryAfterMs == 1000)
            && (limits.maxTasksPerSec < 0 ==> r.value.retryAfterMs == 1000))
      && t.accepted == s.accepted + (if r == None then 1 else 0)
      && t.rejected == s.rejected + (if r == None then 0 else 1)
      && (r.Some? ==>
            r.value.reason in t.rejectedByReason && t.rejectedByReason[r.value.reason] ==
              1 + if r.value.reason in s.rejectedByReason then s.rejectedByReason[r.value.reason] else 0)
      && (!limits.enabled || !roomy ==> t.tokens == s.tokens && t.last == s.last)
      && (limits.enabled && roomy ==>
            t.last == now && t.tokens == Level(limits, s, now) - (if r == None then 1.0 else 0.0))
  {
    hide Backpressure.Inflow, Level, Backpressure.Round;
    LevelIs(limits, s, now);
  }

  lemma LevelIs(limits: Backpressure.Limits, s: Backpressure.State, now: real)
    ensures Level(limits, s, now) == Backpressure.Refilled(limits, s, now).tokens
    ensures Backpressure.Refilled(limits, s, now) == s.(tokens := Level(limits, s, now), last := now)
  {
  }
}
