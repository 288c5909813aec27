/** Submission rules at the hub: a circuit breaker, caps, and a sliding window of one minute. Times in seconds. */
module Guardrails {
  import opened Wrappers

  const WINDOW: real := 60.0
  const COOLDOWN: real := 60.0

  // ---------------------------------------------------------------- the sliding window

  /** Old events leave from the front. */
  function Pruned(window: seq<real>, cutoff: real): seq<real> {
    if window != [] && window[0] < cutoff then Pruned(window[1..], cutoff) else window
  }

  function Events(events: map<string, seq<real>>, agent: string): seq<real> {
    if agent in events then events[agent] else []
  }

  function AfterCount(events: map<string, seq<real>>, agent: string, now: real): (map<string, seq<real>>, nat) {
    var kept := Pruned(Events(events, agent), now - WINDOW);
    (if agent in events then events[agent := kept] else events, |kept|)
  }

  function AfterEvent(events: map<string, seq<real>>, agent: string, now: real): map<string, seq<real>> {
    events[agent := Events(events, agent) + [now]]
  }

  class RateWindowTracker {
    var events: map<string, seq<real>>

    constructor ()
      ensures events == map[]
    {
      events := map[];
    }

    method CountRecent(agent: string, now: real) returns (n: nat)
      modifies this
      ensures (events, n) == AfterCount(old(events), agent, now)
    {
      if agent !in events || events[agent] == [] {
        assert agent in events ==> events == events[agent := []];
        return 0;
      }
      var cutoff := now - WINDOW;
      while events[agent] != [] && events[agent][0] < cutoff
        invariant agent in events && events == old(events)[agent := events[agent]]
        invariant Pruned(events[agent], cutoff) == Pruned(old(events)[agent], cutoff)
        decreases |events[agent]|
      {
        events := events[agent := events[agent][1..]];
      }
      return |events[agent]|;
    }

    method Record(agent: string, now: real)
      modifies this
      ensures events == AfterEvent(old(events), agent, now)
    {
      var window := if agent in events then events[agent] else [];
      events := events[agent := window + [now]];
    }
  }

  // ---------------------------------------------------------------- the circuit breaker

  datatype Breaker = Breaker(violations: map<string, nat>, trippedUntil: map<string, real>)

  function Violations(b: Breaker, agent: string): nat {
    if agent in b.violations then b.violations[agent] else 0
  }

  function AfterViolation(b: Breaker, threshold: int, agent: string, now: real): (Breaker, bool) {
    var count := Violations(b, agent) + 1;
    if count >= threshold then
      (Breaker(b.violations[agent := count], b.trippedUntil[agent := now + COOLDOWN]), true)
    else (Breaker(b.violations[agent := count], b.trippedUntil), false)
  }

  /** Once the isolation is over, violations are counted from zero. */
  function AfterTripCheck(b: Breaker, agent: string, now: real): (Breaker, bool) {
    if agent !in b.trippedUntil then (b, false)
    else if now < b.trippedUntil[agent] then (b, true)
    else (Breaker(b.violations[agent := 0], b.trippedUntil - {agent}), false)
  }

  class CircuitBreaker {
    const threshold: int
    var violations: map<string, nat>
    var trippedUntil: map<string, real>

    function View(): Breaker
      reads this
    {
      Breaker(violations, trippedUntil)
    }

    constructor (threshold: int)
      ensures View() == Breaker(map[], map[]) && this.threshold == threshold
    {
      this.threshold, violations, trippedUntil := threshold, map[], map[];
    }

    method RecordViolation(agent: string, now: real) returns (tripped: bool)
      modifies this
      ensures (View(), tripped) == AfterViolation(old(View()), threshold, agent, now)
    {
      var count := 1 + if agent in violations then violations[agent] else 0;
      violations := violations[agent := count];
      if count >= threshold {
        trippedUntil := trippedUntil[agent := now + COOLDOWN];
        return true;
      }
      return false;
    }

    method IsTripped(agent: string, now: real) returns (tripped: bool)
      modifies this
      ensures (View(), tripped) == AfterTripCheck(old(View()), agent, now)
    {
      if agent in trippedUntil {
        if now < trippedUntil[agent] {
          return true;
        }
        trippedUntil := trippedUntil - {agent};
        violations := violations[agent := 0];
      }
      return false;
    }
  }

  // ---------------------------------------------------------------- one submission

  datatype Policy = Policy(maxCascadeDepth: int, maxCostPerTask: real, maxTasksPerMinute: int)

  /** The clock is read for the breaker, the count, a violation, and the record, in this order. */
  datatype Clock = Clock(atCheck: real, atCount: real, atViolation: real, atRecord: real) {
    ghost predicate Monotonic() {
      atCheck <= atCount <= atViolation && atCount <= atRecord
    }
  }

  /** A submission, with the depth of its cascade and whether its text matches a forbidden pattern. */
  datatype Submission = Submission(agent: string, depth: int, cost: real, forbidden: bool, clock: Clock)

  datatype Rule = Tripped | TooDeep | TooCostly | RateExceeded | ForbiddenPattern

  datatype Engine = Engine(events: map<string, seq<real>>, breaker: Breaker)

  function Violated(e: Engine, threshold: int, s: Submission, rule: Rule): (Engine, Option<Rule>) {
    (e.(breaker := AfterViolation(e.breaker, threshold, s.agent, s.clock.atViolation).0), Some(rule))
  }

  function AfterSubmission(e: Engine, policy: Policy, threshold: int, s: Submission): (Engine, Option<Rule>) {
    var (breaker, tripped) := AfterTripCheck(e.breaker, s.agent, s.clock.atCheck);
    var checked := e.(breaker := breaker);
    if tripped then (checked, Some(Tripped))
    else if s.depth > policy.maxCascadeDepth then Violated(checked, threshold, s, TooDeep)
    else if s.cost > policy.maxCostPerTask then Violated(checked, threshold, s, TooCostly)
    else AfterCounting(checked, policy, threshold, s)
  }

  /** Only a submission that passes every check is recorded, so a refused one consumes no quota. */
  function AfterCounting(e: Engine, policy: Policy, threshold: int, s: Submission): (Engine, Option<Rule>) {
    var (events, count) := AfterCount(e.events, s.agent, s.clock.atCount);
    var counted := e.(events := events);
    if count >= policy.maxTasksPerMinute then Violated(counted, threshold, s, RateExceeded)
    else if s.forbidden then Violated(counted, threshold, s, ForbiddenPattern)
    else (counted.(events := AfterEvent(events, s.agent, s.clock.atRecord)), None)
  }

  class GuardrailEngine {
    const tracker: RateWindowTracker
    const breaker: CircuitBreaker

    function View(): Engine
      reads tracker, breaker
    {
      Engine(tracker.events, breaker.View())
    }

    constructor (threshold: int)
      ensures View() == Engine(map[], Breaker(map[], map[])) && breaker.threshold == threshold
      ensures fresh(tracker) && fresh(breaker)
    {
      tracker := new RateWindowTracker();
      breaker := new CircuitBreaker(threshold);
    }

    method Validate(policy: Policy, s: Submission) returns (r: Option<Rule>)
      modifies tracker, breaker
      ensures (View(), r) == AfterSubmission(old(View()), policy, breaker.threshold, s)
    {
      var tripped := breaker.IsTripped(s.agent, s.clock.atCheck);
      if tripped {
        return Some(Tripped);
      }
      if s.depth > policy.maxCascadeDepth {
        var _ := breaker.RecordViolation(s.agent, s.clock.atViolation);
        return Some(TooDeep);
      }
      if s.cost > policy.maxCostPerTask {
        var _ := breaker.RecordViolation(s.agent, s.clock.atViolation);
        return Some(TooCostly);
      }
      var recent := tracker.CountRecent(s.agent, s.clock.atCount);
      if recent >= policy.maxTasksPerMinute {
        var _ := breaker.RecordViolation(s.agent, s.clock.atViolation);
        return Some(RateExceeded);
      }
      if s.forbidden {
        var _ := breaker.RecordViolation(s.agent, s.clock.atViolation);
        return Some(ForbiddenPattern);
      }
      tracker.Record(s.agent, s.clock.atRecord);
      return None;
    }
  }

  // ---------------------------------------------------------------- runs

  function Run(e: Engine, policy: Policy, threshold: int, all: seq<Submission>): Engine {
    if all == [] then e
    else AfterSubmission(Run(e, policy, threshold, all[..|all| - 1]), policy, threshold, all[|all| - 1]).0
  }

  /** Every submission of an agent that was accepted, by the time it was recorded: the whole history. */
  function History(e: Engine, policy: Policy, threshold: int, all: seq<Submission>, agent: string): seq<real> {
    if all == [] then []
    else
      var init, last := all[..|all| - 1], all[|all| - 1];
      History(e, policy, threshold, init, agent)
        + if last.agent == agent && AfterSubmission(Run(e, policy, threshold, init), policy, threshold, last).1 == None
          then [last.clock.atRecord] else []
  }

  /** How many times lie in a closed interval. */
  function Within(times: seq<real>, from: real, to: real): nat {
    if times == [] then 0
    else Within(times[..|times| - 1], from, to) + if from <= times[|times| - 1] <= to then 1 else 0
  }

  function Since(times: seq<real>, from: real): nat {
    if times == [] then 0
    else Since(times[..|times| - 1], from) + if from <= times[|times| - 1] then 1 else 0
  }

  /** The clock does not go back, from one submission to the next and within one. */
  ghost predicate Timely(all: seq<Submission>) {
    && (forall i :: 0 <= i < |all| ==> all[i].clock.Monotonic())
    && (forall i, j :: 0 <= i < j < |all| ==>
        all[i].clock.atRecord <= all[j].clock.atCheck && all[i].clock.atCount <= all[j].clock.atCheck)
  }

  ghost predicate Increasing(times: seq<real>) {
    forall i, j :: 0 <= i < j < |times| ==> times[i] <= times[j]
  }

  /** What the window keeps of a history: all but some events that are older than a minute. */
  ghost predicate Keeps(window: seq<real>, history: seq<real>, cutoff: real) {
    && |window| <= |history| && window == history[|history| - |window|..]
    && forall i :: 0 <= i < |history| - |window| ==> history[i] < cutoff
  }

  lemma {:induction false} SinceAppend(times: seq<real>, x: real, from: real, to: real)
    ensures Since(times + [x], from) == Since(times, from) + if from <= x then 1 else 0
    ensures Within(times + [x], from, to) == Within(times, from, to) + if from <= x <= to then 1 else 0
  {
    assert (times + [x])[..|times|] == times;
  }

  lemma {:induction false} SinceNone(times: seq<real>, from: real)
    requires forall i :: 0 <= i < |times| ==> times[i] < from
    ensures Since(times, from) == 0
  {
    if times != [] {
      SinceNone(times[..|times| - 1], from);
    }
  }

  lemma {:induction false} SinceAll(times: seq<real>, from: real)
    requires forall i :: 0 <= i < |times| ==> times[i] >= from
    ensures Since(times, from) == |times|
  {
    if times != [] {
      SinceAll(times[..|times| - 1], from);
    }
  }

  lemma {:induction false} SinceConcat(a: seq<real>, b: seq<real>, from: real)
    ensures Since(a + b, from) == Since(a, from) + Since(b, from)
  {
    if b == [] {
      assert a + b == a;
    } else {
      var init, x := b[..|b| - 1], b[|b| - 1];
      SinceConcat(a, init, from);
      SinceAppend(a + init, x, from, from);
      assert a + b == a + init + [x];
    }
  }

  /** Dropping from the front what is too old is dropping all that is too old. */
  lemma {:induction false} PrunedKeeps(window: seq<real>, history: seq<real>, cutoff: real, older: real)
    requires Keeps(window, history, older) && Increasing(history) && older <= cutoff
    ensures Keeps(Pruned(window, cutoff), history, cutoff)
    ensures forall i :: 0 <= i < |Pruned(window, cutoff)| ==> Pruned(window, cutoff)[i] >= cutoff
    decreases |window|
  {
    if window != [] && window[0] < cutoff {
      var k := |history| - |window|;
      assert history[k] == window[0];
      assert history[k + 1..] == window[1..];
      PrunedKeeps(window[1..], history, cutoff, cutoff);
    } else {
      forall i | 0 <= i < |window|
        ensures window[i] >= cutoff
      {
        assert window[i] == history[|history| - |window| + i];
      }
    }
  }

  /** The pruned window counts exactly what the whole history holds of the last minute. */
  lemma {:induction false} CountIsExact(window: seq<real>, history: seq<real>, cutoff: real, older: real)
    requires Keeps(window, history, older) && Increasing(history) && older <= cutoff
    ensures |Pruned(window, cutoff)| == Since(history, cutoff)
  {
    PrunedKeeps(window, history, cutoff, older);
    var kept := Pruned(window, cutoff);
    var gone := history[..|history| - |kept|];
    assert gone + kept == history;
    SinceConcat(gone, kept, cutoff);
    SinceNone(gone, cutoff);
    SinceAll(kept, cutoff);
  }

  /** At `time`, the window of an agent keeps all of the minute before, and nothing recorded is later. */
  ghost predicate Faithful(e: Engine, agent: string, history: seq<real>, time: real) {
    Increasing(history) && Keeps(Events(e.events, agent), history, time - WINDOW) && NoneAfter(history, time)
  }

  ghost predicate NoneAfter(times: seq<real>, time: real) {
    forall i :: 0 <= i < |times| ==> times[i] <= time
  }

  lemma {:induction false} IncreasingNext(times: seq<real>, time: real, x: real, later: real)
    requires Increasing(times) && NoneAfter(times, time) && time <= x <= later
    ensures Increasing(times + [x]) && NoneAfter(times + [x], later)
  {
  }

  lemma NoneAfterLater(times: seq<real>, time: real, later: real)
    requires NoneAfter(times, time) && time <= later
    ensures NoneAfter(times, later)
  {
  }

  lemma {:induction false} EventsStep(e: Engine, policy: Policy, threshold: int, s: Submission, agent: string)
    ensures var (t, r) := AfterSubmission(e, policy, threshold, s);
      var window, kept := Events(e.events, agent), Pruned(Events(e.events, agent), s.clock.atCount - WINDOW);
      if s.agent == agent && r == None
      then Events(t.events, agent) == kept + [s.clock.atRecord] && |kept| < policy.maxTasksPerMinute
      else Events(t.events, agent) == window || Events(t.events, agent) == kept
  {
    hide Pruned, AfterTripCheck, AfterViolation;
    assert Pruned([], s.clock.atCount - WINDOW) == [] by { PrunedNothing(s.clock.atCount - WINDOW); }
  }

  lemma PrunedNothing(cutoff: real)
    ensures Pruned([], cutoff) == []
  {
  }

  lemma {:induction false} KeepsLater(window: seq<real>, history: seq<real>, cutoff: real, later: real)
    requires Keeps(window, history, cutoff) && cutoff <= later
    ensures Keeps(window, history, later)
  {
  }

  lemma {:induction false} KeepsNext(window: seq<real>, history: seq<real>, cutoff: real, x: real)
    requires Keeps(window, history, cutoff)
    ensures Keeps(window + [x], history + [x], cutoff)
  {
    assert (history + [x])[|history| - |window|..] == window + [x];
  }

  lemma {:induction false} FaithfulAccepted(e: Engine, t: Engine, agent: string, history: seq<real>, cutoff: real,
                                            recorded: real, time: real, later: real)
    requires Faithful(e, agent, history, time) && time - WINDOW <= cutoff <= later - WINDOW && time <= recorded <= later
    requires Events(t.events, agent) == Pruned(Events(e.events, agent), cutoff) + [recorded]
    ensures Faithful(t, agent, history + [recorded], later)
  {
    hide Keeps, Pruned, Events, Increasing, NoneAfter;
    var window := Events(e.events, agent);
    PrunedKeeps(window, history, cutoff, time - WINDOW);
    KeepsLater(Pruned(window, cutoff), history, cutoff, later - WINDOW);
    KeepsNext(Pruned(window, cutoff), history, later - WINDOW, recorded);
    IncreasingNext(history, time, recorded, later);
  }

  lemma {:induction false} FaithfulOther(e: Engine, t: Engine, agent: string, history: seq<real>, cutoff: real,
                                         time: real, later: real)
    requires Faithful(e, agent, history, time) && time - WINDOW <= cutoff <= later - WINDOW
    requires var window := Events(e.events, agent);
      Events(t.events, agent) == window || Events(t.events, agent) == Pruned(window, cutoff)
    ensures Faithful(t, agent, history, later)
  {
    hide Keeps, Pruned, Events, Increasing, NoneAfter;
    var window := Events(e.events, agent);
    PrunedKeeps(window, history, cutoff, time - WINDOW);
    NoneAfterLater(history, time, later);
    KeepsLater(window, history, time - WINDOW, later - WINDOW);
    KeepsLater(Pruned(window, cutoff), history, cutoff, later - WINDOW);
  }

  lemma {:induction false} FaithfulCount(e: Engine, agent: string, history: seq<real>, time: real, cutoff: real)
    requires Faithful(e, agent, history, time) && time - WINDOW <= cutoff
    ensures |Pruned(Events(e.events, agent), cutoff)| == Since(history, cutoff)
  {
    CountIsExact(Events(e.events, agent), history, cutoff, time - WINDOW);
  }

  /** One submission: windows stay faithful, and an accepted one found room in the minute before it was counted. */
  lemma {:induction false} FaithfulStep(e: Engine, policy: Policy, threshold: int, s: Submission, agent: string,
                                        history: seq<real>, time: real, later: real)
    requires Faithful(e, agent, history, time) && s.clock.Monotonic()
    requires time <= s.clock.atCheck && s.clock.atCount <= later && s.clock.atRecord <= later
    ensures var (t, r) := AfterSubmission(e, policy, threshold, s);
      var accepted := s.agent == agent && r == None;
      && Faithful(t, agent, history + (if accepted then [s.clock.atRecord] else []), later)
      && (accepted ==> Since(history, s.clock.atCount - WINDOW) < policy.maxTasksPerMinute)
  {
    hide AfterSubmission, Faithful, Pruned, Since, Events;
    var (t, r) := AfterSubmission(e, policy, threshold, s);
    var cutoff := s.clock.atCount - WINDOW;
    EventsStep(e, policy, threshold, s, agent);
    FaithfulCount(e, agent, history, time, cutoff);
    if s.agent == agent && r == None {
      FaithfulAccepted(e, t, agent, history, cutoff, s.clock.atRecord, time, later);
    } else {
      assert history + [] == history;
      FaithfulOther(e, t, agent, history, cutoff, time, later);
    }
  }

  /** The latest reading of the clock in a run. */
  function Now(start: real, all: seq<Submission>): real {
    if all == [] then start
    else
      var c := all[|all| - 1].clock;
      if c.atCount <= c.atRecord then c.atRecord else c.atCount
  }

  /** A new engine. */
  ghost predicate Fresh(e: Engine) {
    e.events == map[]
  }

  lemma {:induction false} RunFaithful(e: Engine, policy: Policy, threshold: int, all: seq<Submission>, agent: string,
                                       start: real)
    requires Fresh(e) && Timely(all) && (all != [] ==> start <= all[0].clock.atCheck)
    ensures Faithful(Run(e, policy, threshold, all), agent, History(e, policy, threshold, all, agent), Now(start, all))
  {
    hide AfterSubmission, Faithful;
    if all == [] {
      FreshFaithful(e, agent, start);
    } else {
      var init, last := all[..|all| - 1], all[|all| - 1];
      RunFaithful(e, policy, threshold, init, agent, start);
      FaithfulStep(Run(e, policy, threshold, init), policy, threshold, last, agent,
                   History(e, policy, threshold, init, agent), Now(start, init), Now(start, all));
    }
  }

  lemma FreshFaithful(e: Engine, agent: string, start: real)
    requires Fresh(e)
    ensures Faithful(e, agent, [], start)
  {
  }

  // ---------------------------------------------------------------- theorems

  function Quota(policy: Policy): nat {
    if policy.maxTasksPerMinute > 0 then policy.maxTasksPerMinute else 0
  }

  lemma {:induction false} WithinSince(times: seq<real>, from: real, to: real, cutoff: real)
    requires cutoff <= from
    ensures Within(times, from, to) <= Since(times, cutoff)
  {
    if times != [] {
      WithinSince(times[..|times| - 1], from, to, cutoff);
    }
  }

  /** One more accepted submission fits into any minute that holds it. */
  lemma {:induction false} WindowNext(history: seq<real>, clock: Clock, policy: Policy, from: real)
    requires Within(history, from, from + WINDOW) <= Quota(policy) && clock.Monotonic()
    requires Since(history, clock.atCount - WINDOW) < policy.maxTasksPerMinute
    ensures Within(history + [clock.atRecord], from, from + WINDOW) <= Quota(policy)
  {
    hide Within, Since;
    SinceAppend(history, clock.atRecord, from, from + WINDOW);
    if from <= clock.atRecord <= from + WINDOW {
      WithinSince(history, from, from + WINDOW, clock.atCount - WINDOW);
    }
  }

  /**
    However agents submit, no closed stretch of a minute holds more accepted submissions of one agent than
    its quota.
  */
  lemma {:induction false} WindowBound(e: Engine, policy: Policy, threshold: int, all: seq<Submission>, agent: string,
                                       from: real)
    requires Fresh(e) && Timely(all)
    ensures Within(History(e, policy, threshold, all, agent), from, from + WINDOW) <= Quota(policy)
  {
    hide AfterSubmission, Faithful, Since, Within, Quota;
    if all == [] {
      NoneWithin(policy, from);
    } else {
      var init, last := all[..|all| - 1], all[|all| - 1];
      WindowBound(e, policy, threshold, init, agent, from);
      var start := all[0].clock.atCheck;
      var history, engine := History(e, policy, threshold, init, agent), Run(e, policy, threshold, init);
      RunFaithful(e, policy, threshold, init, agent, start);
      FaithfulStep(engine, policy, threshold, last, agent, history, Now(start, init), Now(start, all));
      if last.agent == agent && AfterSubmission(engine, policy, threshold, last).1 == None {
        WindowNext(history, last.clock, policy, from);
      } else {
        assert history + [] == history;
      }
    }
  }

  lemma NoneWithin(policy: Policy, from: real)
    ensures Within([], from, from + WINDOW) <= Quota(policy)
  {
  }

  /** The count a check makes is the number of accepted submissions in the whole history since a minute before. */
  lemma {:induction false} CountOfHistory(e: Engine, policy: Policy, threshold: int, all: seq<Submission>,
                                          agent: string, start: real, now: real)
    requires Fresh(e) && Timely(all) && (all != [] ==> start <= all[0].clock.atCheck) && Now(start, all) <= now
    ensures AfterCount(Run(e, policy, threshold, all).events, agent, now).1
      == Since(History(e, policy, threshold, all, agent), now - WINDOW)
  {
    hide Run, History, Pruned, Since, Keeps, Increasing, NoneAfter, Timely, Fresh, Now;
    RunFaithful(e, policy, threshold, all, agent, start);
    CountIsExact(Events(Run(e, policy, threshold, all).events, agent), History(e, policy, threshold, all, agent),
                 now - WINDOW, Now(start, all) - WINDOW);
  }

  /** A refused submission leaves every later count as it would have been without it. */
  lemma {:induction false} RefusedCostsNothing(e: Engine, policy: Policy, threshold: int, s: Submission, agent: string,
                                               history: seq<real>, time: real, now: real)
    requires Faithful(e, agent, history, time) && s.clock.Monotonic() && time <= s.clock.atCheck
    requires AfterSubmission(e, policy, threshold, s).1 != None
    requires s.clock.atCount <= now && s.clock.atRecord <= now
    ensures AfterCount(AfterSubmission(e, policy, threshold, s).0.events, agent, now).1 ==
      AfterCount(e.events, agent, now).1
  {
    hide AfterSubmission, Pruned, Since, Keeps;
    var t := AfterSubmission(e, policy, threshold, s).0;
    FaithfulStep(e, policy, threshold, s, agent, history, time, now);
    assert history + [] == history;
    CountIsExact(Events(e.events, agent), history, now - WINDOW, time - WINDOW);
    CountIsExact(Events(t.events, agent), history, now - WINDOW, now - WINDOW);
  }

  // ---------------------------------------------------------------- isolation

  ghost predicate Isolated(e: Engine, agent: string, until: real, violations: nat, window: seq<real>) {
    && agent in e.breaker.trippedUntil && e.breaker.trippedUntil[agent] == until
    && Violations(e.breaker, agent) == violations && Events(e.events, agent) == window
  }

  lemma {:induction false} IsolatedStep(e: Engine, policy: Policy, threshold: int, s: Submission, agent: string,
                                        until: real, violations: nat, window: seq<real>)
    requires Isolated(e, agent, until, violations, window) && (s.agent == agent ==> s.clock.atCheck < until)
    ensures Isolated(AfterSubmission(e, policy, threshold, s).0, agent, until, violations, window)
    ensures s.agent == agent ==> AfterSubmission(e, policy, threshold, s).1 == Some(Tripped)
  {
    hide Pruned;
    if s.agent != agent {
      OthersKept(e, policy, threshold, s, agent);
    }
  }

  ghost predicate SameFor(b: Breaker, c: Breaker, agent: string) {
    && Violations(b, agent) == Violations(c, agent)
    && (agent in b.trippedUntil <==> agent in c.trippedUntil)
    && (agent in b.trippedUntil ==> b.trippedUntil[agent] == c.trippedUntil[agent])
  }

  lemma CheckOthers(b: Breaker, other: string, now: real, agent: string)
    requires other != agent
    ensures SameFor(b, AfterTripCheck(b, other, now).0, agent)
  {
  }

  lemma ViolationOthers(b: Breaker, threshold: int, other: string, now: real, agent: string)
    requires other != agent
    ensures SameFor(b, AfterViolation(b, threshold, other, now).0, agent)
  {
  }

  /** A submission touches nothing that concerns another agent. */
  lemma {:induction false} OthersKept(e: Engine, policy: Policy, threshold: int, s: Submission, agent: string)
    requires s.agent != agent
    ensures var t := AfterSubmission(e, policy, threshold, s).0;
      Events(t.events, agent) == Events(e.events, agent) && SameFor(e.breaker, t.breaker, agent)
  {
    hide Pruned, AfterTripCheck, AfterViolation, Violations;
    CheckOthers(e.breaker, s.agent, s.clock.atCheck, agent);
    var checked := AfterTripCheck(e.breaker, s.agent, s.clock.atCheck).0;
    ViolationOthers(checked, threshold, s.agent, s.clock.atViolation, agent);
  }

  /** While an agent is isolated, all its submissions are refused, and none of them prolongs the isolation. */
  lemma {:induction false} IsolatedUntil(e: Engine, policy: Policy, threshold: int, all: seq<Submission>, agent: string,
                                         until: real, violations: nat, window: seq<real>)
    requires Isolated(e, agent, until, violations, window)
    requires forall i :: 0 <= i < |all| && all[i].agent == agent ==> all[i].clock.atCheck < until
    ensures Isolated(Run(e, policy, threshold, all), agent, until, violations, window)
    ensures History(e, policy, threshold, all, agent) == []
  {
    hide AfterSubmission, Isolated;
    if all != [] {
      var init, last := all[..|all| - 1], all[|all| - 1];
      IsolatedUntil(e, policy, threshold, init, agent, until, violations, window);
      IsolatedStep(Run(e, policy, threshold, init), policy, threshold, last, agent, until, violations, window);
    }
  }

  /** An agent comes back with a clean slate: the first check after its isolation counts violations from zero. */
  lemma {:induction false} ReturnsClean(b: Breaker, agent: string, now: real)
    requires agent in b.trippedUntil && b.trippedUntil[agent] <= now
    ensures var (c, tripped) := AfterTripCheck(b, agent, now);
      !tripped && agent !in c.trippedUntil && Violations(c, agent) == 0
  {
  }

  /** Violations since an agent was last clean; the breaker isolates at the threshold, and not before. */
  lemma {:induction false} TripsAtThreshold(b: Breaker, threshold: int, agent: string, times: seq<real>)
    requires agent !in b.trippedUntil && Violations(b, agent) == 0 && threshold >= 1 && times != []
    ensures agent in AfterViolations(b, threshold, agent, times).trippedUntil <==> |times| >= threshold
    ensures Violations(AfterViolations(b, threshold, agent, times), agent) == |times|
    ensures |times| >= threshold ==>
      AfterViolations(b, threshold, agent, times).trippedUntil[agent] == times[|times| - 1] + COOLDOWN
  {
    if |times| > 1 {
      TripsAtThreshold(b, threshold, agent, times[..|times| - 1]);
    } else {
      assert AfterViolations(b, threshold, agent, []) == b;
    }
  }

  function AfterViolations(b: Breaker, threshold: int, agent: string, times: seq<real>): Breaker {
    if times == [] then b
    else AfterViolation(AfterViolations(b, threshold, agent, times[..|times| - 1]), threshold, agent,
                        times[|times| - 1]).0
  }
}
