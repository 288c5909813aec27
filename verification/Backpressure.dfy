/** Admission control at the hub: limits on what is in flight and queued, then a token bucket. Times in seconds. */
module Backpressure {
  import opened Reals
  import opened Wrappers

  /** A limit of 0 switches its check off. */
  datatype Limits = Limits(maxTasksPerSec: int, maxInFlight: int, maxQueueDepth: int, enabled: bool) {
    function Rate(): real {
      maxTasksPerSec as real
    }
  }

  datatype Reason = RateLimited | InFlightLimit | TaskQueueFull

  datatype Rejection = Rejection(reason: Reason, retryAfterMs: int, queueDepth: int, inFlight: int)

  datatype State = State(tokens: real, last: real, accepted: nat, rejected: nat, rejectedByReason: map<Reason, nat>)

  /** `round`: to the nearest integer, halves to the even one. */
  function Round(x: real): (n: int)
    ensures x - 0.5 <= n as real <= x + 0.5
  {
    var f := x.Floor;
    var part := x - f as real;
    if part < 0.5 || (part == 0.5 && f % 2 == 0) then f else f + 1
  }

  /** Tokens that flow in during some time. */
  function Inflow(elapsed: real, rate: real): real {
    elapsed * rate
  }

  function Refilled(limits: Limits, s: State, now: real): State {
    s.(tokens := Min(limits.Rate(), s.tokens + Inflow(Max(0.0, now - s.last), limits.Rate())), last := now)
  }

  /** Milliseconds until a token is there. */
  function RetryAfterMs(limits: Limits, tokens: real): (ms: int)
    ensures ms >= 1
  {
    if limits.maxTasksPerSec <= 0 then 1000
    else
      var wait := Round(Max(0.0, 1.0 - tokens) / limits.Rate() * 1000.0);
      if wait >= 1 then wait else 1
  }

  function Counted(counts: map<Reason, nat>, reason: Reason): map<Reason, nat> {
    counts[reason := 1 + if reason in counts then counts[reason] else 0]
  }

  function AfterRefusal(s: State, reason: Reason, retry: int, inFlight: int, queueDepth: int)
    : (State, Option<Rejection>)
  {
    (s.(rejected := s.rejected + 1,
        rejectedByReason := Counted(s.rejectedByReason, reason)),
     Some(Rejection(reason, retry, queueDepth, inFlight)))
  }

  /** Whether a request passes the limits on state, and so reaches the check of the rate. */
  predicate Roomy(limits: Limits, inFlight: int, queueDepth: int) {
    && (limits.maxInFlight == 0 || inFlight < limits.maxInFlight)
    && (limits.maxQueueDepth == 0 || queueDepth < limits.maxQueueDepth)
  }

  function AfterRateCheck(limits: Limits, s: State, inFlight: int, queueDepth: int): (State, Option<Rejection>) {
    if limits.maxTasksPerSec != 0 && s.tokens < 1.0 then
      AfterRefusal(s, RateLimited, RetryAfterMs(limits, s.tokens), inFlight, queueDepth)
    else (s.(tokens := s.tokens - 1.0, accepted := s.accepted + 1), None)
  }

  function AfterAdmit(limits: Limits, s: State, inFlight: int, queueDepth: int, now: real): (State, Option<Rejection>) {
    if !limits.enabled then (s.(accepted := s.accepted + 1), None)
    else if limits.maxInFlight != 0 && inFlight >= limits.maxInFlight then
      AfterRefusal(s, InFlightLimit, 1000, inFlight, queueDepth)
    else if limits.maxQueueDepth != 0 && queueDepth >= limits.maxQueueDepth then
      AfterRefusal(s, TaskQueueFull, 1000, inFlight, queueDepth)
    else AfterRateCheck(limits, Refilled(limits, s, now), inFlight, queueDepth)
  }

  /** The bucket starts full. */
  function Started(limits: Limits, now: real): State {
    State(limits.Rate(), now, 0, 0, map[])
  }

  class BackpressureGate {
    const limits: Limits
    var tokens: real
    var last: real
    var accepted: nat
    var rejected: nat
    var rejectedByReason: map<Reason, nat>

    function View(): State
      reads this
    {
      State(tokens, last, accepted, rejected, rejectedByReason)
    }

    constructor (limits: Limits, now: real)
      ensures View() == Started(limits, now) && this.limits == limits
    {
      this.limits := limits;
      tokens, last := limits.maxTasksPerSec as real, now;
      accepted, rejected, rejectedByReason := 0, 0, map[];
    }

    method Refill(now: real)
      modifies this
      ensures View() == Refilled(limits, old(View()), now)
    {
      var elapsed := Max(0.0, now - last);
      last := now;
      var capacity := limits.maxTasksPerSec as real;
      tokens := Min(capacity, tokens + elapsed * capacity);
    }

    method Admit(inFlight: int, queueDepth: int, now: real) returns (r: Option<Rejection>)
      modifies this
      ensures (View(), r) == AfterAdmit(limits, old(View()), inFlight, queueDepth, now)
    {
      if !limits.enabled {
        accepted := accepted + 1;
        return None;
      }
      if limits.maxInFlight != 0 && inFlight >= limits.maxInFlight {
        r := Refuse(InFlightLimit, 1000, inFlight, queueDepth);
        return;
      }
      if limits.maxQueueDepth != 0 && queueDepth >= limits.maxQueueDepth {
        r := Refuse(TaskQueueFull, 1000, inFlight, queueDepth);
        return;
      }
      Refill(now);
      if limits.maxTasksPerSec != 0 && tokens < 1.0 {
        r := Refuse(RateLimited, RetryAfterMs(limits, tokens), inFlight, queueDepth);
        return;
      }
      tokens := tokens - 1.0;
      accepted := accepted + 1;
      return None;
    }

    method Refuse(reason: Reason, retry: int, inFlight: int, queueDepth: int) returns (r: Option<Rejection>)
      modifies this
      ensures (View(), r) == AfterRefusal(old(View()), reason, retry, inFlight, queueDepth)
    {
      rejected := rejected + 1;
      rejectedByReason := Counted(rejectedByReason, reason);
      return Some(Rejection(reason, retry, queueDepth, inFlight));
    }
  }

  // ---------------------------------------------------------------- runs

  datatype Arrival = Arrival(inFlight: int, queueDepth: int, now: real)

  function Step(limits: Limits, s: State, a: Arrival): State {
    AfterAdmit(limits, s, a.inFlight, a.queueDepth, a.now).0
  }

  function Run(limits: Limits, s: State, arrivals: seq<Arrival>): State {
    if arrivals == [] then s
    else Step(limits, Run(limits, s, arrivals[..|arrivals| - 1]), arrivals[|arrivals| - 1])
  }

  /** Requests arrive in order of time, none before `from`. */
  ghost predicate Ordered(from: real, arrivals: seq<Arrival>) {
    && (forall i :: 0 <= i < |arrivals| ==> from <= arrivals[i].now)
    && (forall i, j :: 0 <= i < j < |arrivals| ==> arrivals[i].now <= arrivals[j].now)
  }

  /** A gate with a rate of at least one task a second, and a bucket neither below empty nor over full. */
  ghost predicate Limiting(limits: Limits, s: State) {
    limits.enabled && limits.maxTasksPerSec >= 1 && 0.0 <= s.tokens <= limits.Rate()
  }

  lemma InflowAdds(d: real, e: real, rate: real)
    ensures Inflow(d, rate) + Inflow(e, rate) == Inflow(d + e, rate)
  {
  }

  lemma InflowGrows(d: real, e: real, rate: real)
    requires rate >= 0.0 && d <= e
    ensures Inflow(d, rate) <= Inflow(e, rate) && (d >= 0.0 ==> Inflow(d, rate) >= 0.0)
  {
    assert (e - d) * rate >= 0.0;
    assert e * rate == d * rate + (e - d) * rate;
  }

  /** What one arrival does to the bucket and the counters. */
  lemma {:induction false} StepFacts(limits: Limits, s: State, a: Arrival)
    requires Limiting(limits, s) && s.last <= a.now
    ensures var t := Step(limits, s, a);
      && Limiting(limits, t) && s.last <= t.last <= a.now
      && (t.accepted == s.accepted || t.accepted == s.accepted + 1)
      && (t.accepted > s.accepted ==> t.last == a.now && t.tokens <= limits.Rate() - 1.0)
      && t.tokens <= s.tokens + Inflow(t.last - s.last, limits.Rate()) - (t.accepted - s.accepted) as real
  {
    hide Inflow, RetryAfterMs;
    InflowGrows(0.0, a.now - s.last, limits.Rate());
    InflowGrows(0.0, 0.0, limits.Rate());
  }

  /** The bucket pays for what was admitted since the first arrival, at time `from`. */
  ghost predicate Paid(limits: Limits, s: State, t: State, from: real) {
    t.accepted > s.accepted ==>
      && from <= t.last
      && t.tokens <= limits.Rate() + Inflow(t.last - from, limits.Rate()) - (t.accepted - s.accepted) as real
  }

  lemma {:induction false} PaidNext(limits: Limits, s: State, u: State, t: State, from: real)
    requires limits.maxTasksPerSec >= 1 && s.accepted <= u.accepted && Paid(limits, s, u, from)
    requires u.last <= t.last && (t.accepted == u.accepted || t.accepted == u.accepted + 1)
    requires t.accepted > u.accepted ==> from <= t.last && t.tokens <= limits.Rate() - 1.0
    requires t.tokens <= u.tokens + Inflow(t.last - u.last, limits.Rate()) - (t.accepted - u.accepted) as real
    ensures Paid(limits, s, t, from)
  {
    hide Inflow;
    if u.accepted > s.accepted {
      InflowAdds(u.last - from, t.last - u.last, limits.Rate());
    } else if t.accepted > s.accepted {
      InflowGrows(0.0, t.last - from, limits.Rate());
    }
  }

  lemma {:induction false} BucketPays(limits: Limits, s: State, arrivals: seq<Arrival>, from: real)
    requires Limiting(limits, s) && s.last <= from && Ordered(from, arrivals)
    ensures var t := Run(limits, s, arrivals);
      && Limiting(limits, t) && s.last <= t.last && s.accepted <= t.accepted && Paid(limits, s, t, from)
      && (arrivals != [] ==> t.last <= arrivals[|arrivals| - 1].now) && (arrivals == [] ==> t == s)
  {
    hide Inflow, Step, Paid;
    if arrivals == [] {
      NonePaid(limits, s, from);
    } else {
      var init, a := arrivals[..|arrivals| - 1], arrivals[|arrivals| - 1];
      BucketPays(limits, s, init, from);
      var u := Run(limits, s, init);
      assert init != [] ==> init[|init| - 1].now <= a.now;
      StepFacts(limits, u, a);
      PaidNext(limits, s, u, Step(limits, u, a), from);
    }
  }

  lemma NonePaid(limits: Limits, s: State, from: real)
    ensures Paid(limits, s, s, from)
  {
  }

  /**
    The rate holds over every stretch of a run: from the first to the last of any arrivals in a row, at most
    one full bucket is admitted, plus what flows in between them: the rate times that time.
  */
  lemma {:induction false} RateBound(limits: Limits, s: State, arrivals: seq<Arrival>)
    requires Limiting(limits, s) && arrivals != [] && s.last <= arrivals[0].now && Ordered(arrivals[0].now, arrivals)
    ensures var t := Run(limits, s, arrivals);
      (t.accepted - s.accepted) as real
        <= limits.Rate() + Inflow(arrivals[|arrivals| - 1].now - arrivals[0].now, limits.Rate())
  {
    hide Run, Step, Inflow;
    var t, from, last := Run(limits, s, arrivals), arrivals[0].now, arrivals[|arrivals| - 1].now;
    BucketPays(limits, s, arrivals, from);
    var rate, span := limits.Rate(), last - from;
    InflowGrows(0.0, span, rate);
    InflowGrows(t.last - from, span, rate);
  }

  /** When the rate was last checked. */
  function LastCheck(limits: Limits, start: real, arrivals: seq<Arrival>): real {
    if arrivals == [] then start
    else
      var a := arrivals[|arrivals| - 1];
      if Roomy(limits, a.inFlight, a.queueDepth) then a.now else LastCheck(limits, start, arrivals[..|arrivals| - 1])
  }

  lemma {:induction false} LastIsLastCheck(limits: Limits, s: State, arrivals: seq<Arrival>)
    requires limits.enabled
    ensures Run(limits, s, arrivals).last == LastCheck(limits, s.last, arrivals)
  {
    if arrivals != [] {
      LastIsLastCheck(limits, s, arrivals[..|arrivals| - 1]);
    }
  }

  lemma FullToken(rate: real)
    requires rate > 0.0
    ensures Inflow(1.0 / rate, rate) == 1.0
  {
  }

  /** With a whole token there, a request that finds room is admitted; without one it is not. */
  lemma {:induction false} AdmittedIffToken(limits: Limits, s: State, a: Arrival)
    requires Limiting(limits, s) && s.last <= a.now && Roomy(limits, a.inFlight, a.queueDepth)
    ensures AfterAdmit(limits, s, a.inFlight, a.queueDepth, a.now).1 == None <==>
      s.tokens + Inflow(a.now - s.last, limits.Rate()) >= 1.0
  {
    hide Inflow, RetryAfterMs;
  }

  /** A request that finds room, and comes a token's time after the last one whose rate was checked, is admitted. */
  lemma {:induction false} SteadyPaceAdmitted(limits: Limits, s: State, arrivals: seq<Arrival>, a: Arrival)
    requires Limiting(limits, s) && Ordered(s.last, arrivals + [a])
    requires Roomy(limits, a.inFlight, a.queueDepth)
    requires a.now >= LastCheck(limits, s.last, arrivals) + 1.0 / limits.Rate()
    ensures AfterAdmit(limits, Run(limits, s, arrivals), a.inFlight, a.queueDepth, a.now).1 == None
  {
    hide Inflow, Run, Step, AfterAdmit, Paid, LastCheck;
    InOrder(s.last, arrivals, a);
    BucketPays(limits, s, arrivals, s.last);
    LastIsLastCheck(limits, s, arrivals);
    var u := Run(limits, s, arrivals);
    InflowGrows(1.0 / limits.Rate(), a.now - u.last, limits.Rate());
    FullToken(limits.Rate());
    AdmittedIffToken(limits, u, a);
  }

  lemma {:induction false} InOrder(from: real, arrivals: seq<Arrival>, a: Arrival)
    requires Ordered(from, arrivals + [a])
    ensures Ordered(from, arrivals) && from <= a.now
    ensures forall i :: 0 <= i < |arrivals| ==> arrivals[i].now <= a.now
  {
    var all := arrivals + [a];
    assert all[|arrivals|] == a;
    assert forall i :: 0 <= i < |arrivals| ==> arrivals[i] == all[i];
  }

  // ---------------------------------------------------------------- retry after

  /** What the bucket would hold at a time. */
  function Level(limits: Limits, s: State, now: real): real {
    Min(limits.Rate(), s.tokens + Inflow(now - s.last, limits.Rate()))
  }

  /** As long as nothing is admitted, requests do not change what the bucket will hold. */
  lemma {:induction false} LevelStep(limits: Limits, s: State, a: Arrival, t: real)
    requires Limiting(limits, s) && s.last <= a.now <= t && Step(limits, s, a).accepted == s.accepted
    ensures Level(limits, Step(limits, s, a), t) == Level(limits, s, t)
  {
    hide Inflow, RetryAfterMs;
    InflowAdds(a.now - s.last, t - a.now, limits.Rate());
    InflowGrows(0.0, a.now - s.last, limits.Rate());
    InflowGrows(0.0, t - a.now, limits.Rate());
  }

  lemma {:induction false} LevelKept(limits: Limits, s: State, arrivals: seq<Arrival>, t: real)
    requires Limiting(limits, s) && Ordered(s.last, arrivals)
    requires forall i :: 0 <= i < |arrivals| ==> arrivals[i].now <= t
    requires s.last <= t && Run(limits, s, arrivals).accepted == s.accepted
    ensures Limiting(limits, Run(limits, s, arrivals)) && Run(limits, s, arrivals).last <= t
    ensures Level(limits, Run(limits, s, arrivals), t) == Level(limits, s, t)
  {
    hide Inflow, Step, Level, Paid;
    if arrivals != [] {
      var init, a := arrivals[..|arrivals| - 1], arrivals[|arrivals| - 1];
      var u := Run(limits, s, init);
      BucketPays(limits, s, init, s.last);
      assert init != [] ==> init[|init| - 1].now <= a.now;
      StepFacts(limits, u, a);
      LevelKept(limits, s, init, t);
      LevelStep(limits, u, a, t);
    }
  }

  /** The wait announced, in seconds, and half a millisecond: enough for what is missing. */
  lemma {:induction false} WaitCoversMissing(limits: Limits, tokens: real)
    requires limits.maxTasksPerSec >= 1 && 0.0 <= tokens < 1.0
    ensures Inflow((RetryAfterMs(limits, tokens) as real + 0.5) / 1000.0, limits.Rate()) >= 1.0 - tokens
  {
    var rate, missing, retry := limits.Rate(), 1.0 - tokens, RetryAfterMs(limits, tokens) as real;
    assert retry + 0.5 >= missing / rate * 1000.0;
    InflowGrows(missing / rate, (retry + 0.5) / 1000.0, rate);
    assert Inflow(missing / rate, rate) == missing;
  }

  lemma {:induction false} RefusedFacts(limits: Limits, s: State, refused: Arrival)
    requires Limiting(limits, s) && s.last <= refused.now
    requires var r := AfterAdmit(limits, s, refused.inFlight, refused.queueDepth, refused.now).1;
      r.Some? && r.value.reason == RateLimited
    ensures var u := Step(limits, s, refused);
      && Limiting(limits, u) && u.tokens < 1.0 && u.last == refused.now
      && AfterAdmit(limits, s, refused.inFlight, refused.queueDepth, refused.now).1.value.retryAfterMs ==
         RetryAfterMs(limits, u.tokens)
  {
    hide Inflow, RetryAfterMs;
    InflowGrows(0.0, refused.now - s.last, limits.Rate());
  }

  /**
    A client refused for the rate that comes back after the announced delay and half a millisecond is
    admitted, whatever arrived in between, unless others took the tokens.
  */
  lemma {:induction false} RetryAfterSuffices(limits: Limits, s: State, refused: Arrival, between: seq<Arrival>,
                                              again: Arrival)
    requires Limiting(limits, s) && s.last <= refused.now
    requires var r := AfterAdmit(limits, s, refused.inFlight, refused.queueDepth, refused.now).1;
      && r.Some? && r.value.reason == RateLimited
      && again.now >= refused.now + (r.value.retryAfterMs as real + 0.5) / 1000.0
    requires var u := Step(limits, s, refused);
      Ordered(refused.now, between + [again]) && Run(limits, u, between).accepted == u.accepted
    requires Roomy(limits, again.inFlight, again.queueDepth)
    ensures AfterAdmit(limits, Run(limits, Step(limits, s, refused), between), again.inFlight, again.queueDepth,
                       again.now).1 == None
  {
    hide Inflow, Run, Step, AfterAdmit, RetryAfterMs;
    var u := Step(limits, s, refused);
    RefusedFacts(limits, s, refused);
    InOrder(refused.now, between, again);
    LevelKept(limits, u, between, again.now);
    WaitCoversMissing(limits, u.tokens);
    InflowGrows((RetryAfterMs(limits, u.tokens) as real + 0.5) / 1000.0, again.now - u.last, limits.Rate());
    AdmittedIffToken(limits, Run(limits, u, between), again);
  }

  /** Milliseconds of filling that are missing, before rounding. */
  function WaitMs(limits: Limits, tokens: real): real
    requires limits.maxTasksPerSec >= 1
  {
    (1.0 - tokens) / limits.Rate() * 1000.0
  }

  /**
    A number of milliseconds above one that is not whole, and is nearer to the whole number below, or
    half-way from an even one.
  */
  predicate RoundsDown(wait: real) {
    var part := wait - wait.Floor as real;
    wait > 1.0 && part > 0.0 && (part < 0.5 || (part == 0.5 && wait.Floor % 2 == 0))
  }

  lemma {:induction false} AnnouncedTooShort(limits: Limits, tokens: real)
    requires limits.maxTasksPerSec >= 1 && 0.0 <= tokens < 1.0
    ensures RetryAfterMs(limits, tokens) as real < WaitMs(limits, tokens) <==> RoundsDown(WaitMs(limits, tokens))
  {
    var wait := WaitMs(limits, tokens);
    assert Max(0.0, 1.0 - tokens) == 1.0 - tokens;
    Positive(1.0 - tokens, limits.Rate());
    var n := Round(wait);
    assert RetryAfterMs(limits, tokens) == if n >= 1 then n else 1;
  }

  lemma Positive(missing: real, rate: real)
    requires missing > 0.0 && rate > 0.0
    ensures missing / rate * 1000.0 > 0.0
  {
  }

  /** What flows in during the announced delay covers what is missing exactly when the delay is not too short. */
  lemma {:induction false} DelayCovers(limits: Limits, tokens: real, ms: real)
    requires limits.maxTasksPerSec >= 1
    ensures tokens + Inflow(ms / 1000.0, limits.Rate()) >= 1.0 <==> ms >= WaitMs(limits, tokens)
  {
    var rate, wait := limits.Rate(), WaitMs(limits, tokens);
    Thousandth(ms, rate);
    assert wait * rate == (1.0 - tokens) * 1000.0;
    if ms >= wait {
      InflowGrows(wait, ms, rate);
    } else {
      assert (wait - ms) * rate > 0.0;
    }
  }

  /**
    Without the half millisecond: coming back after exactly the announced delay succeeds if and only if
    what was missing, in milliseconds, is not rounded down to it.
  */
  lemma {:induction false} RetryAfterExactly(limits: Limits, s: State, refused: Arrival, again: Arrival)
    requires Limiting(limits, s) && s.last <= refused.now
    requires var r := AfterAdmit(limits, s, refused.inFlight, refused.queueDepth, refused.now).1;
      && r.Some? && r.value.reason == RateLimited && again.now == refused.now + r.value.retryAfterMs as real / 1000.0
    requires Roomy(limits, again.inFlight, again.queueDepth)
    ensures var u := Step(limits, s, refused);
      AfterAdmit(limits, u, again.inFlight, again.queueDepth, again.now).1 == None <==>
        !RoundsDown(WaitMs(limits, u.tokens))
  {
    hide Step, AfterAdmit, RetryAfterMs, Inflow, RoundsDown, WaitMs;
    var u := Step(limits, s, refused);
    RefusedFacts(limits, s, refused);
    AdmittedIffToken(limits, u, again);
    DelayCovers(limits, u.tokens, RetryAfterMs(limits, u.tokens) as real);
    AnnouncedTooShort(limits, u.tokens);
  }

  lemma Thousandth(x: real, rate: real)
    ensures Inflow(x / 1000.0, rate) == x * rate / 1000.0
  {
  }

  lemma ThirdOfASecond()
    ensures RetryAfterMs(Limits(3, 0, 0, true), 0.0) == 333
    ensures RetryAfterMs(Limits(3, 0, 0, true), 0.999) == 1
  {
    assert (1.0 / 3.0 * 1000.0).Floor == 333;
    assert (0.001 / 3.0 * 1000.0).Floor == 0;
  }

  lemma ThreeASecond()
    ensures Inflow(0.0, 3.0) == 0.0 && Inflow(0.333, 3.0) == 0.999
  {
  }

  /** Three tasks at once empty a new bucket of three. */
  lemma {:induction false} ThreeAtOnce(limits: Limits, a: Arrival)
    requires limits == Limits(3, 0, 0, true) && a == Arrival(0, 0, 0.0)
    ensures Run(limits, Started(limits, 0.0), [a, a, a]) == State(0.0, 0.0, 3, 0, map[])
  {
    hide Inflow, RetryAfterMs;
    ThreeASecond();
    var s := Started(limits, 0.0);
    assert Run(limits, s, []) == s;
    assert [a][..0] == [] && [a, a][..1] == [a] && [a, a, a][..2] == [a, a];
    assert Step(limits, s, a) == State(2.0, 0.0, 1, 0, map[]);
    assert Run(limits, s, [a]) == State(2.0, 0.0, 1, 0, map[]);
    assert Run(limits, s, [a, a]) == State(1.0, 0.0, 2, 0, map[]);
  }

  /**
    A gate of three tasks a second that has admitted three at once announces 333 ms to the fourth, and
    refuses it again then.
  */
  lemma {:induction false} RetryAfterRoundsDown()
    ensures var limits, a := Limits(3, 0, 0, true), Arrival(0, 0, 0.0);
      var (t, r) := AfterAdmit(limits, Run(limits, Started(limits, 0.0), [a, a, a]), 0, 0, 0.0);
      && r == Some(Rejection(RateLimited, 333, 0, 0))
      && AfterAdmit(limits, t, 0, 0, 0.333).1 == Some(Rejection(RateLimited, 1, 0, 0))
  {
    hide RetryAfterMs, Inflow, Run;
    ThirdOfASecond();
    ThreeASecond();
    var limits, s := Limits(3, 0, 0, true), State(0.0, 0.0, 3, 0, map[]);
    ThreeAtOnce(limits, Arrival(0, 0, 0.0));
    assert limits.Rate() == 3.0;
    var refilled := Refilled(limits, s, 0.0);
    assert refilled == s;
    var t := AfterRefusal(s, RateLimited, 333, 0, 0).0;
    assert AfterAdmit(limits, s, 0, 0, 0.0) == (t, Some(Rejection(RateLimited, 333, 0, 0)));
    assert Refilled(limits, t, 0.333).tokens == 0.999;
  }
}
