/** Every run of the proxy: approvals serve once and in time, and the journal verifies. */
module ProxyLaws {
  import opened Wrappers
  import opened Json
  import opened JsonText
  import opened Conversions
  import opened Evidence
  import EvidenceRuns
  import EvidenceLaws
  import opened Proxies
  import Approvals

  // ---------------------------------------------------------------- what is recorded can be signed

  predicate Atomic(v: Json) {
    v.Null? || v.Bool? || v.Int? || v.Str?
  }

  /** A dictionary of texts, integers and truth values. */
  ghost predicate Flat(fields: seq<Field>) {
    Distinct(fields) && forall f :: f in fields ==> Atomic(f.value)
  }

  lemma {:induction false} FlatWellFormed(fields: seq<Field>)
    requires Flat(fields)
    ensures WellFormed(Obj(fields)) && !HasFloat(Obj(fields))
  {
    assert forall i :: 0 <= i < |fields| ==> fields[i] in fields;
  }

  lemma {:induction false} FlatTail(fields: seq<Field>)
    requires Flat(fields) && fields != []
    ensures Flat(fields[1..]) && Atomic(fields[0].value)
    ensures forall f :: f in fields[1..] ==> f.key != fields[0].key
  {
    var rest := fields[1..];
    assert forall i :: 0 <= i < |rest| ==> rest[i] == fields[i + 1];
    assert forall f :: f in rest ==> f in fields;
  }

  lemma {:induction false} FlatCons(f: Field, rest: seq<Field>)
    requires Flat(rest) && Atomic(f.value) && forall x :: x in rest ==> x.key != f.key
    ensures Flat([f] + rest)
  {
    assert forall i :: 0 <= i < |rest| ==> rest[i] in rest;
  }

  lemma {:induction false} PutMembers(fields: seq<Field>, f: Field)
    ensures forall x :: x in Put(fields, f) ==> x == f || x in fields
  {
    if fields != [] && fields[0].key != f.key {
      PutMembers(fields[1..], f);
    }
  }

  lemma {:induction false} PutFlat(fields: seq<Field>, f: Field)
    requires Flat(fields) && Atomic(f.value)
    ensures Flat(Put(fields, f))
  {
    if fields == [] {
      assert Put(fields, f) == [f];
    } else {
      hide Flat;
      FlatTail(fields);
      if fields[0].key == f.key {
        FlatCons(f, fields[1..]);
      } else {
        PutFlat(fields[1..], f);
        PutMembers(fields[1..], f);
        FlatCons(fields[0], Put(fields[1..], f));
      }
    }
  }

  lemma {:induction false} DictFlat(pairs: seq<Field>)
    requires forall i :: 0 <= i < |pairs| ==> Atomic(pairs[i].value)
    ensures Flat(Dict(pairs))
  {
    if pairs != [] {
      DictFlat(pairs[..|pairs| - 1]);
      PutFlat(Dict(pairs[..|pairs| - 1]), pairs[|pairs| - 1]);
    }
  }

  lemma {:induction false} WithoutFlat(fields: seq<Field>, key: string)
    requires Flat(fields)
    ensures Flat(Without(fields, key))
  {
    if fields != [] {
      hide Flat;
      FlatTail(fields);
      WithoutFlat(fields[1..], key);
      if fields[0].key != key {
        FlatCons(fields[0], Without(fields[1..], key));
      }
    }
  }

  lemma {:induction false} CleanFlat(fields: seq<Field>)
    requires Flat(fields)
    ensures Flat(Clean(fields))
  {
    if fields != [] {
      hide Flat;
      FlatTail(fields);
      CleanFlat(fields[1..]);
      if fields[0].value != Null {
        FlatCons(fields[0], Clean(fields[1..]));
      }
    }
  }

  lemma {:induction false} ApprovedFlat(python: Python, authorization: seq<Field>, execution: seq<Field>)
    requires Flat(authorization) && Flat(execution)
    ensures Flat(Approved(python, authorization, execution))
  {
    var id := Get(execution, "approval_id");
    if id.Some? && !python.Falsy(id.value) {
      var person := if Get(execution, "approved_by").Some? then Get(execution, "approved_by").value else Null;
      assert Atomic(id.value) && Atomic(person);
      PutFlat(authorization, Field("approval_id", id.value));
      PutFlat(Put(authorization, Field("approval_id", id.value)), Field("approved_by", person));
    }
  }

  ghost predicate Simple(o: Observation) {
    forall i :: 0 <= i < |o.extra| ==> Atomic(o.extra[i].value)
  }

  lemma {:induction false} ActionFlat(config: Config, o: Observation)
    ensures Flat(ActionBlock(config, o))
  {
    hide Dict, Flat;
    DictFlat([Field("method", Str(config.upper(o.verb))), Field("target", Str(o.url)),
              Field("type", Str("http_request")),
              Field("payload_hash", OrNull(o.payloadHash))]);
  }

  lemma {:induction false} RiskFlat(o: Observation)
    ensures Flat(RiskBlock(o))
  {
    hide Dict, Flat, RiskText;
    DictFlat([Field("level", Str("R" + RiskText(o.verdict.risk))), Field("label", Str("R" + RiskText(o.verdict.risk))),
              Field("value", Int(o.verdict.risk))]);
  }

  lemma {:induction false} AuthorizationFlat(config: Config, o: Observation)
    ensures Flat(AuthorizationBlock(config, o))
  {
    hide Dict, Flat;
    DictFlat([Field("policy", Str(config.policy)), Field("rule", Str(o.verdict.rule)),
              Field("decision", Str(o.verdict.decision.Text()))]);
  }

  lemma {:induction false} ExecutionFlat(o: Observation)
    requires Simple(o)
    ensures Flat(ExecutionBlock(o))
  {
    hide Dict, Clean, Flat;
    var pairs := [Field("status", Str(o.status)),
                  Field("response_status", if o.responseStatus.Some? then Int(o.responseStatus.value) else Null),
                  Field("response_hash", OrNull(o.responseHash)),
                  Field("reason", if o.verdict.reason == "" then Null else Str(o.verdict.reason))] + o.extra;
    DictFlat(pairs);
    CleanFlat(Dict(pairs));
  }

  /** Whatever a handler reports, its blocks are dictionaries that the store can sign. */
  lemma {:induction false} RecordedIsSignable(config: Config, o: Observation, stamp: Stamp)
    requires Simple(o)
    ensures var e := Recorded(config, o, stamp);
      Flat(e.action) && Flat(e.risk) && Flat(e.authorization) && Flat(e.execution) && e.Valid()
  {
    hide Flat, WellFormed, ActionBlock, RiskBlock, AuthorizationBlock, ExecutionBlock, Approved, Without;
    var e, execution := Recorded(config, o, stamp), ExecutionBlock(o);
    ActionFlat(config, o);
    RiskFlat(o);
    AuthorizationFlat(config, o);
    ExecutionFlat(o);
    ApprovedFlat(config.crypto.python, AuthorizationBlock(config, o), execution);
    WithoutFlat(execution, "approval_id");
    WithoutFlat(Without(execution, "approval_id"), "approved_by");
    FlatWellFormed(e.action);
    FlatWellFormed(e.risk);
    FlatWellFormed(e.authorization);
    FlatWellFormed(e.execution);
  }

  lemma {:induction false} ObservedSimple(config: Config, r: Request, action: Action, reply: Reply)
    requires Observed(config, r, action, reply).Some?
    ensures Simple(Observed(config, r, action, reply).value)
  {
  }

  lemma {:induction false} PutGet(fields: seq<Field>, f: Field, k: string)
    ensures Get(Put(fields, f), k) == if k == f.key then Some(f.value) else Get(fields, k)
  {
    if fields != [] {
      if fields[0].key == f.key {
        assert ([f] + fields[1..])[1..] == fields[1..];
      } else {
        PutGet(fields[1..], f, k);
        var put := Put(fields[1..], f);
        assert ([fields[0]] + put)[1..] == put;
      }
    }
  }

  lemma {:induction false} DictNext(pairs: seq<Field>, last: Field)
    ensures Dict(pairs + [last]) == Put(Dict(pairs), last)
  {
    assert (pairs + [last])[..|pairs|] == pairs;
  }

  lemma {:induction false} CleanGet(fields: seq<Field>, key: string, value: Json)
    requires Flat(fields) && Get(fields, key) == Some(value) && value != Null
    ensures Get(Clean(fields), key) == Some(value)
  {
    CleanFlat(fields);
    assert Field(key, value) in fields;
    GetUnique(Clean(fields), Field(key, value));
  }

  lemma {:induction false} ApproverKept(pairs: seq<Field>, id: string, person: string)
    requires forall i :: 0 <= i < |pairs| ==> Atomic(pairs[i].value)
    ensures var execution := Clean(Dict(pairs + [Field("approval_id", Str(id)), Field("approved_by", Str(person))]));
      Get(execution, "approval_id") == Some(Str(id)) && Get(execution, "approved_by") == Some(Str(person))
  {
    hide Dict, Clean, Put;
    var x, y := Field("approval_id", Str(id)), Field("approved_by", Str(person));
    assert x.key[6] == 'a' && y.key[6] == 'e';
    DictNext(pairs, x);
    DictNext(pairs + [x], y);
    assert pairs + [x] + [y] == pairs + [x, y];
    DictFlat(pairs + [x, y]);
    PutGet(Dict(pairs), x, x.key);
    PutGet(Dict(pairs + [x]), y, x.key);
    PutGet(Dict(pairs + [x]), y, y.key);
    CleanGet(Dict(pairs + [x, y]), x.key, x.value);
    CleanGet(Dict(pairs + [x, y]), y.key, y.value);
  }

  lemma {:induction false} ApproverMoved(python: Python, authorization: seq<Field>, execution: seq<Field>, id: string,
                                         person: string)
    requires Get(execution, "approval_id") == Some(Str(id)) && Get(execution, "approved_by") == Some(Str(person))
      && id != ""
    ensures var f := Approved(python, authorization, execution);
      Get(f, "approval_id") == Some(Str(id)) && Get(f, "approved_by") == Some(Str(person))
  {
    hide Put, Get;
    assert "approval_id"[6] == 'a' && "approved_by"[6] == 'e';
    var x, y := Field("approval_id", Str(id)), Field("approved_by", Str(person));
    assert Approved(python, authorization, execution) == Put(Put(authorization, x), y);
    PutGet(authorization, x, x.key);
    PutGet(Put(authorization, x), y, x.key);
    PutGet(Put(authorization, x), y, y.key);
  }

  /** The evidence of an action executed under an approval names the approval and the person who gave it. */
  lemma {:induction false} ExecutedNamesApprover(config: Config, r: Request, a: Approvals.Approval, reply: Reply,
                                                 stamp: Stamp)
    requires a.actionId != "" && reply.Answered? && VerdictOn(config, r).risk >= config.threshold
    ensures Observed(config, r, Send(Some(a)), reply).Some?
    ensures var e := Recorded(config, Observed(config, r, Send(Some(a)), reply).value, stamp);
      Get(e.authorization, "approval_id") == Some(Str(a.actionId))
          && Get(e.authorization, "approved_by") == Some(Str(a.approvedBy))
  {
    hide Dict, Clean, ActionBlock, RiskBlock, AuthorizationBlock, Approved, Without, Get;
    var o := Observed(config, r, Send(Some(a)), reply).value;
    var pairs := [Field("status", Str(o.status)),
                  Field("response_status", if o.responseStatus.Some? then Int(o.responseStatus.value) else Null),
                  Field("response_hash", OrNull(o.responseHash)),
                  Field("reason", if o.verdict.reason == "" then Null else Str(o.verdict.reason))];
    ApproverKept(pairs, a.actionId, a.approvedBy);
    ApproverMoved(config.crypto.python, AuthorizationBlock(config, o), ExecutionBlock(o), a.actionId, a.approvedBy);
  }

  // ---------------------------------------------------------------- runs

  datatype Event =
    | Granting(id: string, verb: string, target: string, person: string, now: int, ttl: int, saved: bool)
    | Handling(request: Request, at: int, saved: bool, reply: Reply, stamp: Stamp, written: bool)
    | Restarting

  function Step(config: Config, p: ProxyState, e: Event): ProxyState {
    match e
    case Granting(id, verb, target, person, now, ttl, saved) =>
      var a := Approvals.GrantOf(config.upper, id, verb, target, person, now, ttl);
      p.(approvals := Approvals.AfterGrant(p.approvals, a, saved).0)
    case Handling(r, at, saved, reply, stamp, written) => AfterHandle(config, p, r, at, saved, reply, stamp, written).0
    case Restarting => ProxyState(AfterRestart(p.journal), Approvals.AfterReload(p.approvals))
  }

  function Run(config: Config, p: ProxyState, events: seq<Event>): ProxyState {
    if events == [] then p else Step(config, Run(config, p, events[..|events| - 1]), events[|events| - 1])
  }

  /** The approval under which this event sent a request on, if it did. */
  function Used(config: Config, p: ProxyState, e: Event): Option<Approvals.Approval> {
    if !e.Handling? then None
    else match Decided(config, p.approvals, e.request, e.at, e.saved).1
      case Send(approval) => approval
      case _ => None
  }

  /** The identifier presented, the method in capitals, and the address. */
  datatype Key = Key(id: string, verb: string, target: string)

  function KeyOf(config: Config, r: Request): Key {
    if r.Plain? then Key(r.token, config.upper(r.verb), r.url) else Key("", "", "")
  }

  function Uses(config: Config, p: ProxyState, events: seq<Event>, k: Key): nat {
    if events == [] then 0
    else
      var init, last := events[..|events| - 1], events[|events| - 1];
      Uses(config, p, init, k)
        + if Used(config, Run(config, p, init), last).Some? && KeyOf(config, last.request) == k then 1 else 0
  }

  function Grants(config: Config, events: seq<Event>, k: Key): nat {
    if events == [] then 0
    else
      var last := events[|events| - 1];
      Grants(config, events[..|events| - 1], k)
        + if last.Granting? && Key(last.id, config.upper(last.verb), last.target) == k then 1 else 0
  }

  /** A proxy without approvals, with a file for them or without. */
  ghost predicate Fresh(p: ProxyState) {
    p.approvals.approvals == [] && (p.approvals.file.Some? ==> p.approvals.file.value == [])
  }

  ghost predicate Granted(config: Config, events: seq<Event>, a: Approvals.Approval) {
    exists i :: 0 <= i < |events| && events[i].Granting? &&
      a == Approvals.GrantOf(config.upper, events[i].id, events[i].verb, events[i].target, events[i].person,
                             events[i].now, events[i].ttl)
  }

  ghost predicate AllGranted(config: Config, events: seq<Event>, list: seq<Approvals.Approval>) {
    forall a :: a in list ==> Granted(config, events, a.Unused())
  }

  ghost predicate Inv(config: Config, events: seq<Event>, s: Approvals.State) {
    && Approvals.Valid(s) && AllGranted(config, events, s.approvals)
    && (s.file.Some? ==> AllGranted(config, events, s.file.value))
  }

  lemma {:induction false} GrantedLater(config: Config, init: seq<Event>, last: Event, list: seq<Approvals.Approval>)
    requires AllGranted(config, init, list)
    ensures AllGranted(config, init + [last], list)
  {
    var events := init + [last];
    forall a | a in list
      ensures Granted(config, events, a.Unused())
    {
      var i :| 0 <= i < |init| && init[i].Granting? && a.Unused() ==
        Approvals.GrantOf(config.upper, init[i].id, init[i].verb, init[i].target, init[i].person, init[i].now,
                          init[i].ttl);
      assert events[i] == init[i];
    }
  }

  /** Writing an approval keeps that all were granted, when that one was. */
  lemma {:induction false} WrittenInv(config: Config, events: seq<Event>, s: Approvals.State, a: Approvals.Approval,
                                      saved: bool)
    requires Inv(config, events, s) && Granted(config, events, a.Unused())
    ensures Inv(config, events, Approvals.Written(Approvals.Put(s.approvals, a), s.file, saved))
  {
    Approvals.PutKeyed(s.approvals, a);
  }

  lemma {:induction false} GrantingInv(config: Config, init: seq<Event>, s: Approvals.State, last: Event,
                                       a: Approvals.Approval)
    requires Inv(config, init + [last], s) && last.Granting?
    requires a == Approvals.GrantOf(config.upper, last.id, last.verb, last.target, last.person, last.now, last.ttl)
    ensures Inv(config, init + [last], Approvals.AfterGrant(s, a, last.saved).0)
  {
    assert (init + [last])[|init|] == last;
    assert a.Unused() == a;
    WrittenInv(config, init + [last], s, a, last.saved);
  }

  lemma {:induction false} ConsumeInv(config: Config, events: seq<Event>, s: Approvals.State, token: string,
                                      verb: string, url: string, now: int, saved: bool)
    requires Inv(config, events, s)
    ensures Inv(config, events, Approvals.AfterConsume(s, token, verb, url, now, saved).0)
    ensures var r := Approvals.AfterConsume(s, token, verb, url, now, saved).1;
      r.Ok? ==> Granted(config, events, r.value.Unused())
  {
    var c := Approvals.Consumable(s.approvals, token, verb, url, now);
    if c.Ok? {
      assert c.value in s.approvals;
      assert c.value.(usedAt := Some(now)).Unused() == c.value.Unused();
      WrittenInv(config, events, s, c.value.(usedAt := Some(now)), saved);
    }
  }

  /** One event: where uses and what is still available stand against grants. */
  lemma {:induction false} StepCounts(config: Config, p: ProxyState, e: Event, k: Key)
    requires Approvals.Valid(p.approvals)
    ensures var t := Step(config, p, e);
      Approvals.Available(t.approvals, k.id, k.verb, k.target)
        + (if Used(config, p, e).Some? && KeyOf(config, e.request) == k then 1 else 0)
      <= Approvals.Available(p.approvals, k.id, k.verb, k.target)
        + if e.Granting? && Key(e.id, config.upper(e.verb), e.target) == k then 1 else 0
  {
    hide AfterReport, Approvals.Available;
    match e
    case Granting(id, verb, target, person, now, ttl, saved) =>
      var a := Approvals.GrantOf(config.upper, id, verb, target, person, now, ttl);
      Approvals.GrantStep(p.approvals, a, saved, k.id, k.verb, k.target);
    case Handling(r, at, saved, reply, stamp, written) =>
      if r.Plain? {
        Approvals.ConsumeStep(p.approvals, r.token, config.upper(r.verb), r.url, at, saved, k.id, k.verb, k.target);
      }
    case Restarting => Approvals.ReloadStep(p.approvals, k.id, k.verb, k.target);
  }

  lemma {:induction false} StepInv(config: Config, init: seq<Event>, p: ProxyState, last: Event)
    requires Inv(config, init, p.approvals)
    ensures Inv(config, init + [last], Step(config, p, last).approvals)
  {
    hide AfterReport, AllGranted;
    var s, events := p.approvals, init + [last];
    GrantedLater(config, init, last, s.approvals);
    if s.file.Some? {
      GrantedLater(config, init, last, s.file.value);
    }
    match last
    case Granting(id, verb, target, person, now, ttl, saved) =>
      GrantingInv(config, init, s, last, Approvals.GrantOf(config.upper, id, verb, target, person, now, ttl));
    case Handling(r, at, saved, reply, stamp, written) =>
      if r.Plain? {
        ConsumeInv(config, events, s, r.token, config.upper(r.verb), r.url, at, saved);
      }
    case Restarting =>
      if s.file.Some? {
        Approvals.ReloadIsIdentity(s.file.value);
      }
      assert Approvals.AfterReload(s).approvals == [] ==> AllGranted(config, events, [])
        by { NoneGranted(config, events); }
  }

  lemma NoneGranted(config: Config, events: seq<Event>)
    ensures AllGranted(config, events, [])
  {
  }

  lemma {:induction false} RunInv(config: Config, p: ProxyState, events: seq<Event>, k: Key)
    requires Fresh(p)
    ensures Inv(config, events, Run(config, p, events).approvals)
    ensures Uses(config, p, events, k) + Approvals.Available(Run(config, p, events).approvals, k.id, k.verb, k.target)
            <= Grants(config, events, k)
  {
    hide Inv, Step, Approvals.Available, Approvals.Valid;
    if events == [] {
      StartInv(config, p);
      StartCounts(config, p, k);
    } else {
      var init, last := events[..|events| - 1], events[|events| - 1];
      RunInv(config, p, init, k);
      var q := Run(config, p, init);
      assert init + [last] == events;
      InvValid(config, init, q.approvals);
      StepInv(config, init, q, last);
      StepCounts(config, q, last, k);
    }
  }

  lemma StartInv(config: Config, p: ProxyState)
    requires Fresh(p)
    ensures Inv(config, [], p.approvals)
  {
  }

  lemma StartCounts(config: Config, p: ProxyState, k: Key)
    requires Fresh(p)
    ensures Approvals.Available(p.approvals, k.id, k.verb, k.target) == 0
  {
  }

  lemma InvValid(config: Config, events: seq<Event>, s: Approvals.State)
    requires Inv(config, events, s)
    ensures Approvals.Valid(s)
  {
  }

  // ---------------------------------------------------------------- theorems

  /**
    Single use: over every run, with restarts and failing writes anywhere, the requests sent on under an
    approval for one identifier, method and address are at most the grants for exactly those.
  */
  lemma {:induction false} SingleUse(config: Config, p: ProxyState, events: seq<Event>, k: Key)
    requires Fresh(p)
    ensures Uses(config, p, events, k) <= Grants(config, events, k)
  {
    RunInv(config, p, events, k);
  }

  /** A request sent on under an approval answers an earlier grant for that action, before it expires. */
  lemma {:induction false} SentWasGranted(config: Config, p: ProxyState, events: seq<Event>, e: Event)
    requires Fresh(p) && Used(config, Run(config, p, events), e).Some?
    ensures var a := Used(config, Run(config, p, events), e).value;
      && Granted(config, events, a.Unused())
      && e.request.Plain? && KeyOf(config, e.request) == Key(a.actionId, a.verb, a.target)
      && e.at <= a.expiresAt
  {
    hide AfterReport, Run, Inv, Granted, Fresh, Approvals.Available;
    var k := KeyOf(config, e.request);
    RunInv(config, p, events, k);
    var s, r := Run(config, p, events).approvals, e.request;
    InvValid(config, events, s);
    ConsumeInv(config, events, s, r.token, k.verb, r.url, e.at, e.saved);
    Approvals.ConsumeStep(s, r.token, k.verb, r.url, e.at, e.saved, k.id, k.verb, k.target);
  }

  // ---------------------------------------------------------------- the journal

  /** What an event does to the journal, as an event of the store. */
  function JournalEvent(config: Config, p: ProxyState, e: Event): seq<EvidenceRuns.Event> {
    match e
    case Granting(_, _, _, _, _, _, _) => []
    case Handling(r, at, saved, reply, stamp, written) =>
      (match Observed(config, r, Decided(config, p.approvals, r, at, saved).1, reply)
       case None => []
       case Some(o) => [EvidenceRuns.Appended(Recorded(config, o, stamp), config.secret, "", written)])
    case Restarting => [EvidenceRuns.Restarted]
  }

  function JournalEvents(config: Config, p: ProxyState, events: seq<Event>): seq<EvidenceRuns.Event> {
    if events == [] then []
    else
      var init := events[..|events| - 1];
      JournalEvents(config, p, init) + JournalEvent(config, Run(config, p, init), events[|events| - 1])
  }

  lemma {:induction false} JournalStep(config: Config, p: ProxyState, e: Event, before: seq<EvidenceRuns.Event>,
                                       start: StoreState)
    requires p.journal == EvidenceRuns.Run(config.crypto, start, before)
    ensures Step(config, p, e).journal == EvidenceRuns.Run(config.crypto, start, before + JournalEvent(config, p, e))
    ensures |JournalEvent(config, p, e)| <= 1
  {
    hide Recorded, AfterAppend, Observed, Decided;
    var more := JournalEvent(config, p, e);
    if more == [] {
      assert before + more == before;
    } else {
      assert (before + more)[..|before + more| - 1] == before;
    }
  }

  /** The journal of the proxy runs as the store does on these events. */
  lemma {:induction false} JournalOfRun(config: Config, p: ProxyState, events: seq<Event>)
    ensures Run(config, p, events).journal ==
      EvidenceRuns.Run(config.crypto, p.journal, JournalEvents(config, p, events))
  {
    hide Step, JournalEvent, EvidenceRuns.Step;
    if events != [] {
      var init := events[..|events| - 1];
      JournalOfRun(config, p, init);
      JournalStep(config, Run(config, p, init), events[|events| - 1], JournalEvents(config, p, init), p.journal);
    }
  }

  /** What a handler appends can always be signed. */
  ghost predicate Recordable(event: EvidenceRuns.Event) {
    EvidenceRuns.Proper(event) && (event.Appended? ==> EvidenceRuns.Signable(event.evidence))
  }

  lemma {:induction false} RecordedHasNoFloat(e: ActionEvidence)
    requires Flat(e.action) && Flat(e.risk) && Flat(e.authorization) && Flat(e.execution)
    ensures EvidenceRuns.Signable(e)
  {
    hide Flat, Clean, WellFormed;
    CleanFlat(e.action);
    CleanFlat(e.authorization);
    CleanFlat(e.execution);
    FlatWellFormed(Clean(e.action));
    FlatWellFormed(e.risk);
    FlatWellFormed(Clean(e.authorization));
    FlatWellFormed(Clean(e.execution));
    BodyHasNoFloat(e, e.(prevHash := Null).Body());
  }

  lemma {:induction false} BodyHasNoFloat(e: ActionEvidence, f: seq<Field>)
    requires f == e.(prevHash := Null).Body()
    requires !HasFloat(Obj(Clean(e.action))) && !HasFloat(Obj(e.risk))
    requires !HasFloat(Obj(Clean(e.authorization))) && !HasFloat(Obj(Clean(e.execution)))
    ensures !HasFloat(Obj(f))
  {
    hide Clean, HasFloat;
    assert |f| == 10;
    assert f[0].value.Str? && f[1].value.Str? && f[2].value.Int? && f[3].value.Str? && f[4].value.Str?
      && f[9].value.Null?;
    forall i | 0 <= i < |f|
      ensures !HasFloat(f[i].value)
    {
      if i != 5 && i != 6 && i != 7 && i != 8 {
        AtomicHasNoFloat(f[i].value);
      }
    }
    FieldsHaveNoFloat(f);
  }

  lemma AtomicHasNoFloat(v: Json)
    requires Atomic(v)
    ensures !HasFloat(v)
  {
  }

  lemma FieldsHaveNoFloat(f: seq<Field>)
    requires forall i :: 0 <= i < |f| ==> !HasFloat(f[i].value)
    ensures !HasFloat(Obj(f))
  {
  }

  lemma {:induction false} JournalEventRecordable(config: Config, p: ProxyState, e: Event)
    ensures forall x :: x in JournalEvent(config, p, e) ==> Recordable(x)
  {
    hide Recorded, Observed, Decided, EvidenceRuns.Signable, ActionEvidence.Valid;
    if e.Handling? {
      var action := Decided(config, p.approvals, e.request, e.at, e.saved).1;
      var o := Observed(config, e.request, action, e.reply);
      if o.Some? {
        ObservedSimple(config, e.request, action, e.reply);
        RecordedIsSignable(config, o.value, e.stamp);
        RecordedHasNoFloat(Recorded(config, o.value, e.stamp));
      }
    }
  }

  lemma {:induction false} AllRecordable(config: Config, p: ProxyState, events: seq<Event>)
    ensures forall x :: x in JournalEvents(config, p, events) ==> Recordable(x)
  {
    hide JournalEvent, Recordable;
    if events != [] {
      var init := events[..|events| - 1];
      AllRecordable(config, p, init);
      JournalEventRecordable(config, Run(config, p, init), events[|events| - 1]);
    }
  }

  /**
    Every handler's record joins one chain: over every run, the journal verifies from end to end if and
    only if no record was written after one that was lost, without a restart in between.
  */
  lemma {:induction false} ProxyJournalVerifiesIff(config: Config, p: ProxyState, events: seq<Event>)
    requires config.crypto.Correct() && config.crypto.AsciiDigest() && config.crypto.CollisionFree()
    requires p.journal == EvidenceRuns.NEW_JOURNAL
    ensures var journal, appended := Run(config, p, events).journal, JournalEvents(config, p, events);
      && (forall x :: x in appended && x.Appended? ==> EvidenceRuns.Signable(x.evidence))
      && journal.file.Some?
      && (EvidenceLaws.ReportedValid(config.crypto, journal.file.value) <==> !EvidenceRuns.Unhealed(appended))
  {
    hide EvidenceRuns.Run, Run, JournalEvents, EvidenceLaws.ReportedValid, EvidenceRuns.Unhealed, EvidenceRuns.Signable,
        EvidenceRuns.Sound;
    JournalOfRun(config, p, events);
    AllRecordable(config, p, events);
    var appended := JournalEvents(config, p, events);
    assert forall i :: 0 <= i < |appended| ==> appended[i] in appended && Recordable(appended[i]);
    EvidenceRuns.JournalVerifiesIff(config.crypto, appended);
  }

  /** While no write fails, the journal verifies after every run. */
  lemma {:induction false} ProxyJournalVerifies(config: Config, p: ProxyState, events: seq<Event>)
    requires config.crypto.Correct() && config.crypto.AsciiDigest() && p.journal == EvidenceRuns.NEW_JOURNAL
    requires forall i :: 0 <= i < |events| && events[i].Handling? ==> events[i].written
    ensures EvidenceRuns.Sound(config.crypto, Run(config, p, events).journal)
  {
    hide EvidenceRuns.Run, Run, EvidenceRuns.Sound, EvidenceRuns.Signable, ActionEvidence.Valid, JournalEvents;
    JournalOfRun(config, p, events);
    AllRecordable(config, p, events);
    AllWritten(config, p, events);
    var appended := JournalEvents(config, p, events);
    forall i | 0 <= i < |appended|
      ensures EvidenceRuns.Proper(appended[i]) && (appended[i].Appended? ==> appended[i].written)
    {
      assert appended[i] in appended && Recordable(appended[i]);
    }
    EvidenceRuns.JournalAlwaysVerifies(config.crypto, appended);
  }

  lemma {:induction false} AllWritten(config: Config, p: ProxyState, events: seq<Event>)
    requires forall i :: 0 <= i < |events| && events[i].Handling? ==> events[i].written
    ensures forall x :: x in JournalEvents(config, p, events) && x.Appended? ==> x.written
  {
    hide Recorded, Observed, Decided;
    if events != [] {
      AllWritten(config, p, events[..|events| - 1]);
    }
  }
}
