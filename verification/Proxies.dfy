/** The assurance proxy: it decides what leaves, burns approvals, and records what happened. */
module Proxies {
  import opened Wrappers
  import opened Json
  import opened JsonText
  import opened Conversions
  import opened Crypto
  import opened Evidence
  import Approvals

  // ---------------------------------------------------------------- dictionaries

  function Without(fields: seq<Field>, key: string): (r: seq<Field>)
    ensures forall f :: f in r ==> f in fields && f.key != key
  {
    if fields == [] then []
    else if fields[0].key == key then Without(fields[1..], key)
    else [fields[0]] + Without(fields[1..], key)
  }

  function OrNull(text: Option<string>): Json {
    if text.Some? then Str(text.value) else Null
  }

  // ---------------------------------------------------------------- what is recorded

  datatype Decision = Allow | Block | NeedApproval {
    function Text(): string {
      match this
      case Allow => "allow"
      case Block => "block"
      case NeedApproval => "approval"
    }
  }

  datatype Verdict = Verdict(decision: Decision, risk: nat, rule: string, reason: string)

  datatype Config = Config(
    crypto: Crypto, secret: string, agentId: string, organizationId: string, policy: string, threshold: int,
    upper: string -> string,
    assess: (string, string) -> Verdict,          // the policy, from method and address
    explain: Approvals.Refusal -> string)

  datatype Stamp = Stamp(actionId: string, timestamp: int)

  datatype Observation = Observation(
    verb: string, url: string, verdict: Verdict, status: string, payloadHash: Option<string>,
    responseStatus: Option<int>, responseHash: Option<string>, extra: seq<Field>)

  function RiskText(risk: nat): string {
    PrintInt(risk)
  }

  function ActionBlock(config: Config, o: Observation): seq<Field> {
    Dict([Field("method", Str(config.upper(o.verb))), Field("target", Str(o.url)), Field("type", Str("http_request")),
          Field("payload_hash", OrNull(o.payloadHash))])
  }

  function RiskBlock(o: Observation): seq<Field> {
    Dict([Field("level", Str("R" + RiskText(o.verdict.risk))), Field("label", Str("R" + RiskText(o.verdict.risk))),
          Field("value", Int(o.verdict.risk))])
  }

  /** What is known of the execution, before the approval is moved out of it. */
  function ExecutionBlock(o: Observation): seq<Field> {
    Clean(Dict([Field("status", Str(o.status)),
                Field("response_status", if o.responseStatus.Some? then Int(o.responseStatus.value) else Null),
                Field("response_hash", OrNull(o.responseHash)),
                Field("reason", if o.verdict.reason == "" then Null else Str(o.verdict.reason))] + o.extra))
  }

  function AuthorizationBlock(config: Config, o: Observation): seq<Field> {
    Dict([Field("policy", Str(config.policy)), Field("rule", Str(o.verdict.rule)),
          Field("decision", Str(o.verdict.decision.Text()))])
  }

  /** Who validated an action goes with its authorization. */
  function Approved(python: Python, authorization: seq<Field>, execution: seq<Field>): seq<Field> {
    match Get(execution, "approval_id")
    case None => authorization
    case Some(id) =>
      if python.Falsy(id) then authorization
      else Put(Put(authorization, Field("approval_id", id)),
               Field("approved_by",
                     if Get(execution, "approved_by").Some? then Get(execution, "approved_by").value else Null))
  }

  function Recorded(config: Config, o: Observation, stamp: Stamp): ActionEvidence {
    var execution := ExecutionBlock(o);
    ActionEvidence(config.agentId, config.organizationId, ActionBlock(config, o), RiskBlock(o),
                   Approved(config.crypto.python, AuthorizationBlock(config, o), execution),
                   Without(Without(execution, "approval_id"), "approved_by"),
                   stamp.actionId, stamp.timestamp, Str(GENESIS), "0.1")
  }

  /** The journal, and whether recording raised; a handler that it interrupts sends no answer. */
  function AfterRecord(config: Config, journal: StoreState, o: Observation, stamp: Stamp, written: bool)
    : (StoreState, bool)
  {
    var (next, r) := AfterAppend(config.crypto, journal, Recorded(config, o, stamp), config.secret, "", written);
    (next, r.Err?)
  }

  /** At most one record. */
  function AfterReport(config: Config, journal: StoreState, o: Option<Observation>, stamp: Stamp, written: bool)
    : (StoreState, bool)
  {
    match o
    case None => (journal, false)
    case Some(seen) => AfterRecord(config, journal, seen, stamp, written)
  }

  // ---------------------------------------------------------------- what is decided

  datatype Request =
    | Plain(verb: string, url: string, payloadHash: Option<string>, token: string)   // "" when no token is presented
    | Connect(host: string)

  /** What the upstream answered, or the error met in reaching it. */
  datatype Reply = Unreachable(error: string) | Answered(status: int, hash: Option<string>)

  datatype Action =
    | NotProxied                                                  // a request that was not meant for a proxy
    | Refuse(status: string, why: Option<Approvals.Refusal>)
    | Send(approval: Option<Approvals.Approval>)
    | Tunnel
    | Crash                                                       // the approval could not be written back

  predicate HttpAddress(url: string) {
    |url| >= 4 && url[..4] == "http"
  }

  function VerdictOn(config: Config, r: Request): Verdict {
    if r.Plain? then config.assess(r.verb, r.url) else config.assess("CONNECT", "https://" + r.host)
  }

  /** A token burnt, or the reason it was refused. */
  function Redeemed(config: Config, s: Approvals.State, r: Request, now: int, saved: bool): (Approvals.State, Action)
    requires r.Plain?
  {
    var (t, consumed) := Approvals.AfterConsume(s, r.token, config.upper(r.verb), r.url, now, saved);
    match consumed
    case Ok(a) => (t, Send(Some(a)))
    case Err(Refused(why)) => (t, Refuse("approval_rejected", Some(why)))
    case Err(WriteFailed) => (t, Crash)
  }

  function Decided(config: Config, s: Approvals.State, r: Request, now: int, saved: bool): (Approvals.State, Action) {
    if r.Plain? && !HttpAddress(r.url) then (s, NotProxied)
    else match VerdictOn(config, r).decision
      case Block => (s, Refuse("blocked", None))
      case Allow => (s, if r.Plain? then Send(None) else Tunnel)
      case NeedApproval =>
        // Nothing can be redeemed for a tunnel, whose path and body are not visible.
        if r.Connect? || r.token == "" then (s, Refuse("pending_approval", None))
        else Redeemed(config, s, r, now, saved)
  }

  function Observe(config: Config, r: Request, status: string, reply: Option<Reply>, extra: seq<Field>): Observation {
    var answered := reply.Some? && reply.value.Answered?;
    Observation(if r.Plain? then r.verb else "CONNECT", if r.Plain? then r.url else "https://" + r.host,
                VerdictOn(config, r), status, if r.Plain? then r.payloadHash else None,
                if answered then Some(reply.value.status) else None, if answered then reply.value.hash else None, extra)
  }

  function ApprovalId(approval: Option<Approvals.Approval>): Json {
    if approval.Some? then Str(approval.value.actionId) else Null
  }

  function ApprovedBy(approval: Option<Approvals.Approval>): Json {
    if approval.Some? then Str(approval.value.approvedBy) else Null
  }

  /** Refusals and failures are always recorded; what went through, from the threshold of risk on. */
  function Observed(config: Config, r: Request, action: Action, reply: Reply): Option<Observation> {
    match action
    case NotProxied => None
    case Crash => None
    case Refuse(status, why) =>
      Some(Observe(config, r, status, None,
                   if r.Connect? then [Field("tls_opaque", Bool(true))]
                   else if why.Some? then [Field("approval_error", Str(config.explain(why.value)))] else []))
    case Send(approval) =>
      if reply.Unreachable? then
        Some(Observe(config, r, "failed", None,
                     [Field("error", Str(reply.error)), Field("approval_id", ApprovalId(approval))]))
      else if VerdictOn(config, r).risk >= config.threshold then
        Some(Observe(config, r, "executed", Some(reply),
                     [Field("approval_id", ApprovalId(approval)), Field("approved_by", ApprovedBy(approval))]))
      else None
    case Tunnel =>
      if reply.Unreachable? || VerdictOn(config, r).risk < config.threshold then None
      else Some(Observe(config, r, "tunnelled", None, [Field("tls_opaque", Bool(true))]))
  }

  datatype ProxyState = ProxyState(journal: StoreState, approvals: Approvals.State)

  /** One request, with what becomes of a write to the file of approvals and of one to the journal. */
  function AfterHandle(config: Config, p: ProxyState, r: Request, now: int, saved: bool, reply: Reply, stamp: Stamp,
                       written: bool)
    : (ProxyState, Action, bool)
  {
    var (approvals, action) := Decided(config, p.approvals, r, now, saved);
    var (journal, raised) := AfterReport(config, p.journal, Observed(config, r, action, reply), stamp, written);
    (ProxyState(journal, approvals), action, raised)
  }

  class AssuranceProxy {
    const config: Config
    const store: EvidenceStore
    const approvals: Approvals.ApprovalStore

    ghost predicate Valid() {
      approvals.upper == config.upper
    }

    function View(): ProxyState
      reads store, approvals
    {
      ProxyState(store.View(), approvals.View())
    }

    constructor (config: Config, store: EvidenceStore, approvals: Approvals.ApprovalStore)
      requires approvals.upper == config.upper
      ensures Valid() && this.config == config && this.store == store && this.approvals == approvals
    {
      this.config, this.store, this.approvals := config, store, approvals;
    }

    method Record(o: Observation, stamp: Stamp, written: bool) returns (raised: bool)
      modifies store
      ensures (store.View(), raised) == AfterRecord(config, old(store.View()), o, stamp, written)
    {
      hide AfterAppend;
      var authorization, execution := AuthorizationBlock(config, o), ExecutionBlock(o);
      authorization := Approved(config.crypto.python, authorization, execution);
      execution := Without(Without(execution, "approval_id"), "approved_by");
      var evidence := ActionEvidence(config.agentId, config.organizationId, ActionBlock(config, o), RiskBlock(o),
                                     authorization, execution, stamp.actionId, stamp.timestamp, Str(GENESIS), "0.1");
      var r := store.Append(config.crypto, evidence, config.secret, "", written);
      return r.Err?;
    }

    /** One request: assessed, perhaps redeemed, perhaps sent, and recorded. */
    method Handle(r: Request, now: int, saved: bool, reply: Reply, stamp: Stamp, written: bool)
      returns (action: Action, raised: bool)
      requires Valid() && r.Plain?
      modifies store, approvals
      ensures (View(), action, raised) == AfterHandle(config, old(View()), r, now, saved, reply, stamp, written)
    {
      hide AfterRecord;
      if !HttpAddress(r.url) {
        return NotProxied, false;
      }
      var verdict := config.assess(r.verb, r.url);
      if verdict.decision == Block {
        raised := Record(Observe(config, r, "blocked", None, []), stamp, written);
        return Refuse("blocked", None), raised;
      }
      var approval := None;
      if verdict.decision == NeedApproval {
        if r.token == "" {
          raised := Record(Observe(config, r, "pending_approval", None, []), stamp, written);
          return Refuse("pending_approval", None), raised;
        }
        var consumed := approvals.Consume(r.token, r.verb, r.url, now, saved);
        if consumed.Err? {
          if consumed.error.WriteFailed? {
            return Crash, false;
          }
          var error := Field("approval_error", Str(config.explain(consumed.error.why)));
          raised := Record(Observe(config, r, "approval_rejected", None, [error]), stamp, written);
          return Refuse("approval_rejected", Some(consumed.error.why)), raised;
        }
        approval := Some(consumed.value);
      }
      raised := Forward(r, approval, reply, stamp, written);
      return Send(approval), raised;
    }

    method Forward(r: Request, approval: Option<Approvals.Approval>, reply: Reply, stamp: Stamp, written: bool)
      returns (raised: bool)
      requires r.Plain?
      modifies store
      ensures (store.View(), raised) ==
        AfterReport(config, old(store.View()), Observed(config, r, Send(approval), reply), stamp, written)
    {
      hide AfterRecord;
      if reply.Unreachable? {
        raised := Record(Observe(config, r, "failed", None,
                                 [Field("error", Str(reply.error)), Field("approval_id", ApprovalId(approval))]),
                     stamp, written);
        return;
      }
      if VerdictOn(config, r).risk < config.threshold {
        return false;
      }
      raised := Record(Observe(config, r, "executed", Some(reply),
                               [Field("approval_id", ApprovalId(approval)),
                                Field("approved_by", ApprovedBy(approval))]),
                   stamp, written);
    }

    /** A tunnel shows the host only. */
    method HandleConnect(r: Request, now: int, saved: bool, reply: Reply, stamp: Stamp, written: bool)
      returns (action: Action, raised: bool)
      requires Valid() && r.Connect?
      modifies store
      ensures (View(), action, raised) == AfterHandle(config, old(View()), r, now, saved, reply, stamp, written)
    {
      hide AfterRecord;
      var verdict := VerdictOn(config, r);
      if verdict.decision == Block || verdict.decision == NeedApproval {
        var status := if verdict.decision == Block then "blocked" else "pending_approval";
        raised := Record(Observe(config, r, status, None, [Field("tls_opaque", Bool(true))]), stamp, written);
        return Refuse(status, None), raised;
      }
      if reply.Answered? && verdict.risk >= config.threshold {
        raised := Record(Observe(config, r, "tunnelled", None, [Field("tls_opaque", Bool(true))]), stamp, written);
        return Tunnel, raised;
      }
      return Tunnel, false;
    }
  }
}
