/** What the proxy does with a request, and what its record says, from the policy and the approvals alone. */
module ProxyRecords {
  import opened Wrappers
  import opened Json
  import opened JsonText
  import opened Conversions
  import opened Evidence
  import EvidenceRuns
  import opened Proxies
  import opened ProxyLaws
  import opened Records
  import Approvals

  // ---------------------------------------------------------------- reading the blocks of a record

  /** Inside a block of the record, this key has this value. */
  ghost predicate At(record: Json, block: string, key: string, v: Json) {
    record.Obj? && exists kept :: Get(record.fields, block) == Some(Obj(kept)) && Get(kept, key) == Some(v)
  }

  /** That block of the record says nothing under this key. */
  ghost predicate Silent(record: Json, block: string, key: string) {
    forall v :: !At(record, block, key, v)
  }

  lemma {:induction false} AbsentAt(record: Json, block: string, fields: seq<Field>, key: string)
    requires record.Obj? && Contains(record.fields, block, fields) && forall f :: f in fields ==> f.key != key
    ensures Silent(record, block, key)
  {
    var kept :| Get(record.fields, block) == Some(Obj(kept)) && NonNull(kept, fields);
    assert forall i :: 0 <= i < |kept| ==> kept[i] in fields;
    assert Get(kept, key) == None;
  }

  lemma {:induction false} ApprovalAbsent(record: Json, config: Config, o: Observation, stamp: Stamp)
    requires record.Obj? && Contains(record.fields, "execution", Recorded(config, o, stamp).execution)
    ensures Silent(record, "execution", "approval_id") && Silent(record, "execution", "approved_by")
  {
    hide Get, ActionBlock, RiskBlock, Approved, ExecutionBlock, AuthorizationBlock, Contains, Silent;
    var execution := Recorded(config, o, stamp).execution;
    AbsentAt(record, "execution", execution, "approval_id");
    AbsentAt(record, "execution", execution, "approved_by");
  }

  lemma {:induction false} WithoutGet(fields: seq<Field>, key: string, other: string)
    requires key != other
    ensures Get(Without(fields, key), other) == Get(fields, other)
  {
    if fields != [] {
      WithoutGet(fields[1..], key, other);
      if fields[0].key != key {
        assert ([fields[0]] + Without(fields[1..], key))[1..] == Without(fields[1..], key);
      }
    }
  }

  /** A dictionary made of pairs with distinct keys holds each of them. */
  lemma {:induction false} DictGets(pairs: seq<Field>)
    requires Distinct(pairs)
    ensures forall i :: 0 <= i < |pairs| ==> Get(Dict(pairs), pairs[i].key) == Some(pairs[i].value)
  {
    hide Get, Dict;
    DictDistinct(pairs);
    GetEach(pairs);
  }

  lemma {:induction false} BlockAt(record: Json, block: string, fields: seq<Field>, key: string, v: Json)
    requires record.Obj? && Flat(fields) && Get(fields, key) == Some(v) && v != Null
    requires Contains(record.fields, block, fields) || Get(record.fields, block) == Some(Obj(fields))
    ensures At(record, block, key, v)
  {
    if Contains(record.fields, block, fields) {
      var kept :| Get(record.fields, block) == Some(Obj(kept)) && NonNull(kept, fields);
      assert Field(key, v) in fields;
      GetUnique(kept, Field(key, v));
    }
  }

  // ---------------------------------------------------------------- the four blocks

  lemma {:induction false} ActionSays(config: Config, o: Observation)
    ensures var f := ActionBlock(config, o);
      && Get(f, "method") == Some(Str(config.upper(o.verb))) && Get(f, "target") == Some(Str(o.url))
      && Get(f, "type") == Some(Str("http_request")) && Get(f, "payload_hash") == Some(OrNull(o.payloadHash))
  {
    hide Get, Dict;
    var pairs := [Field("method", Str(config.upper(o.verb))), Field("target", Str(o.url)),
                  Field("type", Str("http_request")), Field("payload_hash", OrNull(o.payloadHash))];
    assert |pairs[0].key| == 6 && |pairs[1].key| == 6 && |pairs[2].key| == 4 && |pairs[3].key| == 12;
    assert pairs[0].key[0] == 'm' && pairs[1].key[0] == 't';
    assert forall i, j :: 0 <= i < j < 4 ==> |pairs[i].key| != |pairs[j].key| || pairs[i].key[0] != pairs[j].key[0];
    DictGets(pairs);
    assert pairs[0].key == "method" && pairs[1].key == "target" && pairs[2].key == "type";
    assert pairs[3].key == "payload_hash";
  }

  lemma {:induction false} RiskSays(o: Observation)
    ensures var f := RiskBlock(o);
      && Get(f, "level") == Some(Str("R" + PrintInt(o.verdict.risk))) && Get(f, "value") == Some(Int(o.verdict.risk))
      && Get(f, "label") == Some(Str("R" + PrintInt(o.verdict.risk)))
  {
    hide Get, Dict;
    var pairs := [Field("level", Str("R" + RiskText(o.verdict.risk))),
                  Field("label", Str("R" + RiskText(o.verdict.risk))),
                  Field("value", Int(o.verdict.risk))];
    assert pairs[0].key[1] == 'e' && pairs[1].key[1] == 'a' && pairs[2].key[0] == 'v';
    assert pairs[0].key[0] == 'l' && pairs[1].key[0] == 'l';
    assert Distinct(pairs);
    DictGets(pairs);
    assert pairs[0].key == "level" && pairs[1].key == "label" && pairs[2].key == "value";
  }

  lemma {:induction false} AuthorizationSays(config: Config, o: Observation)
    ensures var f := AuthorizationBlock(config, o);
      && Get(f, "policy") == Some(Str(config.policy)) && Get(f, "rule") == Some(Str(o.verdict.rule))
      && Get(f, "decision") == Some(Str(o.verdict.decision.Text()))
  {
    hide Get, Dict;
    var pairs := [Field("policy", Str(config.policy)), Field("rule", Str(o.verdict.rule)),
                  Field("decision", Str(o.verdict.decision.Text()))];
    assert |pairs[0].key| == 6 && |pairs[1].key| == 4 && |pairs[2].key| == 8;
    DictGets(pairs);
    assert pairs[0].key == "policy" && pairs[1].key == "rule" && pairs[2].key == "decision";
  }

  /** An approval only adds two fields to the authorization. */
  lemma {:induction false} ApprovedSays(config: Config, o: Observation, key: string)
    requires key != "approval_id" && key != "approved_by"
    ensures Get(Approved(config.crypto.python, AuthorizationBlock(config, o), ExecutionBlock(o)), key) ==
      Get(AuthorizationBlock(config, o), key)
  {
    hide Get, Put, ExecutionBlock, AuthorizationBlock;
    var a, x := AuthorizationBlock(config, o), ExecutionBlock(o);
    if Get(x, "approval_id").Some? {
      var id := Field("approval_id", Get(x, "approval_id").value);
      var person := if Get(x, "approved_by").Some? then Get(x, "approved_by").value else Null;
      PutGet(a, id, key);
      PutGet(Put(a, id), Field("approved_by", person), key);
    }
  }

  lemma AuthorizationKeys()
    ensures "policy" != "approval_id" && "policy" != "approved_by" && "rule" != "approval_id" && "rule" != "approved_by"
    ensures "decision" != "approval_id" && "decision" != "approved_by"
    ensures "reason" != "approval_id" && "reason" != "approved_by"
    ensures "status" != "approval_id" && "status" != "approved_by" && "response_status" != "approval_id"
    ensures "response_status" != "approved_by" && "response_hash" != "approval_id" && "response_hash" != "approved_by"
  {
    assert |"policy"| == 6 && |"rule"| == 4 && |"decision"| == 8 && |"approval_id"| == 11 && |"approved_by"| == 11;
    assert |"status"| == 6 && |"reason"| == 6 && |"response_status"| == 15 && |"response_hash"| == 13;
  }

  /** What a handler adds to the execution has keys of its own. */
  ghost predicate Added(extra: seq<Field>) {
    && Distinct(extra)
    && forall i :: 0 <= i < |extra| ==> Atomic(extra[i].value) && extra[i].key != "" && extra[i].key[0] in "aet"
  }

  function Basics(o: Observation): seq<Field> {
    [Field("status", Str(o.status)),
     Field("response_status", if o.responseStatus.Some? then Int(o.responseStatus.value) else Null),
     Field("response_hash", OrNull(o.responseHash)),
     Field("reason", if o.verdict.reason == "" then Null else Str(o.verdict.reason))]
  }

  lemma {:induction false} BasicsDistinct(o: Observation)
    ensures |Basics(o)| == 4 && Distinct(Basics(o))
    ensures forall i :: 0 <= i < 4 ==> Basics(o)[i].key != "" && Basics(o)[i].key[0] in "sr"
  {
    var b := Basics(o);
    assert |b[0].key| == 6 && |b[1].key| == 15 && |b[2].key| == 13 && |b[3].key| == 6;
    assert b[0].key[0] == 's' && b[1].key[0] == 'r' && b[2].key[0] == 'r' && b[3].key[0] == 'r';
    assert forall i, j :: 0 <= i < j < 4 ==> |b[i].key| != |b[j].key| || b[i].key[0] != b[j].key[0];
  }

  lemma {:induction false} ExecutionDistinct(b: seq<Field>, extra: seq<Field>)
    requires Distinct(b) && forall i :: 0 <= i < |b| ==> b[i].key != "" && b[i].key[0] in "sr"
    requires Added(extra)
    ensures Distinct(b + extra)
  {
    var f := b + extra;
    forall i, j | 0 <= i < j < |f|
      ensures f[i].key != f[j].key
    {
      if i < |b| <= j {
        assert f[i].key[0] in "sr" && f[j].key[0] in "aet";
      }
    }
  }

  /** Each field that was put into the execution, and is not null, is there. */
  lemma {:induction false} ExecutionSays(o: Observation, x: Field)
    requires Added(o.extra) && x.value != Null && (x in Basics(o) || x in o.extra)
    ensures Get(ExecutionBlock(o), x.key) == Some(x.value)
  {
    hide Get, Dict, Clean, Basics, Added, Distinct, Flat;
    var pairs := Basics(o) + o.extra;
    BasicsDistinct(o);
    ExecutionDistinct(Basics(o), o.extra);
    DictGets(pairs);
    assert x in pairs;
    var i :| 0 <= i < |pairs| && pairs[i] == x;
    PairsFlat(o);
    CleanGet(Dict(pairs), x.key, x.value);
    ExecutionIs(o);
  }

  lemma {:induction false} ExecutionIs(o: Observation)
    ensures ExecutionBlock(o) == Clean(Dict(Basics(o) + o.extra))
  {
    hide Clean, Dict;
  }

  lemma {:induction false} PairsFlat(o: Observation)
    requires Added(o.extra)
    ensures Flat(Dict(Basics(o) + o.extra)) && Simple(o)
  {
    hide Dict, Flat, Distinct;
    DictFlat(Basics(o) + o.extra);
  }

  // ---------------------------------------------------------------- the record of an observation

  /** The record names the agent and the request, the policy's verdict, and how it ended. */
  ghost predicate RecordOf(record: Json, config: Config, o: Observation, stamp: Stamp, previous: Json) {
    && record.Obj?
    && Get(record.fields, "agent_id") == Some(Str(config.agentId))
    && Get(record.fields, "organization_id") == Some(Str(config.organizationId))
    && Get(record.fields, "action_id") == Some(Str(stamp.actionId))
    && Get(record.fields, "timestamp") == Some(Int(stamp.timestamp))
       && Get(record.fields, "prev_hash") == Some(previous)
    && At(record, "action", "method", Str(config.upper(o.verb))) && At(record, "action", "target", Str(o.url))
    && At(record, "action", "type", Str("http_request"))
    && (o.payloadHash.Some? ==> At(record, "action", "payload_hash", Str(o.payloadHash.value)))
    && RiskAt(record, o.verdict.risk)
    && At(record, "authorization", "policy", Str(config.policy))
       && At(record, "authorization", "rule", Str(o.verdict.rule))
    && At(record, "authorization", "decision", Str(o.verdict.decision.Text()))
    && At(record, "execution", "status", Str(o.status))
    && (o.responseStatus.Some? ==> At(record, "execution", "response_status", Int(o.responseStatus.value)))
    && (o.responseHash.Some? ==> At(record, "execution", "response_hash", Str(o.responseHash.value)))
    && (o.verdict.reason != "" ==> At(record, "execution", "reason", Str(o.verdict.reason)))
    && Silent(record, "execution", "approval_id") && Silent(record, "execution", "approved_by")
  }

  lemma {:induction false} ExecutionKept(config: Config, o: Observation, stamp: Stamp, key: string)
    requires key != "approval_id" && key != "approved_by"
    ensures Get(Recorded(config, o, stamp).execution, key) == Get(ExecutionBlock(o), key)
  {
    hide Get, ExecutionBlock, AuthorizationBlock, ActionBlock, RiskBlock, Approved, Without;
    var x := ExecutionBlock(o);
    WithoutGet(x, "approval_id", key);
    WithoutGet(Without(x, "approval_id"), "approved_by", key);
  }

  lemma {:induction false} ActionTold(record: Json, config: Config, o: Observation, stamp: Stamp)
    requires record.Obj? && Contains(record.fields, "action", Recorded(config, o, stamp).action)
    ensures At(record, "action", "method", Str(config.upper(o.verb))) && At(record, "action", "target", Str(o.url))
    ensures At(record, "action", "type", Str("http_request"))
    ensures o.payloadHash.Some? ==> At(record, "action", "payload_hash", Str(o.payloadHash.value))
  {
    hide Get, ActionBlock, RiskBlock, Approved, ExecutionBlock, Flat, At, Contains, Without;
    var f := ActionBlock(config, o);
    ActionFlat(config, o);
    ActionSays(config, o);
    BlockAt(record, "action", f, "method", Str(config.upper(o.verb)));
    BlockAt(record, "action", f, "target", Str(o.url));
    BlockAt(record, "action", f, "type", Str("http_request"));
    if o.payloadHash.Some? {
      BlockAt(record, "action", f, "payload_hash", Str(o.payloadHash.value));
    }
  }

  lemma {:induction false} AuthorizationTold(record: Json, config: Config, o: Observation, stamp: Stamp)
    requires record.Obj? && Contains(record.fields, "authorization", Recorded(config, o, stamp).authorization)
      && Simple(o)
    ensures At(record, "authorization", "policy", Str(config.policy))
    ensures At(record, "authorization", "rule", Str(o.verdict.rule))
    ensures At(record, "authorization", "decision", Str(o.verdict.decision.Text()))
  {
    hide Get, ActionBlock, RiskBlock, Approved, ExecutionBlock, AuthorizationBlock, Flat, At, Contains, Without,
        Decision.Text;
    var f := Recorded(config, o, stamp).authorization;
    RecordedIsSignable(config, o, stamp);
    AuthorizationSays(config, o);
    AuthorizationKeys();
    ApprovedSays(config, o, "policy");
    ApprovedSays(config, o, "rule");
    ApprovedSays(config, o, "decision");
    BlockAt(record, "authorization", f, "policy", Str(config.policy));
    BlockAt(record, "authorization", f, "rule", Str(o.verdict.rule));
    BlockAt(record, "authorization", f, "decision", Str(o.verdict.decision.Text()));
  }

  lemma {:induction false} ExecutionTold(record: Json, config: Config, o: Observation, stamp: Stamp, x: Field)
    requires record.Obj? && Contains(record.fields, "execution", Recorded(config, o, stamp).execution) && Added(o.extra)
    requires x.value != Null && (x in Basics(o) || x in o.extra) && x.key != "approval_id" && x.key != "approved_by"
    ensures At(record, "execution", x.key, x.value)
  {
    hide Get, ActionBlock, RiskBlock, Approved, ExecutionBlock, AuthorizationBlock, Flat, At, Contains, Without, Basics,
        Added;
    PairsFlat(o);
    RecordedIsSignable(config, o, stamp);
    ExecutionSays(o, x);
    ExecutionKept(config, o, stamp, x.key);
    BlockAt(record, "execution", Recorded(config, o, stamp).execution, x.key, x.value);
  }

  /** The level of risk, under its name and as a number. */
  ghost predicate RiskAt(record: Json, risk: nat) {
    && At(record, "risk", "value", Int(risk)) && At(record, "risk", "level", Str("R" + PrintInt(risk)))
    && At(record, "risk", "label", Str("R" + PrintInt(risk)))
  }

  lemma {:induction false} RiskTold(record: Json, config: Config, o: Observation, stamp: Stamp)
    requires record.Obj? && Get(record.fields, "risk") == Some(Obj(Recorded(config, o, stamp).risk))
    ensures RiskAt(record, o.verdict.risk)
  {
    hide Get, ActionBlock, RiskBlock, Approved, ExecutionBlock, AuthorizationBlock, Flat, Contains, Without;
    RiskSays(o);
  }

  /** The evidence that the store signs, on top of this hash. */
  lemma {:induction false} SignedRecordOf(config: Config, o: Observation, stamp: Stamp, previous: Json, record: Json)
    requires Added(o.extra)
    requires Sign(config.crypto, Recorded(config, o, stamp).(prevHash := previous), config.secret, "") == Ok(record)
    ensures RecordOf(record, config, o, stamp, previous)
  {
    hide Get, ActionBlock, RiskBlock, Approved, ExecutionBlock, AuthorizationBlock, Flat, Contains, Without, Added,
        Sign, At, Silent,
        Decision.Text;
    var e := Recorded(config, o, stamp).(prevHash := previous);
    var envelope, bytes := SignedTells(config.crypto, e, config.secret, "", record);
    PairsFlat(o);
    ActionTold(record, config, o, stamp);
    RiskTold(record, config, o, stamp);
    ApprovalAbsent(record, config, o, stamp);
    AuthorizationTold(record, config, o, stamp);
    AuthorizationKeys();
    assert Basics(o)[0] in Basics(o) && Basics(o)[1] in Basics(o);
    assert Basics(o)[2] in Basics(o) && Basics(o)[3] in Basics(o);
    ExecutionTold(record, config, o, stamp, Field("status", Str(o.status)));
    if o.responseStatus.Some? {
      ExecutionTold(record, config, o, stamp, Field("response_status", Int(o.responseStatus.value)));
    }
    if o.responseHash.Some? {
      ExecutionTold(record, config, o, stamp, Field("response_hash", Str(o.responseHash.value)));
    }
    if o.verdict.reason != "" {
      ExecutionTold(record, config, o, stamp, Field("reason", Str(o.verdict.reason)));
    }
  }

  // ---------------------------------------------------------------- requests

  function Verb(r: Request): string {
    if r.Plain? then r.verb else "CONNECT"
  }

  function Target(r: Request): string {
    if r.Plain? then r.url else "https://" + r.host
  }

  /** What the policy says of this request. */
  function Assessed(config: Config, r: Request): Verdict {
    config.assess(Verb(r), Target(r))
  }

  /** The record names the agent, the request and the verdict of the policy, and says how the request ended. */
  ghost predicate Describes(record: Json, config: Config, r: Request, status: string, stamp: Stamp, previous: Json) {
    && record.Obj?
    && Get(record.fields, "agent_id") == Some(Str(config.agentId))
    && Get(record.fields, "organization_id") == Some(Str(config.organizationId))
    && Get(record.fields, "action_id") == Some(Str(stamp.actionId))
    && Get(record.fields, "timestamp") == Some(Int(stamp.timestamp))
       && Get(record.fields, "prev_hash") == Some(previous)
    && At(record, "action", "method", Str(config.upper(Verb(r)))) && At(record, "action", "target", Str(Target(r)))
    && At(record, "action", "type", Str("http_request"))
    && (r.Plain? && r.payloadHash.Some? ==> At(record, "action", "payload_hash", Str(r.payloadHash.value)))
    && RiskAt(record, Assessed(config, r).risk)
    && At(record, "authorization", "policy", Str(config.policy))
    && At(record, "authorization", "rule", Str(Assessed(config, r).rule))
    && At(record, "authorization", "decision", Str(DecisionText(Assessed(config, r).decision)))
    && At(record, "execution", "status", Str(status))
    && (Assessed(config, r).reason != "" ==> At(record, "execution", "reason", Str(Assessed(config, r).reason)))
    && Silent(record, "execution", "approval_id") && Silent(record, "execution", "approved_by")
  }

  function DecisionText(d: Decision): string {
    if d == Allow then "allow" else if d == Block then "block" else "approval"
  }

  /** One record more in the journal, on file unless the write failed, which raises. */
  ghost predicate Journalled(before: StoreState, after: StoreState, raised: bool, record: Json, written: bool) {
    && after.count == before.count + 1
    && after.file == (if before.file.Some? && written then Some(before.file.value + [record]) else before.file)
    && (raised <==> before.file.Some? && !written)
  }

  lemma {:induction false} SignsRecorded(config: Config, o: Observation, stamp: Stamp, previous: Json)
    requires Added(o.extra) && previous.Str?
    ensures Sign(config.crypto, Recorded(config, o, stamp).(prevHash := previous), config.secret, "").Ok?
  {
    hide Flat, Added, HasFloat, WellFormed, Recorded, ActionEvidence.Body;
    var e := Recorded(config, o, stamp);
    PairsFlat(o);
    RecordedIsSignable(config, o, stamp);
    RecordedHasNoFloat(e);
    EvidenceRuns.SignableOnAnyHash(e, previous, e.(prevHash := previous).Body(), e.(prevHash := Null).Body());
  }

  lemma {:induction false} RecordsObservation(config: Config, journal: StoreState, o: Observation, stamp: Stamp,
                                              written: bool) returns (record: Json)
    requires Added(o.extra) && journal.lastHash.Str?
    ensures var (next, raised) := AfterRecord(config, journal, o, stamp, written);
      Journalled(journal, next, raised, record, written)
    ensures Sign(config.crypto, Recorded(config, o, stamp).(prevHash := journal.lastHash), config.secret, "") ==
      Ok(record)
    ensures RecordOf(record, config, o, stamp, journal.lastHash)
  {
    hide Added, Sign, Recorded, RecordOf, HashOf;
    SignsRecorded(config, o, stamp, journal.lastHash);
    record := Sign(config.crypto, Recorded(config, o, stamp).(prevHash := journal.lastHash), config.secret, "").value;
    SignedRecordOf(config, o, stamp, journal.lastHash, record);
  }

  lemma {:induction false} ObservedDescribes(config: Config, r: Request, status: string, reply: Option<Reply>,
                                             extra: seq<Field>, stamp: Stamp, previous: Json, record: Json)
    requires RecordOf(record, config, Observe(config, r, status, reply, extra), stamp, previous)
    ensures Describes(record, config, r, status, stamp, previous)
    ensures reply.Some? && reply.value.Answered? ==>
      && At(record, "execution", "response_status", Int(reply.value.status))
      && (reply.value.hash.Some? ==> At(record, "execution", "response_hash", Str(reply.value.hash.value)))
  {
    hide At, Get, Silent;
  }

  /** Nothing goes out without a decision of the policy: it blocks, or it asks for an approval and none is shown. */
  predicate Withheld(config: Config, r: Request) {
    || Assessed(config, r).decision == Block
    || (Assessed(config, r).decision == NeedApproval && (r.Connect? || r.token == ""))
  }

  predicate Proxied(r: Request) {
    r.Plain? ==> |r.url| >= 4 && r.url[0] == 'h' && r.url[1] == 't' && r.url[2] == 't' && r.url[3] == 'p'
  }

  lemma ProxiedIsHttp(r: Request)
    requires r.Plain?
    ensures HttpAddress(r.url) <==> Proxied(r)
  {
    if |r.url| >= 4 {
      var u := r.url[..4];
      assert u == [r.url[0], r.url[1], r.url[2], r.url[3]];
      if u == "http" {
        assert u[0] == 'h' && u[1] == 't' && u[2] == 't' && u[3] == 'p';
      }
    }
  }

  /**
    A request that the policy blocks, or wants approved while no token is shown, and any tunnel that is not
    allowed outright, goes nowhere: it is refused, approvals stay as they are, and the journal gains a record
    that describes it as blocked or as pending.
  */
  lemma {:induction false} WithheldIsRecorded(config: Config, p: ProxyState, r: Request, now: int, saved: bool,
                                              reply: Reply, stamp: Stamp, written: bool) returns (record: Json)
    requires Proxied(r) && Withheld(config, r) && p.journal.lastHash.Str?
    ensures var (q, action, raised) := AfterHandle(config, p, r, now, saved, reply, stamp, written);
      var status := if Assessed(config, r).decision == Block then "blocked" else "pending_approval";
      && action == Refuse(status, None) && q.approvals == p.approvals
      && Journalled(p.journal, q.journal, raised, record, written)
      && Describes(record, config, r, status, stamp, p.journal.lastHash)
      && (r.Connect? ==> At(record, "execution", "tls_opaque", Bool(true)))
  {
    hide AfterHandle, Describes, Journalled, Decided, At;
    WithheldDecided(config, p.approvals, r, now, saved);
    var status := if Assessed(config, r).decision == Block then "blocked" else "pending_approval";
    record := RefusalIsRecorded(config, p, r, now, saved, reply, stamp, written, status, None);
  }

  /** Whatever is refused leaves the approvals as they are, and a record with this status and reason. */
  lemma {:induction false} RefusalIsRecorded(config: Config, p: ProxyState, r: Request, now: int, saved: bool,
                                             reply: Reply, stamp: Stamp, written: bool, status: string,
                                             why: Option<Approvals.Refusal>) returns (record: Json)
    requires p.journal.lastHash.Str?
    requires Decided(config, p.approvals, r, now, saved) == (p.approvals, Refuse(status, why))
    ensures var (q, action, raised) := AfterHandle(config, p, r, now, saved, reply, stamp, written);
      && action == Refuse(status, why) && q.approvals == p.approvals
      && Journalled(p.journal, q.journal, raised, record, written)
      && Describes(record, config, r, status, stamp, p.journal.lastHash)
    ensures r.Connect? ==> At(record, "execution", "tls_opaque", Bool(true))
    ensures r.Plain? && why.Some? ==> At(record, "execution", "approval_error", Str(config.explain(why.value)))
  {
    hide AfterRecord, RecordOf, Describes, Journalled, Decided, Sign, At;
    var extra := if r.Connect? then [Field("tls_opaque", Bool(true))]
                 else if why.Some? then [Field("approval_error", Str(config.explain(why.value)))] else [];
    var o := Observe(config, r, status, None, extra);
    record := RecordsObservation(config, p.journal, o, stamp, written);
    ObservedDescribes(config, r, status, None, extra, stamp, p.journal.lastHash, record);
    assert |"approval_error"| == 14 && |"tls_opaque"| == 10;
    if extra != [] {
      ExtraTold(config, o, stamp, p.journal.lastHash, record, extra[0]);
    }
  }

  lemma {:induction false} WithheldDecided(config: Config, s: Approvals.State, r: Request, now: int, saved: bool)
    requires Proxied(r) && Withheld(config, r)
    ensures Decided(config, s, r, now, saved) ==
      (s, Refuse(if Assessed(config, r).decision == Block then "blocked" else "pending_approval", None))
  {
    if r.Plain? {
      ProxiedIsHttp(r);
    }
  }

  /** An approval in the store that this request can use now. */
  predicate Usable(config: Config, a: Approvals.Approval, r: Request, now: int)
    requires r.Plain?
  {
    && a.actionId == r.token && a.verb == config.upper(r.verb) && a.target == r.url
    && a.usedAt == None && now <= a.expiresAt
  }

  lemma {:induction false} UsableIsConsumed(config: Config, s: Approvals.State, r: Request, now: int, saved: bool)
    requires r.Plain? && Approvals.Keyed(s.approvals)
    ensures Approvals.AfterConsume(s, r.token, config.upper(r.verb), r.url, now, saved).1.Ok? <==>
      (exists a :: a in s.approvals && Usable(config, a, r, now)) && (s.file.Some? ==> saved)
    ensures forall a :: a in s.approvals && Usable(config, a, r, now) ==>
      Approvals.Lookup(s.approvals, r.token) == Some(a)
  {
    forall a | a in s.approvals && Usable(config, a, r, now)
      ensures Approvals.Lookup(s.approvals, r.token) == Some(a)
    {
      KeyedLookup(s.approvals, a);
    }
  }

  lemma {:induction false} KeyedLookup(list: seq<Approvals.Approval>, a: Approvals.Approval)
    requires Approvals.Keyed(list) && a in list
    ensures Approvals.Lookup(list, a.actionId) == Some(a)
  {
    if list[0] != a {
      assert a in list[1..];
      KeyedLookup(list[1..], a);
    }
  }

  /**
    A request is sent on if and only if its address is http and the policy allows it, or wants it approved
    and the store holds an unused approval for exactly this action, in time, whose use can be written down.
    A tunnel opens if and only if the policy allows its host.
  */
  lemma {:induction false} SentIff(config: Config, p: ProxyState, r: Request, now: int, saved: bool, reply: Reply,
                                   stamp: Stamp, written: bool)
    requires Approvals.Keyed(p.approvals.approvals)
    ensures var (q, action, raised) := AfterHandle(config, p, r, now, saved, reply, stamp, written);
      && (action.Send? <==>
            && r.Plain? && Proxied(r)
            && (|| Assessed(config, r).decision == Allow
                || (&& Assessed(config, r).decision == NeedApproval && r.token != ""
                    && (exists a :: a in p.approvals.approvals && Usable(config, a, r, now))
                    && (p.approvals.file.Some? ==> saved))))
      && (action.Tunnel? <==> r.Connect? && Assessed(config, r).decision == Allow)
      && (action.NotProxied? <==> r.Plain? && !Proxied(r))
  {
    hide AfterReport, Observed, Usable, Approvals.AfterConsume;
    if r.Plain? {
      ProxiedIsHttp(r);
      UsableIsConsumed(config, p.approvals, r, now, saved);
    }
  }

  /**
    The handler is interrupted before it sends anything if and only if the approval could be used and the use
    cannot be written; nothing is recorded then, nor for a request that was not meant for a proxy.
  */
  lemma {:induction false} InterruptedIff(config: Config, p: ProxyState, r: Request, now: int, saved: bool,
                                          reply: Reply, stamp: Stamp, written: bool)
    requires Approvals.Keyed(p.approvals.approvals)
    ensures var (q, action, raised) := AfterHandle(config, p, r, now, saved, reply, stamp, written);
      && (action.Crash? <==>
            && r.Plain? && Proxied(r) && Assessed(config, r).decision == NeedApproval && r.token != ""
            && (exists a :: a in p.approvals.approvals && Usable(config, a, r, now))
            && p.approvals.file.Some? && !saved)
      && (action.Crash? || action.NotProxied? ==> q.journal == p.journal && !raised)
  {
    hide AfterRecord, Usable, Approvals.AfterConsume;
    if r.Plain? {
      ProxiedIsHttp(r);
      UsableIsConsumed(config, p.approvals, r, now, saved);
      UnwrittenUse(config, p.approvals, r, now, saved);
    }
  }

  lemma {:induction false} UnwrittenUse(config: Config, s: Approvals.State, r: Request, now: int, saved: bool)
    requires r.Plain? && Approvals.Keyed(s.approvals)
    ensures Approvals.AfterConsume(s, r.token, config.upper(r.verb), r.url, now, saved).1 == Err(Approvals.WriteFailed)
      <==> (exists a :: a in s.approvals && Usable(config, a, r, now)) && s.file.Some? && !saved
  {
    hide Approvals.AfterConsume;
    Approvals.RefusedBecause(s, r.token, config.upper(r.verb), r.url, now, saved);
    UsableIsConsumed(config, s, r, now, saved);
    var found := Approvals.Lookup(s.approvals, r.token);
    if found.Some? {
      assert found.value in s.approvals;
    }
  }

  /** A token that opens nothing is refused, and the refusal recorded; the approvals stay as they are. */
  lemma {:induction false} RejectedIsRecorded(config: Config, p: ProxyState, r: Request, now: int, saved: bool,
                                              reply: Reply, stamp: Stamp, written: bool) returns (record: Json)
    requires r.Plain? && Proxied(r) && Assessed(config, r).decision == NeedApproval && r.token != ""
    requires Approvals.Keyed(p.approvals.approvals) && p.journal.lastHash.Str?
    requires !exists a :: a in p.approvals.approvals && Usable(config, a, r, now)
    ensures var (q, action, raised) := AfterHandle(config, p, r, now, saved, reply, stamp, written);
      && action.Refuse? && action.status == "approval_rejected" && q.approvals == p.approvals
      && Journalled(p.journal, q.journal, raised, record, written)
      && Describes(record, config, r, "approval_rejected", stamp, p.journal.lastHash)
      && action.why.Some? && At(record, "execution", "approval_error", Str(config.explain(action.why.value)))
      && Approvals.AfterConsume(p.approvals, r.token, config.upper(r.verb), r.url, now, saved).1 ==
         Err(Approvals.Refused(action.why.value))
  {
    hide AfterHandle, Describes, Journalled, Usable, Decided, At, Approvals.AfterConsume;
    var why := RejectedDecided(config, p.approvals, r, now, saved);
    record := RefusalIsRecorded(config, p, r, now, saved, reply, stamp, written, "approval_rejected", Some(why));
  }

  lemma {:induction false} RejectedDecided(config: Config, s: Approvals.State, r: Request, now: int, saved: bool)
    returns (why: Approvals.Refusal)
    requires r.Plain? && Proxied(r) && Assessed(config, r).decision == NeedApproval && r.token != ""
    requires Approvals.Keyed(s.approvals) && !exists a :: a in s.approvals && Usable(config, a, r, now)
    ensures Decided(config, s, r, now, saved) == (s, Refuse("approval_rejected", Some(why)))
    ensures Approvals.AfterConsume(s, r.token, config.upper(r.verb), r.url, now, saved).1 == Err(Approvals.Refused(why))
  {
    hide Usable, Redeemed, Approvals.AfterConsume;
    ProxiedIsHttp(r);
    RefusalsOnly(config, s, r, now, saved);
    why := Redeemed(config, s, r, now, saved).1.why.value;
  }

  lemma {:induction false} RefusalsOnly(config: Config, s: Approvals.State, r: Request, now: int, saved: bool)
    requires r.Plain? && Approvals.Keyed(s.approvals) && !exists a :: a in s.approvals && Usable(config, a, r, now)
    ensures var (t, action) := Redeemed(config, s, r, now, saved);
      && t == s && action.Refuse? && action.status == "approval_rejected" && action.why.Some?
      && Approvals.AfterConsume(s, r.token, config.upper(r.verb), r.url, now, saved).1 ==
         Err(Approvals.Refused(action.why.value))
  {
    var found := Approvals.Lookup(s.approvals, r.token);
    assert found.Some? ==> !Usable(config, found.value, r, now);
  }

  /** A request that could not be delivered is always recorded as failed, with the error. */
  lemma {:induction false} FailedIsRecorded(config: Config, p: ProxyState, r: Request, now: int, saved: bool,
                                            reply: Reply, stamp: Stamp, written: bool) returns (record: Json)
    requires AfterHandle(config, p, r, now, saved, reply, stamp, written).1.Send? && reply.Unreachable?
    requires p.journal.lastHash.Str?
    ensures var (q, action, raised) := AfterHandle(config, p, r, now, saved, reply, stamp, written);
      && Journalled(p.journal, q.journal, raised, record, written)
      && Describes(record, config, r, "failed", stamp, p.journal.lastHash)
      && At(record, "execution", "error", Str(reply.error))
      && (action.approval.Some? && action.approval.value.actionId != "" ==>
            At(record, "authorization", "approval_id", Str(action.approval.value.actionId)))
  {
    hide AfterRecord, RecordOf, Describes, Journalled, Decided, At, Sign;
    var approval := Decided(config, p.approvals, r, now, saved).1.approval;
    var extra := [Field("error", Str(reply.error)), Field("approval_id", ApprovalId(approval))];
    var o := Observe(config, r, "failed", None, extra);
    assert |extra[0].key| == 5 && |extra[1].key| == 11;
    record := RecordsObservation(config, p.journal, o, stamp, written);
    ObservedDescribes(config, r, "failed", None, extra, stamp, p.journal.lastHash, record);
    ExtraTold(config, o, stamp, p.journal.lastHash, record, extra[0]);
    if approval.Some? && approval.value.actionId != "" {
      ApprovalTold(config, o, stamp, p.journal.lastHash, record, approval.value.actionId);
    }
  }

  lemma {:induction false} ApprovalMoved(python: Python, authorization: seq<Field>, execution: seq<Field>, id: string)
    requires Get(execution, "approval_id") == Some(Str(id)) && id != ""
    ensures Get(Approved(python, authorization, execution), "approval_id") == Some(Str(id))
  {
    hide Put, Get;
    assert "approval_id"[6] == 'a' && "approved_by"[6] == 'e';
    var x := Field("approval_id", Str(id));
    var y := Field("approved_by", if Get(execution, "approved_by").Some? then Get(execution, "approved_by").value
                                  else Null);
    assert Approved(python, authorization, execution) == Put(Put(authorization, x), y);
    PutGet(authorization, x, x.key);
    PutGet(Put(authorization, x), y, x.key);
  }

  /** An approval that is mentioned with the execution is named by the authorization of the record. */
  lemma {:induction false} ApprovalTold(config: Config, o: Observation, stamp: Stamp, previous: Json, record: Json,
                                        id: string)
    requires Added(o.extra) && Field("approval_id", Str(id)) in o.extra && id != ""
    requires Sign(config.crypto, Recorded(config, o, stamp).(prevHash := previous), config.secret, "") == Ok(record)
    ensures At(record, "authorization", "approval_id", Str(id))
  {
    hide Get, Contains, Added, Sign, At, Basics, Flat, ActionBlock, RiskBlock, AuthorizationBlock, ExecutionBlock,
        Approved, Without;
    var e := Recorded(config, o, stamp);
    var envelope, bytes := SignedTells(config.crypto, e.(prevHash := previous), config.secret, "", record);
    ExecutionSays(o, Field("approval_id", Str(id)));
    ApprovalMoved(config.crypto.python, AuthorizationBlock(config, o), ExecutionBlock(o), id);
    PairsFlat(o);
    RecordedIsSignable(config, o, stamp);
    BlockAt(record, "authorization", e.authorization, "approval_id", Str(id));
  }

  lemma {:induction false} ExtraTold(config: Config, o: Observation, stamp: Stamp, previous: Json, record: Json,
                                     x: Field)
    requires Added(o.extra) && x in o.extra && x.value != Null && x.key in {"error", "approval_error", "tls_opaque"}
    requires Sign(config.crypto, Recorded(config, o, stamp).(prevHash := previous), config.secret, "") == Ok(record)
    ensures At(record, "execution", x.key, x.value)
  {
    hide Get, Contains, Added, Sign, At, Recorded, Basics;
    assert |"error"| == 5 && |"approval_error"| == 14 && |"tls_opaque"| == 10;
    assert |"approval_id"| == 11 && |"approved_by"| == 11;
    var e := Recorded(config, o, stamp);
    var envelope, bytes := SignedTells(config.crypto, e.(prevHash := previous), config.secret, "", record);
    ExecutionTold(record, config, o, stamp, x);
  }

  /**
    A request that was delivered is recorded as executed, with the status of the answer, if and only if its
    risk reaches the threshold; below it the journal stays as it is.
  */
  lemma {:induction false} ExecutedIsRecorded(config: Config, p: ProxyState, r: Request, now: int, saved: bool,
                                              reply: Reply, stamp: Stamp, written: bool) returns (record: Json)
    requires AfterHandle(config, p, r, now, saved, reply, stamp, written).1.Send? && reply.Answered?
    requires p.journal.lastHash.Str?
    ensures var (q, action, raised) := AfterHandle(config, p, r, now, saved, reply, stamp, written);
      if Assessed(config, r).risk < config.threshold then q.journal == p.journal && !raised
      else
        && Journalled(p.journal, q.journal, raised, record, written)
        && Describes(record, config, r, "executed", stamp, p.journal.lastHash)
        && At(record, "execution", "response_status", Int(reply.status))
        && (reply.hash.Some? ==> At(record, "execution", "response_hash", Str(reply.hash.value)))
        && (action.approval.Some? && action.approval.value.actionId != "" ==>
              && At(record, "authorization", "approval_id", Str(action.approval.value.actionId))
              && At(record, "authorization", "approved_by", Str(action.approval.value.approvedBy)))
  {
    hide AfterRecord, RecordOf, Describes, Journalled, Decided, At, Sign, Recorded, Observe;
    SentIsPlain(config, p.approvals, r, now, saved);
    var approval := Decided(config, p.approvals, r, now, saved).1.approval;
    record := Null;
    if VerdictOn(config, r).risk >= config.threshold {
      var extra := [Field("approval_id", ApprovalId(approval)), Field("approved_by", ApprovedBy(approval))];
      var o := Observe(config, r, "executed", Some(reply), extra);
      assert extra[0].key[6] == 'a' && extra[1].key[6] == 'e';
      assert o.extra == extra by { ObserveExtra(config, r, "executed", Some(reply), extra); }
      record := RecordsObservation(config, p.journal, o, stamp, written);
      ObservedDescribes(config, r, "executed", Some(reply), extra, stamp, p.journal.lastHash, record);
      if approval.Some? && approval.value.actionId != "" {
        ApproverTold(config, r, approval.value, reply, stamp, p.journal.lastHash, record);
      }
    }
  }

  lemma ObserveExtra(config: Config, r: Request, status: string, reply: Option<Reply>, extra: seq<Field>)
    ensures Observe(config, r, status, reply, extra).extra == extra
  {
  }

  lemma {:induction false} SentIsPlain(config: Config, s: Approvals.State, r: Request, now: int, saved: bool)
    requires Decided(config, s, r, now, saved).1.Send?
    ensures r.Plain?
  {
  }

  lemma {:induction false} ApproverTold(config: Config, r: Request, a: Approvals.Approval, reply: Reply, stamp: Stamp,
                                        previous: Json, record: Json)
    requires a.actionId != "" && reply.Answered? && VerdictOn(config, r).risk >= config.threshold
    requires Observed(config, r, Send(Some(a)), reply).Some?
    requires var o := Observed(config, r, Send(Some(a)), reply).value;
      Sign(config.crypto, Recorded(config, o, stamp).(prevHash := previous), config.secret, "") == Ok(record)
    ensures At(record, "authorization", "approval_id", Str(a.actionId))
    ensures At(record, "authorization", "approved_by", Str(a.approvedBy))
  {
    hide Get, Contains, Sign, At, Recorded, Flat, Observed;
    var o := Observed(config, r, Send(Some(a)), reply).value;
    var e := Recorded(config, o, stamp);
    var envelope, bytes := SignedTells(config.crypto, e.(prevHash := previous), config.secret, "", record);
    ExecutedNamesApprover(config, r, a, reply, stamp);
    ObservedSimple(config, r, Send(Some(a)), reply);
    RecordedIsSignable(config, o, stamp);
    BlockAt(record, "authorization", e.authorization, "approval_id", Str(a.actionId));
    BlockAt(record, "authorization", e.authorization, "approved_by", Str(a.approvedBy));
  }

  /** A tunnel that opened is recorded from the threshold of risk on, and one that failed is not. */
  lemma {:induction false} TunnelIsRecorded(config: Config, p: ProxyState, r: Request, now: int, saved: bool,
                                            reply: Reply, stamp: Stamp, written: bool) returns (record: Json)
    requires AfterHandle(config, p, r, now, saved, reply, stamp, written).1.Tunnel? && p.journal.lastHash.Str?
    ensures var (q, action, raised) := AfterHandle(config, p, r, now, saved, reply, stamp, written);
      if reply.Unreachable? || Assessed(config, r).risk < config.threshold then q.journal == p.journal && !raised
      else
        && Journalled(p.journal, q.journal, raised, record, written)
        && Describes(record, config, r, "tunnelled", stamp, p.journal.lastHash)
        && At(record, "execution", "tls_opaque", Bool(true))
  {
    hide AfterRecord, RecordOf, Describes, Journalled, Approvals.AfterConsume, At, Sign;
    record := Null;
    if reply.Answered? && VerdictOn(config, r).risk >= config.threshold {
      var extra := [Field("tls_opaque", Bool(true))];
      var o := Observe(config, r, "tunnelled", None, extra);
      record := RecordsObservation(config, p.journal, o, stamp, written);
      ObservedDescribes(config, r, "tunnelled", None, extra, stamp, p.journal.lastHash, record);
      ExtraTold(config, o, stamp, p.journal.lastHash, record, extra[0]);
    }
  }

  // ---------------------------------------------------------------- every run

  /** In every run, what the policy withholds never goes out, whatever approvals and restarts came before. */
  lemma {:induction false} WithheldNeverSent(config: Config, p: ProxyState, events: seq<Event>, i: nat)
    requires i < |events| && events[i].Handling? && Withheld(config, events[i].request)
    ensures var e := events[i];
      var q := Run(config, p, events[..i]);
      var action := AfterHandle(config, q, e.request, e.at, e.saved, e.reply, e.stamp, e.written).1;
      !action.Send? && !action.Tunnel?
  {
    hide AfterReport, Observed, Run, Redeemed;
  }
}
