/** What a signed record says, key by key, and what the records of the proxy say of a request. */
module Records {
  import opened Wrappers
  import opened Json
  import opened Canonical
  import opened Utf8
  import opened Base64
  import opened Crypto
  import opened Evidence
  import EvidenceLaws
  import EvidenceRuns

  // ---------------------------------------------------------------- the record of an action

  /** These fields are those of the other dictionary that are not null. */
  ghost predicate NonNull(kept: seq<Field>, fields: seq<Field>) {
    (forall f :: f in kept <==> f in fields && f.value != Null) && (Distinct(fields) ==> Distinct(kept))
  }

  ghost predicate Contains(f: seq<Field>, key: string, block: seq<Field>) {
    exists kept :: Get(f, key) == Some(Obj(kept)) && NonNull(kept, block)
  }

  ghost predicate TellsWho(f: seq<Field>, e: ActionEvidence) {
    && Get(f, "version") == Some(Str(e.version)) && Get(f, "action_id") == Some(Str(e.actionId))
    && Get(f, "timestamp") == Some(Int(e.timestamp))
    && Get(f, "agent_id") == Some(Str(e.agentId)) && Get(f, "organization_id") == Some(Str(e.organizationId))
  }

  ghost predicate TellsWhat(f: seq<Field>, e: ActionEvidence) {
    && Contains(f, "action", e.action) && Get(f, "risk") == Some(Obj(e.risk))
    && Contains(f, "authorization", e.authorization) && Contains(f, "execution", e.execution)
    && Get(f, "prev_hash") == Some(e.prevHash)
  }

  /** The record names the actor, the time and the record before it, and holds the four blocks. */
  ghost predicate Tells(record: Json, e: ActionEvidence) {
    record.Obj? && TellsWho(record.fields, e) && TellsWhat(record.fields, e)
  }

  lemma {:induction false} BodyDistinct(body: seq<Field>, last: Field)
    requires |body| == |REQUIRED| && forall i :: 0 <= i < |REQUIRED| ==> body[i].key == REQUIRED[i]
    requires last.key == "evidence"
    ensures Distinct(body + [last])
  {
    EvidenceLaws.RequiredDistinct();
    var fields := body + [last];
    assert forall i :: 0 <= i < |body| ==> fields[i] == body[i] && fields[i].key in REQUIRED;
  }

  lemma {:induction false} HeadingTold(f: seq<Field>, e: ActionEvidence)
    requires |f| == 11 && f[..5] == e.Heading()
    requires forall i :: 0 <= i < |f| ==> Get(f, f[i].key) == Some(f[i].value)
    ensures TellsWho(f, e)
  {
    hide Get;
    var h := e.Heading();
    assert f[0] == h[0] && f[1] == h[1] && f[2] == h[2] && f[3] == h[3] && f[4] == h[4];
  }

  lemma {:induction false} BlocksTold(f: seq<Field>, e: ActionEvidence)
    requires |f| == 11 && f[5..10] == e.Blocks()
    requires forall i :: 0 <= i < |f| ==> Get(f, f[i].key) == Some(f[i].value)
    ensures TellsWhat(f, e)
  {
    hide Get, Clean;
    var b := e.Blocks();
    assert f[5] == f[5..10][0] && f[6] == f[5..10][1] && f[7] == f[5..10][2] && f[8] == f[5..10][3];
    assert f[9] == f[5..10][4];
    Cleaned(e.action);
    Cleaned(e.authorization);
    Cleaned(e.execution);
  }

  lemma {:induction false} FieldsTell(e: ActionEvidence, last: Field, record: Json)
    requires record == Obj(e.Body() + [last]) && last.key == "evidence"
    ensures Tells(record, e) && Get(record.fields, "evidence") == Some(last.value)
  {
    hide Get, ActionEvidence.Heading, ActionEvidence.Blocks, TellsWho, TellsWhat, Distinct;
    var f := record.fields;
    HeadingLength(e);
    EvidenceRuns.BodyKeys(e, e.Body());
    BodyDistinct(e.Body(), last);
    GetEach(f);
    assert f[10] == last && f[..5] == e.Heading() && f[5..10] == e.Blocks();
    HeadingTold(f, e);
    BlocksTold(f, e);
  }

  /** The envelope names the issuer and the key, and seals the canonical bytes of the covered fields. */
  ghost predicate Seals(crypto: Crypto, envelope: seq<Field>, bytes: Bytes, secret: string, issuer: string) {
    var pem := crypto.publicPem(secret);
    && Get(envelope, "hash") == Some(Str(crypto.digest(bytes)))
    && Get(envelope, "signature") == Some(Str(B64(crypto.sign(secret, Encode(crypto.digest(bytes))))))
    && Get(envelope, "algorithm") == Some(Str("Ed25519")) && Get(envelope, "issuer") == Some(Str(issuer))
    && Get(envelope, "public_key") == Some(Str(pem))
       && Get(envelope, "key_fingerprint") == Some(Str(crypto.fingerprint(pem)))
  }

  lemma {:induction false} EnvelopeSeals(crypto: Crypto, bytes: Bytes, secret: string, issuer: string)
    ensures Seals(crypto, Envelope(crypto, crypto.digest(bytes), secret, issuer), bytes, secret, issuer)
  {
    hide Get, B64;
    var f := Envelope(crypto, crypto.digest(bytes), secret, issuer);
    EvidenceRuns.EnvelopeKeys(crypto, crypto.digest(bytes), secret, issuer, f);
    GetEach(f);
    assert f[0].key == "hash" && f[1].key == "algorithm" && f[2].key == "signature" && f[3].key == "issuer";
    assert f[4].key == "public_key" && f[5].key == "key_fingerprint";
  }

  /**
    A signed record holds, under each of its ten keys, what the evidence says there, with nulls left out of
    three of the blocks. Next to them it holds an envelope that seals those ten fields; the organisation
    issues it when nobody else is named.
  */
  lemma {:induction false} SignedTells(crypto: Crypto, e: ActionEvidence, secret: string, issuer: string, record: Json)
    returns (envelope: seq<Field>, bytes: Bytes)
    requires Sign(crypto, e, secret, issuer) == Ok(record)
    ensures record.Obj? && Tells(record, e) && Get(record.fields, "evidence") == Some(Obj(envelope))
    ensures BodyOf(record).Some? && CanonicalBytes(BodyOf(record).value) == Ok(bytes)
    ensures Seals(crypto, envelope, bytes, secret, if issuer == "" then e.organizationId else issuer)
  {
    hide Get, Envelope, Tells, Seals, ActionEvidence.Body, Select;
    var signer := if issuer == "" then e.organizationId else issuer;
    bytes := CanonicalBytes(Obj(e.Body())).value;
    envelope := Envelope(crypto, crypto.digest(bytes), secret, signer);
    FieldsTell(e, Field("evidence", Obj(envelope)), record);
    EnvelopeSeals(crypto, bytes, secret, signer);
    CoveredBody(e, Field("evidence", Obj(envelope)), record);
  }

  lemma {:induction false} CoveredBody(e: ActionEvidence, last: Field, record: Json)
    requires record == Obj(e.Body() + [last]) && last.key == "evidence"
    ensures BodyOf(record) == Some(Obj(e.Body()))
  {
    hide Get, ActionEvidence.Body;
    EvidenceRuns.BodyKeys(e, e.Body());
    BodyDistinct(e.Body(), last);
    GetEach(record.fields);
    assert forall i :: 0 <= i < |REQUIRED| ==> record.fields[i] == e.Body()[i];
    EvidenceLaws.SelectAll(record.fields, e.Body(), REQUIRED);
  }

  lemma {:induction false} HeadingLength(e: ActionEvidence)
    ensures |e.Heading()| == 5 && |e.Blocks()| == 5
  {
  }

  lemma {:induction false} Cleaned(fields: seq<Field>)
    ensures NonNull(Clean(fields), fields)
  {
    if Distinct(fields) {
      CleanDistinct(fields);
    }
  }

  lemma {:induction false} CleanDistinct(fields: seq<Field>)
    requires Distinct(fields)
    ensures Distinct(Clean(fields))
  {
    if fields != [] {
      var rest := Clean(fields[1..]);
      CleanDistinct(fields[1..]);
      forall f | f in fields[1..]
        ensures f.key != fields[0].key
      {
        var i :| 0 <= i < |fields[1..]| && fields[1..][i] == f;
        assert fields[i + 1] == f;
      }
      assert forall i :: 0 <= i < |rest| ==> rest[i] in rest;
    }
  }
}
