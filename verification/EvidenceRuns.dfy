/** What a store writes: every record it signs verifies, and its journal is always an accepted chain. */
module EvidenceRuns {
  import opened Wrappers
  import opened Json
  import opened Canonical
  import opened Utf8
  import opened Base64
  import opened Conversions
  import opened Crypto
  import opened Evidence
  import opened EvidenceLaws

  // ---------------------------------------------------------------- one signed record

  lemma {:induction false} EnvelopeKeys(crypto: Crypto, digest: string, secret: string, issuer: string, f: seq<Field>)
    requires f == Envelope(crypto, digest, secret, issuer)
    ensures |f| == 6 && f[0] == Field("hash", Str(digest)) && f[4] == Field("public_key", Str(crypto.publicPem(secret)))
    ensures f[2] == Field("signature", Str(B64(crypto.sign(secret, Encode(digest)))))
    ensures forall i :: 0 <= i < 6 ==> f[i].value.Str?
    ensures Distinct(f)
  {
    assert |f[0].key| == 4 && |f[1].key| == 9 && |f[2].key| == 9 && |f[3].key| == 6 && |f[4].key| == 10
      && |f[5].key| == 15;
    assert f[1].key[0] == 'a' && f[2].key[0] == 's';
    assert forall i, j :: 0 <= i < j < 6 ==> |f[i].key| != |f[j].key| || f[i].key[0] != f[j].key[0];
  }

  lemma {:induction false} EnvelopeGets(f: seq<Field>)
    requires |f| == 6 && Distinct(f) && forall i :: 0 <= i < 6 ==> f[i].value.Str?
    ensures WellFormed(Obj(f))
    ensures Get(f, f[0].key) == Some(f[0].value) && Get(f, f[2].key) == Some(f[2].value)
      && Get(f, f[4].key) == Some(f[4].value)
  {
    GetUnique(f, f[0]);
    GetUnique(f, f[2]);
    GetUnique(f, f[4]);
  }

  lemma {:induction false} WellFormedCons(f: Field, rest: seq<Field>)
    requires WellFormed(f.value) && WellFormed(Obj(rest)) && forall i :: 0 <= i < |rest| ==> rest[i].key != f.key
    ensures WellFormed(Obj([f] + rest))
  {
  }

  lemma {:induction false} WellFormedTail(fields: seq<Field>)
    requires WellFormed(Obj(fields)) && fields != []
    ensures WellFormed(Obj(fields[1..])) && WellFormed(fields[0].value)
    ensures forall f :: f in fields[1..] ==> f.key != fields[0].key
  {
    assert fields == [fields[0]] + fields[1..];
  }

  lemma {:induction false} CleanWellFormed(fields: seq<Field>)
    requires WellFormed(Obj(fields))
    ensures WellFormed(Obj(Clean(fields)))
  {
    hide WellFormed;
    if fields != [] {
      WellFormedTail(fields);
      CleanWellFormed(fields[1..]);
      if fields[0].value != Null {
        WellFormedCons(fields[0], Clean(fields[1..]));
      }
    }
  }

  lemma {:induction false} BodyKeys(e: ActionEvidence, body: seq<Field>)
    requires body == e.Body()
    ensures |body| == |REQUIRED| && forall i :: 0 <= i < |REQUIRED| ==> body[i].key == REQUIRED[i]
    ensures body[6].value.Obj? && body[7].value.Obj? && body[9].value == e.prevHash
  {
    var h, b := e.Heading(), e.Blocks();
    assert forall i :: 0 <= i < 5 ==> h[i].key == REQUIRED[i];
    assert forall i :: 0 <= i < 5 ==> b[i].key == REQUIRED[5 + i];
  }

  lemma {:induction false} HeadingValues(e: ActionEvidence, h: seq<Field>)
    requires h == e.Heading()
    ensures forall f :: f in h ==> WellFormed(f.value)
  {
  }

  lemma {:induction false} BlockValues(e: ActionEvidence, b: seq<Field>)
    requires b == e.Blocks() && WellFormed(e.prevHash) && WellFormed(Obj(e.risk))
    requires WellFormed(Obj(Clean(e.action))) && WellFormed(Obj(Clean(e.authorization)))
      && WellFormed(Obj(Clean(e.execution)))
    ensures forall f :: f in b ==> WellFormed(f.value)
  {
    hide WellFormed, Clean;
  }

  lemma {:induction false} BodyValues(e: ActionEvidence, body: seq<Field>)
    requires body == e.Body() && WellFormed(e.prevHash) && WellFormed(Obj(e.risk))
    requires WellFormed(Obj(Clean(e.action))) && WellFormed(Obj(Clean(e.authorization)))
      && WellFormed(Obj(Clean(e.execution)))
    ensures forall i :: 0 <= i < |body| ==> WellFormed(body[i].value)
  {
    hide WellFormed, Clean, ActionEvidence.Heading, ActionEvidence.Blocks;
    HeadingValues(e, e.Heading());
    BlockValues(e, e.Blocks());
    assert forall i :: 0 <= i < |body| ==> body[i] in e.Heading() || body[i] in e.Blocks();
  }

  lemma {:induction false} KeyedWellFormed(body: seq<Field>)
    requires |body| == |REQUIRED| && forall i :: 0 <= i < |REQUIRED| ==> body[i].key == REQUIRED[i]
    requires forall i :: 0 <= i < |body| ==> WellFormed(body[i].value)
    ensures WellFormed(Obj(body))
  {
    RequiredDistinct();
  }

  lemma {:induction false} BodyWellFormed(e: ActionEvidence)
    requires e.Valid() && WellFormed(e.prevHash)
    ensures WellFormed(Obj(e.Body()))
  {
    CleanWellFormed(e.action);
    CleanWellFormed(e.authorization);
    CleanWellFormed(e.execution);
    var body := e.Body();
    BodyKeys(e, body);
    BodyValues(e, body);
    KeyedWellFormed(body);
  }

  lemma {:induction false} RecordWellFormed(body: seq<Field>, envelope: Json, fields: seq<Field>)
    requires |body| == |REQUIRED| && forall i :: 0 <= i < |REQUIRED| ==> body[i].key == REQUIRED[i]
    requires WellFormed(Obj(body)) && WellFormed(envelope) && fields == body + [Field("evidence", envelope)]
    ensures Distinct(fields) && WellFormed(Obj(fields))
  {
    RequiredDistinct();
    assert forall i :: 0 <= i < |body| ==> fields[i] == body[i] && fields[i].key in REQUIRED;
    assert fields[|body|] == Field("evidence", envelope);
  }

  lemma {:induction false} RecordGets(body: seq<Field>, envelope: Json, fields: seq<Field>)
    requires |body| == |REQUIRED| && forall i :: 0 <= i < |REQUIRED| ==> body[i].key == REQUIRED[i]
    requires WellFormed(Obj(body)) && WellFormed(envelope) && fields == body + [Field("evidence", envelope)]
    ensures WellFormed(Obj(fields)) && Get(fields, "evidence") == Some(envelope)
    ensures Select(fields, REQUIRED) == Some(body)
    ensures forall i :: 0 <= i < |REQUIRED| ==> Get(fields, REQUIRED[i]) == Some(body[i].value)
  {
    hide Get, Select;
    RecordWellFormed(body, envelope, fields);
    GetEach(fields);
    forall i | 0 <= i < |REQUIRED|
      ensures Get(fields, REQUIRED[i]) == Some(body[i].value)
    {
      assert fields[i] == body[i];
    }
    assert fields[|body|] == Field("evidence", envelope);
    SelectAll(fields, body, REQUIRED);
  }

  /** What a signed record is made of. */
  ghost predicate MadeOf(python: Python, record: Json, body: seq<Field>, envelope: seq<Field>)
    requires |body| == |REQUIRED|
  {
    && record.Obj? && WellFormed(record) && BodyOf(record) == Some(Obj(body)) && EnvelopeOf(record) == Some(envelope)
    && PrevOf(record) == Some(body[9].value) && Readable(python, record)
  }

  lemma {:induction false} SignedMadeOf(python: Python, body: seq<Field>, envelope: seq<Field>, record: Json)
    requires |body| == |REQUIRED| && forall i :: 0 <= i < |REQUIRED| ==> body[i].key == REQUIRED[i]
    requires WellFormed(Obj(body)) && WellFormed(Obj(envelope)) && body[6].value.Obj? && body[7].value.Obj?
    requires record == Obj(body + [Field("evidence", Obj(envelope))])
    ensures MadeOf(python, record, body, envelope)
  {
    hide Get, Select, WellFormed, Distinct;
    RecordGets(body, Obj(envelope), record.fields);
    assert REQUIRED[6] == "risk" && REQUIRED[7] == "authorization" && REQUIRED[9] == "prev_hash";
  }

  lemma {:induction false} DigestCovered(crypto: Crypto, secret: string, digest: string)
    requires crypto.Correct() && Ascii(digest)
    ensures Covers(crypto, crypto.publicPem(secret), crypto.sign(secret, Encode(digest)), digest)
    ensures crypto.readable(crypto.publicPem(secret)) && crypto.publicPem(secret) != ""
  {
  }

  lemma {:induction false} TextIs(crypto: Crypto, envelope: seq<Field>, key: string, text: string, default: string)
    requires Get(envelope, key) == Some(Str(text))
    ensures TextOf(crypto, envelope, key, default) == text
  {
  }

  lemma {:induction false} TextVerifies(crypto: Crypto, pem: string, signature: Bytes, envelope: seq<Field>,
                                        encoded: string)
    requires TextOf(crypto, envelope, "signature", "") == encoded && Unb64(encoded) == Some(signature)
    requires Covers(crypto, pem, signature, TextOf(crypto, envelope, "hash", "None"))
    ensures SignatureVerifies(crypto, pem, envelope)
  {
  }

  /** A key that is not trusted already is taken from the record itself. */
  lemma {:induction false} EnvelopeKey(crypto: Crypto, envelope: seq<Field>, pem: string, trusted: Option<string>)
    requires Get(envelope, "public_key") == Some(Str(pem)) && crypto.readable(pem) && pem != ""
    requires trusted == None || trusted == Some(pem)
    ensures KeyOf(crypto, envelope, trusted) == Ok(pem)
  {
  }

  /**
    Signing is refused exactly for a body with a fraction; otherwise the record verifies, under its own
    key and under the signer's, and it refers to the hash it was given.
  */
  lemma {:induction false} SignedRecordIsValid(crypto: Crypto, e: ActionEvidence, secret: string, issuer: string,
                                               trusted: Option<string>)
    requires crypto.Correct() && crypto.AsciiDigest() && e.Valid() && WellFormed(e.prevHash)
    requires trusted == None || trusted == Some(crypto.publicPem(secret))
    ensures Sign(crypto, e, secret, issuer).Ok? <==> !HasFloat(Obj(e.Body()))
    ensures Sign(crypto, e, secret, issuer).Ok? ==>
      var record := Sign(crypto, e, secret, issuer).value;
      && VerifyEvidence(crypto, record, trusted) == Ok(Report(true, true, true, []))
      && WellFormed(record) && BodyOf(record) == Some(Obj(e.Body())) && PrevOf(record) == Some(e.prevHash)
  {
    if Sign(crypto, e, secret, issuer).Ok? {
      var signer := if issuer == "" then e.organizationId else issuer;
      var digest := CanonicalHash(crypto, Obj(e.Body())).value;
      BodyWellFormed(e);
      BodyKeys(e, e.Body());
      EnvelopedIsValid(crypto, e.Body(), digest, secret, signer, trusted, Sign(crypto, e, secret, issuer).value);
    }
  }

  lemma {:induction false} EnvelopedIsValid(crypto: Crypto, body: seq<Field>, digest: string, secret: string,
                                            signer: string, trusted: Option<string>, record: Json)
    requires crypto.Correct() && crypto.AsciiDigest() && CanonicalHash(crypto, Obj(body)) == Ok(digest)
    requires |body| == |REQUIRED| && forall i :: 0 <= i < |REQUIRED| ==> body[i].key == REQUIRED[i]
    requires WellFormed(Obj(body)) && body[6].value.Obj? && body[7].value.Obj?
    requires trusted == None || trusted == Some(crypto.publicPem(secret))
    requires record == Obj(body + [Field("evidence", Obj(Envelope(crypto, digest, secret, signer)))])
    ensures VerifyEvidence(crypto, record, trusted) == Ok(Report(true, true, true, []))
    ensures WellFormed(record) && BodyOf(record) == Some(Obj(body)) && PrevOf(record) == Some(body[9].value)
  {
    var envelope, pem := Envelope(crypto, digest, secret, signer), crypto.publicPem(secret);
    EnvelopeKeys(crypto, digest, secret, signer, envelope);
    EnvelopeGets(envelope);
    SignedMadeOf(crypto.python, body, envelope, record);
    HashIsAscii(crypto, Obj(body));
    DigestCovered(crypto, secret, digest);
    var signature := crypto.sign(secret, Encode(digest));
    UnbB64(signature);
    TextIs(crypto, envelope, "signature", B64(signature), "");
    TextIs(crypto, envelope, "hash", digest, "None");
    TextVerifies(crypto, pem, signature, envelope, B64(signature));
    EnvelopeKey(crypto, envelope, pem, trusted);
    ReportOf(crypto, record, body, envelope, digest, pem, trusted);
  }

  lemma {:induction false} HashIsAscii(crypto: Crypto, v: Json)
    requires crypto.AsciiDigest() && CanonicalHash(crypto, v).Ok?
    ensures Ascii(CanonicalHash(crypto, v).value)
  {
  }

  lemma {:induction false} ReportOf(crypto: Crypto, record: Json, body: seq<Field>, envelope: seq<Field>,
                                    digest: string, pem: string, trusted: Option<string>)
    requires |body| == |REQUIRED| && MadeOf(crypto.python, record, body, envelope)
    requires CanonicalHash(crypto, Obj(body)) == Ok(digest) && Intact(envelope, digest)
    requires KeyOf(crypto, envelope, trusted) == Ok(pem) && SignatureVerifies(crypto, pem, envelope)
    ensures VerifyEvidence(crypto, record, trusted) == Ok(Report(true, true, true, []))
  {
  }

  lemma {:induction false} ValidIsCovered(crypto: Crypto, record: Json, pem: string) returns (digest: string)
    requires VerifyEvidence(crypto, record, Some(pem)).Ok? && VerifyEvidence(crypto, record, Some(pem)).value.Valid()
    ensures BodyOf(record).Some? && CanonicalHash(crypto, BodyOf(record).value) == Ok(digest)
    ensures EnvelopeOf(record).Some? && SignatureVerifies(crypto, pem, EnvelopeOf(record).value)
    ensures TextOf(crypto, EnvelopeOf(record).value, "hash", "None") == digest
  {
    digest := CanonicalHash(crypto, BodyOf(record).value).value;
    TextIs(crypto, EnvelopeOf(record).value, "hash", digest, "None");
  }

  lemma {:induction false} HashBindsBody(crypto: Crypto, a: Json, b: Json)
    requires crypto.CollisionFree() && WellFormed(a) && WellFormed(b)
    requires CanonicalHash(crypto, a).Ok? && CanonicalHash(crypto, a) == CanonicalHash(crypto, b)
    ensures Same(a, b)
  {
    CanonicalIffSame(a, b);
  }

  /**
    A signature that verifies under this key over the hash this record announces covers the hash of a body
    in the set.
  */
  ghost predicate NotForged(crypto: Crypto, record: Json, pem: string, signed: set<Json>) {
    EnvelopeOf(record).Some? && SignatureVerifies(crypto, pem, EnvelopeOf(record).value) ==>
      exists b :: b in signed &&
        CanonicalHash(crypto, b) == Ok(TextOf(crypto, EnvelopeOf(record).value, "hash", "None"))
  }

  /**
    Non-repudiation: unless the signature it carries is forged, a record that is valid under a trusted key
    has one of the bodies the owner of that key signed.
  */
  lemma {:induction false} ValidWasSigned(crypto: Crypto, record: Json, pem: string, signed: set<Json>)
    returns (body: Json)
    requires crypto.CollisionFree() && WellFormed(record)
    requires (forall b :: b in signed ==> WellFormed(b)) && NotForged(crypto, record, pem, signed)
    requires VerifyEvidence(crypto, record, Some(pem)).Ok? && VerifyEvidence(crypto, record, Some(pem)).value.Valid()
    ensures body in signed && BodyOf(record).Some? && Same(body, BodyOf(record).value)
  {
    var digest := ValidIsCovered(crypto, record, pem);
    body :| body in signed && CanonicalHash(crypto, body) == Ok(digest);
    BodyFacts(record);
    HashBindsBody(crypto, body, BodyOf(record).value);
  }

  // ---------------------------------------------------------------- every run of a store

  /**
    Handlers append under the lock, one at a time, with any key; a write may fail, and the process may be
    restarted.
  */
  datatype Event =
    | Appended(evidence: ActionEvidence, secret: string, issuer: string, written: bool)
    | Restarted

  function Step(crypto: Crypto, s: StoreState, event: Event): StoreState {
    match event
    case Appended(e, secret, issuer, written) => AfterAppend(crypto, s, e, secret, issuer, written).0
    case Restarted => AfterRestart(s)
  }

  function Run(crypto: Crypto, s: StoreState, events: seq<Event>): StoreState {
    if events == [] then s else Step(crypto, Run(crypto, s, events[..|events| - 1]), events[|events| - 1])
  }

  /** A new journal, on a file. */
  const NEW_JOURNAL := StoreState(Str(GENESIS), 0, Some([]))

  /** A handler fills in any blocks; the store sets the reference to the previous record. */
  ghost predicate Proper(event: Event) {
    event.Appended? ==> event.evidence.Valid()
  }

  /** Nothing in the body stands in the way of signing it. */
  predicate Signable(e: ActionEvidence) {
    !HasFloat(Obj(e.(prevHash := Null).Body()))
  }

  /** A record that was chained and signed, and did not reach the file. */
  predicate Lost(event: Event) {
    event.Appended? && Signable(event.evidence) && !event.written
  }

  predicate Kept(event: Event) {
    event.Appended? && Signable(event.evidence) && event.written
  }

  /** The record of this event was lost, and there was no restart since. */
  ghost predicate LostAt(events: seq<Event>, i: nat) {
    i < |events| && Lost(events[i]) && forall k :: i < k < |events| ==> !events[k].Restarted?
  }

  ghost predicate Ahead(events: seq<Event>) {
    exists i :: LostAt(events, i)
  }

  /** Some record was written when one before it had been lost, without a restart in between. */
  ghost predicate Unhealed(events: seq<Event>) {
    exists j :: 0 <= j < |events| && Kept(events[j]) && Ahead(events[..j])
  }

  lemma {:induction false} LostAtNext(init: seq<Event>, last: Event, i: nat)
    ensures LostAt(init + [last], i) <==>
      (i < |init| && LostAt(init, i) && !last.Restarted?) || (i == |init| && Lost(last))
  {
    hide Lost;
    var events := init + [last];
    assert events[|init|] == last;
    assert forall k :: 0 <= k < |init| ==> events[k] == init[k];
  }

  lemma {:induction false} AheadNext(init: seq<Event>, last: Event)
    ensures Ahead(init + [last]) <==> !last.Restarted? && (Ahead(init) || Lost(last))
  {
    hide Lost, LostAt;
    if Ahead(init + [last]) {
      var i: nat :| LostAt(init + [last], i);
      LostAtNext(init, last, i);
      if i == |init| {
        NotRestarted(last);
      }
    }
    if Ahead(init) {
      var i: nat :| LostAt(init, i);
      LostInside(init, i);
      LostAtNext(init, last, i);
    }
    LostAtNext(init, last, |init|);
  }

  lemma LostInside(events: seq<Event>, i: nat)
    requires LostAt(events, i)
    ensures i < |events|
  {
  }

  lemma NotRestarted(event: Event)
    requires Lost(event)
    ensures !event.Restarted?
  {
  }

  lemma {:induction false} UnhealedNext(init: seq<Event>, last: Event)
    ensures Unhealed(init + [last]) <==> Unhealed(init) || (Kept(last) && Ahead(init))
  {
    hide Kept, Ahead;
    var events := init + [last];
    assert events[|init|] == last && events[..|init|] == init;
    assert forall k :: 0 <= k < |init| ==> events[k] == init[k] && events[..k] == init[..k];
    if Unhealed(init) {
      var j :| 0 <= j < |init| && Kept(init[j]) && Ahead(init[..j]);
      assert Kept(events[j]) && Ahead(events[..j]);
    }
  }

  // ---------------------------------------------------------------- what the store remembers

  /** The chain in memory: what is on file, and after it the records that were lost. */
  ghost predicate Tracks(crypto: Crypto, s: StoreState, memory: seq<Json>) {
    && s.file.Some? && s.file.value <= memory && Accepted(crypto, memory) && AllWellFormed(memory)
    && s.lastHash == LastHash(memory) && s.count == |memory|
  }

  /** Nothing was lost. */
  ghost predicate Sound(crypto: Crypto, s: StoreState) {
    s.file.Some? && Tracks(crypto, s, s.file.value)
  }

  lemma {:induction false} LastHashWellFormed(crypto: Crypto, records: seq<Json>)
    requires Accepted(crypto, records)
    ensures WellFormed(LastHash(records)) && !HasFloat(LastHash(records)) && LastHash(records).Str?
    ensures LastHash(records) == Expected(Links(crypto, records), |records|)
  {
    LastIsExpected(crypto, records);
    if records != [] {
      var links := Links(crypto, records);
      assert links[|records| - 1].prev == Some(Expected(links, |records| - 1));
      ValidFacts(crypto, records[|records| - 1], None, Str(GENESIS));
    }
  }

  lemma {:induction false} AcceptedAppend(crypto: Crypto, records: seq<Json>, record: Json, prev: Json)
    requires Accepted(crypto, records) && AllWellFormed(records) && WellFormed(record) && ValidRecord(crypto, record)
    requires PrevOf(record) == Some(prev) && prev == Expected(Links(crypto, records), |records|)
    ensures Accepted(crypto, records + [record]) && AllWellFormed(records + [record])
  {
    LinksNext(crypto, records, record);
    ChainedNext(Links(crypto, records), LinkOf(crypto, record));
  }

  lemma {:induction false} LastHashNext(records: seq<Json>, record: Json, default: Json)
    requires HashOf(record, LastHash(records)) == HashOf(record, default)
    ensures LastHash(records + [record]) == HashOf(record, default)
  {
    assert (records + [record])[..|records + [record]| - 1] == records;
  }

  lemma {:induction false} SignableOnAnyHash(e: ActionEvidence, h: Json, f: seq<Field>, g: seq<Field>)
    requires h.Str? && f == e.(prevHash := h).Body() && g == e.(prevHash := Null).Body()
    ensures HasFloat(Obj(f)) <==> HasFloat(Obj(g))
  {
    assert |f| == |g| == 10 && f[..9] == g[..9];
    assert !HasFloat(f[9].value) && !HasFloat(g[9].value);
    assert forall i :: 0 <= i < 9 ==> f[i] == f[..9][i] && g[i] == g[..9][i];
  }

  /** An append on a store that tracks a chain is refused, or adds a record to that chain. */
  lemma {:induction false} AppendExtends(crypto: Crypto, s: StoreState, e: ActionEvidence, secret: string,
                                         issuer: string, written: bool, memory: seq<Json>) returns (record: Json)
    requires crypto.Correct() && crypto.AsciiDigest() && Tracks(crypto, s, memory) && e.Valid()
    ensures !Signable(e) ==> AfterAppend(crypto, s, e, secret, issuer, written).0 == s
    ensures Signable(e) ==>
      var t := AfterAppend(crypto, s, e, secret, issuer, written).0;
      && Accepted(crypto, memory + [record]) && AllWellFormed(memory + [record])
      && t.lastHash == LastHash(memory + [record]) && t.count == |memory| + 1
      && t.file == Written(s.file, record, written) && PrevOf(record) == Some(LastHash(memory))
  {
    hide Accepted, Sign, VerifyEvidence, HashOf, PrevOf, BodyOf, HasFloat, WellFormed, LastHash, AllWellFormed;
    var chained := e.(prevHash := s.lastHash);
    record := Null;
    LastHashWellFormed(crypto, memory);
    ChainedValid(e, s.lastHash);
    SignableOnAnyHash(e, s.lastHash, chained.Body(), e.(prevHash := Null).Body());
    SignedRecordIsValid(crypto, chained, secret, issuer, None);
    if Sign(crypto, chained, secret, issuer).Ok? {
      record := Sign(crypto, chained, secret, issuer).value;
      assert ValidRecord(crypto, record);
      AcceptedAppend(crypto, memory, record, s.lastHash);
      LinkedHash(crypto, record, LastHash(memory));
      LastHashNext(memory, record, Str(GENESIS));
    }
  }

  lemma ChainedValid(e: ActionEvidence, h: Json)
    requires e.Valid()
    ensures e.(prevHash := h).Valid()
  {
  }

  /** Without failing writes, a sound store stays sound. */
  lemma {:induction false} AppendKeepsSound(crypto: Crypto, s: StoreState, e: ActionEvidence, secret: string,
                                            issuer: string)
    requires crypto.Correct() && crypto.AsciiDigest() && Sound(crypto, s) && e.Valid()
    ensures Sound(crypto, AfterAppend(crypto, s, e, secret, issuer, true).0)
  {
    hide Accepted, AllWellFormed, AfterAppend, LastHash;
    var record := AppendExtends(crypto, s, e, secret, issuer, true, s.file.value);
  }

  // ---------------------------------------------------------------- when the file still verifies

  lemma {:induction false} PrefixAccepted(crypto: Crypto, records: seq<Json>, n: nat)
    requires n <= |records| && Accepted(crypto, records) && AllWellFormed(records)
    ensures Accepted(crypto, records[..n]) && AllWellFormed(records[..n])
  {
    if n < |records| {
      var init, last := records[..|records| - 1], records[|records| - 1];
      assert init + [last] == records && init[..n] == records[..n];
      LinksNext(crypto, init, last);
      ChainedNext(Links(crypto, init), LinkOf(crypto, last));
      PrefixAccepted(crypto, init, n);
    } else {
      assert records[..n] == records;
    }
  }

  /** A chain that is not accepted does not become so by what is appended. */
  lemma {:induction false} BrokenStays(crypto: Crypto, records: seq<Json>, record: Json)
    requires !Accepted(crypto, records)
    ensures !Accepted(crypto, records + [record])
  {
    LinksNext(crypto, records, record);
    ChainedNext(Links(crypto, records), LinkOf(crypto, record));
  }

  /** A record that refers to a later hash than the file's last one breaks the file. */
  lemma {:induction false} GapBreaks(crypto: Crypto, memory: seq<Json>, n: nat, record: Json)
    requires crypto.CollisionFree() && Accepted(crypto, memory) && AllWellFormed(memory) && n < |memory|
    requires PrevOf(record) == Some(LastHash(memory))
    ensures !Accepted(crypto, memory[..n] + [record])
  {
    var file, links := memory[..n], Links(crypto, memory);
    PrefixAccepted(crypto, memory, n);
    LastIsExpected(crypto, memory);
    LastIsExpected(crypto, file);
    AcceptedHashesDistinct(crypto, memory, n, |memory|);
    LinksNext(crypto, file, record);
    ChainedNext(Links(crypto, file), LinkOf(crypto, record));
    assert Expected(Links(crypto, file), n) == Expected(links, n);
  }

  /** The state after a run: broken for good, or following a chain of which the file is the part that was not lost. */
  ghost predicate Follows(crypto: Crypto, s: StoreState, events: seq<Event>, memory: seq<Json>) {
    && s.file.Some?
    && if Unhealed(events) then !Accepted(crypto, s.file.value)
       else Tracks(crypto, s, memory) && (Ahead(events) <==> s.file.value != memory)
  }

  lemma {:induction false} AppendFollows(crypto: Crypto, s: StoreState, init: seq<Event>, last: Event,
                                         memory: seq<Json>)
      returns (next: seq<Json>)
    requires crypto.Correct() && crypto.AsciiDigest() && crypto.CollisionFree()
    requires Follows(crypto, s, init, memory) && last.Appended? && Proper(last)
    ensures Follows(crypto, Step(crypto, s, last), init + [last], next)
  {
    hide Accepted, AllWellFormed, AfterAppend, LastHash, Ahead, Unhealed, Signable, PrevOf;
    AheadNext(init, last);
    UnhealedNext(init, last);
    next := memory;
    if Unhealed(init) {
      StillBroken(crypto, s, last);
    } else {
      var record := AppendExtends(crypto, s, last.evidence, last.secret, last.issuer, last.written, memory);
      if Signable(last.evidence) {
        next := memory + [record];
        if last.written && s.file.value != memory {
          var n := |s.file.value|;
          assert s.file.value == memory[..n] && n < |memory|;
          GapBreaks(crypto, memory, n, record);
        }
      }
    }
  }

  lemma {:induction false} StillBroken(crypto: Crypto, s: StoreState, last: Event)
    requires s.file.Some? && !Accepted(crypto, s.file.value) && last.Appended?
    ensures Step(crypto, s, last).file.Some? && !Accepted(crypto, Step(crypto, s, last).file.value)
  {
    hide Accepted, Sign;
    var signed := Sign(crypto, last.evidence.(prevHash := s.lastHash), last.secret, last.issuer);
    if signed.Ok? {
      BrokenStays(crypto, s.file.value, signed.value);
    }
  }

  lemma {:induction false} RestartFollows(crypto: Crypto, s: StoreState, init: seq<Event>, memory: seq<Json>)
    requires Follows(crypto, s, init, memory)
    ensures Follows(crypto, Step(crypto, s, Restarted), init + [Restarted], s.file.value)
  {
    hide Accepted, AllWellFormed, LastHash, Ahead, Unhealed, Kept, Lost;
    AheadNext(init, Restarted);
    UnhealedNext(init, Restarted);
    assert !Kept(Restarted) by { RestartKeepsNothing(); }
    if !Unhealed(init) {
      PrefixAccepted(crypto, memory, |s.file.value|);
      assert s.file.value == memory[..|s.file.value|];
    }
  }

  lemma RestartKeepsNothing()
    ensures !Kept(Restarted)
  {
  }

  lemma {:induction false} RunFollows(crypto: Crypto, events: seq<Event>) returns (memory: seq<Json>)
    requires crypto.Correct() && crypto.AsciiDigest() && crypto.CollisionFree()
    requires forall i :: 0 <= i < |events| ==> Proper(events[i])
    ensures Follows(crypto, Run(crypto, NEW_JOURNAL, events), events, memory)
  {
    hide Follows, Step, Proper;
    if events == [] {
      memory := [];
      NewFollows(crypto);
    } else {
      var init, last := events[..|events| - 1], events[|events| - 1];
      memory := RunFollows(crypto, init);
      var s := Run(crypto, NEW_JOURNAL, init);
      assert init + [last] == events;
      if last.Appended? {
        memory := AppendFollows(crypto, s, init, last, memory);
      } else {
        assert last == Restarted;
        FollowsFile(crypto, s, init, memory);
        RestartFollows(crypto, s, init, memory);
        memory := s.file.value;
      }
    }
  }

  lemma FollowsFile(crypto: Crypto, s: StoreState, events: seq<Event>, memory: seq<Json>)
    requires Follows(crypto, s, events, memory)
    ensures s.file.Some?
  {
  }

  lemma NewFollows(crypto: Crypto)
    ensures Follows(crypto, NEW_JOURNAL, [], [])
  {
  }

  // ---------------------------------------------------------------- theorems

  /**
    However handlers, failing writes and restarts interleave, the file verifies from end to end if and
    only if no record was written after one that was lost, without a restart in between. Then, when the
    last loss was followed by a restart, the store knows the file's last hash and length.
  */
  lemma {:induction false} JournalVerifiesIff(crypto: Crypto, events: seq<Event>)
    requires crypto.Correct() && crypto.AsciiDigest() && crypto.CollisionFree()
    requires forall i :: 0 <= i < |events| ==> Proper(events[i])
    ensures var s := Run(crypto, NEW_JOURNAL, events);
      && s.file.Some? && (ReportedValid(crypto, s.file.value) <==> !Unhealed(events))
      && (!Unhealed(events) ==> (Sound(crypto, s) <==> !Ahead(events)))
  {
    hide Accepted, AllWellFormed, LastHash, Ahead, Unhealed, Run, ReportedValid;
    var memory := RunFollows(crypto, events);
    var s := Run(crypto, NEW_JOURNAL, events);
    ChainReport(crypto, s.file.value);
    if !Unhealed(events) {
      PrefixAccepted(crypto, memory, |s.file.value|);
      assert s.file.value == memory[..|s.file.value|];
    }
  }

  /** While no write fails, the file always verifies, and the store knows its last hash and length. */
  lemma {:induction false} JournalAlwaysVerifies(crypto: Crypto, events: seq<Event>)
    requires crypto.Correct() && crypto.AsciiDigest()
    requires forall i :: 0 <= i < |events| ==> Proper(events[i]) && (events[i].Appended? ==> events[i].written)
    ensures var s := Run(crypto, NEW_JOURNAL, events);
      Sound(crypto, s) && ReportedValid(crypto, s.file.value)
  {
    hide Sound, AfterAppend, ReportedValid;
    if events == [] {
      NewSound(crypto);
    } else {
      var init, last := events[..|events| - 1], events[|events| - 1];
      JournalAlwaysVerifies(crypto, init);
      var s := Run(crypto, NEW_JOURNAL, init);
      if last.Appended? {
        assert Proper(events[|events| - 1]);
        AppendKeepsSound(crypto, s, last.evidence, last.secret, last.issuer);
      } else {
        RestartSound(crypto, s);
      }
    }
    SoundAccepted(crypto, Run(crypto, NEW_JOURNAL, events));
  }

  lemma NewSound(crypto: Crypto)
    ensures Sound(crypto, NEW_JOURNAL)
  {
  }

  lemma RestartSound(crypto: Crypto, s: StoreState)
    requires Sound(crypto, s)
    ensures Sound(crypto, AfterRestart(s))
  {
  }

  lemma {:induction false} SoundAccepted(crypto: Crypto, s: StoreState)
    requires Sound(crypto, s)
    ensures s.file.Some? && ReportedValid(crypto, s.file.value)
  {
    hide ReportedValid;
    ChainReport(crypto, s.file.value);
  }

  /** One write that fails, and one that does not: the file no longer verifies. */
  lemma {:induction false} OneLostWriteBreaks(crypto: Crypto, first: ActionEvidence, second: ActionEvidence,
                                              secret: string)
    requires crypto.Correct() && crypto.AsciiDigest() && crypto.CollisionFree()
    requires first.Valid() && second.Valid() && Signable(first) && Signable(second)
    ensures var s := Run(crypto, NEW_JOURNAL, [Appended(first, secret, "", false), Appended(second, secret, "", true)]);
      s.file.Some? && !ReportedValid(crypto, s.file.value)
  {
    hide Run, ReportedValid, Signable, Sound;
    var lost, kept := Appended(first, secret, "", false), Appended(second, secret, "", true);
    AheadNext([], lost);
    assert [] + [lost] == [lost] && [lost] + [kept] == [lost, kept];
    UnhealedNext([lost], kept);
    JournalVerifiesIff(crypto, [lost, kept]);
  }
}
