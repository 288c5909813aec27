/** Action evidence: what is hashed and signed, and how anyone verifies one record or a chain of them. */
module Evidence {
  import opened Wrappers
  import opened Json
  import opened Canonical
  import opened Utf8
  import opened Base64
  import opened Conversions
  import opened Crypto

  /** The fields covered by the hash. */
  const REQUIRED: seq<string> := [
    "version", "action_id", "timestamp", "agent_id", "organization_id",
    "action", "risk", "authorization", "execution", "prev_hash"]

  /** What was attempted, how grave it was, who allowed it, and what happened. */
  datatype ActionEvidence = ActionEvidence(
    agentId: string, organizationId: string, action: seq<Field>, risk: seq<Field>, authorization: seq<Field>,
    execution: seq<Field>, actionId: string, timestamp: int, prevHash: Json, version: string)
  {
    /** Who acted, and when. */
    function Heading(): seq<Field> {
      [Field("version", Str(version)), Field("action_id", Str(actionId)), Field("timestamp", Int(timestamp)),
       Field("agent_id", Str(agentId)), Field("organization_id", Str(organizationId))]
    }

    function Blocks(): seq<Field> {
      [Field("action", Obj(Clean(action))), Field("risk", Obj(risk)), Field("authorization", Obj(Clean(authorization))),
       Field("execution", Obj(Clean(execution))), Field("prev_hash", prevHash)]
    }

    function Body(): seq<Field> {
      Heading() + Blocks()
    }

    /** The four blocks are dictionaries. */
    ghost predicate Valid() {
      WellFormed(Obj(action)) && WellFormed(Obj(risk)) && WellFormed(Obj(authorization)) && WellFormed(Obj(execution))
    }
  }

  /** Empty fields are left out. */
  function Clean(fields: seq<Field>): (r: seq<Field>)
    ensures forall f :: f in r <==> f in fields && f.value != Null
  {
    if fields == [] then []
    else if fields[0].value == Null then Clean(fields[1..])
    else [fields[0]] + Clean(fields[1..])
  }

  function CanonicalHash(crypto: Crypto, v: Json): Result<string, CanonicalError> {
    var bytes :- CanonicalBytes(v);
    Ok(crypto.digest(bytes))
  }

  /** The hash is signed rather than the body, so integrity and signature can fail separately. */
  function Envelope(crypto: Crypto, digest: string, secret: string, issuer: string): seq<Field> {
    var pem := crypto.publicPem(secret);
    [Field("hash", Str(digest)), Field("algorithm", Str("Ed25519")),
     Field("signature", Str(B64(crypto.sign(secret, Encode(digest))))), Field("issuer", Str(issuer)),
     Field("public_key", Str(pem)), Field("key_fingerprint", Str(crypto.fingerprint(pem)))]
  }

  function Sign(crypto: Crypto, e: ActionEvidence, secret: string, issuer: string): Result<Json, CanonicalError> {
    var digest :- CanonicalHash(crypto, Obj(e.Body()));
    var signer := if issuer == "" then e.organizationId else issuer;
    Ok(Obj(e.Body() + [Field("evidence", Obj(Envelope(crypto, digest, secret, signer)))]))
  }

  // ---------------------------------------------------------------- verifying one record

  datatype Problem =
    | NotObject | MissingFields | NotSerialisable | ContentChanged | NoKey | UnreadableKey | BadSignature | BrokenLink

  datatype Report = Report(schemaOk: bool, integrityOk: bool, signatureOk: bool, problems: seq<Problem>) {
    predicate Valid() {
      schemaOk && integrityOk && signatureOk
    }
  }

  /** Verification raises when a block it looks into is neither a dictionary nor empty. */
  datatype Crash = AttributeError

  predicate Lookable(python: Python, v: Option<Json>) {
    v.None? || v.value.Obj? || python.Falsy(v.value)
  }

  function Select(fields: seq<Field>, keys: seq<string>): Option<seq<Field>> {
    if keys == [] then Some([])
    else match (Get(fields, keys[0]), Select(fields, keys[1..]))
      case (Some(v), Some(rest)) => Some([Field(keys[0], v)] + rest)
      case _ => None
  }

  /** The text of a field of the envelope. */
  function TextOf(crypto: Crypto, envelope: seq<Field>, key: string, default: string): string {
    if Get(envelope, key).Some? then crypto.python.ToStr(Get(envelope, key).value) else default
  }

  predicate SignatureVerifies(crypto: Crypto, pem: string, envelope: seq<Field>) {
    match Unb64(TextOf(crypto, envelope, "signature", ""))
    case None => false
    case Some(signature) => Covers(crypto, pem, signature, TextOf(crypto, envelope, "hash", "None"))
  }

  /** Only ASCII text was ever signed. */
  predicate Covers(crypto: Crypto, pem: string, signature: Bytes, message: string) {
    Ascii(message) && crypto.verify(pem, signature, Encode(message))
  }

  /** The key the signature is checked under: the trusted one, or the one the record carries. */
  function KeyOf(crypto: Crypto, envelope: seq<Field>, trusted: Option<string>): Result<string, Problem> {
    if trusted.Some? then Ok(trusted.value)
    else match Get(envelope, "public_key")
      case None => Err(NoKey)
      case Some(pem) =>
        if crypto.python.Falsy(pem) then Err(NoKey)
        else if pem.Str? && crypto.readable(pem.s) then Ok(pem.s)
        else Err(UnreadableKey)
  }

  predicate Intact(envelope: seq<Field>, recomputed: string) {
    Get(envelope, "hash") == Some(Str(recomputed))
  }

  /** Integrity and signature are reported apart. */
  function Judged(crypto: Crypto, envelope: seq<Field>, key: Result<string, Problem>, integrity: bool): Report {
    match key
    case Err(problem) => Report(true, integrity, false, ContentProblems(integrity) + [problem])
    case Ok(pem) =>
      if SignatureVerifies(crypto, pem, envelope) then Report(true, integrity, true, ContentProblems(integrity))
      else Report(true, integrity, false, ContentProblems(integrity) + [BadSignature])
  }

  function ContentProblems(integrity: bool): seq<Problem> {
    if integrity then [] else [ContentChanged]
  }

  function VerifyContents(crypto: Crypto, body: Json, envelope: seq<Field>, trusted: Option<string>): Report {
    match CanonicalHash(crypto, body)
    case Err(_) => Report(true, false, false, [NotSerialisable])
    case Ok(recomputed) => Judged(crypto, envelope, KeyOf(crypto, envelope, trusted), Intact(envelope, recomputed))
  }

  /** The dictionary that carries hash, signature and key. */
  function EnvelopeOf(record: Json): Option<seq<Field>> {
    if !record.Obj? then None
    else match Get(record.fields, "evidence")
      case Some(Obj(fields)) => Some(fields)
      case _ => None
  }

  /** The covered fields of a record. */
  function BodyOf(record: Json): Option<Json> {
    if !record.Obj? then None
    else match Select(record.fields, REQUIRED)
      case Some(body) => Some(Obj(body))
      case None => None
  }

  /** The report looks into these two blocks. */
  predicate Readable(python: Python, record: Json) {
    record.Obj? && Lookable(python, Get(record.fields, "authorization")) && Lookable(python, Get(record.fields, "risk"))
  }

  function VerifyEvidence(crypto: Crypto, record: Json, trusted: Option<string>): Result<Report, Crash> {
    if !record.Obj? then Ok(Report(false, false, false, [NotObject]))
    else if BodyOf(record).None? || EnvelopeOf(record).None? then Ok(Report(false, false, false, [MissingFields]))
    else if !Readable(crypto.python, record) then Err(AttributeError)
    else Ok(VerifyContents(crypto, BodyOf(record).value, EnvelopeOf(record).value, trusted))
  }

  // ---------------------------------------------------------------- verifying a chain

  predicate ValidRecord(crypto: Crypto, record: Json) {
    var r := VerifyEvidence(crypto, record, None);
    r.Ok? && r.value.Valid()
  }

  /** `(record.get("evidence") or {}).get("hash", default)`. */
  function HashOf(record: Json, default: Json): Json {
    match EnvelopeOf(record)
    case None => default
    case Some(fields) => if Get(fields, "hash").Some? then Get(fields, "hash").value else default
  }

  function PrevOf(record: Json): Option<Json> {
    if record.Obj? then Get(record.fields, "prev_hash") else None
  }

  /** The report on a chain and the hash the next record must refer to. */
  datatype Progress = Progress(report: Report, previous: Json)

  /** An invalid record is skipped: the next one must still refer to the last valid hash. */
  function Skipped(p: Progress, single: Report): Progress {
    Progress(Report(p.report.schemaOk && single.schemaOk, p.report.integrityOk && single.integrityOk,
                    p.report.signatureOk && single.signatureOk, p.report.problems + single.problems), p.previous)
  }

  predicate Linked(previous: Json, record: Json) {
    PrevOf(record) == Some(previous)
  }

  function Broken(r: Report): Report {
    r.(integrityOk := false, problems := r.problems + [BrokenLink])
  }

  function Followed(p: Progress, record: Json): Progress {
    Progress(if Linked(p.previous, record) then p.report else Broken(p.report), HashOf(record, Str(GENESIS)))
  }

  function NextProgress(crypto: Crypto, p: Progress, record: Json): Result<Progress, Crash> {
    match VerifyEvidence(crypto, record, None)
    case Err(e) => Err(e)
    case Ok(single) => Ok(if single.Valid() then Followed(p, record) else Skipped(p, single))
  }

  const CLEAN_START := Progress(Report(true, true, true, []), Str(GENESIS))

  function ChainProgress(crypto: Crypto, records: seq<Json>): Result<Progress, Crash> {
    if records == [] then Ok(CLEAN_START)
    else match ChainProgress(crypto, records[..|records| - 1])
      case Err(e) => Err(e)
      case Ok(p) => NextProgress(crypto, p, records[|records| - 1])
  }

  method VerifyChain(crypto: Crypto, records: seq<Json>) returns (r: Result<Report, Crash>)
    ensures r == match ChainProgress(crypto, records)
                 case Ok(p) => Ok(p.report)
                 case Err(e) => Err(e)
  {
    var report := Report(true, true, true, []);
    var previous := Str(GENESIS);
    for i := 0 to |records|
      invariant ChainProgress(crypto, records[..i]) == Ok(Progress(report, previous))
    {
      assert records[..i + 1][..i] == records[..i];
      var record := records[i];
      var verified := VerifyEvidence(crypto, record, None);
      if verified.Err? {
        assert records[..i + 1][i] == record;
        assert ChainProgress(crypto, records[..i + 1]) == Err(verified.error);
        CrashSpreads(crypto, records, i + 1);
        assert verified.error == AttributeError;
        return Err(verified.error);
      }
      var single := verified.value;
      if !single.Valid() {
        report := Report(report.schemaOk && single.schemaOk, report.integrityOk && single.integrityOk,
                         report.signatureOk && single.signatureOk, report.problems + single.problems);
        continue;
      }
      if PrevOf(record) != Some(previous) {
        report := report.(integrityOk := false, problems := report.problems + [BrokenLink]);
      }
      previous := HashOf(record, Str(GENESIS));
    }
    assert records[..|records|] == records;
    return Ok(report);
  }

  lemma {:induction false} CrashSpreads(crypto: Crypto, records: seq<Json>, n: nat)
    requires n <= |records| && ChainProgress(crypto, records[..n]).Err?
    ensures ChainProgress(crypto, records) == Err(AttributeError)
    decreases |records|
  {
    if n < |records| {
      var init := records[..|records| - 1];
      assert init[..n] == records[..n];
      CrashSpreads(crypto, init, n);
    } else {
      assert records[..n] == records;
      assert ChainProgress(crypto, records).error == AttributeError;
    }
  }

  // ---------------------------------------------------------------- the store

  /** A store remembers the last hash; its file, when it has one, outlives it. */
  datatype StoreState = StoreState(lastHash: Json, count: nat, file: Option<seq<Json>>)

  /** An append raises for a body that cannot be serialised, and for a write that fails. */
  datatype AppendError = Unserialisable(why: CanonicalError) | WriteFailed

  function Written(file: Option<seq<Json>>, record: Json, written: bool): Option<seq<Json>> {
    if file.Some? && written then Some(file.value + [record]) else file
  }

  /** Chained, signed and written under one lock; the hash and the count move before the write that may fail. */
  function AfterAppend(crypto: Crypto, s: StoreState, e: ActionEvidence, secret: string, issuer: string, written: bool)
    : (StoreState, Result<Json, AppendError>)
  {
    match Sign(crypto, e.(prevHash := s.lastHash), secret, issuer)
    case Err(x) => (s, Err(Unserialisable(x)))
    case Ok(record) =>
      (StoreState(HashOf(record, Str(GENESIS)), s.count + 1, Written(s.file, record, written)),
       if s.file.Some? && !written then Err(WriteFailed) else Ok(record))
  }

  /** The hash of the last record that carries one. */
  function LastHash(file: seq<Json>): Json {
    if file == [] then Str(GENESIS) else HashOf(file[|file| - 1], LastHash(file[..|file| - 1]))
  }

  function AfterRestart(s: StoreState): StoreState {
    if s.file.None? then StoreState(Str(GENESIS), 0, None)
    else StoreState(LastHash(s.file.value), |s.file.value|, s.file)
  }

  class EvidenceStore {
    var lastHash: Json
    var count: nat
    var file: Option<seq<Json>>

    function View(): StoreState
      reads this
    {
      StoreState(lastHash, count, file)
    }

    /** Starts from the records already in the file, if there is one. */
    constructor (file: Option<seq<Json>>)
      ensures View() == AfterRestart(StoreState(Str(GENESIS), 0, file))
    {
      this.file := file;
      lastHash, count := Str(GENESIS), 0;
      new;
      if file.Some? {
        Resume();
      }
    }

    method Resume()
      requires file.Some? && lastHash == Str(GENESIS) && count == 0
      modifies this
      ensures View() == AfterRestart(old(View()))
    {
      var records := file.value;
      for i := 0 to |records|
        invariant file == old(file)
        invariant lastHash == LastHash(records[..i]) && count == i
      {
        assert records[..i + 1][..i] == records[..i];
        lastHash := HashOf(records[i], lastHash);
        count := count + 1;
      }
      assert records[..|records|] == records;
    }

    /** Under the store's lock: the previous hash enters the signature, so neither can be done apart. */
    method Append(crypto: Crypto, e: ActionEvidence, secret: string, issuer: string, written: bool)
      returns (r: Result<Json, AppendError>)
      modifies this
      ensures (View(), r) == AfterAppend(crypto, old(View()), e, secret, issuer, written)
    {
      hide Sign, HashOf;
      var chained := e.(prevHash := lastHash);
      var signed := Sign(crypto, chained, secret, issuer);
      if signed.Err? {
        return Err(Unserialisable(signed.error));
      }
      var record := signed.value;
      lastHash := HashOf(record, Str(GENESIS));
      count := count + 1;
      if file.Some? {
        if !written {
          return Err(WriteFailed);
        }
        file := Some(file.value + [record]);
      }
      return Ok(record);
    }
  }
}
