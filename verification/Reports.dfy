/** What a report of the verifier tells apart: for one record, and for a chain with several faults. */
module Reports {
  import opened Wrappers
  import opened Json
  import opened Canonical
  import opened Utf8
  import opened Base64
  import opened Crypto
  import opened Conversions
  import opened Evidence

  // ---------------------------------------------------------------- one record

  /** The ten covered fields are there, and the envelope is a dictionary. */
  predicate Complete(record: Json) {
    && record.Obj? && (forall k :: k in REQUIRED ==> Get(record.fields, k).Some?)
    && Get(record.fields, "evidence").Some? && Get(record.fields, "evidence").value.Obj?
  }

  predicate Dictionary(python: Python, v: Option<Json>) {
    v.Some? ==> v.value.Obj? || python.Falsy(v.value)
  }

  /** The text of the key: the trusted one if there is one, else the one in the envelope, when it can be read. */
  ghost predicate KeyIs(crypto: Crypto, envelope: seq<Field>, trusted: Option<string>, pem: string) {
    if trusted.Some? then pem == trusted.value
    else pem != "" && Get(envelope, "public_key") == Some(Str(pem)) && crypto.readable(pem)
  }

  /** No key at all: none is trusted, and the envelope has none, or an empty value for it. */
  predicate Keyless(crypto: Crypto, envelope: seq<Field>, trusted: Option<string>) {
    && trusted == None
    && (Get(envelope, "public_key") == None || crypto.python.Falsy(Get(envelope, "public_key").value))
  }

  /** The text of a field of the envelope, spelled as `str` does. */
  function Told(python: Python, envelope: seq<Field>, key: string, default: string): string {
    match Get(envelope, key)
    case None => default
    case Some(v) => python.ToStr(v)
  }

  /** The envelope's signature covers the ASCII text of its hash, which reads "None" where there is none. */
  ghost predicate Signs(crypto: Crypto, pem: string, envelope: seq<Field>) {
    var message := Told(crypto.python, envelope, "hash", "None");
    && (forall i :: 0 <= i < |message| ==> message[i] as int < 128)
    && exists signature :: Unb64(Told(crypto.python, envelope, "signature", "")) == Some(signature)
        && crypto.verify(pem, signature, Encode(message))
  }

  lemma {:induction false} SignsIff(crypto: Crypto, pem: string, envelope: seq<Field>)
    ensures Signs(crypto, pem, envelope) <==> SignatureVerifies(crypto, pem, envelope)
  {
    hide Get, Unb64, Encode, Python.ToStr;
  }

  lemma {:induction false} SelectSome(fields: seq<Field>, keys: seq<string>)
    ensures Select(fields, keys).Some? <==> forall k :: k in keys ==> Get(fields, k).Some?
  {
    hide Get;
    if keys != [] {
      SelectSome(fields, keys[1..]);
      assert keys == [keys[0]] + keys[1..];
      assert Select(fields, keys).Some? <==> Get(fields, keys[0]).Some? && Select(fields, keys[1..]).Some?;
    }
  }

  /**
    The report on a record that has all its fields: its integrity, exactly when the hash in the envelope is
    that of the covered fields; its signature, exactly when there is a key under which it covers the text of
    that hash; and what is wrong, if anything. A record that lacks one is reported as such, and only a block that is
    neither a dictionary nor empty raises.
  */
  lemma {:induction false} RecordReport(crypto: Crypto, record: Json, trusted: Option<string>)
    ensures var r := VerifyEvidence(crypto, record, trusted);
      && (r.Err? <==>
            && Complete(record)
            && !(Dictionary(crypto.python, Get(record.fields, "authorization"))
                 && Dictionary(crypto.python, Get(record.fields, "risk"))))
      && (r.Ok? && !Complete(record) ==>
            r.value == Report(false, false, false, [if record.Obj? then MissingFields else NotObject]))
      && (r.Ok? && Complete(record) ==>
            && BodyOf(record).Some?
            && var envelope, body := Get(record.fields, "evidence").value.fields, BodyOf(record).value;
            && r.value.schemaOk
            && (r.value.integrityOk <==>
                  CanonicalBytes(body).Ok?
                  && Get(envelope, "hash") == Some(Str(crypto.digest(CanonicalBytes(body).value))))
            && (r.value.signatureOk <==>
                  CanonicalBytes(body).Ok?
                  && exists pem :: KeyIs(crypto, envelope, trusted, pem) && Signs(crypto, pem, envelope))
            && (NoKey in r.value.problems <==> CanonicalBytes(body).Ok? && Keyless(crypto, envelope, trusted))
            && (NotSerialisable in r.value.problems <==> CanonicalBytes(body).Err?)
            && (r.value.problems == [] <==> r.value.Valid()))
  {
    hide Get, CanonicalBytes, SignatureVerifies, Signs, Select;
    if record.Obj? {
      SelectSome(record.fields, REQUIRED);
      RequiredBlocks();
      if Complete(record) {
        var envelope := Get(record.fields, "evidence").value.fields;
        KeyFound(crypto, envelope, trusted);
        forall pem
          ensures Signs(crypto, pem, envelope) <==> SignatureVerifies(crypto, pem, envelope)
        {
          SignsIff(crypto, pem, envelope);
        }
      }
    }
  }

  lemma RequiredBlocks()
    ensures "authorization" in REQUIRED && "risk" in REQUIRED
  {
    assert REQUIRED[6] == "risk" && REQUIRED[7] == "authorization";
  }

  lemma {:induction false} KeyFound(crypto: Crypto, envelope: seq<Field>, trusted: Option<string>)
    ensures forall pem :: KeyIs(crypto, envelope, trusted, pem) <==> KeyOf(crypto, envelope, trusted) == Ok(pem)
    ensures KeyOf(crypto, envelope, trusted) == Err(NoKey) <==> Keyless(crypto, envelope, trusted)
    ensures KeyOf(crypto, envelope, trusted).Err? ==> KeyOf(crypto, envelope, trusted).error in {NoKey, UnreadableKey}
  {
    hide Get;
  }

  // ---------------------------------------------------------------- a chain

  /** The hash of the last record that is valid by itself. */
  function LastValid(crypto: Crypto, records: seq<Json>): Json {
    if records == [] then Str(GENESIS)
    else
      var init, last := records[..|records| - 1], records[|records| - 1];
      if ValidRecord(crypto, last) then HashOf(last, Str(GENESIS)) else LastValid(crypto, init)
  }

  /** What is wrong with the record at `i`: its own problems, or that it does not refer to the last valid one before. */
  function FaultsAt(crypto: Crypto, records: seq<Json>, i: nat): seq<Problem>
    requires i < |records|
  {
    var r := VerifyEvidence(crypto, records[i], None);
    if r.Err? then []
    else if !r.value.Valid() then r.value.problems
    else if PrevOf(records[i]) != Some(LastValid(crypto, records[..i])) then [BrokenLink]
    else []
  }

  function Faults(crypto: Crypto, records: seq<Json>, n: nat): seq<Problem>
    requires n <= |records|
  {
    if n == 0 then [] else Faults(crypto, records, n - 1) + FaultsAt(crypto, records, n - 1)
  }

  lemma {:induction false} FaultsOfPrefix(crypto: Crypto, records: seq<Json>, n: nat, m: nat)
    requires n <= m <= |records|
    ensures Faults(crypto, records[..m], n) == Faults(crypto, records, n)
  {
    hide FaultsAt;
    if n > 0 {
      FaultsOfPrefix(crypto, records, n - 1, m);
      assert FaultsAt(crypto, records[..m], n - 1) == FaultsAt(crypto, records, n - 1) by {
        SameFaults(crypto, records, n - 1, m);
      }
    }
  }

  lemma {:induction false} SameFaults(crypto: Crypto, records: seq<Json>, i: nat, m: nat)
    requires i < m <= |records|
    ensures FaultsAt(crypto, records[..m], i) == FaultsAt(crypto, records, i)
  {
    assert records[..m][..i] == records[..i] && records[..m][i] == records[i];
  }

  /**
    A chain in which no record raises: the report lists the faults of each record in their order, where a
    valid record must refer to the last valid one before it, past any that are not; schema and signature hold
    if they do for every record, and integrity if no link is broken besides.
  */
  lemma {:induction false} ChainFaults(crypto: Crypto, records: seq<Json>)
    requires forall i :: 0 <= i < |records| ==> VerifyEvidence(crypto, records[i], None).Ok?
    ensures ChainProgress(crypto, records).Ok?
    ensures var p := ChainProgress(crypto, records).value;
      && p.previous == LastValid(crypto, records)
      && p.report.problems == Faults(crypto, records, |records|)
      && (p.report.schemaOk <==>
            forall i :: 0 <= i < |records| ==> VerifyEvidence(crypto, records[i], None).value.schemaOk)
      && (p.report.signatureOk <==>
            forall i :: 0 <= i < |records| ==> VerifyEvidence(crypto, records[i], None).value.signatureOk)
      && (p.report.integrityOk <==>
            forall i :: 0 <= i < |records| ==>
              VerifyEvidence(crypto, records[i], None).value.integrityOk && BrokenLink !in FaultsAt(crypto, records, i))
  {
    hide VerifyEvidence, HashOf, PrevOf, FaultsAt;
    if records != [] {
      var n := |records| - 1;
      ChainFaults(crypto, records[..n]);
      NextFaults(crypto, records);
      FaultsOfPrefix(crypto, records, n, n);
      forall i | 0 <= i < n
        ensures FaultsAt(crypto, records, i) == FaultsAt(crypto, records[..n], i)
      {
        SameFaults(crypto, records, i, n);
      }
    }
  }

  /** What one record more does to the report. */
  lemma {:induction false} NextFaults(crypto: Crypto, records: seq<Json>)
    requires records != [] && VerifyEvidence(crypto, records[|records| - 1], None).Ok?
    requires var init := records[..|records| - 1];
      ChainProgress(crypto, init).Ok? && ChainProgress(crypto, init).value.previous == LastValid(crypto, init)
    ensures ChainProgress(crypto, records).Ok?
    ensures var n := |records| - 1;
      var p, q := ChainProgress(crypto, records[..n]).value, ChainProgress(crypto, records).value;
      var own, faults := VerifyEvidence(crypto, records[n], None).value, FaultsAt(crypto, records, n);
      && q.previous == LastValid(crypto, records) && q.report.problems == p.report.problems + faults
      && q.report.schemaOk == (p.report.schemaOk && own.schemaOk)
      && q.report.signatureOk == (p.report.signatureOk && own.signatureOk)
      && q.report.integrityOk == (p.report.integrityOk && own.integrityOk && BrokenLink !in faults)
  {
    hide VerifyEvidence, HashOf, PrevOf;
    OwnProblems(crypto, records[|records| - 1]);
  }

  lemma {:induction false} OwnProblems(crypto: Crypto, record: Json)
    requires VerifyEvidence(crypto, record, None).Ok?
    ensures BrokenLink !in VerifyEvidence(crypto, record, None).value.problems
  {
    hide Get, CanonicalBytes, SignatureVerifies, Select;
  }
}
