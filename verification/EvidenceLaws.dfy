/**
  What a chain of evidence proves. Records are JSON values with distinct keys, and the hash is
  collision free and never the genesis hash.
*/
module EvidenceLaws {
  import opened Wrappers
  import opened Json
  import opened Canonical
  import opened Crypto
  import opened Sequences
  import opened Evidence

  // ---------------------------------------------------------------- bodies and hashes

  lemma RequiredDistinct()
    ensures forall i, j :: 0 <= i < j < |REQUIRED| ==> REQUIRED[i] != REQUIRED[j]
    ensures "prev_hash" in REQUIRED && "evidence" !in REQUIRED
  {
    var k := REQUIRED;
    assert |k[0]| == 7 && |k[1]| == 9 && |k[2]| == 9 && |k[3]| == 8 && |k[4]| == 15;
    assert |k[5]| == 6 && |k[6]| == 4 && |k[7]| == 13 && |k[8]| == 9 && |k[9]| == 9;
    assert k[1][0] == 'a' && k[2][0] == 't' && k[8][0] == 'e' && k[9][0] == 'p' && k[3][0] == 'a';
    assert forall i, j :: 0 <= i < j < 10 ==> |k[i]| != |k[j]| || k[i][0] != k[j][0];
    assert |"evidence"| == 8 && "evidence"[0] == 'e';
    assert forall i :: 0 <= i < 10 ==> |k[i]| != 8 || k[i][0] != 'e';
    assert k[9] == "prev_hash";
  }

  lemma {:induction false} SelectFields(fields: seq<Field>, keys: seq<string>)
    requires Select(fields, keys).Some?
    ensures var s := Select(fields, keys).value;
      |s| == |keys| && forall i :: 0 <= i < |keys| ==> s[i].key == keys[i] && Get(fields, keys[i]) == Some(s[i].value)
  {
    if keys != [] {
      SelectFields(fields, keys[1..]);
    }
  }

  lemma {:induction false} SelectAll(fields: seq<Field>, s: seq<Field>, keys: seq<string>)
    requires |s| == |keys|
    requires forall i :: 0 <= i < |keys| ==> s[i].key == keys[i] && Get(fields, keys[i]) == Some(s[i].value)
    ensures Select(fields, keys) == Some(s)
  {
    if keys == [] {
      assert s == [];
    } else {
      SelectAll(fields, s[1..], keys[1..]);
      assert s == [s[0]] + s[1..];
    }
  }

  /** The covered body is a dictionary again, and it holds the reference to the previous record. */
  lemma {:induction false} BodyFacts(record: Json)
    requires WellFormed(record) && BodyOf(record).Some?
    ensures BodyOf(record).value.Obj? && WellFormed(BodyOf(record).value)
    ensures PrevOf(record).Some? && Get(BodyOf(record).value.fields, "prev_hash") == PrevOf(record)
  {
    var body := Select(record.fields, REQUIRED).value;
    SelectFields(record.fields, REQUIRED);
    RequiredDistinct();
    assert Distinct(body);
    var i :| 0 <= i < |REQUIRED| && REQUIRED[i] == "prev_hash";
    GetUnique(body, body[i]);
  }

  /** The hash of the body of a record, when it has one. */
  function BodyHash(crypto: Crypto, record: Json): Option<string> {
    match BodyOf(record)
    case None => None
    case Some(body) => match CanonicalHash(crypto, body) { case Ok(h) => Some(h) case Err(_) => None }
  }

  lemma {:induction false} ValidFacts(crypto: Crypto, record: Json, trusted: Option<string>, default: Json)
    requires VerifyEvidence(crypto, record, trusted).Ok? && VerifyEvidence(crypto, record, trusted).value.Valid()
    ensures BodyOf(record).Some? && !HasFloat(BodyOf(record).value)
    ensures BodyHash(crypto, record).Some? && HashOf(record, default) == Str(BodyHash(crypto, record).value)
  {
  }

  /** Two valid records with one hash have the same body, and refer to the same previous record. */
  lemma {:induction false} SameHashSameBody(crypto: Crypto, a: Json, b: Json, default: Json)
    requires crypto.CollisionFree() && WellFormed(a) && WellFormed(b)
    requires ValidRecord(crypto, a) && ValidRecord(crypto, b)
    requires HashOf(a, default) == HashOf(b, default)
    ensures BodyOf(a).Some? && BodyOf(b).Some? && Same(BodyOf(a).value, BodyOf(b).value)
    ensures PrevOf(a).Some? && PrevOf(b).Some? && Same(PrevOf(a).value, PrevOf(b).value)
  {
    ValidFacts(crypto, a, None, default);
    ValidFacts(crypto, b, None, default);
    BodyFacts(a);
    BodyFacts(b);
    var v, w := BodyOf(a).value, BodyOf(b).value;
    CanonicalIffSame(v, w);
    SameGets(v.fields, w.fields, "prev_hash");
  }

  lemma {:induction false} SameGets(f: seq<Field>, g: seq<Field>, key: string)
    requires Same(Obj(f), Obj(g)) && HasKey(f, key)
    ensures HasKey(g, key) && Same(Get(f, key).value, Get(g, key).value)
  {
    var i :| 0 <= i < |f| && f[i] == Field(key, Get(f, key).value);
    assert HasKey(g, key);
    var j :| 0 <= j < |g| && g[j] == Field(key, Get(g, key).value);
  }

  // ---------------------------------------------------------------- accepted chains

  /** What chaining looks at in a record. */
  datatype Link = Link(valid: bool, prev: Option<Json>, hash: Json)

  function LinkOf(crypto: Crypto, record: Json): Link {
    Link(ValidRecord(crypto, record), PrevOf(record), HashOf(record, Str(GENESIS)))
  }

  function Links(crypto: Crypto, records: seq<Json>): (links: seq<Link>)
    ensures |links| == |records| && forall i :: 0 <= i < |records| ==> links[i] == LinkOf(crypto, records[i])
  {
    seq(|records|, i requires 0 <= i < |records| => LinkOf(crypto, records[i]))
  }

  /** What record `i` must refer to. */
  function Expected(links: seq<Link>, i: nat): Json
    requires i <= |links|
  {
    if i == 0 then Str(GENESIS) else links[i - 1].hash
  }

  ghost predicate Chained(links: seq<Link>) {
    forall i {:trigger Expected(links, i)} ::
      0 <= i < |links| ==> links[i].valid && links[i].prev == Some(Expected(links, i))
  }

  /** Every record is valid by itself and refers to the one before it. */
  ghost predicate Accepted(crypto: Crypto, records: seq<Json>) {
    Chained(Links(crypto, records))
  }

  predicate ReportedValid(crypto: Crypto, records: seq<Json>) {
    ChainProgress(crypto, records).Ok? && ChainProgress(crypto, records).value.report.Valid()
  }

  lemma {:induction false} ChainedNext(init: seq<Link>, last: Link)
    ensures Chained(init + [last]) <==> Chained(init) && last.valid && last.prev == Some(Expected(init, |init|))
  {
    var links := init + [last];
    assert links[|init|] == last && Expected(links, |init|) == Expected(init, |init|);
    forall i | 0 <= i < |init|
      ensures links[i] == init[i] && Expected(links, i) == Expected(init, i)
    {
    }
  }

  lemma {:induction false} LinksNext(crypto: Crypto, init: seq<Json>, last: Json)
    ensures Links(crypto, init + [last]) == Links(crypto, init) + [LinkOf(crypto, last)]
  {
  }

  lemma {:induction false} ProgressNext(crypto: Crypto, p: Progress, record: Json, link: Link)
    requires link == LinkOf(crypto, record)
    ensures var r := NextProgress(crypto, p, record);
      (r.Ok? && r.value.report.Valid() <==> p.report.Valid() && link.valid && link.prev == Some(p.previous))
      && (r.Ok? && r.value.report.Valid() ==> r.value.previous == link.hash)
  {
  }

  /** The report on a chain is valid exactly when each record is, and each refers to its predecessor. */
  lemma {:induction false} ChainReport(crypto: Crypto, records: seq<Json>)
    ensures ReportedValid(crypto, records) <==> Accepted(crypto, records)
    ensures ReportedValid(crypto, records) ==>
      ChainProgress(crypto, records).value.previous == Expected(Links(crypto, records), |records|)
  {
    if records != [] {
      var init, last := records[..|records| - 1], records[|records| - 1];
      ChainReport(crypto, init);
      var links, link := Links(crypto, init), LinkOf(crypto, last);
      LinksNext(crypto, init, last);
      ChainedNext(links, link);
      assert init + [last] == records;
      if ChainProgress(crypto, init).Ok? {
        ProgressNext(crypto, ChainProgress(crypto, init).value, last, link);
      }
    }
  }

  ghost predicate AllWellFormed(records: seq<Json>) {
    forall i :: 0 <= i < |records| ==> WellFormed(records[i])
  }

  // ---------------------------------------------------------------- what a collision-free hash gives

  /** No record has the genesis hash. */
  ghost predicate Rooted(links: seq<Link>) {
    forall i :: 0 <= i < |links| ==> links[i].hash.Str? && links[i].hash != Str(GENESIS)
  }

  /** A hash fixes what the record refers to. */
  ghost predicate Binding(a: seq<Link>, b: seq<Link>) {
    forall i, j :: 0 <= i < |a| && 0 <= j < |b| && a[i].hash == b[j].hash ==> a[i].prev == b[j].prev
  }

  lemma {:induction false} AcceptedRooted(crypto: Crypto, records: seq<Json>)
    requires crypto.CollisionFree() && Accepted(crypto, records)
    ensures Rooted(Links(crypto, records))
  {
    var links := Links(crypto, records);
    forall i | 0 <= i < |records|
      ensures links[i].hash.Str? && links[i].hash != Str(GENESIS)
    {
      assert links[i].prev == Some(Expected(links, i));
      ValidFacts(crypto, records[i], None, Str(GENESIS));
    }
  }

  lemma {:induction false} AcceptedBinding(crypto: Crypto, a: seq<Json>, b: seq<Json>)
    requires crypto.CollisionFree() && Accepted(crypto, a) && Accepted(crypto, b) && AllWellFormed(a)
      && AllWellFormed(b)
    ensures Binding(Links(crypto, a), Links(crypto, b))
  {
    var la, lb := Links(crypto, a), Links(crypto, b);
    AcceptedRooted(crypto, a);
    AcceptedRooted(crypto, b);
    forall i, j | 0 <= i < |la| && 0 <= j < |lb| && la[i].hash == lb[j].hash
      ensures la[i].prev == lb[j].prev
    {
      HashBindsPrev(crypto, a[i], b[j], la[i], lb[j], Expected(la, i), Expected(lb, j));
    }
  }

  lemma {:induction false} HashBindsPrev(crypto: Crypto, a: Json, b: Json, la: Link, lb: Link, pa: Json, pb: Json)
    requires crypto.CollisionFree() && WellFormed(a) && WellFormed(b)
    requires la == LinkOf(crypto, a) && lb == LinkOf(crypto, b) && la.valid && lb.valid && la.hash == lb.hash
    requires la.prev == Some(pa) && lb.prev == Some(pb) && pa.Str? && pb.Str?
    ensures la.prev == lb.prev
  {
    SameHashSameBody(crypto, a, b, Str(GENESIS));
  }

  // ---------------------------------------------------------------- theorems

  lemma {:induction false} LinksDistinct(links: seq<Link>, i: nat, j: nat)
    requires Chained(links) && Rooted(links) && Binding(links, links)
    requires i < j <= |links|
    ensures Expected(links, i) != Expected(links, j)
  {
    if i > 0 && Expected(links, i) == Expected(links, j) {
      assert links[i - 1].hash == links[j - 1].hash;
      LinksDistinct(links, i - 1, j - 1);
    }
  }

  lemma {:induction false} AcceptedDistinct(crypto: Crypto, records: seq<Json>, links: seq<Link>)
    requires crypto.CollisionFree() && Accepted(crypto, records) && AllWellFormed(records)
    requires links == Links(crypto, records)
    ensures Chained(links) && Rooted(links) && Binding(links, links)
  {
    AcceptedRooted(crypto, records);
    AcceptedBinding(crypto, records, records);
  }

  lemma {:induction false} LinkedHash(crypto: Crypto, record: Json, default: Json)
    requires ValidRecord(crypto, record)
    ensures HashOf(record, default) == HashOf(record, Str(GENESIS))
  {
    ValidFacts(crypto, record, None, default);
    ValidFacts(crypto, record, None, Str(GENESIS));
  }

  lemma {:induction false} AcceptedHash(crypto: Crypto, records: seq<Json>, i: nat, default: Json)
    requires Accepted(crypto, records) && i < |records|
    ensures HashOf(records[i], default) == Expected(Links(crypto, records), i + 1)
  {
    var links := Links(crypto, records);
    assert links[i].prev == Some(Expected(links, i));
    LinkedHash(crypto, records[i], default);
  }

  lemma {:induction false} AcceptedHashesDistinct(crypto: Crypto, records: seq<Json>, i: nat, j: nat)
    requires crypto.CollisionFree() && Accepted(crypto, records) && AllWellFormed(records)
    requires i < j <= |records|
    ensures Expected(Links(crypto, records), i) != Expected(Links(crypto, records), j)
  {
    AcceptedDistinct(crypto, records, Links(crypto, records));
    LinksDistinct(Links(crypto, records), i, j);
  }

  /** No hash occurs twice along an accepted chain. */
  lemma {:induction false} HashesDistinct(crypto: Crypto, records: seq<Json>, i: nat, j: nat)
    requires crypto.CollisionFree() && ReportedValid(crypto, records) && AllWellFormed(records)
    requires i < j < |records|
    ensures HashOf(records[i], Null) != HashOf(records[j], Null)
  {
    hide *;
    ChainReport(crypto, records);
    AcceptedHash(crypto, records, i, Null);
    AcceptedHash(crypto, records, j, Null);
    AcceptedHashesDistinct(crypto, records, i + 1, j + 1);
  }

  ghost predicate InPlace(at: seq<nat>) {
    forall k :: 0 <= k < |at| ==> at[k] == k
  }

  lemma {:induction false} PickedInPlace(links: seq<Link>, at: seq<nat>, k: nat)
    requires Chained(links) && Rooted(links) && Binding(links, links)
    requires forall k :: 0 <= k < |at| ==> at[k] < |links|
    requires k < |at| && Chained(Selection(links, at))
    ensures at[k] == k
  {
    var picked := Selection(links, at);
    assert picked[k] == links[at[k]] && picked[k].prev == Some(Expected(picked, k));
    assert Expected(picked, k) == Expected(links, at[k]);
    if k > 0 {
      PickedInPlace(links, at, k - 1);
      assert Expected(picked, k) == Expected(links, k);
    }
    if at[k] < k {
      LinksDistinct(links, at[k], k);
    } else if at[k] > k {
      LinksDistinct(links, k, at[k]);
    }
  }

  lemma {:induction false} PrefixChained(links: seq<Link>, at: seq<nat>)
    requires Chained(links) && InPlace(at)
    requires forall k :: 0 <= k < |at| ==> at[k] < |links|
    ensures Chained(Selection(links, at))
  {
    var picked := Selection(links, at);
    forall k | 0 <= k < |at|
      ensures picked[k].valid && picked[k].prev == Some(Expected(picked, k))
    {
      assert at[k] == k && picked[k] == links[k];
      if k > 0 {
        assert at[k - 1] == k - 1 && picked[k - 1] == links[k - 1];
      }
      assert Expected(picked, k) == Expected(links, k);
    }
  }

  /**
    Deleting, repeating or reordering records is always noticed, except for a cut at the end: whatever
    is picked from an accepted chain is accepted exactly when it is a prefix of it.
  */
  lemma {:induction false} OnlyPrefixesAccepted(crypto: Crypto, records: seq<Json>, at: seq<nat>)
    requires crypto.CollisionFree() && ReportedValid(crypto, records) && AllWellFormed(records)
    requires forall k :: 0 <= k < |at| ==> at[k] < |records|
    ensures ReportedValid(crypto, Selection(records, at)) <==> InPlace(at)
  {
    var links, picked := Links(crypto, records), Selection(records, at);
    ChainReport(crypto, records);
    ChainReport(crypto, picked);
    AcceptedRooted(crypto, records);
    AcceptedBinding(crypto, records, records);
    assert Links(crypto, picked) == Selection(links, at);
    if Chained(Selection(links, at)) {
      forall k | 0 <= k < |at|
        ensures at[k] == k
      {
        PickedInPlace(links, at, k);
      }
    }
    if InPlace(at) {
      PrefixChained(links, at);
    }
  }

  lemma {:induction false} SameEndSameHashes(a: seq<Link>, b: seq<Link>, m: nat, n: nat)
    requires Chained(a) && Chained(b) && Rooted(a) && Rooted(b) && Binding(a, b)
    requires m <= |a| && n <= |b| && Expected(a, m) == Expected(b, n)
    ensures m == n
    ensures forall i :: 0 <= i < m ==> a[i].hash == b[i].hash
  {
    if m > 0 && n > 0 {
      assert a[m - 1].hash == b[n - 1].hash;
      assert Some(Expected(a, m - 1)) == Some(Expected(b, n - 1));
      SameEndSameHashes(a, b, m - 1, n - 1);
    }
  }

  /** The last hash of an accepted chain fixes its length and every body in it. */
  lemma {:induction false} LastHashFixesChain(crypto: Crypto, a: seq<Json>, b: seq<Json>)
    requires crypto.CollisionFree() && AllWellFormed(a) && AllWellFormed(b)
    requires ReportedValid(crypto, a) && ReportedValid(crypto, b)
    requires LastHash(a) == LastHash(b)
    ensures |a| == |b|
    ensures forall i :: 0 <= i < |a| ==>
      BodyOf(a[i]).Some? && BodyOf(b[i]).Some? && Same(BodyOf(a[i]).value, BodyOf(b[i]).value)
  {
    var la, lb := Links(crypto, a), Links(crypto, b);
    ChainReport(crypto, a);
    ChainReport(crypto, b);
    AcceptedRooted(crypto, a);
    AcceptedRooted(crypto, b);
    AcceptedBinding(crypto, a, b);
    LastIsExpected(crypto, a);
    LastIsExpected(crypto, b);
    SameEndSameHashes(la, lb, |a|, |b|);
    forall i | 0 <= i < |a|
      ensures BodyOf(a[i]).Some? && BodyOf(b[i]).Some? && Same(BodyOf(a[i]).value, BodyOf(b[i]).value)
    {
      assert la[i].prev == Some(Expected(la, i)) && lb[i].prev == Some(Expected(lb, i));
      LinkedBodies(crypto, a[i], b[i], la[i], lb[i]);
    }
  }

  lemma {:induction false} LinkedBodies(crypto: Crypto, a: Json, b: Json, la: Link, lb: Link)
    requires crypto.CollisionFree() && WellFormed(a) && WellFormed(b)
    requires la == LinkOf(crypto, a) && lb == LinkOf(crypto, b) && la.valid && lb.valid && la.hash == lb.hash
    ensures BodyOf(a).Some? && BodyOf(b).Some? && Same(BodyOf(a).value, BodyOf(b).value)
  {
    SameHashSameBody(crypto, a, b, Str(GENESIS));
  }

  /** The hash a store resumes from is the one an accepted chain ends with. */
  lemma {:induction false} LastIsExpected(crypto: Crypto, records: seq<Json>)
    requires Accepted(crypto, records)
    ensures LastHash(records) == Expected(Links(crypto, records), |records|)
  {
    hide Accepted, HashOf;
    if records != [] {
      AcceptedHash(crypto, records, |records| - 1, LastHash(records[..|records| - 1]));
    }
  }
}
