/** The hash-chained journal: each entry is sealed over its contents and the hash of the one before. */
module Audit {
  import opened Wrappers
  import opened Json
  import opened Sequences

  /** What the hash of an entry covers. */
  datatype Body = Body(
    index: nat, timestamp: real, eventType: string, sender: string, target: Option<string>,
    metadata: Json, prevHash: string)

  datatype Entry = Entry(body: Body, hash: string)

  /** The serialised form of an entry. */
  datatype Row = Row(body: Body, hash: string)

  /** SHA-256 over the JSON text of the contents, keys sorted. */
  type Digest = Body -> string

  const ROOT_HASH: string := "0000000000000000000000000000000000000000000000000000000000000000"

  /** Equal contents, the key order of the metadata apart. */
  ghost predicate SameBody(a: Body, b: Body) {
    a.(metadata := Null) == b.(metadata := Null) && Same(a.metadata, b.metadata)
  }

  /** Among these contents the hash has no collision, does not depend on key order, and is never the root hash. */
  ghost predicate Binding(digest: Digest, bodies: set<Body>) {
    && (forall a, b :: a in bodies && b in bodies ==> (digest(a) == digest(b) <==> SameBody(a, b)))
    && (forall a :: a in bodies ==> digest(a) != ROOT_HASH)
  }

  ghost function Bodies(chain: seq<Entry>): set<Body> {
    set e | e in chain :: e.body
  }

  function Genesis(digest: Digest, now: real): Entry {
    var body := Body(0, now, "GENESIS", "intermesh_system", None,
                     Obj([Field("system", Str("InterMesh Protocol Immutable Audit Log Initialized"))]), ROOT_HASH);
    Entry(body, digest(body))
  }

  function NewEntry(digest: Digest, chain: seq<Entry>, now: real, eventType: string, sender: string,
                    target: Option<string>, metadata: Json): Entry
    requires chain != []
  {
    var body := Body(|chain|, now, eventType, sender, target, metadata, chain[|chain| - 1].hash);
    Entry(body, digest(body))
  }

  function ToRow(e: Entry): Row {
    Row(e.body, e.hash)
  }

  /** The stored hash is kept: its gap with a recomputed one is what reveals tampering. */
  function FromRow(digest: Digest, r: Row, now: real): Entry {
    var body := if r.body.timestamp == 0.0 then r.body.(timestamp := now) else r.body;
    Entry(body, if r.hash == "" then digest(body) else r.hash)
  }

  function ToRows(chain: seq<Entry>): (rows: seq<Row>)
    ensures |rows| == |chain|
  {
    seq(|chain|, i requires 0 <= i < |chain| => ToRow(chain[i]))
  }

  function FromRows(digest: Digest, rows: seq<Row>, now: real): (chain: seq<Entry>) {
    if rows == [] then [Genesis(digest, now)]
    else seq(|rows|, i requires 0 <= i < |rows| => FromRow(digest, rows[i], now))
  }

  ghost predicate Sealed(digest: Digest, chain: seq<Entry>, i: nat)
    requires 1 <= i < |chain|
  {
    chain[i].body.prevHash == chain[i - 1].hash && chain[i].hash == digest(chain[i].body)
  }

  ghost predicate Linked(digest: Digest, chain: seq<Entry>) {
    forall i :: 1 <= i < |chain| ==> Sealed(digest, chain, i)
  }

  /** What every journal built by `log` satisfies. */
  ghost predicate Genuine(digest: Digest, chain: seq<Entry>) {
    && chain != []
    && Linked(digest, chain)
    && (forall i :: 0 <= i < |chain| ==>
        chain[i].body.index == i && chain[i].body.timestamp != 0.0 && chain[i].hash != "")
  }

  class AuditLog {
    const digest: Digest
    var chain: seq<Entry>

    /** A restored chain, or a new one when there is nothing to restore. */
    constructor (digest: Digest, rows: seq<Row>, now: real)
      ensures this.digest == digest && chain == FromRows(digest, rows, now)
    {
      this.digest := digest;
      this.chain := FromRows(digest, rows, now);
    }

    method Log(now: real, eventType: string, sender: string, target: Option<string>, metadata: Json)
      returns (entry: Entry)
      requires chain != []
      modifies this
      ensures entry == NewEntry(digest, old(chain), now, eventType, sender, target, metadata)
      ensures chain == old(chain) + [entry]
    {
      entry := NewEntry(digest, chain, now, eventType, sender, target, metadata);
      chain := chain + [entry];
    }

    /** True exactly when every entry after the first is sealed over its contents and linked. */
    method VerifyIntegrity() returns (ok: bool)
      ensures ok <==> Linked(digest, chain)
    {
      var i := 1;
      while i < |chain|
        invariant 1 <= i
        invariant forall j :: 1 <= j < i && j < |chain| ==> Sealed(digest, chain, j)
      {
        if chain[i].body.prevHash != chain[i - 1].hash || chain[i].hash != digest(chain[i].body) {
          assert !Sealed(digest, chain, i);
          return false;
        }
        i := i + 1;
      }
      return true;
    }
  }

  lemma LogKeepsGenuine(digest: Digest, chain: seq<Entry>, e: Entry)
    requires Genuine(digest, chain)
    requires e.body.index == |chain| && e.body.timestamp != 0.0 && e.hash != ""
    requires e.body.prevHash == chain[|chain| - 1].hash && e.hash == digest(e.body)
    ensures Genuine(digest, chain + [e])
  {
    var next := chain + [e];
    forall i | 1 <= i < |next|
      ensures Sealed(digest, next, i)
    {
      if i < |chain| {
        assert Sealed(digest, chain, i);
      }
    }
  }

  /** A genuine journal survives being exported and restored, whenever that happens. */
  lemma RowsReadBack(digest: Digest, chain: seq<Entry>, now: real)
    requires Genuine(digest, chain)
    ensures FromRows(digest, ToRows(chain), now) == chain
  {
  }

  /**
    Two journals of the same length that pass verification and end on the same hash hold the same
    entries, the contents of the first one apart: verification starts at the second entry.
  */
  lemma {:induction false} LastHashFixesJournal(digest: Digest, a: seq<Entry>, b: seq<Entry>)
    requires Binding(digest, Bodies(a) + Bodies(b)) && Linked(digest, a) && Linked(digest, b)
    requires |a| == |b| > 0 && a[|a| - 1].hash == b[|b| - 1].hash
    ensures forall i :: 0 <= i < |a| ==> a[i].hash == b[i].hash
    ensures forall i :: 1 <= i < |a| ==> SameBody(a[i].body, b[i].body)
  {
    hide SameBody, Binding, Bodies, Linked;
    var n := |a| - 1;
    if n > 0 {
      SameHashSameBody(digest, a, b, n);
      LinkedPrefix(digest, a, n);
      LinkedPrefix(digest, b, n);
      BindingPrefix(digest, a, b, n);
      var a', b' := a[..n], b[..n];
      LastHashFixesJournal(digest, a', b');
      forall i | 0 <= i < n
        ensures a[i].hash == b[i].hash && (i > 0 ==> SameBody(a[i].body, b[i].body))
      {
        assert a'[i] == a[i] && b'[i] == b[i];
      }
    }
  }

  lemma {:induction false} SameHashSameBody(digest: Digest, a: seq<Entry>, b: seq<Entry>, n: nat)
    requires Binding(digest, Bodies(a) + Bodies(b)) && Linked(digest, a) && Linked(digest, b)
    requires 1 <= n < |a| && n < |b| && a[n].hash == b[n].hash
    ensures SameBody(a[n].body, b[n].body) && a[n - 1].hash == b[n - 1].hash
  {
    assert Sealed(digest, a, n) && Sealed(digest, b, n);
    assert a[n].body in Bodies(a) && b[n].body in Bodies(b);
  }

  lemma {:induction false} LinkedPrefix(digest: Digest, chain: seq<Entry>, n: nat)
    requires n <= |chain| && Linked(digest, chain)
    ensures Linked(digest, chain[..n])
  {
    forall i | 1 <= i < n
      ensures Sealed(digest, chain[..n], i)
    {
      assert Sealed(digest, chain, i);
    }
  }

  lemma {:induction false} BindingPrefix(digest: Digest, a: seq<Entry>, b: seq<Entry>, n: nat)
    requires n <= |a| && n <= |b| && Binding(digest, Bodies(a) + Bodies(b))
    ensures Binding(digest, Bodies(a[..n]) + Bodies(b[..n]))
  {
    assert Bodies(a[..n]) <= Bodies(a) && Bodies(b[..n]) <= Bodies(b);
  }

  /** The contents of the first entry are outside the reach of verification. */
  lemma FirstEntryUnchecked(digest: Digest, chain: seq<Entry>, body: Body)
    requires chain != []
    ensures Linked(digest, chain[0 := Entry(body, chain[0].hash)]) <==> Linked(digest, chain)
  {
    var forged := chain[0 := Entry(body, chain[0].hash)];
    forall i | 1 <= i < |chain|
      ensures Sealed(digest, forged, i) <==> Sealed(digest, chain, i)
    {
    }
  }

  /**
    Tampering: other contents under the hash of an entry pass verification exactly when they are the same
    contents, or when the entry is the first one, which verification does not reach.
  */
  lemma {:induction false} TamperedEntryPassesIff(digest: Digest, chain: seq<Entry>, i: nat, body: Body)
    requires Genuine(digest, chain) && i < |chain| && Binding(digest, {body, chain[i].body})
    ensures Linked(digest, chain[i := Entry(body, chain[i].hash)]) <==> i == 0 || SameBody(body, chain[i].body)
  {
    var forged := chain[i := Entry(body, chain[i].hash)];
    if i > 0 {
      assert Sealed(digest, chain, i);
      assert Sealed(digest, forged, i) <==> SameBody(body, chain[i].body);
    }
    forall j | 1 <= j < |chain| && j != i
      ensures Sealed(digest, forged, j)
    {
      assert Sealed(digest, chain, j);
    }
  }

  /** A journal from its own genesis entry on. */
  ghost predicate Founded(digest: Digest, chain: seq<Entry>) {
    Genuine(digest, chain) && chain[0] == Genesis(digest, chain[0].body.timestamp)
  }

  /** No two entries of a founded journal have the same hash, since their contents carry their index. */
  lemma {:induction false} HashesDistinct(digest: Digest, chain: seq<Entry>, i: nat, j: nat)
    requires Founded(digest, chain) && Binding(digest, Bodies(chain)) && i < j < |chain|
    ensures chain[i].hash != chain[j].hash
  {
    assert chain[i].body in Bodies(chain) && chain[j].body in Bodies(chain);
    assert Sealed(digest, chain, j) && (i > 0 ==> Sealed(digest, chain, i));
  }

  ghost predicate Contiguous(at: seq<nat>) {
    forall k :: 1 <= k < |at| ==> at[k] == at[k - 1] + 1
  }

  lemma {:induction false} PickedInTurn(digest: Digest, chain: seq<Entry>, at: seq<nat>, k: nat)
    requires Founded(digest, chain) && Binding(digest, Bodies(chain))
    requires forall k :: 0 <= k < |at| ==> at[k] < |chain|
    requires 1 <= k < |at|
    ensures Sealed(digest, Selection(chain, at), k) <==> at[k] == at[k - 1] + 1
  {
    var i, j := at[k - 1], at[k];
    assert chain[i].body in Bodies(chain) && (i > 0 ==> Sealed(digest, chain, i));
    if j > 0 {
      assert Sealed(digest, chain, j);
      if i < j - 1 {
        HashesDistinct(digest, chain, i, j - 1);
      } else if i > j - 1 {
        HashesDistinct(digest, chain, j - 1, i);
      }
    }
  }

  /**
    What is picked from a journal passes verification exactly when it is a contiguous stretch of it:
    deletions inside, repetitions and exchanges are noticed, deletions at either end are not.
  */
  lemma {:induction false} OnlyStretchesPass(digest: Digest, chain: seq<Entry>, at: seq<nat>)
    requires Founded(digest, chain) && Binding(digest, Bodies(chain))
    requires forall k :: 0 <= k < |at| ==> at[k] < |chain|
    ensures Linked(digest, Selection(chain, at)) <==> Contiguous(at)
  {
    var picked := Selection(chain, at);
    forall k | 1 <= k < |at|
      ensures Sealed(digest, picked, k) <==> at[k] == at[k - 1] + 1
    {
      PickedInTurn(digest, chain, at, k);
    }
    if Linked(digest, picked) {
      forall k | 1 <= k < |at|
        ensures at[k] == at[k - 1] + 1
      {
        assert Sealed(digest, picked, k);
      }
    }
  }
}
