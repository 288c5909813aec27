/** One value, one encoding: the bytes every signature and every hash covers. */
module Canonical {
  import opened Wrappers
  import opened Json
  import opened JsonText
  import opened Utf8

  datatype CanonicalError = FloatRefused

  /** The exact bytes to sign or to hash. */
  function CanonicalBytes(v: Json): Result<Bytes, CanonicalError> {
    if HasFloat(v) then Err(FloatRefused) else Ok(Encode(Print(Normalize(v))))
  }

  /** `json.loads` on bytes. */
  function Read(b: Bytes): Option<Json> {
    var text :- Decode(b);
    Parse(text)
  }

  lemma {:induction false} NormalizeKeeps(v: Json)
    requires WellFormed(v)
    ensures WellFormed(Normalize(v))
    ensures HasFloat(Normalize(v)) <==> HasFloat(v)
    ensures Normalize(Normalize(v)) == Normalize(v)
  {
    match v
    case Arr(items) =>
      var n := NormalizeItems(items);
      forall i | 0 <= i < |items|
        ensures WellFormed(n[i]) && (HasFloat(n[i]) <==> HasFloat(items[i])) && Normalize(n[i]) == n[i]
      {
        NormalizeKeeps(items[i]);
      }
      assert NormalizeItems(n) == n;
    case Obj(fields) =>
      var n := NormalizeFields(fields);
      forall i | 0 <= i < |fields|
        ensures WellFormed(n[i].value) && Normalize(n[i].value) == n[i].value
        ensures HasFloat(n[i].value) <==> HasFloat(fields[i].value)
      {
        NormalizeKeeps(fields[i].value);
      }
      NormalizeKeepsFields(fields, n);
    case _ =>
  }

  lemma {:induction false} NormalizeKeepsFields(fields: seq<Field>, n: seq<Field>)
    requires Distinct(fields) && n == NormalizeFields(fields)
    requires forall i :: 0 <= i < |n| ==> WellFormed(n[i].value) && Normalize(n[i].value) == n[i].value
    requires forall i :: 0 <= i < |n| ==> (HasFloat(n[i].value) <==> HasFloat(fields[i].value))
    ensures WellFormed(Obj(Sort(n)))
    ensures HasFloat(Obj(Sort(n))) <==> HasFloat(Obj(fields))
    ensures Sort(NormalizeFields(Sort(n))) == Sort(n)
  {
    var s := Sort(n);
    SortSorts(n);
    SortedDistinct(s);
    forall i | 0 <= i < |s|
      ensures WellFormed(s[i].value) && Normalize(s[i].value) == s[i].value
    {
      assert s[i] in n;
    }
    assert NormalizeFields(s) == s;
    SortSorts(s);
    SortedUnique(Sort(s), s);
    MembersFloat(s, n);
    MembersFloat(n, s);
    assert HasFloat(Obj(n)) <==> HasFloat(Obj(fields));
  }

  lemma {:induction false} MembersFloat(a: seq<Field>, b: seq<Field>)
    requires forall g :: g in a ==> g in b
    ensures HasFloat(Obj(a)) ==> HasFloat(Obj(b))
  {
    if i :| 0 <= i < |a| && HasFloat(a[i].value) {
      assert a[i] in b;
      var j :| 0 <= j < |b| && b[j] == a[i];
      assert HasFloat(b[j].value);
    }
  }

  lemma {:induction false} SortedDistinct(fields: seq<Field>)
    requires Sorted(fields)
    ensures Distinct(fields)
  {
    forall i, j | 0 <= i < j < |fields|
      ensures fields[i].key != fields[j].key
    {
      BeforeTotal(fields[i].key, fields[j].key);
    }
  }

  /** The canonical bytes are read back as the value, with its keys sorted. */
  lemma {:induction false} ReadCanonical(v: Json)
    requires WellFormed(v) && !HasFloat(v)
    ensures CanonicalBytes(v).Ok?
    ensures Read(CanonicalBytes(v).value) == Some(Normalize(v))
  {
    NormalizeKeeps(v);
    DecodeEncode(Print(Normalize(v)));
    PrintThenParse(Normalize(v));
  }

  /** Equal bytes mean equal values, and the insertion order of the keys does not change the bytes. */
  lemma {:induction false} CanonicalIffSame(v: Json, w: Json)
    requires WellFormed(v) && WellFormed(w) && !HasFloat(v) && !HasFloat(w)
    ensures CanonicalBytes(v) == CanonicalBytes(w) <==> Same(v, w)
  {
    ReadCanonical(v);
    ReadCanonical(w);
    SameNormal(v, w);
  }

  /** What was read from canonical bytes encodes to the same bytes again. */
  lemma {:induction false} CanonicalStable(v: Json)
    requires WellFormed(v) && !HasFloat(v)
    ensures CanonicalBytes(Normalize(v)) == CanonicalBytes(v)
  {
    NormalizeKeeps(v);
  }
}
