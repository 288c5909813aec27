/**
  JSON values as Python holds them. A dictionary is a sequence of fields in insertion order;
  it is well formed when its keys are distinct. Numbers with a fraction or an exponent keep
  their text, since the canonical form refuses them.
*/
module Json {
  import opened Wrappers

  datatype Field = Field(key: string, value: Json)

  datatype Json =
    | Null
    | Bool(b: bool)
    | Int(n: int)
    | Float(text: string)
    | Str(s: string)
    | Arr(items: seq<Json>)
    | Obj(fields: seq<Field>)

  predicate HasKey(fields: seq<Field>, key: string) {
    exists i :: 0 <= i < |fields| && fields[i].key == key
  }

  /** `dict.get`. */
  function Get(fields: seq<Field>, key: string): (r: Option<Json>)
    ensures r.Some? <==> HasKey(fields, key)
    ensures r.Some? ==> exists i :: 0 <= i < |fields| && fields[i] == Field(key, r.value)
  {
    if fields == [] then None
    else if fields[0].key == key then
      assert fields[0] == Field(key, fields[0].value);
      Some(fields[0].value)
    else
      var r := Get(fields[1..], key);
      assert forall i :: 0 < i < |fields| ==> fields[i] == fields[1..][i - 1];
      assert forall i :: 0 <= i < |fields| - 1 ==> fields[1..][i] == fields[i + 1];
      r
  }

  ghost predicate Distinct(fields: seq<Field>) {
    forall i, j :: 0 <= i < j < |fields| ==> fields[i].key != fields[j].key
  }

  ghost predicate WellFormed(v: Json) {
    match v
    case Arr(items) => forall i :: 0 <= i < |items| ==> WellFormed(items[i])
    case Obj(fields) => Distinct(fields) && forall i :: 0 <= i < |fields| ==> WellFormed(fields[i].value)
    case _ => true
  }

  predicate HasFloat(v: Json) {
    match v
    case Float(_) => true
    case Arr(items) => exists i :: 0 <= i < |items| && HasFloat(items[i])
    case Obj(fields) => exists i :: 0 <= i < |fields| && HasFloat(fields[i].value)
    case _ => false
  }

  /** Equality of JSON values: two dictionaries are equal whatever the insertion order. */
  ghost predicate Same(v: Json, w: Json) {
    match (v, w)
    case (Arr(a), Arr(b)) => |a| == |b| && forall i :: 0 <= i < |a| ==> Same(a[i], b[i])
    case (Obj(f), Obj(g)) =>
      && (forall key :: HasKey(f, key) <==> HasKey(g, key))
      && (forall i, j :: 0 <= i < |f| && 0 <= j < |g| && f[i].key == g[j].key ==> Same(f[i].value, g[j].value))
    case _ => v == w
  }

  // ---------------------------------------------------------------- sorting by key

  /** Python's order on strings: by code point, a prefix first. */
  predicate Before(a: string, b: string) {
    b != "" && (a == "" || a[0] < b[0] || (a[0] == b[0] && Before(a[1..], b[1..])))
  }

  function Insert(f: Field, fields: seq<Field>): seq<Field> {
    if fields == [] || Before(f.key, fields[0].key) then [f] + fields
    else [fields[0]] + Insert(f, fields[1..])
  }

  function Sort(fields: seq<Field>): seq<Field> {
    if fields == [] then [] else Insert(fields[0], Sort(fields[1..]))
  }

  ghost predicate Sorted(fields: seq<Field>) {
    forall i, j :: 0 <= i < j < |fields| ==> Before(fields[i].key, fields[j].key)
  }

  lemma {:induction false} BeforeTotal(a: string, b: string)
    ensures a == b || Before(a, b) || Before(b, a)
    ensures !(Before(a, b) && Before(b, a))
    ensures !Before(a, a)
  {
    if a != "" {
      BeforeTotal(a[1..], a[1..]);
      if b != "" && a[0] == b[0] {
        BeforeTotal(a[1..], b[1..]);
        if a[1..] == b[1..] {
          assert a == [a[0]] + a[1..] && b == [b[0]] + b[1..];
        }
      }
    }
  }

  lemma {:induction false} BeforeTransitive(a: string, b: string, c: string)
    requires Before(a, b) && Before(b, c)
    ensures Before(a, c)
  {
    if a != "" && a[0] == b[0] && b[0] == c[0] {
      BeforeTransitive(a[1..], b[1..], c[1..]);
    }
  }

  lemma {:induction false} InsertSorted(f: Field, fields: seq<Field>)
    requires Sorted(fields) && !HasKey(fields, f.key)
    ensures Sorted(Insert(f, fields))
    ensures |Insert(f, fields)| == |fields| + 1
    ensures forall g :: g in Insert(f, fields) <==> g == f || g in fields
  {
    var out := Insert(f, fields);
    if fields == [] {
    } else if Before(f.key, fields[0].key) {
      forall j | 0 < j < |fields|
        ensures Before(f.key, fields[j].key)
      {
        BeforeTransitive(f.key, fields[0].key, fields[j].key);
      }
    } else {
      var tail := fields[1..];
      assert fields == [fields[0]] + tail;
      BeforeTotal(f.key, fields[0].key);
      InsertSorted(f, tail);
      forall j | 1 <= j < |out|
        ensures Before(out[0].key, out[j].key)
      {
        assert out[j] in Insert(f, tail);
      }
    }
  }

  lemma {:induction false} SortSorts(fields: seq<Field>)
    requires Distinct(fields)
    ensures Sorted(Sort(fields)) && |Sort(fields)| == |fields|
    ensures forall g :: g in Sort(fields) <==> g in fields
    ensures forall key :: HasKey(Sort(fields), key) <==> HasKey(fields, key)
  {
    if fields != [] {
      var tail := fields[1..];
      assert fields == [fields[0]] + tail;
      SortSorts(tail);
      InsertSorted(fields[0], Sort(tail));
    }
    KeysOfMembers(Sort(fields), fields);
  }

  lemma {:induction false} KeysOfMembers(a: seq<Field>, b: seq<Field>)
    requires forall g :: g in a <==> g in b
    ensures forall key :: HasKey(a, key) <==> HasKey(b, key)
  {
    forall key
      ensures HasKey(a, key) <==> HasKey(b, key)
    {
      if i :| 0 <= i < |a| && a[i].key == key {
        assert a[i] in b;
      }
      if i :| 0 <= i < |b| && b[i].key == key {
        assert b[i] in a;
      }
    }
  }

  /** Two sorted dictionaries with the same fields are the same sequence. */
  lemma {:induction false} SortedUnique(a: seq<Field>, b: seq<Field>)
    requires Sorted(a) && Sorted(b)
    requires forall g :: g in a <==> g in b
    ensures a == b
  {
    assert a != [] ==> a[0] in b;
    assert b != [] ==> b[0] in a;
    if a != [] {
      SortedHead(a, b);
      var a', b' := a[1..], b[1..];
      assert a == [a[0]] + a' && b == [b[0]] + b';
      BeforeTotal(a[0].key, a[0].key);
      assert a[0] !in a' && b[0] !in b';
      forall g
        ensures g in a' <==> g in b'
      {
        assert g in a <==> g == a[0] || g in a';
        assert g in b <==> g == b[0] || g in b';
      }
      SortedUnique(a', b');
    }
  }

  lemma {:induction false} SortedHead(a: seq<Field>, b: seq<Field>)
    requires Sorted(a) && Sorted(b) && a != [] && b != []
    requires forall g :: g in a <==> g in b
    ensures a[0] == b[0]
  {
    assert a[0] in b && b[0] in a;
    var i :| 0 <= i < |b| && b[i] == a[0];
    var j :| 0 <= j < |a| && a[j] == b[0];
    BeforeTotal(a[0].key, b[0].key);
  }

  lemma {:induction false} GetEach(fields: seq<Field>)
    requires Distinct(fields)
    ensures forall i :: 0 <= i < |fields| ==> Get(fields, fields[i].key) == Some(fields[i].value)
  {
    hide Get;
    forall i | 0 <= i < |fields|
      ensures Get(fields, fields[i].key) == Some(fields[i].value)
    {
      GetUnique(fields, fields[i]);
    }
  }

  lemma {:induction false} GetUnique(fields: seq<Field>, f: Field)
    requires Distinct(fields) && f in fields
    ensures Get(fields, f.key) == Some(f.value)
  {
    var v := Get(fields, f.key).value;
    var i :| 0 <= i < |fields| && fields[i] == Field(f.key, v);
    var j :| 0 <= j < |fields| && fields[j] == f;
    assert i == j;
  }

  /** Sorting the keys of a dictionary does not change what `get` answers. */
  lemma {:induction false} GetSorted(fields: seq<Field>, key: string)
    requires Distinct(fields)
    ensures Get(Sort(fields), key) == Get(fields, key)
  {
    var s := Sort(fields);
    SortSorts(fields);
    if Get(s, key).Some? {
      var i :| 0 <= i < |s| && s[i] == Field(key, Get(s, key).value);
      assert s[i] in fields;
      GetUnique(fields, s[i]);
    }
  }

  // ---------------------------------------------------------------- normal form

  /** The same value with every dictionary in the order of its sorted keys. */
  function Normalize(v: Json): Json
    decreases v, 0
  {
    match v
    case Arr(items) => Arr(NormalizeItems(items))
    case Obj(fields) => Obj(Sort(NormalizeFields(fields)))
    case _ => v
  }

  function NormalizeItems(items: seq<Json>): (r: seq<Json>)
    ensures |r| == |items|
    ensures forall i :: 0 <= i < |items| ==> r[i] == Normalize(items[i])
    decreases items
  {
    if items == [] then [] else [Normalize(items[0])] + NormalizeItems(items[1..])
  }

  function NormalizeFields(fields: seq<Field>): (r: seq<Field>)
    ensures |r| == |fields|
    ensures forall i :: 0 <= i < |fields| ==> r[i] == Field(fields[i].key, Normalize(fields[i].value))
    decreases fields
  {
    if fields == [] then []
    else [Field(fields[0].key, Normalize(fields[0].value))] + NormalizeFields(fields[1..])
  }

  /** Two well-formed values are equal exactly when their normal forms coincide. */
  lemma {:induction false} SameNormal(v: Json, w: Json)
    requires WellFormed(v) && WellFormed(w)
    ensures Same(v, w) <==> Normalize(v) == Normalize(w)
    decreases v
  {
    match (v, w)
    case (Arr(a), Arr(b)) =>
      forall i | 0 <= i < |a| && i < |b|
        ensures Same(a[i], b[i]) <==> Normalize(a[i]) == Normalize(b[i])
      {
        SameNormal(a[i], b[i]);
      }
      SameArrays(a, b);
    case (Obj(f), Obj(g)) =>
      forall i, j | 0 <= i < |f| && 0 <= j < |g|
        ensures Same(f[i].value, g[j].value) <==> Normalize(f[i].value) == Normalize(g[j].value)
      {
        SameNormal(f[i].value, g[j].value);
      }
      SameObjects(f, g);
    case _ =>
  }

  lemma {:induction false} SameArrays(a: seq<Json>, b: seq<Json>)
    requires forall i :: 0 <= i < |a| && i < |b| ==> (Same(a[i], b[i]) <==> Normalize(a[i]) == Normalize(b[i]))
    ensures Same(Arr(a), Arr(b)) <==> Normalize(Arr(a)) == Normalize(Arr(b))
  {
    var na, nb := NormalizeItems(a), NormalizeItems(b);
    if Same(Arr(a), Arr(b)) {
      assert na == nb;
    }
    if na == nb {
      forall i | 0 <= i < |a|
        ensures Same(a[i], b[i])
      {
        assert na[i] == nb[i];
      }
    }
  }

  lemma {:induction false} SameObjects(f: seq<Field>, g: seq<Field>)
    requires Distinct(f) && Distinct(g)
    requires forall i, j :: 0 <= i < |f| && 0 <= j < |g| ==>
      (Same(f[i].value, g[j].value) <==> Normalize(f[i].value) == Normalize(g[j].value))
    ensures Same(Obj(f), Obj(g)) <==> Normalize(Obj(f)) == Normalize(Obj(g))
  {
    hide Sort, NormalizeFields, HasKey, Distinct;
    MatchingSorts(f, g);
    assert Same(Obj(f), Obj(g)) <==> Matching(f, g);
  }

  /** Same keys, and the same normal value under each key. */
  ghost predicate Matching(f: seq<Field>, g: seq<Field>) {
    && (forall key :: HasKey(f, key) <==> HasKey(g, key))
    && (forall i, j :: 0 <= i < |f| && 0 <= j < |g| && f[i].key == g[j].key ==>
        Normalize(f[i].value) == Normalize(g[j].value))
  }

  lemma {:induction false} MatchingSorts(f: seq<Field>, g: seq<Field>)
    requires Distinct(f) && Distinct(g)
    ensures Matching(f, g) <==> Sort(NormalizeFields(f)) == Sort(NormalizeFields(g))
  {
    if Matching(f, g) {
      MatchingSortsEqual(f, g);
    }
    if Sort(NormalizeFields(f)) == Sort(NormalizeFields(g)) {
      EqualSortsMatch(f, g);
    }
  }

  lemma {:induction false} MatchingSortsEqual(f: seq<Field>, g: seq<Field>)
    requires Distinct(f) && Distinct(g) && Matching(f, g)
    ensures Sort(NormalizeFields(f)) == Sort(NormalizeFields(g))
  {
    var nf, ng := NormalizeFields(f), NormalizeFields(g);
    SortSorts(nf);
    SortSorts(ng);
    FieldsIncluded(f, g);
    FieldsIncluded(g, f);
    SortedUnique(Sort(nf), Sort(ng));
  }

  lemma {:induction false} EqualSortsMatch(f: seq<Field>, g: seq<Field>)
    requires Distinct(f) && Distinct(g) && Sort(NormalizeFields(f)) == Sort(NormalizeFields(g))
    ensures Matching(f, g)
  {
    var nf, ng := NormalizeFields(f), NormalizeFields(g);
    FieldsCorrespond(f, g);
    FieldsCorrespond(g, f);
    forall i, j | 0 <= i < |f| && 0 <= j < |g| && f[i].key == g[j].key
      ensures nf[i].value == ng[j].value
    {
      var k :| 0 <= k < |g| && ng[k] == nf[i];
      assert g[k].key == g[j].key;
    }
  }

  /** With equal sorted normal forms, every field of one has its counterpart in the other. */
  lemma {:induction false} FieldsCorrespond(f: seq<Field>, g: seq<Field>)
    requires Distinct(f) && Distinct(g)
    requires Sort(NormalizeFields(f)) == Sort(NormalizeFields(g))
    ensures forall i :: 0 <= i < |f| ==>
      exists j :: 0 <= j < |g| && NormalizeFields(g)[j] == NormalizeFields(f)[i]
    ensures forall key :: HasKey(f, key) ==> HasKey(g, key)
  {
    var nf, ng := NormalizeFields(f), NormalizeFields(g);
    SortSorts(nf);
    SortSorts(ng);
    forall i | 0 <= i < |f|
      ensures exists j :: 0 <= j < |g| && ng[j] == nf[i]
    {
      assert nf[i] in Sort(nf);
      assert nf[i] in ng;
    }
    forall key | HasKey(f, key)
      ensures HasKey(g, key)
    {
      var i :| 0 <= i < |f| && f[i].key == key;
      var j :| 0 <= j < |g| && ng[j] == nf[i];
      assert g[j].key == key;
    }
  }

  lemma {:induction false} FieldsIncluded(f: seq<Field>, g: seq<Field>)
    requires forall i :: 0 <= i < |f| ==> HasKey(g, f[i].key)
    requires forall i, j :: 0 <= i < |f| && 0 <= j < |g| && f[i].key == g[j].key ==>
      Normalize(f[i].value) == Normalize(g[j].value)
    ensures forall h :: h in NormalizeFields(f) ==> h in NormalizeFields(g)
  {
    forall h | h in NormalizeFields(f)
      ensures h in NormalizeFields(g)
    {
      var i :| 0 <= i < |f| && NormalizeFields(f)[i] == h;
      var j :| 0 <= j < |g| && g[j].key == f[i].key;
      assert NormalizeFields(g)[j] == h;
    }
  }
}
