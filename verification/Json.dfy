/** JSON values as the Python code sees them after decoding, and the bounded copy the fleet code makes of a result. */
module Json {

  datatype Value =
    | Null
    | Bool(b: bool)
    | Number(n: real)
    | Str(s: string)
    | Arr(items: seq<Value>)
    | Obj(fields: seq<Field>)

  datatype Field = Field(key: string, value: Value)

  /** A decoded object: fields in insertion order. */
  type Dict = seq<Field>

  predicate Truthy(v: Value) {
    match v
    case Null => false
    case Bool(b) => b
    case Number(n) => n != 0.0
    case Str(s) => s != ""
    case Arr(items) => items != []
    case Obj(fields) => fields != []
  }

  /** dict.get(key, default) */
  function Get(d: Dict, key: string, default: Value): Value {
    if d == [] then default
    else if d[0].key == key then d[0].value
    else Get(d[1..], key, default)
  }

  predicate Scalar(v: Value) {
    !v.Arr? && !v.Obj?
  }

  function Cut(s: string, n: nat): string {
    if |s| <= n then s else s[..n]
  }

  function Take<T>(s: seq<T>, n: nat): seq<T> {
    if |s| <= n then s else s[..n]
  }

  /** Assigning a key of a dict: an existing key keeps its position. */
  function Put(d: Dict, key: string, value: Value): Dict {
    if d == [] then [Field(key, value)]
    else if d[0].key == key then [Field(key, value)] + d[1..]
    else [d[0]] + Put(d[1..], key, value)
  }

  predicate HasKey(d: Dict, key: string) {
    exists i :: 0 <= i < |d| && d[i].key == key
  }

  ghost predicate DistinctKeys(d: Dict) {
    forall i, j :: 0 <= i < j < |d| ==> d[i].key != d[j].key
  }

  /** The dict comprehension of _safe_result over the items it looks at. */
  function Comprehend(items: Dict): Dict {
    if items == [] then []
    else
      var d := Comprehend(items[..|items| - 1]);
      var f := items[|items| - 1];
      if Scalar(f.value) then Put(d, Cut(f.key, 64), f.value) else d
  }

  /** _safe_result: at most 32 fields, scalar values, keys of at most 64 characters. */
  function SafeResult(v: Value): Dict {
    if v.Obj? then Comprehend(Take(v.fields, 32)) else []
  }

  /** What any recorded or transmitted result looks like. */
  ghost predicate Safe(d: Dict) {
    && |d| <= 32
    && DistinctKeys(d)
    && forall i :: 0 <= i < |d| ==> Scalar(d[i].value) && |d[i].key| <= 64
  }

  /** The scalar fields, in order. */
  function ScalarFields(d: Dict): Dict {
    if d == [] then []
    else ScalarFields(d[..|d| - 1]) + (if Scalar(d[|d| - 1].value) then [d[|d| - 1]] else [])
  }

  lemma PutKeys(d: Dict, key: string, value: Value)
    requires DistinctKeys(d)
    ensures DistinctKeys(Put(d, key, value))
    ensures |d| <= |Put(d, key, value)| <= |d| + 1
    ensures forall f :: f in Put(d, key, value) ==> f in d || f == Field(key, value)
    ensures !HasKey(d, key) ==> Put(d, key, value) == d + [Field(key, value)]
  {
    if d != [] && d[0].key != key {
      PutKeys(d[1..], key, value);
      var rest := Put(d[1..], key, value);
      forall i | 0 <= i < |rest| ensures rest[i].key != d[0].key {
        assert rest[i] in rest;
      }
      if !HasKey(d, key) {
        forall i | 0 <= i < |d[1..]| ensures d[1..][i].key != key {
          assert d[1..][i] == d[i + 1];
        }
      }
    }
  }

  lemma {:induction false} ComprehendSafe(items: Dict)
    ensures DistinctKeys(Comprehend(items)) && |Comprehend(items)| <= |items|
    ensures forall f :: f in Comprehend(items) ==> Scalar(f.value) && |f.key| <= 64
  {
    if items != [] {
      var f := items[|items| - 1];
      ComprehendSafe(items[..|items| - 1]);
      PutKeys(Comprehend(items[..|items| - 1]), Cut(f.key, 64), f.value);
    }
  }

  lemma {:induction false} ScalarFieldsFrom(items: Dict)
    ensures forall f :: f in ScalarFields(items) ==> f in items
  {
    if items != [] {
      ScalarFieldsFrom(items[..|items| - 1]);
    }
  }

  /** On distinct short keys the comprehension only drops the fields that are not scalar. */
  lemma {:induction false} ComprehendKeeps(items: Dict)
    requires DistinctKeys(items)
    requires forall i :: 0 <= i < |items| ==> |items[i].key| <= 64
    ensures Comprehend(items) == ScalarFields(items)
  {
    if items != [] {
      var front, f := items[..|items| - 1], items[|items| - 1];
      ComprehendKeeps(front);
      ComprehendSafe(front);
      ScalarFieldsFrom(front);
      var d := Comprehend(front);
      forall i | 0 <= i < |d| ensures d[i].key != f.key {
        assert d[i] in front;
      }
      PutKeys(d, f.key, f.value);
    }
  }

  lemma {:induction false} ScalarFieldsAll(d: Dict)
    requires forall i :: 0 <= i < |d| ==> Scalar(d[i].value)
    ensures ScalarFields(d) == d
  {
    if d != [] {
      ScalarFieldsAll(d[..|d| - 1]);
    }
  }

  lemma SafeResultIsSafe(v: Value)
    ensures Safe(SafeResult(v))
  {
    if v.Obj? {
      var d := SafeResult(v);
      ComprehendSafe(Take(v.fields, 32));
      forall i | 0 <= i < |d| ensures Scalar(d[i].value) && |d[i].key| <= 64 {
        assert d[i] in d;
      }
    }
  }

  /** A result that is already bounded is copied unchanged, so copying twice is copying once. */
  lemma SafeResultFixed(d: Dict)
    requires Safe(d)
    ensures SafeResult(Obj(d)) == d
  {
    ComprehendKeeps(d);
    ScalarFieldsAll(d);
  }

  lemma SafeResultIdempotent(v: Value)
    ensures SafeResult(Obj(SafeResult(v))) == SafeResult(v)
  {
    SafeResultIsSafe(v);
    SafeResultFixed(SafeResult(v));
  }

  /** On an object of at most 32 fields with short distinct keys, exactly the scalar fields survive, in order. */
  lemma SafeResultKeepsScalars(d: Dict)
    requires |d| <= 32 && DistinctKeys(d)
    requires forall i :: 0 <= i < |d| ==> |d[i].key| <= 64
    ensures SafeResult(Obj(d)) == ScalarFields(d)
  {
    ComprehendKeeps(d);
  }
}
