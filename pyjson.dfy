/** JSON documents as `json.loads` hands them to the pipeline, and the
    Python idioms the pipeline applies to them: `d.get(k)`, `k in d`,
    truthiness, `a or b`, `x or []` and `type(x).__name__`. */
module PyJson {
  import opened Wrappers

  /** A decoded JSON value. An object keeps its bindings in document order. */
  datatype Json =
    | JNull
    | JBool(b: bool)
    | JInt(i: int)
    | JFloat(r: real)
    | JStr(s: string)
    | JArr(items: seq<Json>)
    | JObj(fields: seq<(string, Json)>)

  /** The value bound to `k` among `fields`; the last binding wins, as in a
      dictionary built by `json.loads`. */
  function Lookup(fields: seq<(string, Json)>, k: string): Option<Json>
    decreases |fields|
  {
    if |fields| == 0 then None
    else if fields[|fields| - 1].0 == k then Some(fields[|fields| - 1].1)
    else Lookup(fields[..|fields| - 1], k)
  }

  /** The value found is the last binding of `k`; nothing is found exactly
      when `k` is unbound. */
  lemma {:induction false} LookupLast(fields: seq<(string, Json)>, k: string)
    ensures Lookup(fields, k).Some? <==> exists i :: 0 <= i < |fields| && fields[i].0 == k
    ensures Lookup(fields, k).Some? ==>
      exists i :: 0 <= i < |fields| && fields[i] == (k, Lookup(fields, k).value) &&
        forall j :: i < j < |fields| ==> fields[j].0 != k
    decreases |fields|
  {
    if |fields| > 0 && fields[|fields| - 1].0 != k {
      var q := fields[..|fields| - 1];
      LookupLast(q, k);
      assert forall i :: 0 <= i < |q| ==> q[i] == fields[i];
    }
  }

  /** `d.get(k)`: `None` (here `JNull`) when the key is absent. A value that
      is not an object also yields `JNull`, so `(d.get(k) or {}).get(k2)`
      is `Get(Get(d, k), k2)`. */
  function Get(j: Json, k: string): Json {
    match j
    case JObj(fields) => Lookup(fields, k).GetOr(JNull)
    case _ => JNull
  }

  /** `k in d` for an object. */
  predicate Has(j: Json, k: string) {
    j.JObj? && Lookup(j.fields, k).Some?
  }

  /** Python truthiness of a decoded JSON value. */
  predicate Truthy(j: Json) {
    match j
    case JNull => false
    case JBool(b) => b
    case JInt(i) => i != 0
    case JFloat(r) => r != 0.0
    case JStr(s) => s != ""
    case JArr(items) => |items| > 0
    case JObj(fields) => |fields| > 0
  }

  /** Python's `a or b`. */
  function Or(a: Json, b: Json): (r: Json)
    ensures Truthy(r) <==> Truthy(a) || Truthy(b)
  {
    if Truthy(a) then a else b
  }

  /** The elements iterated by `for x in (v or [])` when `v` is a list. */
  function Items(j: Json): seq<Json> {
    match j
    case JArr(items) => items
    case _ => []
  }

  /** `(v or [])` iterates like `v`: a falsy list is empty. */
  lemma ItemsOrEmpty(v: Json)
    ensures Items(Or(v, JArr([]))) == Items(v)
  {
  }

  /** `(v or {}).get(k)` reads like `v.get(k)`: a falsy object is empty. */
  lemma GetOrEmpty(v: Json, k: string)
    ensures Get(Or(v, JObj([])), k) == Get(v, k)
  {
  }

  /** A field the MusicBrainz payloads carry as a string. */
  function AsStr(j: Json): Option<string> {
    match j
    case JStr(s) => Some(s)
    case _ => None
  }

  /** `type(x).__name__.lower()` for a decoded value. */
  function TypeName(j: Json): string {
    match j
    case JNull => "nonetype"
    case JBool(_) => "bool"
    case JInt(_) => "int"
    case JFloat(_) => "float"
    case JStr(_) => "str"
    case JArr(_) => "list"
    case JObj(_) => "dict"
  }
}
