/**
 * Decoded JSON as the transaction-detail endpoint returns it: nested mappings
 * (fields in insertion order), lists and scalars, together with Python's notion
 * of truthiness and `dict.get`.
 */
module JsonValue {
  import opened Wrappers

  /** One key/value pair of a mapping. */
  datatype Field = Field(key: string, value: Json)

  datatype Json =
    | JNull
    | JBool(b: bool)
    | JNum(n: real)
    | JStr(s: string)
    | JArray(items: seq<Json>)
    | JObject(fields: seq<Field>)

  /** Python truthiness: `None`, `False`, zero and empty containers are falsy. */
  predicate Truthy(j: Json) {
    match j
    case JNull => false
    case JBool(b) => b
    case JNum(n) => n != 0.0
    case JStr(s) => s != ""
    case JArray(items) => items != []
    case JObject(fields) => fields != []
  }

  /** Python's `a or b` on values that may be absent: `a` when truthy, else `b`. */
  function OrValue(a: Option<Json>, b: Option<Json>): (r: Option<Json>)
    ensures a.Some? && Truthy(a.value) ==> r == a
    ensures !(a.Some? && Truthy(a.value)) ==> r == b
  {
    if a.Some? && Truthy(a.value) then a else b
  }

  /**
   * `d.get(key)`: the value of the first field named `key`. A decoded Python
   * dict has distinct keys, so "first" is "the".
   */
  function Get(fields: seq<Field>, key: string): (r: Option<Json>)
    ensures r.Some? ==> Field(key, r.value) in fields
    ensures r.None? <==> forall i :: 0 <= i < |fields| ==> fields[i].key != key
  {
    if fields == [] then None
    else if fields[0].key == key then Some(fields[0].value)
    else Get(fields[1..], key)
  }
}
