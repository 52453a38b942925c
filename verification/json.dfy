/**
 * The JSON documents the response parsers read, and the lookups they use:
 * a field of an object by key, and typed reads of a field with a fallback.
 * A typed read of a field that is present but of another kind yields that
 * kind's zero value (the empty string, 0, false).
 */
module JsonValues {
  import opened Wrappers

  datatype Json =
    | JNull
    | JBool(b: bool)
    | JNumber(n: real)
    | JString(str: string)
    | JArray(items: seq<Json>)
    | JObject(fields: seq<(string, Json)>)

  /** Position of the first field named `key`, or `|fields|` when there is none. */
  function IndexOfKey(fields: seq<(string, Json)>, key: string): (i: nat)
    ensures i <= |fields|
    ensures i < |fields| ==> fields[i].0 == key
    ensures forall k :: 0 <= k < i ==> fields[k].0 != key
  {
    if |fields| == 0 then 0
    else if fields[0].0 == key then 0
    else 1 + IndexOfKey(fields[1..], key)
  }

  /** The object has a field named `key`. */
  predicate HasField(j: Json, key: string) {
    j.JObject? && exists k :: 0 <= k < |j.fields| && j.fields[k].0 == key
  }

  /** The value of the first field named `key`, or `None` when there is none or `j` is no object. */
  function GetField(j: Json, key: string): (r: Option<Json>)
    ensures r.Some? <==> HasField(j, key)
    ensures r.Some? ==> (key, r.value) in j.fields
  {
    if j.JObject? && IndexOfKey(j.fields, key) < |j.fields| then
      Some(j.fields[IndexOfKey(j.fields, key)].1)
    else None
  }

  /** C#'s `(int)` cast of a number: truncation toward zero. */
  function TruncateToInt(x: real): (r: int)
    ensures x >= 0.0 ==> r as real <= x < r as real + 1.0
    ensures x < 0.0 ==> r as real - 1.0 < x <= r as real
  {
    if x >= 0.0 then x.Floor else -((-x).Floor)
  }

  function StringOf(v: Json): string {
    if v.JString? then v.str else ""
  }

  function RealOf(v: Json): real {
    if v.JNumber? then v.n else 0.0
  }

  function IntOf(v: Json): int {
    if v.JNumber? then TruncateToInt(v.n) else 0
  }

  function BoolOf(v: Json): bool {
    v.JBool? && v.b
  }

  /** A typed string read: whether the field was there, and the value or `fallback`. */
  function ReadString(j: Json, key: string, fallback: string): (r: (bool, string))
    ensures r.0 <==> HasField(j, key)
    ensures !r.0 ==> r.1 == fallback
  {
    match GetField(j, key)
    case Some(v) => (true, StringOf(v))
    case None => (false, fallback)
  }

  function ReadReal(j: Json, key: string, fallback: real): (r: (bool, real))
    ensures r.0 <==> HasField(j, key)
    ensures !r.0 ==> r.1 == fallback
  {
    match GetField(j, key)
    case Some(v) => (true, RealOf(v))
    case None => (false, fallback)
  }

  function ReadInt(j: Json, key: string, fallback: int): (r: (bool, int))
    ensures r.0 <==> HasField(j, key)
    ensures !r.0 ==> r.1 == fallback
  {
    match GetField(j, key)
    case Some(v) => (true, IntOf(v))
    case None => (false, fallback)
  }

  function ReadBool(j: Json, key: string, fallback: bool): (r: (bool, bool))
    ensures r.0 <==> HasField(j, key)
    ensures !r.0 ==> r.1 == fallback
  {
    match GetField(j, key)
    case Some(v) => (true, BoolOf(v))
    case None => (false, fallback)
  }

  /** The elements of a container: an array's items, an object's values, nothing otherwise. */
  function Elements(j: Json): (r: seq<Json>)
    ensures j.JArray? ==> r == j.items
    ensures j.JObject? ==> |r| == |j.fields| && forall k :: 0 <= k < |r| ==> r[k] == j.fields[k].1
    ensures !j.JArray? && !j.JObject? ==> r == []
  {
    match j
    case JArray(items) => items
    case JObject(fields) => seq(|fields|, k requires 0 <= k < |fields| => fields[k].1)
    case _ => []
  }

  /** An object with distinct keys reads back each field it was built from. */
  lemma {:induction false} GetFieldOfDistinctKeys(fields: seq<(string, Json)>, k: nat)
    requires k < |fields|
    requires forall a, b :: 0 <= a < b < |fields| ==> fields[a].0 != fields[b].0
    ensures GetField(JObject(fields), fields[k].0) == Some(fields[k].1)
  {
    var i := IndexOfKey(fields, fields[k].0);
    assert !(i < k);
    assert i == k;
  }
}
