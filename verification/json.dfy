/**
 This module gives the store an abstract JSON value: the request body it builds,
 the parsed response body it keeps as `result`, and the value thrown when a
 request fails. Only integral numbers are represented; nothing here depends on
 how values are printed, which the store delegates to `JSON.stringify`.
 */
module JsonValue {
  import opened Wrappers

  datatype Json =
    | JNull
    | JBool(b: bool)
    | JNumber(n: int)
    | JString(s: string)
    | JArray(items: seq<Json>)
    | JObject(fields: seq<(string, Json)>)

  /** The keys of an object's fields, in insertion order. */
  function Keys(fields: seq<(string, Json)>): (ks: seq<string>)
    ensures |ks| == |fields|
    ensures forall i :: 0 <= i < |fields| ==> ks[i] == fields[i].0
    decreases |fields|
  {
    if fields == [] then [] else [fields[0].0] + Keys(fields[1..])
  }

  /** The value stored under `key`: the first field with that key, if any. */
  function Lookup(fields: seq<(string, Json)>, key: string): (r: Option<Json>)
    ensures r.None? <==> key !in Keys(fields)
    ensures r.Some? ==> exists i :: 0 <= i < |fields| && fields[i] == (key, r.value)
    decreases |fields|
  {
    if fields == [] then None
    else if fields[0].0 == key then Some(fields[0].1)
    else
      var r := Lookup(fields[1..], key);
      assert r.Some? ==> exists i :: 0 <= i < |fields[1..]| && fields[1..][i] == (key, r.value);
      r
  }

  /** One step of `Lookup`: the head field answers for its own key only. */
  lemma LookupCons(f: (string, Json), rest: seq<(string, Json)>, key: string)
    ensures Lookup([f] + rest, key) == if f.0 == key then Some(f.1) else Lookup(rest, key)
  {
    assert ([f] + rest)[1..] == rest;
  }

  /** One step of `Keys`: the head field's key comes first. */
  lemma KeysCons(f: (string, Json), rest: seq<(string, Json)>)
    ensures Keys([f] + rest) == [f.0] + Keys(rest)
  {
    assert ([f] + rest)[1..] == rest;
  }
}
