/** A JSON document as a tree value. Objects keep their members in insertion
    order, as Jackson's `ObjectNode` does. */
module JsonTree {
  import opened Options

  datatype Json =
    | JNull
    | JBool(b: bool)
    | JNumber(n: int)
    | JString(s: string)
    | JArray(items: seq<Json>)
    | JObject(fields: Fields)

  /** The members of an object node, in insertion order. */
  type Fields = seq<(string, Json)>

  function Keys(fields: Fields): (ks: seq<string>)
    ensures |ks| == |fields|
    ensures forall i :: 0 <= i < |fields| ==> ks[i] == fields[i].0
  {
    if fields == [] then [] else [fields[0].0] + Keys(fields[1..])
  }

  /** The value stored under `key`, if any (`ObjectNode.get`). */
  function Lookup(fields: Fields, key: string): Option<Json>
  {
    if fields == [] then None
    else if fields[0].0 == key then Some(fields[0].1)
    else Lookup(fields[1..], key)
  }

  /** `node.get(key)` on any node: only an object node has members. */
  function Get(node: Json, key: string): Option<Json>
  {
    if node.JObject? then Lookup(node.fields, key) else None
  }

  /** The node reached by following `path` from `node`, key by key. */
  function At(node: Json, path: seq<string>): Option<Json>
    decreases |path|
  {
    if path == [] then Some(node)
    else
      match Get(node, path[0])
      case None => None
      case Some(child) => At(child, path[1..])
  }

  /** Following a path into an object: take the first key's member, then
      follow the rest of the path from there. */
  lemma AtObject(fields: Fields, path: seq<string>, child: Json)
    requires path != [] && Lookup(fields, path[0]) == Some(child)
    ensures At(JObject(fields), path) == At(child, path[1..])
  {
  }

  /** The member found for `key` is the first one carrying it. */
  lemma {:induction false} LookupAt(fields: Fields, key: string, i: nat)
    requires i < |fields| && fields[i].0 == key
    requires forall j :: 0 <= j < i ==> fields[j].0 != key
    ensures Lookup(fields, key) == Some(fields[i].1)
  {
    if i > 0 {
      LookupAt(fields[1..], key, i - 1);
    }
  }
}
