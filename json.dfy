/** The JSON values that configurations and operations are read from and
    written to. */
module Json {

  datatype Json =
    | JNull
    | JBool(b: bool)
    | JNumber(n: int)
    | JString(s: string)
    | JArray(elements: seq<Json>)
    | JObject(members: map<string, Json>)

  /** `obj.get(key)` on a JSON object: the member, or None when the key is absent. */
  function Get(members: map<string, Json>, key: string): (r: Json)
    ensures key !in members ==> r == JNull
    ensures key in members ==> r == members[key]
  {
    if key in members then members[key] else JNull
  }
}
