/** The JSON values json-simple produces: JSONObject is a HashMap, JSONArray a list, integral
    numbers are Long and the others Double. */
module Json {

  /** A Java Double; the model never computes with it. */
  type Double(==)

  datatype Json =
    | JNull
    | JBool(b: bool)
    | JLong(n: int)
    | JDouble(d: Double)
    | JString(s: string)
    | JArray(items: seq<Json>)
    | JObject(members: map<string, Json>)

  /** JSONObject.get: the value stored under key, or null when there is none. */
  function Get(members: map<string, Json>, key: string): (v: Json)
    ensures key in members ==> v == members[key]
    ensures key !in members ==> v == JNull
  {
    if key in members then members[key] else JNull
  }

  /** One step of a path into a document: a member name or an array position. */
  datatype Step = Key(name: string) | Index(i: nat)

  /** The value at path in j, or null when the path leads nowhere. */
  function At(j: Json, path: seq<Step>): Json
    decreases |path|
  {
    if path == [] then j
    else match (j, path[0])
      case (JObject(m), Key(k)) => At(Get(m, k), path[1..])
      case (JArray(items), Index(i)) => if i < |items| then At(items[i], path[1..]) else JNull
      case _ => JNull
  }
}
