/** The part of Jackson's JsonNode tree the core reads and writes. Parsing
    and printing JSON text are not part of this model. */
module JsonValues {
  import opened Common

  datatype Json =
    | JNull
    | JBool(b: bool)
    | JNum(n: int)
    | JStr(s: string)
    | JArr(items: seq<Json>)
    | JObj(fields: map<string, Json>)

  /** JsonNode.get(field): the field's value, or Java null when the node is
      not an object or has no such field (a JSON null is a present JNull). */
  function Get(j: Json, key: string): (r: Option<Json>)
    ensures r.Some? <==> j.JObj? && key in j.fields
    ensures r.Some? ==> r.value == j.fields[key]
  {
    if j.JObj? && key in j.fields then Some(j.fields[key]) else None
  }

  /** JsonNode.has(field). */
  predicate Has(j: Json, key: string)
  {
    Get(j, key).Some?
  }

  /** JsonNode.asText(): the text of a string node, the literal of a scalar,
      "null" for a JSON null and "" for a container. */
  function AsText(j: Json): string
  {
    match j
    case JNull => "null"
    case JBool(b) => if b then "true" else "false"
    case JNum(n) => IntToString(n)
    case JStr(s) => s
    case JArr(_) => ""
    case JObj(_) => ""
  }

  /** ObjectNode.put(field, String): a Java null value is stored as a JSON null. */
  function TextOrNull(s: Option<string>): (r: Json)
    ensures s.Some? ==> r == JStr(s.value)
    ensures s.None? ==> r == JNull
  {
    match s
    case Some(t) => JStr(t)
    case None => JNull
  }

  /** ObjectNode.set(field, node): a Java null node is stored as a JSON null. */
  function NodeOrNull(j: Option<Json>): (r: Json)
    ensures j.Some? ==> r == j.value
    ensures j.None? ==> r == JNull
  {
    match j
    case Some(v) => v
    case None => JNull
  }
}
