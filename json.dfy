/**
 * Request bodies as the handlers see them after `JSON.parse`, and the
 * JavaScript truthiness test the handlers apply to them.
 */
module Json {

  /** A parsed JSON value. Object members are a map: a repeated member name keeps its last value. */
  datatype Json =
    | JNull
    | JBool(b: bool)
    | JNum(n: real)
    | JStr(s: string)
    | JArr(elems: seq<Json>)
    | JObj(members: map<string, Json>)

  /**
   * The request body after `event.body ? JSON.parse(event.body) : undefined`.
   * Absent: `event.body` was missing or the empty string, so nothing was parsed.
   * Malformed: `JSON.parse` threw, with this message.
   * Parsed: `JSON.parse` returned this value.
   */
  datatype Body = Absent | Malformed(message: string) | Parsed(value: Json)

  /** JavaScript's ToBoolean on a parsed JSON value: null, false, 0 and "" are falsy. */
  predicate Truthy(v: Json): (t: bool)
    ensures !t <==> v == JNull || v == JBool(false) || v == JNum(0.0) || v == JStr("")
  {
    match v
    case JNull => false
    case JBool(b) => b
    case JNum(n) => n != 0.0
    case JStr(s) => s != ""
    case _ => true
  }

  /** `!body` is false: the body was parsed and is a truthy value. */
  predicate Present(body: Body) {
    body.Parsed? && Truthy(body.value)
  }

}
