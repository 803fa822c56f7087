/**
 * Small value types shared by every part of the model: optional values,
 * the outcome of a call into code outside the model (a provider SDK, a
 * scanner driver, a file dialog), and the JSON values a server may answer.
 */
module Base {

  /** Python's `None`-or-value and JavaScript's `null`-or-value. */
  datatype Option<+T> = None | Some(value: T)

  /**
   * What a call into an external collaborator produced: either a value,
   * or an exception carrying its message. The model never looks inside
   * the collaborator; it only decides what the caller does with each case.
   */
  datatype Reply<+T> = Ok(value: T) | Raised(message: string)

  /** A decoded JSON document, as `response.json()` or axios would return it. */
  datatype Json =
    | JNull
    | JBool(b: bool)
    | JNumber(n: int)
    | JString(s: string)
    | JArray(items: seq<Json>)
    | JObject(fields: map<string, Json>)

  /** Python truthiness of an optional string: `None` and `""` are falsy. */
  predicate Truthy(s: Option<string>) {
    s.Some? && s.value != ""
  }

  /** JavaScript truthiness of a decoded JSON value (`null`, `false`, `0`, `""` are falsy). */
  predicate JsonTruthy(j: Json) {
    match j
    case JNull => false
    case JBool(b) => b
    case JNumber(n) => n != 0
    case JString(s) => s != ""
    case _ => true
  }
}
