/** Values shared by every handler: optional fields, request-body values with
    JavaScript truthiness, and HTTP replies. */
module Values {

  datatype Option<+T> = None | Some(value: T)

  /** A value as it arrives in a JSON request body. Numbers are integers here. */
  datatype JsValue =
    | Undefined
    | Null
    | Bool(b: bool)
    | Num(n: int)
    | Str(s: string)
    | Object(entries: seq<(string, JsValue)>)

  /** JavaScript truthiness, i.e. `Boolean(v)` and `!!v`. */
  function Truthy(v: JsValue): (t: bool)
    ensures !t <==> v == Undefined || v == Null || v == Bool(false) || v == Num(0) || v == Str("")
  {
    match v
    case Undefined => false
    case Null => false
    case Bool(b) => b
    case Num(n) => n != 0
    case Str(s) => s != ""
    case Object(_) => true
  }

  /** A string field that is truthy: given and not empty. */
  predicate Present(s: Option<string>) {
    s.Some? && s.value != ""
  }

  /** An HTTP response: a status with a value, or a status with a message. */
  datatype Reply<+T> = Ok(status: int, value: T) | Fail(status: int, message: string)
}
