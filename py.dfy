/** Python values and failures that the Heartbroken sources rely on: decoded JSON,
    the exceptions that can escape a call, truthiness and loose equality. */
module Py {

  datatype Option<+T> = None | Some(value: T)

  /** A decoded JSON document, as `json.loads` / `response.json()` produce it. */
  datatype Json =
    | JNull
    | JBool(b: bool)
    | JInt(i: int)
    | JStr(s: string)
    | JList(items: seq<Json>)
    | JDict(fields: map<string, Json>)

  /** The exceptions that can escape from the modelled code. */
  datatype Exc =
    | AttributeError     // `.get` or an attribute read on a value that lacks it
    | TypeError          // arithmetic, iteration or a call with the wrong kind or number of values
    | IndexError         // `xs[-1]` on an empty list
    | KeyError           // a missing key in a dictionary subscript
    | JsonDecodeError    // `response.json()` on a body that is not JSON
    | OperationalError   // an sqlite3 error other than IntegrityError
    | FileNotFoundError  // opening the credentials file when there is none
    | NoIdSpecified      // the plain Exception raised when every id is None

  /** The value a Python call returns, or the exception it raises. */
  datatype Result<+T> = Ok(value: T) | Raised(error: Exc)

  /** `bool(j)` */
  predicate Truthy(j: Json)
  {
    match j
    case JNull => false
    case JBool(b) => b
    case JInt(i) => i != 0
    case JStr(s) => s != ""
    case JList(xs) => xs != []
    case JDict(m) => m != map[]
  }

  /** `j == False` (a bool is an int in Python, so 0 is equal to False) */
  predicate EqualsFalse(j: Json)
  {
    j == JBool(false) || j == JInt(0)
  }

  /** `j == True` */
  predicate EqualsTrue(j: Json)
  {
    j == JBool(true) || j == JInt(1)
  }

  /** The integer a JSON value stands for in arithmetic, if it is a number. */
  function AsInt(j: Json): Option<int>
  {
    match j
    case JInt(i) => Some(i)
    case JBool(b) => Some(if b then 1 else 0)
    case _ => None
  }

  /** The text of a JSON string; any other value reads as None. */
  function AsText(j: Json): Option<string>
  {
    if j.JStr? then Some(j.s) else None
  }

  /** `d.get(key, default)` on a dictionary */
  function Get(m: map<string, Json>, key: string, default: Json): Json
  {
    if key in m then m[key] else default
  }

  /** 2xx status codes, the success range every HTTP check uses. */
  predicate Is2xx(status: int)
  {
    200 <= status < 300
  }
}
