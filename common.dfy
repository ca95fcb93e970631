/** Values shared by every part of the booking platform model: optional values,
    results carrying the error message the services throw, record identifiers,
    JSON values and the removal of one value from an ordered list. */
module Common {

  /** Identifiers of stored records (document ids) and of the hardcoded admin ("admin"). */
  type Id = string

  datatype Option<+T> = None | Some(value: T) {
    function GetOr(default: T): T {
      match this
      case Some(v) => v
      case None => default
    }
  }

  /** A service call either returns a value or throws an Error with a message. */
  datatype Result<+T> = Ok(value: T) | Err(error: string) {
    predicate IsFailure() {
      Err?
    }
    function PropagateFailure<U>(): Result<U>
      requires Err?
    {
      Err(error)
    }
    function Extract(): T
      requires Ok?
    {
      value
    }
  }

  /** A string argument passed the JavaScript truthiness test: present and not "". */
  predicate Supplied(s: Option<string>) {
    s.Some? && s.value != ""
  }

  /** The JSON values that the API puts in request bodies and responses. */
  datatype JsonValue = JNull | JBool(b: bool) | JNum(n: real) | JStr(s: string) | JStrList(items: seq<string>)

  /** JavaScript truthiness of a JSON value. */
  predicate Truthy(v: JsonValue) {
    match v
    case JNull => false
    case JBool(b) => b
    case JNum(n) => n != 0.0
    case JStr(s) => s != ""
    case JStrList(_) => true
  }

  /** A JSON object: field name to value. */
  type JsonObject = map<string, JsonValue>

  /** Every element of `xs` except those equal to `x`, in their original order
      (MongoDB's `$pull` of a value from an array). */
  function Without<T(==)>(xs: seq<T>, x: T): (r: seq<T>)
    ensures |r| <= |xs|
    ensures forall i :: 0 <= i < |r| ==> r[i] in xs && r[i] != x
    ensures forall i :: 0 <= i < |xs| && xs[i] != x ==> xs[i] in r
  {
    if xs == [] then []
    else if xs[0] == x then Without(xs[1..], x)
    else [xs[0]] + Without(xs[1..], x)
  }
}
