/**
 * JSON values as the client and the server exchange them, with the two
 * languages' notions of truthiness. Numbers are integers here; floating point
 * is not part of this model.
 */
module Json {
  import opened Wrappers

  datatype Value =
    | Null
    | Bool(b: bool)
    | Num(n: int)
    | Str(s: string)
    | Arr(items: seq<Value>)
    | Obj(fields: map<string, Value>)

  /** A JavaScript object or a decoded JSON dictionary. */
  type Object = map<string, Value>

  /** Property lookup; `None` is JavaScript's `undefined` (an absent key). */
  function Get(o: Object, key: string): Option<Value> {
    if key in o then Some(o[key]) else None
  }

  /** JavaScript ToBoolean on a JSON value: null, false, 0 and "" are falsy. */
  predicate JsTruthy(v: Value) {
    match v
    case Null => false
    case Bool(b) => b
    case Num(n) => n != 0
    case Str(s) => s != ""
    case Arr(_) => true
    case Obj(_) => true
  }

  /** JavaScript truthiness of a possibly-undefined property. */
  predicate JsTruthyOpt(v: Option<Value>) {
    v.Some? && JsTruthy(v.value)
  }

  /** Python truthiness of a decoded JSON value: empty lists and dicts are falsy too. */
  predicate PyTruthy(v: Value) {
    match v
    case Null => false
    case Bool(b) => b
    case Num(n) => n != 0
    case Str(s) => s != ""
    case Arr(items) => items != []
    case Obj(fields) => fields != map[]
  }

  /** JavaScript `a || b` where `a` may be undefined. */
  function JsOr(a: Option<Value>, b: Value): (r: Value)
    ensures JsTruthyOpt(a) ==> r == a.value
    ensures !JsTruthyOpt(a) ==> r == b
  {
    if JsTruthyOpt(a) then a.value else b
  }

  /** JavaScript `===` on two possibly-undefined primitive values. */
  predicate StrictEq(a: Option<Value>, b: Option<Value>) {
    a == b
  }

  /**
   * Python `isinstance(v, int)` on a decoded JSON value, yielding the integer.
   * `bool` is a subclass of `int` in Python, so `true`/`false` are 1/0.
   */
  function PyInt(v: Value): Option<int> {
    match v
    case Num(n) => Some(n)
    case Bool(b) => Some(if b then 1 else 0)
    case _ => None
  }
}
