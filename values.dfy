/**
 * Python values as they cross the client's boundary: JSON-shaped data (the
 * request parameters, response bodies, post records), Python truthiness,
 * `dict.get`, and the exceptions the client raises (piazza_api/exceptions.py
 * plus the built-in ones its code can raise).
 */
module Values {

  /** A JSON-shaped Python value. Objects are unordered maps: key order only
      matters to the serialised bytes, which this model does not produce. */
  datatype Value =
    | Null
    | Bool(b: bool)
    | Int(i: int)
    | Str(s: string)
    | List(items: seq<Value>)
    | Dict(fields: map<string, Value>)

  /** Python's `bool(v)`: None, False, 0, "", [] and {} are false. */
  predicate Truthy(v: Value)
    ensures !Truthy(v) <==> v == Null || v == Bool(false) || v == Int(0) || v == Str("")
                            || v == List([]) || v == Dict(map[])
  {
    match v
    case Null => false
    case Bool(b) => b
    case Int(i) => i != 0
    case Str(s) => s != ""
    case List(xs) => xs != []
    case Dict(m) => m != map[]
  }

  /** Python's `m.get(k, default)` on a dict: the value at `k`, or the
      default when absent (None for the one-argument `m.get(k)`). */
  function Get(m: map<string, Value>, k: string, default: Value): (r: Value)
    ensures k in m ==> r == m[k]
    ensures k !in m ==> r == default
  {
    if k in m then m[k] else default
  }

  /** The exceptions this model can raise. The first four are the library's
      own (piazza_api/exceptions.py, and the `assert` statements it uses for
      argument checks); the rest are Python built-ins its code runs into. */
  datatype Error =
    | RequestError(context: string, payload: Value)
    | AuthenticationError(message: string)
    | NotAuthenticatedError(message: string)
    | AssertionError
    | ValueError(message: string)
    | TypeError
    | KeyError(key: string)
    | IndexError
    | AttributeError(name: string)

  datatype Option<+T> = None | Some(value: T)

  datatype Result<+T> = Ok(value: T) | Err(error: Error)

  datatype Outcome = Pass | Fail(error: Error)

  /** The integer a number stands for: `bool` is a subclass of `int`, so
      False and True add as 0 and 1. */
  predicate IsNumber(v: Value) {
    v.Bool? || v.Int?
  }

  function AsInt(v: Value): (n: int)
    requires IsNumber(v)
    ensures v.Int? ==> n == v.i
    ensures v.Bool? ==> n == if v.b then 1 else 0
  {
    if v.Bool? then (if v.b then 1 else 0) else v.i
  }

  /** Python's `a + b` on two values: strings concatenate, lists
      concatenate, numbers (booleans among them) add to an integer, and
      anything else (for instance a string plus an integer) raises TypeError. */
  function PyAdd(a: Value, b: Value): (r: Result<Value>)
    ensures r.Ok? <==> (a.Str? && b.Str?) || (a.List? && b.List?) || (IsNumber(a) && IsNumber(b))
    ensures a.Str? && b.Str? ==> r == Ok(Str(a.s + b.s))
    ensures a.List? && b.List? ==> r == Ok(List(a.items + b.items))
    ensures IsNumber(a) && IsNumber(b) ==> r == Ok(Int(AsInt(a) + AsInt(b)))
    ensures r.Err? ==> r.error == TypeError
  {
    if a.Str? && b.Str? then Ok(Str(a.s + b.s))
    else if a.List? && b.List? then Ok(List(a.items + b.items))
    else if IsNumber(a) && IsNumber(b) then Ok(Int(AsInt(a) + AsInt(b)))
    else Err(TypeError)
  }
}
