/** Decoded JSON as the backend hands it to the dispatch engine, with the
    Python semantics the engine relies on: truthiness, `or`, `dict.get`, and
    the text an f-string shows for a value. Exceptions are a `Result`. */
module Values {
  import opened Text

  /** A JSON value. `Other` stands for the scalars the engine never inspects
      (booleans, floats, `None`): only their `str()` text and whether they
      are truthy matter. Lists and objects carry their `str()` text because
      the engine only ever shows them whole, never element by element. */
  datatype Value =
    | Str(s: string)
    | Int(i: int)
    | List(items: seq<Value>, shown: string)
    | Dict(fields: map<string, Value>, shown: string)
    | Other(shown: string, truthy: bool)

  type Record = map<string, Value>

  /** Python's `None`. */
  const Null: Value := Other("None", false)

  /** Python truthiness. */
  predicate Truthy(v: Value) {
    match v
    case Str(s) => s != []
    case Int(i) => i != 0
    case List(items, _) => items != []
    case Dict(fields, _) => fields != map[]
    case Other(_, t) => t
  }

  /** `a or b`: the first operand when it is truthy, else the second. */
  function Or(a: Value, b: Value): (r: Value)
    ensures Truthy(r) <==> Truthy(a) || Truthy(b)
    ensures Truthy(a) ==> r == a
  {
    if Truthy(a) then a else b
  }

  /** `d.get(k)` */
  function Get(d: Record, k: string): Value {
    if k in d then d[k] else Null
  }

  /** `d.get(k, default)` */
  function GetOr(d: Record, k: string, default: Value): Value {
    if k in d then d[k] else default
  }

  /** `str(v)`, as an f-string shows it. */
  function Shown(v: Value): string {
    match v
    case Str(s) => s
    case Int(i) => IntToString(i)
    case List(_, shown) => shown
    case Dict(_, shown) => shown
    case Other(shown, _) => shown
  }

  predicate IsStr(v: Value) {
    v.Str?
  }

  /** The exceptions the engine can raise or catch. `HttpError` is any failure
      of a `requests` call (connection, status, malformed URL); `OracleError`
      is whatever the undefined ledger helpers raise. */
  datatype Error = HttpError | ValueError | TypeError | AttributeError | KeyError | OracleError

  datatype Result<T> = Ok(value: T) | Raised(error: Error) {
    predicate IsFailure() {
      Raised?
    }

    function PropagateFailure<U>(): Result<U>
      requires IsFailure()
    {
      Raised(error)
    }

    function Extract(): T
      requires !IsFailure()
    {
      value
    }
  }

  datatype Option<T> = None | Some(value: T)

  /** Calling `.get` on a decoded JSON value: only an object has it. */
  function AsRecord(v: Value): (r: Result<Record>)
    ensures r.Ok? <==> v.Dict?
    ensures r.Raised? ==> r.error == AttributeError
    ensures v.Dict? ==> r == Ok(v.fields)
  {
    if v.Dict? then Ok(v.fields) else Raised(AttributeError)
  }
}
