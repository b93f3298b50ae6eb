/** The Python values the Airflow DAGs and operators pass around: `None`,
    booleans, numbers, strings, lists and string-keyed dicts, with Python's
    truthiness and `dict.get`. */
module PyValues {
  import opened Wrappers
  import opened JavaText

  datatype PyValue =
    | PyNone
    | PyBool(b: bool)
    | PyInt(i: int)
    | PyFloat(f: real)
    | PyStr(s: string)
    | PyList(items: seq<PyValue>)
    | PyDict(entries: map<string, PyValue>)

  /** `bool(v)`: `None`, `False`, zero and empty containers are false. */
  predicate Truthy(v: PyValue) {
    match v
    case PyNone => false
    case PyBool(b) => b
    case PyInt(i) => i != 0
    case PyFloat(f) => f != 0.0
    case PyStr(s) => s != ""
    case PyList(items) => |items| > 0
    case PyDict(entries) => |entries| > 0
  }

  /** `type(v).__name__`. */
  function TypeName(v: PyValue): string {
    match v
    case PyNone => "NoneType"
    case PyBool(_) => "bool"
    case PyInt(_) => "int"
    case PyFloat(_) => "float"
    case PyStr(_) => "str"
    case PyList(_) => "list"
    case PyDict(_) => "dict"
  }

  /** `d.get(key, default)`. */
  function Get(d: map<string, PyValue>, key: string, default: PyValue): (v: PyValue)
    ensures key in d ==> v == d[key]
    ensures key !in d ==> v == default
  {
    if key in d then d[key] else default
  }

  /** An optional string argument as a Python value. */
  function FromOption(o: Option<string>): PyValue {
    if o.Some? then PyStr(o.value) else PyNone
  }

  /** An optional string argument that is neither `None` nor empty: the
      truthiness of `FromOption(o)`. */
  predicate Given(o: Option<string>) {
    o.Some? && o.value != ""
  }

  /** `str(v)` for the scalar values that reach an error message; a list,
      dict or float prints as a placeholder. */
  function Show(v: PyValue): string {
    match v
    case PyNone => "None"
    case PyBool(b) => if b then "True" else "False"
    case PyInt(i) => Signed(i)
    case PyStr(s) => s
    case _ => "<value>"
  }

  /** The message of the `AttributeError` raised when `name` is looked up
      on a value that lacks it. */
  function NoAttribute(v: PyValue, name: string): string {
    "'" + TypeName(v) + "' object has no attribute '" + name + "'"
  }
}
