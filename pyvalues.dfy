/** The Python values the modelled routines pass around in dicts (pydantic
    validator arguments, JSON records loaded from storage, split
    specifications), and Python's truth test on them. */
module PyValues {

  datatype PyValue =
    | PyNone
    | PyBool(b: bool)
    | PyInt(i: int)
    | PyStr(s: string)
    | PyList(items: seq<PyValue>)
    | PyDict(entries: map<string, PyValue>)
      /** A numpy array of the given elements. */
    | PyNdArray(elements: seq<PyValue>)
      /** A `pathlib.Path`, by its posix form. */
    | PyPath(posix: string)
      /** Any other object, with the outcome of `bool()` on it. */
    | PyObject(className: string, truthy: bool)

  /** `bool(v)`. */
  predicate Truthy(v: PyValue)
  {
    match v
    case PyNone => false
    case PyBool(b) => b
    case PyInt(i) => i != 0
    case PyStr(s) => |s| > 0
    case PyList(items) => |items| > 0
    case PyDict(entries) => |entries| > 0
    case PyNdArray(elements) => |elements| > 0
    case PyPath(_) => true
    case PyObject(_, t) => t
  }

  /** `d.get(key)`: `None` when the key is missing. */
  function Get(d: map<string, PyValue>, key: string): PyValue
  {
    if key in d then d[key] else PyNone
  }
}
