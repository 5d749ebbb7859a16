/** Python runtime values as far as the extraction pipeline inspects them:
    truthiness (`if data:`), `hasattr(result, 'data')`, `isinstance(result, dict)`,
    `dict.get` and the `str()` that an f-string applies. */
module Values {

  datatype Option<+T> = None | Some(value: T)

  datatype Result<+T, +E> = Ok(value: T) | Err(error: E)

  /** The exceptions that escape the core (those it does not absorb). */
  datatype Error =
    | KeyError(key: string)          // `SCHEMAS[doc_type]` for an unregistered doc type
    | AttributeError(attr: string)   // `.get` on a non-dict record, `.replace` on a non-str id

  /** A Python value. `text` is what Python's `str()` gives for a dict or an
      object; the model takes it as given instead of computing a repr. */
  datatype Value =
    | NoneValue                                     // None
    | Str(s: string)                                // str
    | Dict(fields: map<string, Value>, text: string)  // dict keyed by field name
    | Obj(data: Option<Value>, text: string)        // a plain object; `data` is its `data` attribute, if it has one
    | Other(text: string, truthy: bool)             // number, bool, list, ...: its str() and its truth value

  /** Python's truth value (`bool(v)`); plain objects define neither `__bool__` nor `__len__`. */
  predicate Truthy(v: Value) {
    match v
    case NoneValue => false
    case Str(s) => s != ""
    case Dict(fields, _) => |fields| > 0
    case Obj(_, _) => true
    case Other(_, truthy) => truthy
  }

  /** `str(v)`, as used when an f-string formats `v`. */
  function Text(v: Value): string {
    match v
    case NoneValue => "None"
    case Str(s) => s
    case Dict(_, text) => text
    case Obj(_, text) => text
    case Other(text, _) => text
  }

  /** `d.get(key, default)`: the entry when the key is present, whatever its value. */
  function Get(fields: map<string, Value>, key: string, default: Value): Value {
    if key in fields then fields[key] else default
  }
}
