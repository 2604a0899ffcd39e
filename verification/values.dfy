/**
 * Python-level values shared by every component of the travel assistant:
 * optional results, the outcome of a call into code outside the model
 * (which may raise), and the dynamically typed values that travel through
 * JSON bodies, task records and the Streamlit session.
 */
module Values {

  /** The conventional Some/None datatype. */
  datatype Option<+T> = None | Some(value: T) {
    function GetOr(default: T): T {
      match this
      case Some(v) => v
      case None => default
    }
  }

  /** A computation that either succeeds or reports an error of type `E`. */
  datatype Result<+T, +E> = Ok(value: T) | Err(error: E)

  /**
   * The outcome of calling a collaborator the model does not look inside
   * (a browser scrape, an LLM call, an HTTP request): it either returns a
   * value or raises an exception whose `str(e)` is `message`.
   */
  datatype Step<+T> = Returned(value: T) | Raised(message: string)

  /**
   * A Python value as it appears in a JSON body, a task record or the
   * session state. `Null` is Python's `None`; `Object` stands for any other
   * object (a `datetime`, a Pydantic model, an assistant instance), which
   * Python treats as truthy.
   */
  datatype Value =
    | Null
    | Bool(b: bool)
    | Int(i: int)
    | Str(s: string)
    | List(items: seq<Value>)
    | Dict(entries: map<string, Value>)
    | Object(tag: string)

  /** Python truthiness: `None`, `False`, `0` and empty containers are falsy. */
  predicate Truthy(v: Value) {
    match v
    case Null => false
    case Bool(b) => b
    case Int(i) => i != 0
    case Str(s) => s != ""
    case List(items) => |items| > 0
    case Dict(entries) => |entries| > 0
    case Object(_) => true
  }

  /** `d.get(key, default)` on a Python dict. */
  function Get(d: map<string, Value>, key: string, default: Value): Value {
    if key in d then d[key] else default
  }
}
