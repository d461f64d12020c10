/** The Python values that the GPS code of main.py inspects, and the few
    built-in operations it applies to them (subscripting, `in`, `dict.get`,
    `float()`, division), each with the exceptions Python raises. */
module Python {

  datatype Option<+T> = None | Some(value: T)

  /** The outcome of a Python expression: a value, or an exception.  The
      GPS code never distinguishes one exception from another, so one
      constructor stands for all of them. */
  datatype Result<+T> = Ok(value: T) | Raise

  /** The shapes a decoded EXIF tag value can take. */
  datatype TagValue =
    | Tuple(items: seq<TagValue>)
    | Bytes(bytes: seq<bv8>)
    | Str(chars: string)
    | Int(i: int)
    | Float(f: real)
    | Dict(entries: map<int, TagValue>)
      /** Any other object, such as a PIL rational.  `asFloat` is what
          `float()` makes of it (None when `float()` raises).  Such an object
          is neither subscriptable nor iterable. */
    | Object(asFloat: Option<real>)

  /** The library functions the code calls but does not define: `float()`
      applied to a string, and `bytes.decode('utf-8')`.  Each yields None
      where Python raises (ValueError, UnicodeDecodeError). */
  datatype Builtins = Builtins(
    parseFloat: string -> Option<real>,
    decodeUtf8: seq<bv8> -> Option<string>)

  function FromOption<T>(o: Option<T>): (r: Result<T>)
    ensures r.Ok? <==> o.Some?
    ensures r.Ok? ==> r.value == o.value
  {
    match o
    case Some(x) => Ok(x)
    case None => Raise
  }

  /** `v[i]` for a non-negative integer `i`: IndexError past the end of a
      sequence, KeyError for a missing dict key, TypeError for a value
      that is not subscriptable. */
  function Subscript(v: TagValue, i: nat): Result<TagValue>
  {
    match v
    case Tuple(xs) => if i < |xs| then Ok(xs[i]) else Raise
    case Bytes(b) => if i < |b| then Ok(Int(b[i] as int)) else Raise
    case Str(s) => if i < |s| then Ok(Str([s[i]])) else Raise
    case Dict(m) => if i in m then Ok(m[i]) else Raise
    case _ => Raise
  }

  /** `k in v` for an integer `k`: a dict tests its keys, a tuple its
      elements (an int equals a float of the same value), bytes their
      byte values (ValueError for an int outside 0..255); strings and
      scalars raise TypeError. */
  function Contains(v: TagValue, k: int): Result<bool>
  {
    match v
    case Dict(m) => Ok(k in m)
    case Tuple(xs) => Ok(Int(k) in xs || Float(k as real) in xs)
    case Bytes(b) => if 0 <= k < 256 then Ok((k as bv8) in b) else Raise
    case _ => Raise
  }

  /** `v.get(k, default)`: only a dict has `get` (AttributeError otherwise). */
  function Get(v: TagValue, k: int, default: TagValue): Result<TagValue>
  {
    match v
    case Dict(m) => Ok(if k in m then m[k] else default)
    case _ => Raise
  }

  /** `float(v)`.  Bytes are read as UTF-8 text and then parsed. */
  function ToFloat(py: Builtins, v: TagValue): Result<real>
  {
    match v
    case Int(i) => Ok(i as real)
    case Float(f) => Ok(f)
    case Str(s) => FromOption(py.parseFloat(s))
    case Bytes(b) =>
      (match py.decodeUtf8(b)
       case Some(s) => FromOption(py.parseFloat(s))
       case None => Raise)
    case Object(f) => FromOption(f)
    case _ => Raise
  }

  /** `x / y` on floats: ZeroDivisionError when `y` is zero. */
  function Divide(x: real, y: real): (r: Result<real>)
    ensures r.Raise? <==> y == 0.0
    ensures r.Ok? ==> r.value * y == x
  {
    if y == 0.0 then Raise else Ok(x / y)
  }
}
