/**
 * The Python values the mapper handles: what it stores in a record, binds
 * as a SQL argument or reads from a class declaration. Python decides
 * `if x:` by truthiness and renders `'%s' % x` with str(); both are written
 * out here because the mapper relies on them (the `__table__` override, a
 * Field's `name`, the `primary_key` flag, `where`, `orderBy`, the values
 * `getValueOrDefault` treats as missing).
 */
module PyValues {

  datatype Option<+T> = None | Some(value: T)

  /** The outcome of an operation that may raise. */
  datatype Result<+T> = Ok(value: T) | Err(error: Error)

  /** The exceptions the mapper raises, one constructor per raise site. */
  datatype Error =
    | DuplicatePrimaryKey(attr: string)  // registration: a second key Field
    | PrimaryKeyNotFound                 // registration: no key Field
    | InvalidLimit                       // findAll: a limit of the wrong shape (ValueError)
    | NoAttribute(key: string)           // Model.__getattr__ on an absent key (AttributeError)
    | KeyError(key: string)              // `__mappings__[key]` for an unmapped key
    | FilterHasNoDefault                 // `filter.default`: the builtin has no such attribute
    | MissingColumn(column: string)      // a fetched row without the `_num_` column

  /**
   * A Python object. Floats are carried by their repr (the mapper never
   * computes with them); callables and every other object by their str().
   */
  datatype Value =
    | VNone
    | VBool(b: bool)
    | VInt(i: int)
    | VFloat(repr: string)
    | VStr(s: string)
    | VCallable(text: string)
    | VObject(text: string, truthy: bool)

  /** Python's truth value. */
  predicate Truthy(v: Value) {
    match v
    case VNone => false
    case VBool(b) => b
    case VInt(i) => i != 0
    case VFloat(r) => r != "0.0" && r != "-0.0"
    case VStr(s) => s != ""
    case VCallable(_) => true
    case VObject(_, t) => t
  }

  /** `isinstance(v, int)`: bool is a subclass of int in Python. */
  predicate IsInt(v: Value) {
    v.VInt? || v.VBool?
  }

  function DigitChar(d: nat): char
    requires d < 10
  {
    "0123456789"[d]
  }

  /** The decimal digits of a natural number, most significant first. */
  function Decimal(n: nat): (r: string)
    ensures |r| > 0
    ensures forall k :: 0 <= k < |r| ==> '0' <= r[k] <= '9'
    decreases n
  {
    if n < 10 then [DigitChar(n)] else Decimal(n / 10) + [DigitChar(n % 10)]
  }

  /** Python's str(v). */
  function Str(v: Value): string {
    match v
    case VNone => "None"
    case VBool(b) => if b then "True" else "False"
    case VInt(i) => if i < 0 then "-" + Decimal(-i) else Decimal(i)
    case VFloat(r) => r
    case VStr(s) => s
    case VCallable(t) => t
    case VObject(t, _) => t
  }
}
