/**
 * The parsed parameter file: the tree of mappings, lists and scalars that a
 * YAML loader hands to the defaults classes and to the consistency checker,
 * together with the errors those components can end in.
 */
module Schema {

  /** One node of the parsed YAML document. */
  datatype Value =
    | Text(s: string)
    | Int(i: int)
    | Bool(b: bool)
    | Real(literal: string)  // a floating-point scalar, carried as the text Python prints for it
    | Null
    | List(items: seq<Value>)
    | Dict(d: Mapping)

  /**
   * A YAML mapping. `keys` lists the keys in the order in which the mapping
   * yields them when iterated; `entries` gives the value under each key.
   */
  datatype Mapping = Mapping(keys: seq<string>, entries: map<string, Value>)

  /** How a run of the Python code ends when it does not return normally. */
  datatype Error =
    | Abort(msg: string)   // the program's own abort: sys.exit with a message
    | KeyError(key: string)
    | TypeError
    | AttributeError
    | IndexError

  datatype Result<+T> = Ok(value: T) | Err(error: Error) {
    predicate IsFailure() { Err? }
    function PropagateFailure<U>(): Result<U>
      requires Err?
    {
      Err(error)
    }
    function Extract(): (r: T)
      requires Ok?
    {
      value
    }
  }

  /** The outcome of a check that either passes or stops with an error. */
  datatype Outcome = Pass | Fail(error: Error)

  /** Python's `m[k]` on a mapping. */
  function Lookup(m: Mapping, k: string): (r: Result<Value>)
    ensures r.Ok? <==> k in m.entries
    ensures r.Ok? ==> r.value == m.entries[k]
    ensures r.Err? ==> r.error == KeyError(k)
  {
    if k in m.entries then Ok(m.entries[k]) else Err(KeyError(k))
  }

  /** Python's `v[k]` with a string subscript: only a mapping accepts one. */
  function Subscript(v: Value, k: string): (r: Result<Value>)
    ensures r.Ok? <==> v.Dict? && k in v.d.entries
    ensures r.Ok? ==> r.value == v.d.entries[k]
  {
    match v
    case Dict(m) => Lookup(m, k)
    case _ => Err(TypeError)
  }

  /** Python's `str(v)`, which is also what `"%s" % v` inserts. */
  function Str(v: Value): (r: string)
  {
    match v
    case Text(s) => s
    case _ => Repr(v)
  }

  /** Python's `repr(v)`; strings are shown in single quotes, without escaping. */
  function Repr(v: Value): (r: string)
    decreases v, 1
  {
    match v
    case Text(s) => "'" + s + "'"
    case Int(i) => IntToString(i)
    case Bool(b) => if b then "True" else "False"
    case Real(literal) => literal
    case Null => "None"
    case List(items) => "[" + ReprItems(items, 0) + "]"
    case Dict(m) => "{" + ReprEntries(m, 0) + "}"
  }

  function ReprItems(items: seq<Value>, i: nat): (r: string)
    requires i <= |items|
    decreases items, 0, |items| - i
  {
    if i == |items| then ""
    else (if i == 0 then "" else ", ") + Repr(items[i]) + ReprItems(items, i + 1)
  }

  function ReprEntries(m: Mapping, i: nat): (r: string)
    requires i <= |m.keys|
    decreases m, 0, |m.keys| - i
  {
    if i == |m.keys| then ""
    else
      var k := m.keys[i];
      (if i == 0 then "" else ", ") + "'" + k + "': "
      + (if k in m.entries then Repr(m.entries[k]) else "")
      + ReprEntries(m, i + 1)
  }

  function IntToString(i: int): (r: string)
  {
    if i < 0 then "-" + NatToString(-i) else NatToString(i)
  }

  function NatToString(n: nat): (r: string)
    decreases n
  {
    if n < 10 then ["0123456789"[n]] else NatToString(n / 10) + ["0123456789"[n % 10]]
  }
}
