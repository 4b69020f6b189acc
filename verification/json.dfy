/** A decoded JSON value as Python's json module hands it over, and the
    Python operations app.py applies to such values: `d.get(k, default)` and
    `v[0]` (iteration lives with its one use, in the Crossref module). Each
    operation returns the exception it raises on
    a value of the wrong type, with CPython 3's message. */
module Json {
  import opened Wrappers
  import opened Py

  /** Numbers are kept as their literal text: they are only ever copied. */
  datatype Json =
    | Null
    | Bool(b: bool)
    | Number(literal: string)
    | Str(s: string)
    | Array(elems: seq<Json>)
    | Object(fields: map<string, Json>)

  /** A JSON number literal that Python decodes to a float */
  predicate IsFloatLiteral(literal: string) {
    '.' in literal || 'e' in literal || 'E' in literal
    || literal == "NaN" || literal == "Infinity" || literal == "-Infinity"
  }

  /** `type(v).__name__` */
  function TypeName(v: Json): string {
    match v
    case Null => "NoneType"
    case Bool(_) => "bool"
    case Number(n) => if IsFloatLiteral(n) then "float" else "int"
    case Str(_) => "str"
    case Array(_) => "list"
    case Object(_) => "dict"
  }

  function NoAttributeGet(v: Json): Raised {
    Raised(AttributeError, "'" + TypeName(v) + "' object has no attribute 'get'")
  }

  /** `v.get(key, default)`: only a dict has `.get` */
  function Get(v: Json, key: string, default: Json): (r: Result<Json, Raised>)
    ensures r.Failure? <==> !v.Object?
    ensures v.Object? && key in v.fields ==> r == Success(v.fields[key])
    ensures v.Object? && key !in v.fields ==> r == Success(default)
    ensures r.Failure? ==> r.error.kind == AttributeError
  {
    match v
    case Object(fields) => Success(if key in fields then fields[key] else default)
    case _ => Failure(NoAttributeGet(v))
  }

  /** `v[0]`. A list or string gives its first element (a string's is a
      one-character string); an empty one raises IndexError; a dict looks
      up the key 0, which no JSON object has; the rest are not subscriptable. */
  function First(v: Json): (r: Result<Json, Raised>)
    ensures v.Array? && |v.elems| > 0 ==> r == Success(v.elems[0])
    ensures v.Str? && |v.s| > 0 ==> r == Success(Str([v.s[0]]))
    ensures r.Success? <==> (v.Array? && |v.elems| > 0) || (v.Str? && |v.s| > 0)
    ensures v.Array? && |v.elems| == 0 ==> r == Failure(ListIndexOutOfRange)
    ensures v.Str? && |v.s| == 0 ==> r.Failure? && r.error.kind == IndexError
    ensures v.Object? ==> r == Failure(Raised(KeyError, "0"))
    ensures v.Null? || v.Bool? || v.Number? ==> r.Failure? && r.error.kind == TypeError
  {
    match v
    case Array(elems) => if |elems| > 0 then Success(elems[0]) else Failure(ListIndexOutOfRange)
    case Str(s) => if |s| > 0 then Success(Str([s[0]])) else Failure(Raised(IndexError, "string index out of range"))
    case Object(_) => Failure(Raised(KeyError, "0"))
    case _ => Failure(Raised(TypeError, "'" + TypeName(v) + "' object is not subscriptable"))
  }
}
