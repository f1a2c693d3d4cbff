/** The parsed JSON request body, and the few Python operations the chat
    handler applies to it: truth value, `type(v).__name__`, `dict.get`, and
    the chained comparison `0 < v <= hi` with its `TypeError`. */
module Json {
  import opened Outcomes

  /** A value produced by Python's `json` module. JSON integers become `int`
      and JSON reals `float`; `JFloat` holds the exact value of the parsed
      double. */
  datatype JsonValue =
    | JNull
    | JBool(b: bool)
    | JInt(i: int)
    | JFloat(x: real)
    | JString(s: string)
    | JArray(items: seq<JsonValue>)
    | JObject(fields: map<string, JsonValue>)

  /** Python's `bool(v)`. */
  predicate Truthy(v: JsonValue) {
    match v
    case JNull => false
    case JBool(b) => b
    case JInt(i) => i != 0
    case JFloat(x) => x != 0.0
    case JString(s) => s != []
    case JArray(items) => items != []
    case JObject(fields) => fields != map[]
  }

  /** The values Python treats as false: `None`, `False`, zero, and the empty
      string, list and dict. Every other value is true. */
  lemma FalsyValues(v: JsonValue)
    ensures !Truthy(v) <==> v in {JNull, JBool(false), JInt(0), JFloat(0.0), JString([]), JArray([]), JObject(map[])}
  {
  }

  /** `type(v).__name__`, as it appears in the text of a `TypeError`. */
  function TypeName(v: JsonValue): string {
    match v
    case JNull => "NoneType"
    case JBool(_) => "bool"
    case JInt(_) => "int"
    case JFloat(_) => "float"
    case JString(_) => "str"
    case JArray(_) => "list"
    case JObject(_) => "dict"
  }

  /** The number Python compares when `v` is an operand of `<` against an
      `int`: ints and floats by value, and `bool`, a subclass of `int`, as 0
      or 1. Every other type has no ordering against `int`. */
  function NumericValue(v: JsonValue): (n: Option<real>)
    ensures n.Some? <==> (v.JBool? || v.JInt? || v.JFloat?)
    ensures v.JBool? ==> n == Some(if v.b then 1.0 else 0.0)
    ensures v.JInt? ==> n == Some(v.i as real)
    ensures v.JFloat? ==> n == Some(v.x)
  {
    match v
    case JBool(b) => Some(if b then 1.0 else 0.0)
    case JInt(i) => Some(i as real)
    case JFloat(x) => Some(x)
    case _ => None
  }

  /** `fields.get(key, default)`. */
  function Get(fields: map<string, JsonValue>, key: string, default: JsonValue): (v: JsonValue)
    ensures key in fields ==> v == fields[key]
    ensures key !in fields ==> v == default
  {
    if key in fields then fields[key] else default
  }

  /** `str(e)` of the `TypeError` raised by `0 < v` for a non-numeric `v`. */
  function NotOrderable(v: JsonValue): string {
    "'<' not supported between instances of 'int' and '" + TypeName(v) + "'"
  }

  /** `str(e)` of the `TypeError` raised by `'message' in v` for a number or bool `v`. */
  function NotIterable(v: JsonValue): string {
    "argument of type '" + TypeName(v) + "' is not iterable"
  }

  /** What evaluating a Python comparison does: it holds, it fails, or it
      raises a `TypeError` with the given text. */
  datatype Comparison = Holds | Fails | Raises(message: string)

  /** Python's `0 < v <= hi`. The left comparison is evaluated first and
      raises for any non-numeric `v`; when it is false the right one is
      never evaluated. */
  function BetweenZeroAnd(v: JsonValue, hi: real): (c: Comparison)
    ensures c == Holds <==> NumericValue(v).Some? && 0.0 < NumericValue(v).value <= hi
    ensures c == Fails <==> NumericValue(v).Some? && !(0.0 < NumericValue(v).value <= hi)
    ensures c.Raises? <==> NumericValue(v).None?
    ensures c.Raises? ==> c.message == NotOrderable(v)
  {
    match NumericValue(v)
    case None => Raises(NotOrderable(v))
    case Some(n) => if !(0.0 < n) then Fails else if n <= hi then Holds else Fails
  }
}
