/** The slice of JavaScript's value semantics that the application's guards and
    defaults depend on: truthiness, `||`, property access, and the numeric
    conversions `parseFloat` and `Number`.  String-to-number parsing itself is
    foreign and is passed in as a function. */
module JsValues {

  /** A JavaScript number: a finite value or NaN (infinities are not modelled). */
  datatype Num = Finite(r: real) | NaN

  /** A JavaScript value as it reaches the application from JSON, a query string or a form. */
  datatype Value =
    | Undefined
    | Null
    | Bool(b: bool)
    | Number(n: Num)
    | Str(s: string)
    | Obj(fields: map<string, Value>)
    | Arr(items: seq<Value>)

  /** JavaScript truthiness: undefined, null, false, 0, NaN and "" are falsy. */
  predicate Truthy(v: Value)
  {
    match v
    case Undefined => false
    case Null => false
    case Bool(b) => b
    case Number(n) => n.Finite? && n.r != 0.0
    case Str(s) => s != ""
    case Obj(_) => true
    case Arr(_) => true
  }

  /** `a || b`: the first operand when it is truthy, otherwise the second. */
  function Or(a: Value, b: Value): (r: Value)
    ensures Truthy(a) ==> r == a
    ensures !Truthy(a) ==> r == b
    ensures Truthy(r) <==> Truthy(a) || Truthy(b)
  {
    if Truthy(a) then a else b
  }

  /** `a && b`: the first operand when it is falsy, otherwise the second. */
  function And(a: Value, b: Value): (r: Value)
    ensures !Truthy(a) ==> r == a
    ensures Truthy(a) ==> r == b
    ensures Truthy(r) <==> Truthy(a) && Truthy(b)
  {
    if Truthy(a) then b else a
  }

  /** Property read `v.key` on a value that is not null or undefined;
      a missing property, or a property of a primitive, reads as undefined. */
  function Get(v: Value, key: string): (r: Value)
    ensures v.Obj? && key in v.fields ==> r == v.fields[key]
    ensures !(v.Obj? && key in v.fields) ==> r == Undefined
  {
    if v.Obj? && key in v.fields then v.fields[key] else Undefined
  }

  /** A value that a property can be read from without a TypeError. */
  predicate NotNullish(v: Value)
  {
    !v.Undefined? && !v.Null?
  }

  /** `parseFloat(v)`: a number passes through, a string goes to the parser,
      and every other value (undefined, null, booleans, objects) gives NaN. */
  function ParseFloat(v: Value, parse: string -> Num): (r: Num)
    ensures v.Number? ==> r == v.n
    ensures v.Str? ==> r == parse(v.s)
    ensures !v.Number? && !v.Str? ==> r == NaN
  {
    match v
    case Number(n) => n
    case Str(s) => parse(s)
    case _ => NaN
  }

  /** `Number(v)` / the implicit conversion of `*`: like parseFloat on numbers
      and strings, but null and false give 0 and true gives 1. */
  function ToNumber(v: Value, parse: string -> Num): (r: Num)
    ensures v.Number? ==> r == v.n
    ensures v.Null? || v == Bool(false) ==> r == Finite(0.0)
    ensures v == Bool(true) ==> r == Finite(1.0)
  {
    match v
    case Number(n) => n
    case Str(s) => parse(s)
    case Null => Finite(0.0)
    case Bool(b) => if b then Finite(1.0) else Finite(0.0)
    case _ => NaN
  }

  /** `x * k` for a constant factor k. */
  function Times(x: Num, k: real): (r: Num)
    ensures r.NaN? <==> x.NaN?
    ensures x.Finite? ==> r.r == x.r * k
  {
    match x
    case Finite(v) => Finite(v * k)
    case NaN => NaN
  }

  /** `x > k` on numbers: every comparison with NaN is false. */
  predicate Greater(x: Num, k: real)
  {
    x.Finite? && x.r > k
  }
}
