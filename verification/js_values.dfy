/** The JavaScript values that reach the backend in request bodies and query
    strings, with the three coercions the code applies to them: truthiness
    (`if (x)`, `!x`, `x || y`), nullish coalescing (`x ?? y`) and
    string conversion (`String(x)`, template literals). Numbers are
    modelled as integers. */
module JsValues {
  import opened Base
  import opened Strings

  datatype JsVal = Undefined | Null | Str(s: string) | Num(n: int) | Bool(b: bool)

  /** JavaScript truthiness: `undefined`, `null`, `""`, `0` and `false` are falsy. */
  predicate Truthy(v: JsVal) {
    match v
    case Undefined => false
    case Null => false
    case Str(s) => |s| > 0
    case Num(n) => n != 0
    case Bool(b) => b
  }

  predicate IsNullish(v: JsVal) {
    v.Undefined? || v.Null?
  }

  /** `a ?? b`: the right operand is used only when the left is `null` or `undefined`. */
  function Coalesce(a: JsVal, b: JsVal): (r: JsVal)
    ensures !IsNullish(a) ==> r == a
    ensures IsNullish(a) ==> r == b
  {
    if IsNullish(a) then b else a
  }

  /** `a || b`: the right operand is used whenever the left is falsy. */
  function Or(a: JsVal, b: JsVal): (r: JsVal)
    ensures Truthy(a) ==> r == a
    ensures !Truthy(a) ==> r == b
  {
    if Truthy(a) then a else b
  }

  /** `String(v)`. The empty string is produced only by the empty string. */
  function ToStr(v: JsVal): (r: string)
    ensures |r| == 0 <==> v == Str("")
    ensures v.Str? ==> r == v.s
    ensures v.Num? ==> r == Decimal(v.n)
    ensures v.Bool? ==> r == (if v.b then "true" else "false")
    ensures v.Null? ==> r == "null"
    ensures v.Undefined? ==> r == "undefined"
  {
    match v
    case Undefined => "undefined"
    case Null => "null"
    case Str(s) => s
    case Num(n) => Decimal(n)
    case Bool(b) => if b then "true" else "false"
  }

  /** A request field stored through a String-typed schema path: absent for
      `null`/`undefined`, otherwise cast with `String(v)`. */
  function ToField(v: JsVal): (r: Option<string>)
    ensures r.None? <==> IsNullish(v)
    ensures r.Some? ==> r.value == ToStr(v)
  {
    if IsNullish(v) then None else Some(ToStr(v))
  }

  /** Converting a truthy value to a string never yields the empty string. */
  lemma TruthyToStrNonEmpty(v: JsVal)
    requires Truthy(v)
    ensures |ToStr(v)| > 0
  {
  }
}
