/** JavaScript values as the client's expressions produce them: truthiness,
    the short-circuit operators `&&` and `||`, the text a template literal
    gives a value, and the text React renders for a value placed as a child. */
module JsValues {
  import opened JsString

  /** A property of a parsed JSON object: missing (`undefined`), `null`, or
      holding a value. */
  datatype Field<+T> = Missing | JsonNull | Present(value: T)

  /** The values the client's expressions yield. `Obj` stands for an object:
      a parsed JSON object, or a JSX element, shown by the text it renders.
      Floating-point numbers are not modelled: a number is an integer. */
  datatype JsValue =
    | Undefined
    | Null
    | Bool(b: bool)
    | Num(n: int)
    | Str(s: string)
    | Obj(text: string)

  /** JavaScript truthiness: `undefined`, `null`, `false`, `0` and `""` are
      falsy, everything else (every element and object) is truthy. */
  predicate Truthy(v: JsValue) {
    match v
    case Undefined => false
    case Null => false
    case Bool(b) => b
    case Num(n) => n != 0
    case Str(s) => s != ""
    case Obj(_) => true
  }

  /** `a && b`: yields `b` when `a` is truthy, otherwise `a` itself. */
  function And(a: JsValue, b: JsValue): (r: JsValue)
    ensures Truthy(r) <==> Truthy(a) && Truthy(b)
    ensures Truthy(a) ==> r == b
    ensures !Truthy(a) ==> r == a
  {
    if Truthy(a) then b else a
  }

  /** `a || b`: yields `a` when `a` is truthy, otherwise `b`. */
  function Or(a: JsValue, b: JsValue): (r: JsValue)
    ensures Truthy(r) <==> Truthy(a) || Truthy(b)
    ensures Truthy(a) ==> r == a
    ensures !Truthy(a) ==> r == b
  {
    if Truthy(a) then a else b
  }

  /** `${v}` in a template literal, i.e. `String(v)`. */
  function ToText(v: JsValue): string
  {
    match v
    case Undefined => "undefined"
    case Null => "null"
    case Bool(b) => if b then "true" else "false"
    case Num(n) => IntToString(n)
    case Str(s) => s
    case Obj(_) => "[object Object]"
  }

  /** The text React renders for `{v}` as a child: `undefined`, `null` and
      booleans render nothing, numbers and strings render as text. */
  function ChildText(v: JsValue): string
  {
    match v
    case Undefined => ""
    case Null => ""
    case Bool(_) => ""
    case Num(n) => IntToString(n)
    case Str(s) => s
    case Obj(t) => t
  }

  /** A falsy value renders nothing, with one exception: the number `0`,
      which React renders as the text "0". */
  lemma FalsyChildText(v: JsValue)
    requires !Truthy(v)
    ensures ChildText(v) == "" <==> v != Num(0)
  {
  }

  /** The JavaScript value of a string-typed JSON property. */
  function OfString(f: Field<string>): JsValue
  {
    match f
    case Missing => Undefined
    case JsonNull => Null
    case Present(s) => Str(s)
  }

  /** The JavaScript value of a number-typed JSON property. */
  function OfNumber(f: Field<int>): JsValue
  {
    match f
    case Missing => Undefined
    case JsonNull => Null
    case Present(n) => Num(n)
  }
}
