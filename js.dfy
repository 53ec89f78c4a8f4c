/** The dynamically typed values that reach the backend: decoded JSON request
    bodies and Express query parameters (strings, arrays of them, nested
    objects), with JavaScript truthiness and the String() conversion. */
module Js {
  import opened Text

  /** A JavaScript value as decoded from a request.
      Integral numbers are `Num`; every finite non-integral number is
      `NonInteger`, given by the text String() renders for it (such as "1.5"). */
  datatype JsValue =
    | Undefined
    | Null
    | Bool(b: bool)
    | Num(n: int)
    | NonInteger(rendering: string)
    | Str(s: string)
    | Arr(items: seq<JsValue>)
    | Obj

  /** JavaScript truthiness (`!v` is its negation). */
  predicate Truthy(v: JsValue)
  {
    match v
    case Undefined => false
    case Null => false
    case Bool(b) => b
    case Num(n) => n != 0
    case NonInteger(_) => true
    case Str(s) => s != ""
    case Arr(_) => true
    case Obj => true
  }

  /** Decimal digits of a natural number, most significant first. */
  function Digits(n: nat): (r: string)
    ensures r != [] && AllDigits(r)
  {
    if n < 10 then [('0' as int + n) as char]
    else Digits(n / 10) + [('0' as int + n % 10) as char]
  }

  /** String(v). Arrays are rendered by Array.prototype.toString: their
      elements joined with ',', where null and undefined become ''. */
  function ToStr(v: JsValue): string
  {
    match v
    case Undefined => "undefined"
    case Null => "null"
    case Bool(b) => if b then "true" else "false"
    case Num(n) => if n < 0 then "-" + Digits(-n) else Digits(n)
    case NonInteger(r) => r
    case Str(s) => s
    case Arr(items) => Join(ElementStrings(items), ",")
    case Obj => "[object Object]"
  }

  function ElementStrings(items: seq<JsValue>): (r: seq<string>)
    ensures |r| == |items|
  {
    if items == [] then []
    else [if items[0].Undefined? || items[0].Null? then "" else ToStr(items[0])]
         + ElementStrings(items[1..])
  }
}
