/**
 * JavaScript values as the backend sees them in request bodies and in the
 * stored settings object, with the coercions the code relies on:
 * truthiness, `String(v)`, `v !== false`, `v === true`, `v || ''` and
 * `Math.floor(a / b)`.  Numbers are restricted to integers.
 */
module Js {
  import opened Strings

  datatype Option<+T> = None | Some(value: T) {
    function GetOr(default: T): T {
      match this
      case Some(v) => v
      case None => default
    }
  }

  /** A JSON value without objects; numbers are integers. */
  datatype JsVal =
    | Undefined
    | Null
    | Bool(b: bool)
    | Num(n: int)
    | Str(s: string)
    | Arr(items: seq<JsVal>)

  /** A JavaScript object, such as `db.telegramSettings` or a request body. */
  type JsObject = map<string, JsVal>

  /** Property access: a missing key reads as `undefined`. */
  function Get(obj: JsObject, key: string): (v: JsVal)
    ensures key !in obj ==> v == Undefined
    ensures key in obj ==> v == obj[key]
  {
    if key in obj then obj[key] else Undefined
  }

  predicate Truthy(v: JsVal) {
    match v
    case Undefined => false
    case Null => false
    case Bool(b) => b
    case Num(n) => n != 0
    case Str(s) => s != ""
    case Arr(_) => true
  }

  /** `v == null` (loose equality holds exactly for null and undefined). */
  predicate IsNullish(v: JsVal) {
    v.Undefined? || v.Null?
  }

  /** `v !== false`: every value except the boolean false. */
  predicate NotFalse(v: JsVal) {
    v != Bool(false)
  }

  /** `v === true`. */
  predicate IsTrue(v: JsVal) {
    v == Bool(true)
  }

  /** `v || ''`. */
  function OrEmpty(v: JsVal): (r: JsVal)
    ensures Truthy(v) ==> r == v
    ensures !Truthy(v) ==> r == Str("")
  {
    if Truthy(v) then v else Str("")
  }

  /** `String(v)`; an array joins its elements with commas, null and undefined elements as ''. */
  function ToStr(v: JsVal): (r: string)
    ensures v.Str? ==> r == v.s
  {
    match v
    case Undefined => "undefined"
    case Null => "null"
    case Bool(b) => if b then "true" else "false"
    case Num(n) => IntToStr(n)
    case Str(s) => s
    case Arr(items) => JoinItems(items)
  }

  function JoinItems(items: seq<JsVal>): string
    decreases items, 0
  {
    if items == [] then ""
    else
      var head := if IsNullish(items[0]) then "" else ToStr(items[0]);
      if |items| == 1 then head else head + "," + JoinItems(items[1..])
  }

  /** `(v || '')` read as text, for fields the code only ever stores as strings. */
  function TextOr(v: JsVal): (r: string)
    ensures v.Str? ==> r == v.s
    ensures !v.Str? ==> r == ""
  {
    if v.Str? then v.s else ""
  }

  /** `Math.floor(a / b)` for integers; Dafny's `/` is Euclidean and differs when `b < 0`. */
  function FloorDiv(a: int, b: int): int
    requires b != 0
  {
    if b > 0 then a / b else (-a) / (-b)
  }

  /** The quotient rounds toward minus infinity for either sign of the divisor. */
  lemma FloorDivBounds(a: int, b: int)
    requires b != 0
    ensures var q := FloorDiv(a, b);
      (b > 0 ==> b * q <= a < b * q + b) && (b < 0 ==> b * q >= a > b * q + b)
  {
    if b < 0 {
      var q := (-a) / (-b);
      assert (-b) * q <= -a < (-b) * q + (-b);
    }
  }

  /** `Math.max(0, x)`. */
  function Max0(x: int): (r: int)
    ensures r >= 0 && r >= x && (r == 0 || r == x)
  {
    if x > 0 then x else 0
  }

  function Min(a: int, b: int): (r: int)
    ensures r <= a && r <= b && (r == a || r == b)
  {
    if a <= b then a else b
  }
}
