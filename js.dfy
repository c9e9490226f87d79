/**
  The slice of JavaScript value semantics the gesture binder depends on:
  truthiness of option and callback values, plain-object property tables in
  enumeration order, and number arithmetic in which `undefined` and `NaN`
  behave alike (every arithmetic operator turns `undefined` into `NaN`).
 */
module Js {

  datatype Option<+T> = None | Some(value: T)

  datatype Result<+T, +E> = Success(value: T) | Failure(error: E)

  /** A JavaScript number restricted to integers. `NaN` also stands for
      `undefined`: both are falsy, both turn any sum or difference into `NaN`,
      and both make every `<` and `>` comparison false. */
  datatype Num = Finite(n: int) | NaN {

    function Plus(o: Num): Num {
      if Finite? && o.Finite? then Finite(n + o.n) else NaN
    }

    function Minus(o: Num): Num {
      if Finite? && o.Finite? then Finite(n - o.n) else NaN
    }

    /** `Math.abs` */
    function Abs(): Num {
      if NaN? then NaN else if n < 0 then Finite(-n) else Finite(n)
    }

    /** `this < o`, false as soon as either side is `NaN` */
    predicate Less(o: Num) {
      Finite? && o.Finite? && n < o.n
    }

    /** `this > o`, false as soon as either side is `NaN` */
    predicate Greater(o: Num) {
      Finite? && o.Finite? && n > o.n
    }

    /** `this` is no larger than `o` in the order that puts `NaN` on top:
        the order in which a running total of absolute values only grows. */
    predicate AtMost(o: Num) {
      o.NaN? || (Finite? && n <= o.n)
    }

    /** Not negative, or `NaN` */
    predicate NonNegative() {
      NaN? || n >= 0
    }
  }

  /** The values a caller can pass as an option or as a callback. Objects and
      functions are identified by an opaque number. */
  datatype JsValue =
    | Undefined
    | Null
    | Bool(b: bool)
    | Number(num: Num)
    | Str(s: string)
    | Function(fid: nat)
    | Object(oid: nat)

  predicate Truthy(v: JsValue) {
    match v
    case Undefined => false
    case Null => false
    case Bool(b) => b
    case Number(num) => num.Finite? && num.n != 0
    case Str(s) => s != ""
    case Function(_) => true
    case Object(_) => true
  }

  /** The own enumerable properties of a plain object, in `for … in` order. */
  type Table = seq<(string, JsValue)>

  function Keys(t: Table): (ks: seq<string>)
    ensures |ks| == |t|
    ensures forall i | 0 <= i < |t| :: ks[i] == t[i].0
  {
    if t == [] then [] else [t[0].0] + Keys(t[1..])
  }

  /** Property lookup `t[key]`: the value of the first property of that name,
      `undefined` when there is none. */
  function Get(t: Table, key: string): (v: JsValue)
    ensures (forall i | 0 <= i < |t| :: t[i].0 != key) ==> v == Undefined
    ensures v != Undefined ==> exists i | 0 <= i < |t| :: t[i] == (key, v)
  {
    if t == [] then Undefined
    else if t[0].0 == key then t[0].1
    else Get(t[1..], key)
  }
}
