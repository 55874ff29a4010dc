/** The primitive JSON values a catalogue record's fields hold, with the
    JavaScript operators the scripts apply to them: `===`, truthiness,
    `??`, `||`, `Number(...)` and `String(...)`. Strict equality of two
    primitives is Dafny equality of `Prim` values (JSON has no NaN). */
module JsValue {
  import opened Options
  import JsNumber

  /** A field's value; an absent field reads as `Undefined`. */
  datatype Prim = Undefined | Null | Bool(b: bool) | Num(x: real) | Str(s: string)

  /** `v == null` (loose): null or undefined. */
  predicate IsNullish(v: Prim) {
    v.Undefined? || v.Null?
  }

  /** `Boolean(v)`. */
  predicate Truthy(v: Prim) {
    match v
    case Undefined => false
    case Null => false
    case Bool(b) => b
    case Num(x) => x != 0.0
    case Str(s) => s != ""
  }

  /** `a ?? b`. */
  function Coalesce(a: Prim, b: Prim): Prim {
    if IsNullish(a) then b else a
  }

  /** `a || b`. */
  function Or(a: Prim, b: Prim): Prim {
    if Truthy(a) then a else b
  }

  /** `Number(v)`. */
  function ToNumber(v: Prim): JsNumber.Number {
    match v
    case Undefined => JsNumber.NaN
    case Null => JsNumber.Finite(0.0)
    case Bool(b) => JsNumber.Finite(if b then 1.0 else 0.0)
    case Num(x) => JsNumber.Finite(x)
    case Str(s) => JsNumber.StringToNumber(s)
  }

  /** `String(v)`. */
  function ToString(v: Prim): string {
    match v
    case Undefined => "undefined"
    case Null => "null"
    case Bool(b) => if b then "true" else "false"
    case Num(x) => JsNumber.NumberToString(x)
    case Str(s) => s
  }

  /** `firstNumber` of both scripts: `Number(v)` when it is finite, else null. */
  function FirstNumber(v: Prim): (r: Option<real>)
    ensures v.Num? ==> r == Some(v.x)
    ensures IsNullish(v) ==> (r.None? <==> v.Undefined?)
  {
    var n := ToNumber(v);
    if n.IsFinite() then Some(n.x) else None
  }
}
