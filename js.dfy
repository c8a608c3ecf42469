/**
 * The JavaScript values the storefront's records hold, with the operators its
 * code applies to them: truthiness, `||`, `===`, conversion to a number and
 * the relational comparisons where one side is a number.
 */
module Js {
  import opened Wrappers
  import opened Strings

  /**
   * A property value. Numbers are integers (the storefront deals in whole pesos,
   * years and counts) plus NaN; Obj stands for any object or array.
   */
  datatype Value = Undefined | Null | Bool(b: bool) | Num(n: int) | NaN | Str(s: string) | Obj

  /** The values `if (v)` accepts. */
  predicate Truthy(v: Value)
  {
    match v
    case Undefined => false
    case Null => false
    case Bool(b) => b
    case Num(n) => n != 0
    case NaN => false
    case Str(s) => s != ""
    case Obj => true
  }

  /** `a || b`. */
  function Or(a: Value, b: Value): Value
  {
    if Truthy(a) then a else b
  }

  /** `a === b`; NaN equals nothing, and two objects are taken to be the same object. */
  predicate StrictEquals(a: Value, b: Value)
  {
    a == b && !a.NaN?
  }

  /** `typeof v === 'number'`. */
  predicate IsNumber(v: Value)
  {
    v.Num? || v.NaN?
  }

  /** Number(v): the result is always a number. */
  function ToNumber(v: Value): (r: Value)
    ensures IsNumber(r)
  {
    match v
    case Undefined => NaN
    case Null => Num(0)
    case Bool(b) => Num(if b then 1 else 0)
    case Num(_) => v
    case NaN => NaN
    case Str(s) =>
      (match ParseNumber(s)
       case Some(n) => Num(n)
       case None => NaN)
    case Obj => NaN
  }

  /** `a < b` when at least one side is a number: both are converted, and NaN compares false. */
  predicate Less(a: Value, b: Value)
  {
    var x, y := ToNumber(a), ToNumber(b);
    x.Num? && y.Num? && x.n < y.n
  }

  /** `a <= b` when at least one side is a number. */
  predicate LessEq(a: Value, b: Value)
  {
    var x, y := ToNumber(a), ToNumber(b);
    x.Num? && y.Num? && x.n <= y.n
  }

  /** A value whose conversion is NaN is neither below nor above anything. */
  lemma NaNIncomparable(a: Value, b: Value)
    requires ToNumber(a) == NaN
    ensures !Less(a, b) && !Less(b, a) && !LessEq(a, b) && !LessEq(b, a)
  {
  }

  /** `m || fallback` for a property that is either missing or a string. */
  function StringOr(m: Option<string>, fallback: string): string
  {
    if m.Some? && m.value != "" then m.value else fallback
  }
}
