/**
 * The parameter checkers. Each takes a Python value and either returns
 * nothing (`Pass`) or raises. Python values are modelled by the few kinds the
 * checkers tell apart; `bool` is a subclass of `int`, so `isinstance(True,
 * int)` holds.
 */
module Checkers {
  import opened Wrappers

  /**
   * A Python value: an int, a finite float, a bool, or any value of another
   * type that cannot be ordered against a number (a string, None, a list).
   */
  datatype PyValue = PyInt(i: int) | PyFloat(x: real) | PyBool(b: bool) | PyOther

  /** Which checker raised. */
  datatype Reason = NotNonNegativeInt | NotProbability | NotBool | QTooLarge

  /** `ValueError(message naming the value)`, or the `TypeError` of comparing a non-number. */
  datatype PyError = ValueError(reason: Reason, given: PyValue) | TypeError(given: PyValue)

  datatype Outcome = Pass | Raise(error: PyError)

  /**
   * `isinstance(v, int)`: true of the ints and, since `bool` subclasses `int`,
   * of the bools; an int value is the number its integer stands for.
   */
  predicate IsInstanceInt(v: PyValue): (r: bool)
    ensures v.PyBool? ==> r
    ensures r ==> Numeric(v) == Some(AsInt(v) as real)
    ensures v.PyFloat? || v.PyOther? ==> !r
  {
    v.PyInt? || v.PyBool?
  }

  /** The number a numeric value stands for; None when it does not compare with numbers. */
  function Numeric(v: PyValue): Option<real> {
    match v
    case PyInt(i) => Some(i as real)
    case PyFloat(x) => Some(x)
    case PyBool(b) => Some(if b then 1.0 else 0.0)
    case PyOther => None
  }

  /** The integer an `int` (or `bool`) value stands for; 0 otherwise. */
  function AsInt(v: PyValue): int {
    match v
    case PyInt(i) => i
    case PyBool(b) => if b then 1 else 0
    case _ => 0
  }

  function AsReal(v: PyValue): real {
    if v.PyFloat? then v.x else 0.0
  }

  function AsBool(v: PyValue): bool {
    v.PyBool? && v.b
  }

  /** `is_positive_integer(L)`: raises unless L is an int (bools included) and L >= 0; 0 passes. */
  function IsPositiveInteger(v: PyValue): (r: Outcome)
    ensures r.Pass? <==> (v.PyInt? && v.i >= 0) || v.PyBool?
    ensures r.Raise? ==> r.error == ValueError(NotNonNegativeInt, v)
  {
    if !IsInstanceInt(v) || Numeric(v).value < 0.0 then Raise(ValueError(NotNonNegativeInt, v)) else Pass
  }

  /** `is_probability(p)`: passes exactly the floats in [0, 1]; ints, even 0 and 1, raise. */
  function IsProbability(v: PyValue): (r: Outcome)
    ensures r.Pass? <==> v.PyFloat? && 0.0 <= v.x <= 1.0
    ensures r.Raise? ==> r.error == ValueError(NotProbability, v)
  {
    if !v.PyFloat? || Numeric(v).value < 0.0 || Numeric(v).value > 1.0 then Raise(ValueError(NotProbability, v))
    else Pass
  }

  /** `is_bool(var)`: passes exactly the bools. */
  function IsBool(v: PyValue): (r: Outcome)
    ensures r.Pass? <==> v.PyBool?
    ensures r.Raise? ==> r.error == ValueError(NotBool, v)
  {
    if !v.PyBool? then Raise(ValueError(NotBool, v)) else Pass
  }

  /**
   * `is_proper_q(q)`: `q > 4 and not isinstance(q, int)`. Every int passes,
   * whatever its value; a float passes when it is at most 4 and raises the
   * `ValueError` naming q when it is above; a value that does not compare with
   * 4 raises `TypeError` at `q > 4`.
   */
  function IsProperQ(v: PyValue): (r: Outcome)
    ensures r.Pass? <==> IsInstanceInt(v) || (v.PyFloat? && v.x <= 4.0)
    ensures r == Raise(TypeError(v)) <==> v.PyOther?
    ensures v.PyFloat? && v.x > 4.0 ==> r == Raise(ValueError(QTooLarge, v))
  {
    match Numeric(v)
    case None => Raise(TypeError(v))
    case Some(x) => if x > 4.0 && !IsInstanceInt(v) then Raise(ValueError(QTooLarge, v)) else Pass
  }

  /** Run `first`, and `next` only if it passed: the first raise ends validation. */
  function Then(first: Outcome, next: Outcome): (r: Outcome)
    ensures r.Pass? <==> first.Pass? && next.Pass?
    ensures first.Raise? ==> r == first
    ensures first.Pass? ==> r == next
  {
    if first.Raise? then first else next
  }
}
