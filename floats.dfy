/**
 * Double-precision samples as numpy sees them: a finite value, one of the two
 * infinities, or NaN.  Rounding is not modelled; only the classification that
 * the masking code relies on (comparisons with NaN are false, `!=` with NaN is
 * true, `isinf(NaN)` is false) is.
 */
module Floats {

  datatype Ext = Fin(v: real) | PosInf | NegInf | NaN

  /** The large finite marker written into the log-rebinned arrays (`bad = 1e99`). */
  const Bad: Ext := Fin(1.0e99)

  /** `np.isfinite` */
  predicate IsFinite(x: Ext) { x.Fin? }

  /** `np.isinf` (false for NaN) */
  predicate IsInf(x: Ext) { x.PosInf? || x.NegInf? }

  /** `x == 0.` (false for NaN) */
  predicate EqZero(x: Ext) { x.Fin? && x.v == 0.0 }

  /** `x != 0.` (true for NaN) */
  predicate NeZero(x: Ext) { !EqZero(x) }

  /** `x > 0.` */
  predicate GtZero(x: Ext) { (x.Fin? && x.v > 0.0) || x.PosInf? }

  /** `x <= 0.` */
  predicate LeZero(x: Ext) { (x.Fin? && x.v <= 0.0) || x.NegInf? }

  /** `x < 0.` */
  predicate LtZero(x: Ext) { (x.Fin? && x.v < 0.0) || x.NegInf? }

  /** `1. / x**2`, the inverse variance of an error sample. */
  function InvSquare(e: Ext): (r: Ext)
    ensures e.NaN? <==> r.NaN?
    ensures EqZero(e) <==> r.PosInf?
    ensures IsInf(e) ==> r == Fin(0.0)
    ensures IsFinite(e) && !EqZero(e) ==> r.Fin? && r.v > 0.0
  {
    match e
    case NaN => NaN
    case PosInf => Fin(0.0)
    case NegInf => Fin(0.0)
    case Fin(x) => if x == 0.0 then PosInf else Fin(1.0 / (x * x))
  }

  /** Sign of a nonzero real as an infinity. */
  function SignedInf(positive: bool): Ext {
    if positive then PosInf else NegInf
  }

  /** IEEE division `a / b` (signed zeros are not distinguished). */
  function Div(a: Ext, b: Ext): (r: Ext)
    ensures a.NaN? || b.NaN? ==> r.NaN?
    ensures a.Fin? && b.Fin? && b.v != 0.0 ==> r == Fin(a.v / b.v)
    ensures EqZero(a) && EqZero(b) ==> r.NaN?
    ensures IsInf(a) && IsInf(b) ==> r.NaN?
  {
    match (a, b)
    case (NaN, _) => NaN
    case (_, NaN) => NaN
    case (Fin(x), Fin(y)) =>
      if y != 0.0 then Fin(x / y)
      else if x == 0.0 then NaN
      else SignedInf(x > 0.0)
    case (Fin(_), _) => Fin(0.0)
    case (PosInf, Fin(y)) => SignedInf(y >= 0.0)
    case (NegInf, Fin(y)) => SignedInf(y < 0.0)
    case (_, _) => NaN
  }

  /** `-x` */
  function Negate(a: Ext): Ext {
    match a
    case Fin(x) => Fin(-x)
    case PosInf => NegInf
    case NegInf => PosInf
    case NaN => NaN
  }

  /** IEEE addition `a + b`. */
  function Add(a: Ext, b: Ext): (r: Ext)
    ensures a.NaN? || b.NaN? ==> r.NaN?
    ensures a.Fin? && b.Fin? ==> r == Fin(a.v + b.v)
    ensures (a.PosInf? && b.NegInf?) || (a.NegInf? && b.PosInf?) ==> r.NaN?
  {
    match (a, b)
    case (NaN, _) => NaN
    case (_, NaN) => NaN
    case (Fin(x), Fin(y)) => Fin(x + y)
    case (PosInf, NegInf) => NaN
    case (NegInf, PosInf) => NaN
    case (PosInf, _) => PosInf
    case (NegInf, _) => NegInf
    case (_, PosInf) => PosInf
    case (_, NegInf) => NegInf
  }

  /** IEEE subtraction `a - b`. */
  function Sub(a: Ext, b: Ext): (r: Ext)
    ensures a.NaN? || b.NaN? ==> r.NaN?
    ensures a.Fin? && b.Fin? ==> r == Fin(a.v - b.v)
  {
    Add(a, Negate(b))
  }

  /** IEEE multiplication `a * b`. */
  function Mul(a: Ext, b: Ext): (r: Ext)
    ensures a.NaN? || b.NaN? ==> r.NaN?
    ensures a.Fin? && b.Fin? ==> r == Fin(a.v * b.v)
    ensures (IsInf(a) && EqZero(b)) || (EqZero(a) && IsInf(b)) ==> r.NaN?
  {
    match (a, b)
    case (NaN, _) => NaN
    case (_, NaN) => NaN
    case (Fin(_), Fin(_)) => Fin(a.v * b.v)
    case (Fin(x), _) => if x == 0.0 then NaN else SignedInf((x > 0.0) == b.PosInf?)
    case (_, Fin(y)) => if y == 0.0 then NaN else SignedInf((y > 0.0) == a.PosInf?)
    case (_, _) => SignedInf(a.PosInf? == b.PosInf?)
  }

  /** `1. / x` for a finite table value: division by zero gives `inf`. */
  function Recip(x: real): (r: Ext)
    ensures x != 0.0 ==> r == Fin(1.0 / x)
    ensures x == 0.0 ==> r == PosInf
  {
    if x == 0.0 then PosInf else Fin(1.0 / x)
  }
}
