/** Floating-point values as the engine meets them: exact reals, the two infinities and
    NaN. Rounding, overflow and the sign of zero are left out. */
module Float {
  datatype F = NaN | PosInf | NegInf | Fin(r: real)

  predicate Finite(a: F) { a.Fin? }

  /** a < b; false as soon as either is NaN. */
  predicate Lt(a: F, b: F)
  {
    match (a, b)
    case (Fin(x), Fin(y)) => x < y
    case (NegInf, Fin(_)) => true
    case (NegInf, PosInf) => true
    case (Fin(_), PosInf) => true
    case _ => false
  }

  predicate Le(a: F, b: F)
  {
    Lt(a, b) || (a == b && !a.NaN?)
  }

  predicate Gt(a: F, b: F) { Lt(b, a) }

  predicate Ge(a: F, b: F) { Le(b, a) }

  function Neg(a: F): F
  {
    match a
    case NaN => NaN
    case PosInf => NegInf
    case NegInf => PosInf
    case Fin(x) => Fin(-x)
  }

  function Add(a: F, b: F): F
  {
    match (a, b)
    case (Fin(x), Fin(y)) => Fin(x + y)
    case (NaN, _) => NaN
    case (_, NaN) => NaN
    case (Fin(_), _) => b
    case (_, Fin(_)) => a
    case _ => if a == b then a else NaN
  }

  function Sub(a: F, b: F): F { Add(a, Neg(b)) }

  /** A product with a finite factor. */
  function Scale(a: F, k: real): F
  {
    match a
    case Fin(x) => Fin(x * k)
    case NaN => NaN
    case _ => if k == 0.0 then NaN else if k > 0.0 then a else Neg(a)
  }

  function Max(a: F, b: F): F { if Lt(a, b) then b else a }
}
