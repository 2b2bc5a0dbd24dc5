/** The doubles of the estimator: exact reals with infinities and NaN.

Rounding, overflow and the sign of zero are not modelled; the only divisors that can be zero in
the estimator, a difference of equal times and the size of an empty batch, are positive zeros.
*/
module Numerics {

  datatype Num = Fin(value: real) | Inf(negative: bool) | NaN

  function Add(x: Num, y: Num): Num {
    match (x, y)
    case (NaN, _) => NaN
    case (_, NaN) => NaN
    case (Fin(a), Fin(b)) => Fin(a + b)
    case (Inf(s), Inf(t)) => if s == t then Inf(s) else NaN
    case (Inf(s), Fin(_)) => Inf(s)
    case (Fin(_), Inf(t)) => Inf(t)
  }

  function Mul(x: Num, y: Num): Num {
    match (x, y)
    case (NaN, _) => NaN
    case (_, NaN) => NaN
    case (Fin(a), Fin(b)) => Fin(a * b)
    case (Inf(s), Inf(t)) => Inf(s != t)
    case (Inf(s), Fin(b)) => if b == 0.0 then NaN else Inf(s != (b < 0.0))
    case (Fin(a), Inf(t)) => if a == 0.0 then NaN else Inf((a < 0.0) != t)
  }

  function Div(x: Num, y: Num): Num {
    match (x, y)
    case (NaN, _) => NaN
    case (_, NaN) => NaN
    case (Fin(a), Fin(b)) =>
      if b != 0.0 then Fin(a / b) else if a == 0.0 then NaN else Inf(a < 0.0)
    case (Inf(_), Inf(_)) => NaN
    case (Inf(s), Fin(b)) => Inf(s != (b < 0.0))
    case (Fin(_), Inf(_)) => Fin(0.0)
  }

  /** The operator < : false as soon as one side is NaN. */
  predicate Less(x: Num, y: Num) {
    match (x, y)
    case (NaN, _) => false
    case (_, NaN) => false
    case (Fin(a), Fin(b)) => a < b
    case (Inf(s), Inf(t)) => s && !t
    case (Inf(s), Fin(_)) => s
    case (Fin(_), Inf(t)) => !t
  }

  /** The library functions the estimator calls, and the largest double. */
  datatype Library = Library(pow: (real, real) -> real, gamma: real -> real, maxDouble: real)

  /** The comparison is a strict order, total on all doubles but NaN, which is comparable with nothing. */
  lemma LessOrders(x: Num, y: Num, z: Num)
    ensures !Less(x, x)
    ensures Less(x, y) && Less(y, z) ==> Less(x, z)
    ensures x.NaN? || y.NaN? ==> !Less(x, y)
    ensures !x.NaN? && !y.NaN? && x != y ==> Less(x, y) || Less(y, x)
    ensures x.Fin? ==> Less(Inf(true), x) && Less(x, Inf(false))
  {
  }

  /** Order does not matter to sums and products, NaN stays, and to divide is to multiply by the inverse. */
  lemma ArithmeticLaws(x: Num, y: Num, b: real)
    ensures Add(x, y) == Add(y, x) && Mul(x, y) == Mul(y, x)
    ensures x.NaN? ==> Add(x, y) == Mul(x, y) == Div(x, y) == Div(y, x) == NaN
    ensures b != 0.0 ==> Div(x, Fin(b)) == Mul(x, Fin(1.0 / b))
    ensures Add(Inf(false), Inf(true)) == Mul(Inf(false), Fin(0.0)) == Div(Fin(0.0), Fin(0.0)) == NaN
  {
    if b != 0.0 && x.Fin? {
      assert x.value / b == x.value * (1.0 / b);
    }
  }
}
